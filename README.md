# Six-day forecast comparison: the normalisation core

The page `vaer-6dager` shows a six-day forecast for a city from two
sources side by side: MET Norway (Yr.no) and Open-Meteo. Both answers are
normalised into one daily shape. Each day has a date, a minimum and a maximum
temperature, a precipitation total, a Norwegian description and a MET-style
symbol key, and the page picks its icon from that key.

This project models that normalisation in Dafny and proves what it does:

- `weather_codes.dfy` (module `WeatherCodes`) covers the code mappers:
  - the case-insensitive first-match keyword rules that turn a MET symbol
    code into an icon and a description, written as the source's if-chains,
    with the rules also listed in order (`IconRules`, `DescriptionRules`);
    `mapper_rules.dfy` (module `MapperRules`) proves each if-chain equal to
    first-match over its rule list;
  - the Open-Meteo WMO-code description table;
  - the many-to-one bridge from WMO codes to MET symbol keys.
- `text.dfy` (module `Text`) holds ASCII lowercasing and substring
  containment.
- `yr_aggregation.dfy` (module `YrAggregation`) covers MET's hourly series:
  - precipitation is chosen per point by forecast horizon: 1 hour, then
    6 hours on 6-hour UTC boundaries, then 12 hours on 12-hour boundaries;
  - the symbol code is the first non-empty horizon code;
  - points are grouped into an insertion-ordered map by local date.
  `AggregateDaily` is an imperative loop proved against the specification
  function `YrDays`, and lemmas about `YrDays` give its properties:
  - at most six days;
  - distinct dates, in first-occurrence order;
  - min ≤ max, with both bounds attained;
  - description and symbol key from the day's first point;
  - the first point's precipitation left out of the total.
- `open_meteo_days.dfy` (module `OpenMeteoDays`) zips Open-Meteo's parallel
  daily arrays into at most six day records.
- `comparison.dfy` (module `Comparison`) is the last step of the page
  load. Once both requests have settled, it counts the sources that
  answered, chooses each table's rows or placeholder, and picks one of three
  status lines.
- `daily.dfy` (module `Daily`) holds the shared day record.
- `options.dfy` (module `Options`) holds the `Option` type.

The local date key of a point comes from `Intl.DateTimeFormat` in the
Europe/Oslo time zone, and its UTC hour from `getUTCHours`. The model takes
both as fields of each point. The time of the "updated" status line is a
parameter.

Two behaviours of the code differ from a naive reading of "sum
precipitation per day". The model follows the code and proves both:

- The first point of a day opens the day with precipitation 0, and the loop
  then `continue`s. So that point's own amount never enters the total
  (`FirstPointPrecipitationSkipped`).
- Every code containing `partlycloudy` also contains `cloudy`, which is tested first. So
  the "partly cloudy" icon and the description "Delvis skyet" can never be
  produced by the MET mappers (`PartlyCloudyUnreachable`). An Open-Meteo code 2
  day still gets "Delvis skyet" from the WMO table, but it shows the plain cloud icon
  (`PartlyCloudyCode`).

## Model

| member | source | states |
|---|---|---|
| MapperRules.FirstRuleDecides | assets/js/vaer-6dager.js:62-111 | In an ordered keyword rule list, the first rule whose keyword the code contains decides the result. |
| MapperRules.NoRuleDefault | assets/js/vaer-6dager.js:62-111 | When the code contains no keyword of the rule list, the default is the result. |
| MapperRules.IconRulesInOrder | assets/js/vaer-6dager.js:62-73 | The if-chain `IconFromSymbol` equals first-match over the nine icon rules `IconRules` in source order, with the thermometer as default. |
| MapperRules.DescriptionRulesInOrder | assets/js/vaer-6dager.js:97-111 | The if-chain `YrDescription` equals first-match over the eleven description rules `DescriptionRules` in source order, with "Ukjent" as default. |
| MapperRules.IconFirstMatchingRule | assets/js/vaer-6dager.js:62-73 | When rule k's keyword occurs in the lower-cased code and no earlier rule's does, `IconFromSymbol` returns rule k's icon. Examples: sleet gives the snow cloud, fog the fog icon, clearsky or fair the sun. |
| MapperRules.DescriptionFirstMatchingRule | assets/js/vaer-6dager.js:97-111 | When rule k's keyword occurs in the lower-cased code and no earlier rule's does, `YrDescription` returns rule k's text. Examples: sleet gives "Sludd", fog "Tåke", cloudy "Overskyet", clearsky "Klarvær", fair "Lettskyet". |
| WeatherCodes.IconDefaultExactlyWhenUnmatched | assets/js/vaer-6dager.js:62-73 | The thermometer icon is chosen exactly when the lower-cased code contains none of the keywords of `IconRules`. |
| WeatherCodes.DescriptionIsRuleText | assets/js/vaer-6dager.js:97-111 | The MET description is always one of the eleven rule texts or "Ukjent". |
| WeatherCodes.DescriptionDefaultExactlyWhenUnmatched | assets/js/vaer-6dager.js:97-111 | The description is "Ukjent" exactly when the lower-cased code contains none of the keywords of `DescriptionRules`. |
| WeatherCodes.ThunderTakesPrecedence | assets/js/vaer-6dager.js:62-111 | A code containing "thunder" gives the storm cloud and "Tordenvær", whatever else it contains. |
| WeatherCodes.HeavySnowBeforeSnow | assets/js/vaer-6dager.js:62-111 | Without thunder, "heavysnow" gives "Kraftig snø" and any other snow gives "Snø"; both show the snowflake. |
| WeatherCodes.HeavyRainBeforeRain | assets/js/vaer-6dager.js:62-111 | Without thunder, snow or sleet, "heavyrain" gives "Kraftig regn" and any other rain gives "Regn"; both show the rain cloud. |
| WeatherCodes.NoSnowNoHeavySnow | assets/js/vaer-6dager.js:100-101 | A code without "snow" cannot contain "heavysnow". |
| WeatherCodes.PartlyCloudyIsCloudy | assets/js/vaer-6dager.js:69-70 | Every code containing "partlycloudy" contains "cloudy". |
| WeatherCodes.PartlyCloudyUnreachable | assets/js/vaer-6dager.js:62-111 | No code yields the sun-behind-cloud icon, and none yields the description "Delvis skyet". |
| WeatherCodes.PartlyCloudyReadsAsCloudy | assets/js/vaer-6dager.js:62-111 | A partly cloudy code with no precipitation or fog keyword shows the cloud and reads "Overskyet". |
| WeatherCodes.MissingCodeDefaults | assets/js/vaer-6dager.js:62-111 | A missing or empty code gives the thermometer and "Ukjent". |
| WeatherCodes.MappersIgnoreCase | assets/js/vaer-6dager.js:62-111 | Both mappers give the same result for a code and for its lower-cased form. |
| WeatherCodes.OpenMeteoDescription | assets/js/vaer-6dager.js:9-38 | A listed WMO code gets its table text. The result is "Ukjent" exactly for codes outside the table, and is never empty. |
| WeatherCodes.WmoToSymbol | assets/js/vaer-6dager.js:75-95 | The bridge is total, and every result is one of its seventeen MET keys. The result is "cloudy" exactly for code 3 and for codes outside the table. |
| WeatherCodes.BridgeKeyword | assets/js/vaer-6dager.js:75-95 | Each bridge key is lower case and contains, at a given position, a keyword that both mappers test. |
| WeatherCodes.RecognisedSymbol | assets/js/vaer-6dager.js:62-111 | A lower-case code containing a keyword that both mappers test gets neither the thermometer nor "Ukjent". |
| WeatherCodes.BridgeSymbolsRecognised | assets/js/vaer-6dager.js:62-111 | For every WMO code, the bridged key gets a real icon and a real description from the MET mappers. |
| WeatherCodes.ThunderstormCode | assets/js/vaer-6dager.js:62-111 | WMO code 95 maps to "thunderstorm", which reads as "Tordenvær" with the storm cloud. |
| WeatherCodes.ThunderWithHailCodes | assets/js/vaer-6dager.js:62-111 | WMO codes 96 and 99 map to "heavysleetandthunder", which reads as "Tordenvær" with the storm cloud. |
| WeatherCodes.ClearSkyCode | assets/js/vaer-6dager.js:9-111 | WMO code 0 is "Klar", maps to "clearsky_day" and shows the sun. |
| WeatherCodes.LightRainCode | assets/js/vaer-6dager.js:9-111 | WMO code 61 is "Lett regn", maps to "lightrain" and shows the rain cloud. |
| WeatherCodes.PartlyCloudyCode | assets/js/vaer-6dager.js:9-111 | WMO code 2 is "Delvis skyet" in the table, maps to "partlycloudy_day", and shows the plain cloud. |
| WeatherCodes.UnlistedCode | assets/js/vaer-6dager.js:9-111 | An unlisted code (999) is "Ukjent" and falls back to the "cloudy" key and the cloud icon. |
| YrAggregation.PrecipitationPrecedence | assets/js/vaer-6dager.js:133-140 | For `SelectPrecipitation`: the 1h amount wins at any hour. Off 6-hour boundaries only the 1h amount counts. At 00 and 12 UTC with no 1h amount, a present 6h amount is used, and otherwise the 12h amount (or 0). At 06 and 18 UTC the 12h amount is never used. Any non-zero amount comes from a horizon at its boundary. With no amounts the result is 0. |
| YrAggregation.SymbolPrecedence | assets/js/vaer-6dager.js:142-146 | For `SelectSymbol`: the 1h code is preferred, then 6h, then 12h, and an empty code counts as missing. The result is empty exactly when no horizon has a code; otherwise it is one of the point's codes. |
| YrAggregation.DateKeysDistinctAndComplete | assets/js/vaer-6dager.js:149-158 | The map's keys are pairwise distinct, number at most the points, and are exactly the dates the points fall on. |
| YrAggregation.DateKeysInFirstOccurrenceOrder | assets/js/vaer-6dager.js:149-158 | Wherever a point of a later key lies, a point of every earlier key lies before it. |
| YrAggregation.DayPointsExactly | assets/js/vaer-6dager.js:125-164 | A day's points are exactly the series points with that date. |
| YrAggregation.TemperatureExtremes | assets/js/vaer-6dager.js:152-163 | The running Math.min and Math.max are the least and the greatest temperature of the points, and both are attained. |
| YrAggregation.DayTemperatureRange | assets/js/vaer-6dager.js:149-164 | A day's min is at most its max, bounds every point of that date, and is attained by one of them; the same holds for the max. |
| YrAggregation.DayFromFirstPoint | assets/js/vaer-6dager.js:149-164 | The description and symbol key of a day ("cloudy" when its symbol is empty) come from its first point. Its precipitation is the total of the later points of that date. |
| YrAggregation.FirstPointPrecipitationSkipped | assets/js/vaer-6dager.js:149-164 | A day's reported precipitation is the sum over all its points minus the first point's own amount. |
| YrAggregation.DayPrecipitationNonNegative | assets/js/vaer-6dager.js:133-164 | When no amount in the series is negative, no day's precipitation total is negative. |
| YrAggregation.FirstPointOpensDay | assets/js/vaer-6dager.js:149-158 | The first point of a date opens its day with its own temperature as both min and max, precipitation 0, the description of its symbol, and the symbol or "cloudy". |
| YrAggregation.LaterPointExtendsDay | assets/js/vaer-6dager.js:161-164 | A later point of a date widens the min/max by its temperature, adds its selected amount, and leaves the description and symbol key alone. |
| YrAggregation.OtherDayUnchanged | assets/js/vaer-6dager.js:161-164 | A point changes no other day's summary. |
| YrAggregation.YrDaysDistinctDates | assets/js/vaer-6dager.js:122-167 | There are at most six days and at most one per point. Their dates are distinct and each is a date of the series. When the series spans at most six dates, every one has its day. |
| YrAggregation.YrDaysInFirstOccurrenceOrder | assets/js/vaer-6dager.js:122-167 | The days come in the order their dates first occur in the series. |
| YrAggregation.FirstSixDatesKept | assets/js/vaer-6dager.js:122-167 | The cut to six keeps the first six dates in encounter order: a point whose date got no day means there are exactly six days, and a point of each of their dates comes before it. |
| YrAggregation.YrDaysDatesIncrease | assets/js/vaer-6dager.js:122-167 | For a chronological series (a rank of the dates that tells them apart and never decreases along the series), the days' dates strictly increase. |
| YrAggregation.YrDaysRange | assets/js/vaer-6dager.js:149-167 | Every day's min is at most its max. |
| YrAggregation.AggregateDaily | assets/js/vaer-6dager.js:122-168 | The loop over the series, with its insertion-ordered map and its in-place updates of min, max and precipitation, returns exactly the first six per-date summaries `YrDays(series)`. |
| OpenMeteoDays.MapOpenMeteoDays | assets/js/vaer-6dager.js:170-183 | There are min(listed days, 6) entries. Entry i carries time[i] and index i's min, max and precipitation, its code's table description or "Ukjent", and its code's bridged MET key. |
| OpenMeteoDays.OpenMeteoDaysRecognised | assets/js/vaer-6dager.js:170-183 | An Open-Meteo day never shows the thermometer. Its description is "Ukjent" exactly when its code is not in the table. |
| OpenMeteoDays.LaterDaysIgnored | assets/js/vaer-6dager.js:182 | Cutting the date list to k entries gives the first min(k, 6) days. Days past the sixth change nothing. |
| Comparison.FulfilledCountBounds | assets/js/vaer-6dager.js:250-264 | `FulfilledCount`, the count of fulfilled outcomes is at most their number. It equals their number exactly when none was rejected, and is 0 exactly when none was fulfilled. |
| Comparison.ReportComparison | assets/js/vaer-6dager.js:250-272 | okCount is the number of fulfilled outcomes. Each table follows its own source: a delivered source shows its own days, a failed one its own "Kunne ikke hente data" placeholder. Both fulfilled gives a non-error "Sist oppdatert: " status with the time; exactly one gives the "Kun én kilde" error; none gives the "Ingen av kildene" error. The status is an error exactly when some source failed. |

## Left out

- `assets/js/weather.js` is not part of this model. It is a geocode-then-fetch page with its own inline formatting.
- The HTTP requests (`fetchYrDaily`, `fetchOpenMeteoDaily`) and `Promise.allSettled` are not modelled. The join starts from the pair of settled outcomes, and a rejection's reason is kept but not used, as in the source.
- DOM work is not modelled: `renderRows`, `setStatus`, `updateTitles`, `clearTables`, the element lookups, the event listeners and the initial "Henter værdata" status. A table is modelled as the rows or the placeholder message it shows.
- `getLocalDateKey` and `getUTCHours` (Intl, Europe/Oslo time zone) are inputs on each point. `formatDate` and the `toLocaleString` time of the status line are left out; the time is a string parameter.
- Numbers are exact reals. `Math.round`, `toFixed`, IEEE rounding of the sums, and `NaN`/`undefined` temperatures are not modelled.
- Icons are an enumeration. The emoji strings are not modelled; the source file's text is mis-encoded UTF-8, and the model uses the intended Norwegian letters in every string.
- `toLowerCase` is modelled on ASCII letters only. Case folding of other characters, such as the Kelvin sign, is not modelled; every symbol key in use is ASCII.
- WeatherCodes.WmoToSymbol: codes are integers, so a `null` or non-numeric `weather_code` entry is not modelled.
- OpenMeteoDays.MapOpenMeteoDays: requires every array to cover the first min(|time|, 6) days. With shorter arrays the source would build records holding `undefined`, which the day record cannot hold.
- YrAggregation.AggregateDaily: a point with no `instant.details` (a crash in the source) is not modelled; every point carries a temperature.
- YrAggregation.YrDaysDatesIncrease: the dates of the MET days are proved increasing only for a chronological series; the code assumes that order of its input but never checks it, so for any other series only distinctness and first-occurrence order are promised.
