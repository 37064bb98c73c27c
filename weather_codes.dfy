/**
 * The code mappers of the forecast comparison page: MET symbol codes to an
 * icon and a Norwegian description by ordered keyword rules, WMO numeric
 * codes to a description by table lookup, and the bridge from WMO codes to
 * MET symbol keys that lets one icon routine serve both sources.
 */
module WeatherCodes {
  import opened Options
  import opened Text

  /** The icons the page shows, one per emoji of the source. */
  datatype Icon =
    | ThunderCloud    // cloud with lightning and rain
    | Snowflake
    | CloudWithSnow
    | CloudWithRain
    | Fog
    | Cloud
    | SunBehindCloud
    | Sun
    | Thermometer     // the fallback for an unrecognised code

  /** `(symbolCode || "").toLowerCase()`: a missing code reads as the empty string. */
  function SymbolText(symbolCode: Option<string>): string {
    Lower(symbolCode.GetOr(""))
  }

  /**
   * The icon rules in the order they are tested: a keyword and the icon it
   * selects. The source tests "clearsky" and "fair" in one rule; two
   * consecutive rules with the same icon pick the same result.
   */
  const IconRules: seq<(string, Icon)> :=
    [("thunder", ThunderCloud), ("snow", Snowflake), ("sleet", CloudWithSnow), ("rain", CloudWithRain),
     ("fog", Fog), ("cloudy", Cloud), ("partlycloudy", SunBehindCloud), ("clearsky", Sun), ("fair", Sun)]

  /** The description rules in the order they are tested: a keyword and the text it selects. */
  const DescriptionRules: seq<(string, string)> :=
    [("thunder", "Tordenvær"), ("heavysnow", "Kraftig snø"), ("snow", "Snø"), ("sleet", "Sludd"),
     ("heavyrain", "Kraftig regn"), ("rain", "Regn"), ("fog", "Tåke"), ("cloudy", "Overskyet"),
     ("partlycloudy", "Delvis skyet"), ("clearsky", "Klarvær"), ("fair", "Lettskyet")]

  /** The keywords of a rule list, in rule order. */
  function Keywords<T>(rules: seq<(string, T)>): (keywords: seq<string>)
    ensures |keywords| == |rules| && forall i :: 0 <= i < |rules| ==> keywords[i] == rules[i].0
  {
    seq(|rules|, i requires 0 <= i < |rules| => rules[i].0)
  }

  /** The keywords the icon rules test, in rule order. */
  const IconKeywords: seq<string> := Keywords(IconRules)

  /** The keywords the description rules test, in rule order. */
  const DescriptionKeywords: seq<string> := Keywords(DescriptionRules)

  /** `code` contains none of `keywords`. */
  predicate MatchesNone(code: string, keywords: seq<string>) {
    forall i :: 0 <= i < |keywords| ==> !Contains(code, keywords[i])
  }

  /**
   * Icon for a MET symbol code: the first rule, in the listed order, whose
   * keyword the lower-cased code contains; the thermometer when none does.
   */
  function IconFromSymbol(symbolCode: Option<string>): Icon {
    var code := SymbolText(symbolCode);
    if Contains(code, "thunder") then ThunderCloud
    else if Contains(code, "snow") then Snowflake
    else if Contains(code, "sleet") then CloudWithSnow
    else if Contains(code, "rain") then CloudWithRain
    else if Contains(code, "fog") then Fog
    else if Contains(code, "cloudy") then Cloud
    else if Contains(code, "partlycloudy") then SunBehindCloud
    else if Contains(code, "clearsky") || Contains(code, "fair") then Sun
    else Thermometer
  }

  /** Every text the description rules can produce. */
  const DescriptionTexts: set<string> :=
    {"Tordenvær", "Kraftig snø", "Snø", "Sludd", "Kraftig regn", "Regn", "Tåke",
     "Overskyet", "Delvis skyet", "Klarvær", "Lettskyet", "Ukjent"}

  /**
   * Norwegian description of a MET symbol code: first matching keyword rule
   * in the listed order, "Ukjent" when none matches.
   */
  function YrDescription(symbolCode: Option<string>): string {
    var code := SymbolText(symbolCode);
    if Contains(code, "thunder") then "Tordenvær"
    else if Contains(code, "heavysnow") then "Kraftig snø"
    else if Contains(code, "snow") then "Snø"
    else if Contains(code, "sleet") then "Sludd"
    else if Contains(code, "heavyrain") then "Kraftig regn"
    else if Contains(code, "rain") then "Regn"
    else if Contains(code, "fog") then "Tåke"
    else if Contains(code, "cloudy") then "Overskyet"
    else if Contains(code, "partlycloudy") then "Delvis skyet"
    else if Contains(code, "clearsky") then "Klarvær"
    else if Contains(code, "fair") then "Lettskyet"
    else "Ukjent"
  }

  /** The table of WMO weather codes Open-Meteo reports, with their descriptions. */
  const OpenMeteoDescriptions: map<int, string> := map[
    0 := "Klar",
    1 := "For det meste klart",
    2 := "Delvis skyet",
    3 := "Overskyet",
    45 := "Tåke",
    48 := "Rimtåke",
    51 := "Lett yr",
    53 := "Moderat yr",
    55 := "Kraftig yr",
    56 := "Frysende yr",
    57 := "Kraftig frysende yr",
    61 := "Lett regn",
    63 := "Regn",
    65 := "Kraftig regn",
    66 := "Underkjølt regn",
    67 := "Kraftig underkjølt regn",
    71 := "Lett snø",
    73 := "Snø",
    75 := "Kraftig snø",
    77 := "Snøkorn",
    80 := "Lette regnbyger",
    81 := "Regnbyger",
    82 := "Kraftige regnbyger",
    85 := "Lette snøbyger",
    86 := "Kraftige snøbyger",
    95 := "Tordenvær",
    96 := "Tordenvær med hagl",
    99 := "Kraftig tordenvær med hagl"
  ]

  /** `openMeteoDescriptions[code] || "Ukjent"`. */
  function OpenMeteoDescription(code: int): (r: string)
    ensures code in OpenMeteoDescriptions ==> r == OpenMeteoDescriptions[code]
    ensures r == "Ukjent" <==> code !in OpenMeteoDescriptions
    ensures r != ""
  {
    if code in OpenMeteoDescriptions && OpenMeteoDescriptions[code] != "" then OpenMeteoDescriptions[code]
    else "Ukjent"
  }

  /** Every MET symbol key the WMO bridge can produce. */
  const BridgeSymbols: set<string> :=
    {"clearsky_day", "fair_day", "partlycloudy_day", "cloudy", "fog", "lightrain", "sleet",
     "rain", "heavyrain", "lightsnow", "snow", "heavysnow", "rainshowers_day",
     "heavyrainshowers_day", "snowshowers_day", "thunderstorm", "heavysleetandthunder"}

  /**
   * The bridge from a WMO weather code to a MET symbol key: total and
   * many-to-one; a code the table does not list reads as "cloudy".
   */
  function WmoToSymbol(code: int): (r: string)
    ensures r in BridgeSymbols
    ensures r == "cloudy" <==> code == 3 || code !in OpenMeteoDescriptions
  {
    if code == 0 then "clearsky_day"
    else if code == 1 then "fair_day"
    else if code == 2 then "partlycloudy_day"
    else if code == 3 then "cloudy"
    else if code == 45 || code == 48 then "fog"
    else if code == 51 || code == 53 || code == 55 then "lightrain"
    else if code == 56 || code == 57 then "sleet"
    else if code == 61 then "lightrain"
    else if code == 63 then "rain"
    else if code == 65 || code == 66 || code == 67 then "heavyrain"
    else if code == 71 then "lightsnow"
    else if code == 73 || code == 77 then "snow"
    else if code == 75 then "heavysnow"
    else if code == 80 then "rainshowers_day"
    else if code == 81 || code == 82 then "heavyrainshowers_day"
    else if code == 85 || code == 86 then "snowshowers_day"
    else if code == 95 then "thunderstorm"
    else if code == 96 || code == 99 then "heavysleetandthunder"
    else "cloudy"
  }

  // ---------------------------------------------------------------------
  // Properties of the rule order

  /** The thermometer is shown exactly when the code contains none of the icon keywords. */
  lemma IconDefaultExactlyWhenUnmatched(symbolCode: Option<string>)
    ensures IconFromSymbol(symbolCode) == Thermometer <==> MatchesNone(SymbolText(symbolCode), IconKeywords)
  {
    var code := SymbolText(symbolCode);
    var keywords := IconKeywords;
    if IconFromSymbol(symbolCode) == Thermometer {
      forall i | 0 <= i < |keywords| ensures !Contains(code, keywords[i]) {
      }
    } else {
      assert Contains(code, keywords[0]) || Contains(code, keywords[1]) || Contains(code, keywords[2])
          || Contains(code, keywords[3]) || Contains(code, keywords[4]) || Contains(code, keywords[5])
          || Contains(code, keywords[6]) || Contains(code, keywords[7]) || Contains(code, keywords[8]);
    }
  }

  /** The description is always one of the rule texts. */
  lemma DescriptionIsRuleText(symbolCode: Option<string>)
    ensures YrDescription(symbolCode) in DescriptionTexts
  {
  }

  /** The description is "Ukjent" exactly when the code contains none of the description keywords. */
  lemma DescriptionDefaultExactlyWhenUnmatched(symbolCode: Option<string>)
    ensures YrDescription(symbolCode) == "Ukjent" <==> MatchesNone(SymbolText(symbolCode), DescriptionKeywords)
  {
    var code := SymbolText(symbolCode);
    var keywords := DescriptionKeywords;
    if YrDescription(symbolCode) == "Ukjent" {
      forall i | 0 <= i < |keywords| ensures !Contains(code, keywords[i]) {
      }
    } else {
      assert Contains(code, keywords[0]) || Contains(code, keywords[1]) || Contains(code, keywords[2])
          || Contains(code, keywords[3]) || Contains(code, keywords[4]) || Contains(code, keywords[5])
          || Contains(code, keywords[6]) || Contains(code, keywords[7]) || Contains(code, keywords[8])
          || Contains(code, keywords[9]) || Contains(code, keywords[10]);
    }
  }

  /** "thunder" is tested first, so it beats every other keyword in both mappers. */
  lemma ThunderTakesPrecedence(symbolCode: Option<string>)
    requires Contains(SymbolText(symbolCode), "thunder")
    ensures IconFromSymbol(symbolCode) == ThunderCloud
    ensures YrDescription(symbolCode) == "Tordenvær"
  {
  }

  /**
   * Without thunder, "heavysnow" reads as "Kraftig snø" (it is tested before
   * "snow") and any other snow as "Snø"; both show the snowflake.
   */
  lemma HeavySnowBeforeSnow(symbolCode: Option<string>)
    requires !Contains(SymbolText(symbolCode), "thunder")
    ensures Contains(SymbolText(symbolCode), "heavysnow") ==>
              YrDescription(symbolCode) == "Kraftig snø" && IconFromSymbol(symbolCode) == Snowflake
    ensures Contains(SymbolText(symbolCode), "snow") && !Contains(SymbolText(symbolCode), "heavysnow") ==>
              YrDescription(symbolCode) == "Snø" && IconFromSymbol(symbolCode) == Snowflake
  {
    var code := SymbolText(symbolCode);
    if Contains(code, "heavysnow") {
      assert OccursAt("heavysnow", "snow", 5);
      ContainsTransitive(code, "heavysnow", "snow");
    }
  }

  /**
   * Without thunder, snow or sleet, "heavyrain" reads as "Kraftig regn" (it
   * is tested before "rain") and any other rain as "Regn"; both show the rain cloud.
   */
  lemma HeavyRainBeforeRain(symbolCode: Option<string>)
    requires !Contains(SymbolText(symbolCode), "thunder")
    requires !Contains(SymbolText(symbolCode), "snow") && !Contains(SymbolText(symbolCode), "sleet")
    ensures Contains(SymbolText(symbolCode), "heavyrain") ==>
              YrDescription(symbolCode) == "Kraftig regn" && IconFromSymbol(symbolCode) == CloudWithRain
    ensures Contains(SymbolText(symbolCode), "rain") && !Contains(SymbolText(symbolCode), "heavyrain") ==>
              YrDescription(symbolCode) == "Regn" && IconFromSymbol(symbolCode) == CloudWithRain
  {
    var code := SymbolText(symbolCode);
    NoSnowNoHeavySnow(code);
    if Contains(code, "heavyrain") {
      assert OccursAt("heavyrain", "rain", 5);
      ContainsTransitive(code, "heavyrain", "rain");
    }
  }

  /** "heavysnow" contains "snow", so a code without "snow" has no "heavysnow" either. */
  lemma NoSnowNoHeavySnow(code: string)
    requires !Contains(code, "snow")
    ensures !Contains(code, "heavysnow")
  {
    if Contains(code, "heavysnow") {
      assert OccursAt("heavysnow", "snow", 5);
      ContainsTransitive(code, "heavysnow", "snow");
    }
  }

  /** Every code that contains "partlycloudy" also contains "cloudy". */
  lemma PartlyCloudyIsCloudy(code: string)
    requires Contains(code, "partlycloudy")
    ensures Contains(code, "cloudy")
  {
    assert OccursAt("partlycloudy", "cloudy", 6);
    ContainsTransitive(code, "partlycloudy", "cloudy");
  }

  /**
   * The "partlycloudy" rules come after the "cloudy" rules and can never
   * fire: no code yields the sun-behind-cloud icon or "Delvis skyet".
   */
  lemma PartlyCloudyUnreachable(symbolCode: Option<string>)
    ensures IconFromSymbol(symbolCode) != SunBehindCloud
    ensures YrDescription(symbolCode) != "Delvis skyet"
  {
    var code := SymbolText(symbolCode);
    if Contains(code, "partlycloudy") {
      PartlyCloudyIsCloudy(code);
    }
  }

  /** A partly cloudy code without precipitation or fog reads as plain cloudy. */
  lemma PartlyCloudyReadsAsCloudy(symbolCode: Option<string>)
    requires Contains(SymbolText(symbolCode), "partlycloudy")
    requires MatchesNone(SymbolText(symbolCode), ["thunder", "snow", "sleet", "rain", "fog"])
    ensures IconFromSymbol(symbolCode) == Cloud
    ensures YrDescription(symbolCode) == "Overskyet"
  {
    var code := SymbolText(symbolCode);
    var absent := ["thunder", "snow", "sleet", "rain", "fog"];
    assert !Contains(code, absent[0]) && !Contains(code, absent[1]) && !Contains(code, absent[2]);
    assert !Contains(code, absent[3]) && !Contains(code, absent[4]);
    PartlyCloudyIsCloudy(code);
    NoSnowNoHeavySnow(code);
    if Contains(code, "heavyrain") {
      assert OccursAt("heavyrain", "rain", 5);
      ContainsTransitive(code, "heavyrain", "rain");
    }
  }

  /** A missing or empty code gives the thermometer and "Ukjent". */
  lemma MissingCodeDefaults(symbolCode: Option<string>)
    requires symbolCode == None || symbolCode == Some("")
    ensures IconFromSymbol(symbolCode) == Thermometer
    ensures YrDescription(symbolCode) == "Ukjent"
  {
    assert SymbolText(symbolCode) == [];
  }

  /** Both mappers ignore ASCII letter case. */
  lemma MappersIgnoreCase(s: string)
    ensures IconFromSymbol(Some(s)) == IconFromSymbol(Some(Lower(s)))
    ensures YrDescription(Some(s)) == YrDescription(Some(Lower(s)))
  {
    LowerIdempotent(s);
  }

  // ---------------------------------------------------------------------
  // Properties of the WMO bridge

  /** A lower-case symbol containing a keyword both mappers test is recognised by both. */
  lemma RecognisedSymbol(s: string, keyword: string, at: nat)
    requires IsLower(s) && OccursAt(s, keyword, at)
    requires keyword in IconKeywords && keyword in DescriptionKeywords
    ensures IconFromSymbol(Some(s)) != Thermometer
    ensures YrDescription(Some(s)) != "Ukjent"
  {
    LowerOfLower(s);
    OccurrenceContains(s, keyword, at);
    IconDefaultExactlyWhenUnmatched(Some(s));
    DescriptionDefaultExactlyWhenUnmatched(Some(s));
  }

  /** The bridge keys for clear, fair, cloudy and foggy weather, with the keyword each contains. */
  lemma BridgeKeysForDryWeather()
    ensures IsLower("clearsky_day") && OccursAt("clearsky_day", "clearsky", 0)
    ensures IsLower("fair_day") && OccursAt("fair_day", "fair", 0)
    ensures IsLower("partlycloudy_day") && OccursAt("partlycloudy_day", "cloudy", 6)
    ensures IsLower("cloudy") && OccursAt("cloudy", "cloudy", 0)
    ensures IsLower("fog") && OccursAt("fog", "fog", 0)
  {
  }

  /** The bridge keys for rain and sleet, with the keyword each contains. */
  lemma BridgeKeysForRain()
    ensures IsLower("lightrain") && OccursAt("lightrain", "rain", 5)
    ensures IsLower("sleet") && OccursAt("sleet", "sleet", 0)
    ensures IsLower("rain") && OccursAt("rain", "rain", 0)
    ensures IsLower("heavyrain") && OccursAt("heavyrain", "rain", 5)
    ensures IsLower("rainshowers_day") && OccursAt("rainshowers_day", "rain", 0)
  {
  }

  /** The bridge keys for showers, snow and thunder, with the keyword each contains. */
  lemma BridgeKeysForSnowAndThunder()
    ensures IsLower("heavyrainshowers_day") && OccursAt("heavyrainshowers_day", "rain", 5)
    ensures IsLower("lightsnow") && OccursAt("lightsnow", "snow", 5)
    ensures IsLower("snow") && OccursAt("snow", "snow", 0)
    ensures IsLower("heavysnow") && OccursAt("heavysnow", "snow", 5)
    ensures IsLower("snowshowers_day") && OccursAt("snowshowers_day", "snow", 0)
  {
  }

  /** The bridge keys for thunder, with the keyword each contains. */
  lemma BridgeKeysForThunder()
    ensures IsLower("thunderstorm") && OccursAt("thunderstorm", "thunder", 0)
    ensures IsLower("heavysleetandthunder") && OccursAt("heavysleetandthunder", "thunder", 13)
  {
  }

  /** The keywords the bridge keys rely on are tested by both mappers. */
  lemma SharedKeywords()
    ensures "thunder" in IconKeywords && "thunder" in DescriptionKeywords
    ensures "snow" in IconKeywords && "snow" in DescriptionKeywords
    ensures "sleet" in IconKeywords && "sleet" in DescriptionKeywords
    ensures "rain" in IconKeywords && "rain" in DescriptionKeywords
    ensures "fog" in IconKeywords && "fog" in DescriptionKeywords
    ensures "cloudy" in IconKeywords && "cloudy" in DescriptionKeywords
    ensures "clearsky" in IconKeywords && "clearsky" in DescriptionKeywords
    ensures "fair" in IconKeywords && "fair" in DescriptionKeywords
  {
    assert IconKeywords[0] == DescriptionKeywords[0] == "thunder";
    assert IconKeywords[1] == DescriptionKeywords[2] == "snow";
    assert IconKeywords[2] == DescriptionKeywords[3] == "sleet";
    assert IconKeywords[3] == DescriptionKeywords[5] == "rain";
    assert IconKeywords[4] == DescriptionKeywords[6] == "fog";
    assert IconKeywords[5] == DescriptionKeywords[7] == "cloudy";
    assert IconKeywords[7] == DescriptionKeywords[9] == "clearsky";
    assert IconKeywords[8] == DescriptionKeywords[10] == "fair";
  }

  /** A keyword both mappers test, and where it occurs, for each key the bridge produces. */
  lemma BridgeKeyword(s: string) returns (keyword: string, at: nat)
    requires s in BridgeSymbols
    ensures IsLower(s) && OccursAt(s, keyword, at)
    ensures keyword in IconKeywords && keyword in DescriptionKeywords
  {
    keyword, at := BridgeKeyOccurrence(s);
    SharedKeywords();
  }

  /** Where one of the shared keywords occurs in each key the bridge produces. */
  lemma BridgeKeyOccurrence(s: string) returns (keyword: string, at: nat)
    requires s in BridgeSymbols
    ensures IsLower(s) && OccursAt(s, keyword, at)
    ensures keyword in {"thunder", "snow", "sleet", "rain", "fog", "cloudy", "clearsky", "fair"}
  {
    BridgeKeysForDryWeather();
    BridgeKeysForRain();
    BridgeKeysForSnowAndThunder();
    BridgeKeysForThunder();
    if s == "clearsky_day" { keyword, at := "clearsky", 0; }
    else if s == "fair_day" { keyword, at := "fair", 0; }
    else if s == "partlycloudy_day" { keyword, at := "cloudy", 6; }
    else if s == "cloudy" { keyword, at := "cloudy", 0; }
    else if s == "fog" { keyword, at := "fog", 0; }
    else if s == "lightrain" { keyword, at := "rain", 5; }
    else if s == "sleet" { keyword, at := "sleet", 0; }
    else if s == "rain" { keyword, at := "rain", 0; }
    else if s == "heavyrain" { keyword, at := "rain", 5; }
    else if s == "rainshowers_day" { keyword, at := "rain", 0; }
    else if s == "heavyrainshowers_day" { keyword, at := "rain", 5; }
    else if s == "lightsnow" { keyword, at := "snow", 5; }
    else if s == "snow" { keyword, at := "snow", 0; }
    else if s == "heavysnow" { keyword, at := "snow", 5; }
    else if s == "snowshowers_day" { keyword, at := "snow", 0; }
    else if s == "thunderstorm" { keyword, at := "thunder", 0; }
    else { keyword, at := "thunder", 13; }
  }

  /**
   * Every key the bridge produces is recognised by the MET mappers, so an
   * Open-Meteo day never shows the fallback thermometer.
   */
  lemma BridgeSymbolsRecognised(code: int)
    ensures IconFromSymbol(Some(WmoToSymbol(code))) != Thermometer
    ensures YrDescription(Some(WmoToSymbol(code))) != "Ukjent"
  {
    var s := WmoToSymbol(code);
    var keyword, at := BridgeKeyword(s);
    RecognisedSymbol(s, keyword, at);
  }

  /** A lower-case symbol containing "thunder" is a thunderstorm in both mappers. */
  lemma ThunderSymbol(s: string, at: nat)
    requires IsLower(s) && OccursAt(s, "thunder", at)
    ensures IconFromSymbol(Some(s)) == ThunderCloud
    ensures YrDescription(Some(s)) == "Tordenvær"
  {
    LowerOfLower(s);
    OccurrenceContains(s, "thunder", at);
    ThunderTakesPrecedence(Some(s));
  }

  /** WMO code 95 bridges to "thunderstorm" and reads as "Tordenvær" with the storm cloud. */
  lemma ThunderstormCode()
    ensures WmoToSymbol(95) == "thunderstorm"
    ensures IconFromSymbol(Some(WmoToSymbol(95))) == ThunderCloud && YrDescription(Some(WmoToSymbol(95))) == "Tordenvær"
  {
    BridgeKeysForThunder();
    ThunderSymbol("thunderstorm", 0);
  }

  /** WMO codes 96 and 99 bridge to "heavysleetandthunder" and read as "Tordenvær" with the storm cloud. */
  lemma ThunderWithHailCodes()
    ensures WmoToSymbol(96) == "heavysleetandthunder" && WmoToSymbol(99) == "heavysleetandthunder"
    ensures IconFromSymbol(Some("heavysleetandthunder")) == ThunderCloud
    ensures YrDescription(Some("heavysleetandthunder")) == "Tordenvær"
  {
    BridgeKeysForThunder();
    ThunderSymbol("heavysleetandthunder", 13);
  }

  /** The icon rules pick the sun when the only keyword present is "clearsky". */
  lemma SunOnlyForClearSky(code: string)
    requires IsLower(code) && Contains(code, "clearsky")
    requires !Contains(code, "thunder") && !Contains(code, "snow") && !Contains(code, "sleet")
    requires !Contains(code, "rain") && !Contains(code, "fog") && !Contains(code, "cloudy")
    requires !Contains(code, "partlycloudy")
    ensures IconFromSymbol(Some(code)) == Sun
  {
    LowerOfLower(code);
  }

  /** The icon rules pick the rain cloud for rain without thunder, snow or sleet. */
  lemma RainCloudForRain(code: string)
    requires IsLower(code) && Contains(code, "rain")
    requires !Contains(code, "thunder") && !Contains(code, "snow") && !Contains(code, "sleet")
    ensures IconFromSymbol(Some(code)) == CloudWithRain
  {
    LowerOfLower(code);
  }

  /** The icon rules pick the plain cloud for "cloudy" without precipitation or fog. */
  lemma CloudForCloudy(code: string)
    requires IsLower(code) && Contains(code, "cloudy")
    requires !Contains(code, "thunder") && !Contains(code, "snow") && !Contains(code, "sleet")
    requires !Contains(code, "rain") && !Contains(code, "fog")
    ensures IconFromSymbol(Some(code)) == Cloud
  {
    LowerOfLower(code);
  }

  /** "clearsky_day" is lower-case, contains "clearsky" and no precipitation keyword. */
  lemma ClearSkyDayLacksPrecipitation()
    ensures IsLower("clearsky_day") && Contains("clearsky_day", "clearsky")
    ensures !Contains("clearsky_day", "thunder") && !Contains("clearsky_day", "snow")
    ensures !Contains("clearsky_day", "sleet") && !Contains("clearsky_day", "rain")
  {
    var clear := "clearsky_day";
    ClearSkyDayLacksStorm();
    MissingCharacter(clear, "sleet", 4);
    MissingCharacter(clear, "rain", 2);
    OccurrenceContains(clear, "clearsky", 0);
  }

  /** "clearsky_day" contains neither "thunder" nor "snow". */
  lemma ClearSkyDayLacksStorm()
    ensures !Contains("clearsky_day", "thunder") && !Contains("clearsky_day", "snow")
  {
    MissingCharacter("clearsky_day", "thunder", 1);
    MissingCharacter("clearsky_day", "snow", 1);
  }

  /** "clearsky_day" contains neither "fog" nor any cloud keyword. */
  lemma ClearSkyDayLacksCloud()
    ensures !Contains("clearsky_day", "fog") && !Contains("clearsky_day", "cloudy")
    ensures !Contains("clearsky_day", "partlycloudy")
  {
    var clear := "clearsky_day";
    MissingCharacter(clear, "fog", 1);
    MissingCharacter(clear, "cloudy", 2);
    MissingCharacter(clear, "partlycloudy", 0);
  }

  /** WMO code 0 is "Klar" and shows the sun. */
  lemma ClearSkyCode()
    ensures OpenMeteoDescription(0) == "Klar" && WmoToSymbol(0) == "clearsky_day"
    ensures IconFromSymbol(Some(WmoToSymbol(0))) == Sun
  {
    ClearSkyDayLacksPrecipitation();
    ClearSkyDayLacksCloud();
    SunOnlyForClearSky("clearsky_day");
  }

  /** What "lightrain" contains and lacks among the icon keywords. */
  lemma LightRainKeywords()
    ensures IsLower("lightrain") && Contains("lightrain", "rain")
    ensures !Contains("lightrain", "thunder") && !Contains("lightrain", "snow") && !Contains("lightrain", "sleet")
  {
    var light := "lightrain";
    MissingCharacter(light, "thunder", 2);
    MissingCharacter(light, "snow", 0);
    MissingCharacter(light, "sleet", 0);
    OccurrenceContains(light, "rain", 5);
  }

  /** WMO code 61 is "Lett regn" and shows the rain cloud. */
  lemma LightRainCode()
    ensures OpenMeteoDescription(61) == "Lett regn" && WmoToSymbol(61) == "lightrain"
    ensures IconFromSymbol(Some(WmoToSymbol(61))) == CloudWithRain
  {
    LightRainKeywords();
    RainCloudForRain("lightrain");
  }

  /** What "partlycloudy_day" contains and lacks among the icon keywords. */
  lemma PartlyCloudyDayKeywords()
    ensures IsLower("partlycloudy_day") && Contains("partlycloudy_day", "cloudy")
    ensures !Contains("partlycloudy_day", "thunder") && !Contains("partlycloudy_day", "snow")
    ensures !Contains("partlycloudy_day", "sleet") && !Contains("partlycloudy_day", "rain")
    ensures !Contains("partlycloudy_day", "fog")
  {
    var partly := "partlycloudy_day";
    MissingCharacter(partly, "thunder", 1);
    MissingCharacter(partly, "snow", 0);
    MissingCharacter(partly, "sleet", 0);
    MissingCharacter(partly, "rain", 2);
    MissingCharacter(partly, "fog", 0);
    BridgeKeysForDryWeather();
    OccurrenceContains(partly, "cloudy", 6);
  }

  /**
   * WMO code 2 is "Delvis skyet" in the table, but its key "partlycloudy_day"
   * hits the "cloudy" rule first, so it shows the plain cloud.
   */
  lemma PartlyCloudyCode()
    ensures OpenMeteoDescription(2) == "Delvis skyet" && WmoToSymbol(2) == "partlycloudy_day"
    ensures IconFromSymbol(Some(WmoToSymbol(2))) == Cloud
  {
    PartlyCloudyDayKeywords();
    CloudForCloudy("partlycloudy_day");
  }

  /** What "cloudy" contains and lacks among the icon keywords. */
  lemma CloudyKeywords()
    ensures IsLower("cloudy") && Contains("cloudy", "cloudy")
    ensures !Contains("cloudy", "thunder") && !Contains("cloudy", "snow") && !Contains("cloudy", "sleet")
    ensures !Contains("cloudy", "rain") && !Contains("cloudy", "fog")
  {
    var cloudy := "cloudy";
    MissingCharacter(cloudy, "thunder", 0);
    MissingCharacter(cloudy, "snow", 0);
    MissingCharacter(cloudy, "sleet", 0);
    MissingCharacter(cloudy, "rain", 0);
    MissingCharacter(cloudy, "fog", 0);
    OccurrenceContains(cloudy, "cloudy", 0);
  }

  /** An unlisted code such as 999 is "Ukjent" and shows the cloud of the "cloudy" fallback key. */
  lemma UnlistedCode()
    ensures OpenMeteoDescription(999) == "Ukjent" && WmoToSymbol(999) == "cloudy"
    ensures IconFromSymbol(Some(WmoToSymbol(999))) == Cloud
  {
    CloudyKeywords();
    CloudForCloudy("cloudy");
  }
}
