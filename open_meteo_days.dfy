/**
 * Normalisation of Open-Meteo's daily block: parallel arrays indexed by day
 * are zipped into daily summaries, capped at six days.
 */
module OpenMeteoDays {
  import opened Options
  import opened Daily
  import opened WeatherCodes

  /** The `daily` object of an Open-Meteo forecast response: one array per variable. */
  datatype DailyPayload = DailyPayload(
    time: seq<string>,
    weatherCode: seq<int>,
    temperatureMax: seq<real>,
    temperatureMin: seq<real>,
    precipitationSum: seq<real>)

  /** How many days are kept: the days listed in `time`, at most six. */
  function DayCount(daily: DailyPayload): nat {
    Min(|daily.time|, MaxDays)
  }

  /** Every variable has a value for each day that is kept. */
  predicate CoversKeptDays(daily: DailyPayload) {
    && |daily.weatherCode| >= DayCount(daily)
    && |daily.temperatureMax| >= DayCount(daily)
    && |daily.temperatureMin| >= DayCount(daily)
    && |daily.precipitationSum| >= DayCount(daily)
  }

  /** The summary of the day at `index`: the values at that index and the code's description and symbol key. */
  function DayRecord(daily: DailyPayload, index: nat): (r: DailySummary)
    requires CoversKeptDays(daily) && index < DayCount(daily)
    ensures r.date == daily.time[index]
    ensures r.min == daily.temperatureMin[index] && r.max == daily.temperatureMax[index]
    ensures r.precip == daily.precipitationSum[index]
  {
    var code := daily.weatherCode[index];
    DailySummary(
      daily.time[index],
      daily.temperatureMin[index],
      daily.temperatureMax[index],
      daily.precipitationSum[index],
      OpenMeteoDescription(code),
      WmoToSymbol(code))
  }

  /**
   * `mapOpenMeteoDays`: one summary per listed day, in order, the first six
   * only; each carries its own index's values, the table's description of
   * its weather code ("Ukjent" for a code the table lacks) and the MET
   * symbol key the code is bridged to.
   */
  function MapOpenMeteoDays(daily: DailyPayload): (r: seq<DailySummary>)
    requires CoversKeptDays(daily)
    ensures |r| == Min(|daily.time|, MaxDays)
    ensures forall i :: 0 <= i < |r| ==>
              && r[i].date == daily.time[i]
              && r[i].min == daily.temperatureMin[i]
              && r[i].max == daily.temperatureMax[i]
              && r[i].precip == daily.precipitationSum[i]
              && r[i].description == OpenMeteoDescription(daily.weatherCode[i])
              && r[i].symbolCode == WmoToSymbol(daily.weatherCode[i])
  {
    seq(DayCount(daily), i requires 0 <= i < DayCount(daily) => DayRecord(daily, i))
  }

  /**
   * Every Open-Meteo day is shown with a real icon and, where the code is in
   * the table, a real description: its symbol key is one the MET icon and
   * description rules recognise.
   */
  lemma OpenMeteoDaysRecognised(daily: DailyPayload)
    requires CoversKeptDays(daily)
    ensures forall i :: 0 <= i < |MapOpenMeteoDays(daily)| ==>
              IconFromSymbol(Some(MapOpenMeteoDays(daily)[i].symbolCode)) != Thermometer
    ensures forall i :: 0 <= i < |MapOpenMeteoDays(daily)| ==>
              (MapOpenMeteoDays(daily)[i].description == "Ukjent" <==>
               daily.weatherCode[i] !in OpenMeteoDescriptions)
  {
    var r := MapOpenMeteoDays(daily);
    forall i | 0 <= i < |r| ensures IconFromSymbol(Some(r[i].symbolCode)) != Thermometer {
      BridgeSymbolsRecognised(daily.weatherCode[i]);
    }
  }

  /**
   * Only the first six days matter: dropping the later entries of `time`
   * changes nothing, and a shorter payload gives a prefix of the days.
   */
  lemma LaterDaysIgnored(daily: DailyPayload, k: nat)
    requires CoversKeptDays(daily) && k <= |daily.time|
    ensures CoversKeptDays(daily.(time := daily.time[..k]))
    ensures MapOpenMeteoDays(daily.(time := daily.time[..k])) ==
              MapOpenMeteoDays(daily)[..Min(k, MaxDays)]
    ensures k >= MaxDays ==> MapOpenMeteoDays(daily.(time := daily.time[..k])) == MapOpenMeteoDays(daily)
  {
    var short := daily.(time := daily.time[..k]);
    var a := MapOpenMeteoDays(short);
    var b := MapOpenMeteoDays(daily);
    assert |a| == |b[..Min(k, MaxDays)]|;
    forall i | 0 <= i < |a| ensures a[i] == b[i] {
      assert a[i] == DayRecord(short, i);
    }
  }
}
