/**
 * Normalisation of MET's hourly forecast series into daily summaries: each
 * point contributes to the local calendar day it falls on, with a
 * precipitation amount chosen by forecast horizon and a symbol code.
 *
 * The local date key (a calendar day in the Europe/Oslo time zone) and the
 * UTC hour of a point come from the platform's date functions; here they are
 * given on each point.
 */
module YrAggregation {
  import opened Options
  import opened Daily
  import opened WeatherCodes

  /** An hour of the day on the UTC clock. */
  type Hour = h: nat | h < 24

  /**
   * One forecast horizon of a point (`next_1_hours`, `next_6_hours` or
   * `next_12_hours`): its precipitation amount and its symbol code, each
   * possibly missing. A missing horizon block is `Period(None, None)`.
   */
  datatype Period = Period(precipitation: Option<real>, symbolCode: Option<string>)

  /** One point of the hourly series. */
  datatype Point = Point(
    dateKey: string,      // local calendar date of the point's time
    hourUtc: Hour,        // UTC hour of the point's time
    temperature: real,    // instant air temperature
    next1: Period,
    next6: Period,
    next12: Period)

  /**
   * The precipitation a point contributes: the hourly amount when present,
   * whatever the hour; otherwise the 6-hour amount, but only on a 6-hour
   * boundary of the UTC clock; otherwise the 12-hour amount, but only on a
   * 12-hour boundary; otherwise nothing.
   */
  function SelectPrecipitation(p: Point): real {
    if p.next1.precipitation.Some? then p.next1.precipitation.value
    else if p.next6.precipitation.Some? && p.hourUtc % 6 == 0 then p.next6.precipitation.value
    else if p.next12.precipitation.Some? && p.hourUtc % 12 == 0 then p.next12.precipitation.value
    else 0.0
  }

  /**
   * The precedence of the horizons: the hourly amount wins at any hour; off
   * the 6-hour boundaries only the hourly amount can count (a 6-hour amount
   * there falls through to the 12-hour test, which fails as well); at 00 and
   * 12 UTC a 6-hour amount beats a 12-hour one and a lone 12-hour amount is
   * used; at 06 and 18 UTC the 12-hour amount is never used; every non-zero contribution is
   * an amount attributed at its horizon's natural boundary.
   */
  lemma PrecipitationPrecedence(p: Point)
    ensures p.next1.precipitation.Some? ==> SelectPrecipitation(p) == p.next1.precipitation.value
    ensures p.hourUtc % 6 != 0 ==> SelectPrecipitation(p) == p.next1.precipitation.GetOr(0.0)
    ensures p.hourUtc % 12 == 0 && p.next1.precipitation.None? ==>
              SelectPrecipitation(p) ==
                (if p.next6.precipitation.Some? then p.next6.precipitation.value
                 else p.next12.precipitation.GetOr(0.0))
    ensures p.hourUtc % 12 != 0 && p.next1.precipitation.None? ==>
              SelectPrecipitation(p) == (if p.hourUtc % 6 == 0 then p.next6.precipitation.GetOr(0.0) else 0.0)
    ensures var r := SelectPrecipitation(p);
            r == 0.0
            || p.next1.precipitation == Some(r)
            || (p.hourUtc % 6 == 0 && p.next6.precipitation == Some(r))
            || (p.hourUtc % 12 == 0 && p.next12.precipitation == Some(r))
    ensures p.next1.precipitation.None? && p.next6.precipitation.None? && p.next12.precipitation.None? ==>
              SelectPrecipitation(p) == 0.0
  {
  }

  /** A symbol code that is present and not the empty string (JavaScript truthiness). */
  predicate Truthy(code: Option<string>) {
    code.Some? && code.value != ""
  }

  /**
   * The symbol code of a point: the first truthy one of the 1-hour, 6-hour
   * and 12-hour horizons, or the empty string when none is.
   */
  function SelectSymbol(p: Point): string {
    if Truthy(p.next1.symbolCode) then p.next1.symbolCode.value
    else if Truthy(p.next6.symbolCode) then p.next6.symbolCode.value
    else if Truthy(p.next12.symbolCode) then p.next12.symbolCode.value
    else ""
  }

  /**
   * The horizons are consulted 1-hour, 6-hour, 12-hour; an empty code counts
   * as missing; the result is empty exactly when no horizon has a code, and
   * otherwise is one of the point's codes.
   */
  lemma SymbolPrecedence(p: Point)
    ensures Truthy(p.next1.symbolCode) ==> SelectSymbol(p) == p.next1.symbolCode.value
    ensures !Truthy(p.next1.symbolCode) && Truthy(p.next6.symbolCode) ==>
              SelectSymbol(p) == p.next6.symbolCode.value
    ensures SelectSymbol(p) == "" <==>
              !Truthy(p.next1.symbolCode) && !Truthy(p.next6.symbolCode) && !Truthy(p.next12.symbolCode)
    ensures SelectSymbol(p) == "" ||
              Some(SelectSymbol(p)) in [p.next1.symbolCode, p.next6.symbolCode, p.next12.symbolCode]
  {
  }

  // ---------------------------------------------------------------------
  // What the aggregation computes, stated per day

  /**
   * The date keys of a series, each once, in the order of their first
   * occurrence (the key order of an insertion-ordered map).
   */
  function DateKeys(series: seq<Point>): seq<string> {
    if series == [] then []
    else
      var keys := DateKeys(series[..|series| - 1]);
      var d := series[|series| - 1].dateKey;
      if d in keys then keys else keys + [d]
  }

  /** Some point of the series falls on local date `d`. */
  predicate HasDate(series: seq<Point>, d: string) {
    exists n :: 0 <= n < |series| && series[n].dateKey == d
  }

  /**
   * The date keys are pairwise distinct, there is one for every date some
   * point falls on and no other, so there are never more than points.
   */
  lemma {:induction false} DateKeysDistinctAndComplete(series: seq<Point>)
    ensures |DateKeys(series)| <= |series|
    ensures forall i, j :: 0 <= i < j < |DateKeys(series)| ==> DateKeys(series)[i] != DateKeys(series)[j]
    ensures forall d :: d in DateKeys(series) <==> HasDate(series, d)
  {
    if series != [] {
      var init := series[..|series| - 1];
      DateKeysDistinctAndComplete(init);
      forall d ensures HasDate(init, d) ==> HasDate(series, d) {
        if HasDate(init, d) {
          var n :| 0 <= n < |init| && init[n].dateKey == d;
          assert series[n] == init[n];
        }
      }
      forall d ensures HasDate(series, d) ==> d in DateKeys(series) {
        if HasDate(series, d) {
          var n :| 0 <= n < |series| && series[n].dateKey == d;
          if n < |init| {
            assert init[n] == series[n];
          }
        }
      }
    }
  }

  /** The points of a series that fall on local date `d`, in series order. */
  function DayPoints(series: seq<Point>, d: string): seq<Point> {
    if series == [] then []
    else
      var ps := DayPoints(series[..|series| - 1], d);
      var last := series[|series| - 1];
      if last.dateKey == d then ps + [last] else ps
  }

  /** The points of a day are exactly the series' points on that date. */
  lemma {:induction false} DayPointsExactly(series: seq<Point>, d: string)
    ensures forall q :: q in DayPoints(series, d) ==> q in series && q.dateKey == d
    ensures forall n :: 0 <= n < |series| && series[n].dateKey == d ==> series[n] in DayPoints(series, d)
  {
    if series != [] {
      var init := series[..|series| - 1];
      DayPointsExactly(init, d);
      forall n | 0 <= n < |series| && series[n].dateKey == d
        ensures series[n] in DayPoints(series, d)
      {
        if n < |init| {
          assert init[n] == series[n];
        }
      }
    }
  }

  /** A date has points exactly when it is one of the date keys. */
  lemma DatePointsExist(series: seq<Point>, d: string)
    ensures DayPoints(series, d) != [] <==> d in DateKeys(series)
  {
    DateKeysDistinctAndComplete(series);
    DayPointsExactly(series, d);
    if d in DateKeys(series) {
      var n :| 0 <= n < |series| && series[n].dateKey == d;
      assert series[n] in DayPoints(series, d);
    }
    if DayPoints(series, d) != [] {
      var q := DayPoints(series, d)[0];
      var n :| 0 <= n < |series| && series[n] == q;
      assert HasDate(series, d);
    }
  }

  /** The running `Math.min` of the points' temperatures. */
  function MinTemperature(ps: seq<Point>): real
    requires ps != []
  {
    if |ps| == 1 then ps[0].temperature
    else MinReal(MinTemperature(ps[..|ps| - 1]), ps[|ps| - 1].temperature)
  }

  /** The running `Math.max` of the points' temperatures. */
  function MaxTemperature(ps: seq<Point>): real
    requires ps != []
  {
    if |ps| == 1 then ps[0].temperature
    else MaxReal(MaxTemperature(ps[..|ps| - 1]), ps[|ps| - 1].temperature)
  }

  /** The running minimum and maximum are the least and the greatest temperature of the points. */
  lemma {:induction false} TemperatureExtremes(ps: seq<Point>)
    requires ps != []
    ensures forall q :: q in ps ==> MinTemperature(ps) <= q.temperature <= MaxTemperature(ps)
    ensures exists q :: q in ps && q.temperature == MinTemperature(ps)
    ensures exists q :: q in ps && q.temperature == MaxTemperature(ps)
  {
    if |ps| > 1 {
      var init := ps[..|ps| - 1];
      TemperatureExtremes(init);
      assert ps == init + [ps[|ps| - 1]];
      var last := ps[|ps| - 1];
      assert MinTemperature(ps) == MinReal(MinTemperature(init), last.temperature);
      assert MaxTemperature(ps) == MaxReal(MaxTemperature(init), last.temperature);
      var lo :| lo in init && lo.temperature == MinTemperature(init);
      var hi :| hi in init && hi.temperature == MaxTemperature(init);
      assert lo in ps && hi in ps && last in ps;
      if MinTemperature(ps) == lo.temperature {
        assert lo in ps && lo.temperature == MinTemperature(ps);
      } else {
        assert last.temperature == MinTemperature(ps);
      }
      if MaxTemperature(ps) == hi.temperature {
        assert hi in ps && hi.temperature == MaxTemperature(ps);
      } else {
        assert last.temperature == MaxTemperature(ps);
      }
    } else {
      assert ps[0] in ps;
    }
  }

  /** The sum, from the left, of the amounts the points contribute. */
  function PrecipitationTotal(ps: seq<Point>): real {
    if ps == [] then 0.0
    else PrecipitationTotal(ps[..|ps| - 1]) + SelectPrecipitation(ps[|ps| - 1])
  }

  /** The symbol key a day keeps: its first point's symbol code, "cloudy" when that is empty. */
  function DaySymbol(first: Point): string {
    var symbol := SelectSymbol(first);
    if symbol == "" then "cloudy" else symbol
  }

  /**
   * The summary of a day whose points are `ps`, in series order:
   * the temperature range over all of them; description and symbol key
   * from the first only; and a precipitation total over all but the first.
   */
  function Summarize(d: string, ps: seq<Point>): DailySummary
    requires ps != []
  {
    DailySummary(
      d,
      MinTemperature(ps),
      MaxTemperature(ps),
      PrecipitationTotal(ps[1..]),
      YrDescription(Some(SelectSymbol(ps[0]))),
      DaySymbol(ps[0]))
  }

  /** The summary of local date `d` in a series. */
  function DaySummary(series: seq<Point>, d: string): DailySummary
    requires d in DateKeys(series)
  {
    DatePointsExist(series, d);
    Summarize(d, DayPoints(series, d))
  }

  /**
   * A day's minimum and maximum are the least and the greatest temperature
   * of the points on that date, so the minimum never exceeds the maximum.
   */
  lemma DayTemperatureRange(series: seq<Point>, d: string)
    requires d in DateKeys(series)
    ensures DaySummary(series, d).min <= DaySummary(series, d).max
    ensures forall n :: 0 <= n < |series| && series[n].dateKey == d ==>
              DaySummary(series, d).min <= series[n].temperature <= DaySummary(series, d).max
    ensures exists n :: 0 <= n < |series| && series[n].dateKey == d &&
              series[n].temperature == DaySummary(series, d).min
    ensures exists n :: 0 <= n < |series| && series[n].dateKey == d &&
              series[n].temperature == DaySummary(series, d).max
  {
    var ps := DayPoints(series, d);
    DatePointsExist(series, d);
    DayPointsExactly(series, d);
    TemperatureExtremes(ps);
    var lo := MinTemperature(ps);
    var hi := MaxTemperature(ps);
    assert lo <= ps[0].temperature <= hi;
    var q :| q in ps && q.temperature == lo;
    var n :| 0 <= n < |series| && series[n] == q;
    var q' :| q' in ps && q'.temperature == hi;
    var n' :| 0 <= n' < |series| && series[n'] == q';
  }

  /**
   * The date keys appear in the order of first occurrence: wherever a point
   * of a later key lies, a point of every earlier key lies before it.
   */
  lemma {:induction false} DateKeysInFirstOccurrenceOrder(series: seq<Point>)
    ensures forall a, b, n ::
              (0 <= a < b < |DateKeys(series)| && 0 <= n < |series| && series[n].dateKey == DateKeys(series)[b]) ==>
              exists m :: 0 <= m < n && series[m].dateKey == DateKeys(series)[a]
  {
    if series != [] {
      var init := series[..|series| - 1];
      var keys := DateKeys(series);
      var initKeys := DateKeys(init);
      var last := series[|series| - 1].dateKey;
      DateKeysInFirstOccurrenceOrder(init);
      DateKeysDistinctAndComplete(init);
      assert keys == if last in initKeys then initKeys else initKeys + [last];
      assert forall i :: 0 <= i < |initKeys| ==> keys[i] == initKeys[i];
      forall a, b, n | 0 <= a < b < |keys| && 0 <= n < |series| && series[n].dateKey == keys[b]
        ensures exists m :: 0 <= m < n && series[m].dateKey == keys[a]
      {
        assert a < |initKeys|;
        if n < |init| {
          assert init[n] == series[n];
          assert HasDate(init, keys[b]);
          assert b < |initKeys| && keys[b] == initKeys[b];
          var m :| 0 <= m < n && init[m].dateKey == initKeys[a];
          assert series[m] == init[m];
        } else {
          assert HasDate(init, initKeys[a]);
          var m :| 0 <= m < |init| && init[m].dateKey == initKeys[a];
          assert series[m] == init[m];
        }
      }
    } else {
      assert DateKeys(series) == [];
    }
  }

  /** Splitting the series splits each day's points the same way. */
  lemma {:induction false} DayPointsConcat(left: seq<Point>, right: seq<Point>, d: string)
    ensures DayPoints(left + right, d) == DayPoints(left, d) + DayPoints(right, d)
  {
    if right == [] {
      assert left + right == left;
    } else {
      var init := right[..|right| - 1];
      DayPointsConcat(left, init, d);
      assert (left + right)[..|left + right| - 1] == left + init;
    }
  }

  /** A date no point falls on has no points. */
  lemma NoPointsWithoutDate(series: seq<Point>, d: string)
    requires forall m :: 0 <= m < |series| ==> series[m].dateKey != d
    ensures DayPoints(series, d) == []
  {
    DateKeysDistinctAndComplete(series);
    DatePointsExist(series, d);
  }

  /** The total over a point followed by more points. */
  lemma {:induction false} PrecipitationTotalCons(p: Point, ps: seq<Point>)
    ensures PrecipitationTotal([p] + ps) == SelectPrecipitation(p) + PrecipitationTotal(ps)
  {
    if ps != [] {
      var init := ps[..|ps| - 1];
      PrecipitationTotalCons(p, init);
      assert ([p] + ps)[..|[p] + ps| - 1] == [p] + init;
    }
  }

  /**
   * A day's description and symbol key come from its first point only, and
   * its precipitation is the total of the later points of that date.
   */
  lemma DayFromFirstPoint(series: seq<Point>, d: string, i: nat)
    requires i < |series| && series[i].dateKey == d
    requires forall m :: 0 <= m < i ==> series[m].dateKey != d
    ensures d in DateKeys(series)
    ensures DaySummary(series, d).description == YrDescription(Some(SelectSymbol(series[i])))
    ensures DaySummary(series, d).symbolCode == DaySymbol(series[i])
    ensures DaySummary(series, d).precip == PrecipitationTotal(DayPoints(series[i + 1..], d))
  {
    DateKeysDistinctAndComplete(series);
    assert HasDate(series, d);
    var before := series[..i];
    var after := series[i + 1..];
    assert series == before + ([series[i]] + after);
    NoPointsWithoutDate(before, d);
    DayPointsConcat(before, [series[i]] + after, d);
    DayPointsConcat([series[i]], after, d);
    assert DayPoints([series[i]], d) == [series[i]] by {
      assert [series[i]][..0] == [];
    }
    var ps := DayPoints(series, d);
    assert ps == [series[i]] + DayPoints(after, d);
    assert ps[1..] == DayPoints(after, d);
  }

  /**
   * The first point's own precipitation never reaches the day's total: the
   * total is short of the sum over all the day's points by exactly that amount.
   */
  lemma FirstPointPrecipitationSkipped(series: seq<Point>, d: string)
    requires d in DateKeys(series)
    ensures DayPoints(series, d) != [] &&
            PrecipitationTotal(DayPoints(series, d)) ==
              SelectPrecipitation(DayPoints(series, d)[0]) + DaySummary(series, d).precip
  {
    DatePointsExist(series, d);
    var ps := DayPoints(series, d);
    assert ps == [ps[0]] + ps[1..];
    PrecipitationTotalCons(ps[0], ps[1..]);
  }

  /** Every amount a point carries is non-negative. */
  predicate NonNegativeAmounts(p: Point) {
    && p.next1.precipitation.GetOr(0.0) >= 0.0
    && p.next6.precipitation.GetOr(0.0) >= 0.0
    && p.next12.precipitation.GetOr(0.0) >= 0.0
  }

  /** Non-negative amounts give non-negative totals. */
  lemma {:induction false} PrecipitationTotalNonNegative(ps: seq<Point>)
    requires forall q :: q in ps ==> NonNegativeAmounts(q)
    ensures PrecipitationTotal(ps) >= 0.0
  {
    if ps != [] {
      var last := ps[|ps| - 1];
      PrecipitationTotalNonNegative(ps[..|ps| - 1]);
      assert last in ps;
      PrecipitationPrecedence(last);
    }
  }

  /** When no amount in the series is negative, no day's precipitation is. */
  lemma DayPrecipitationNonNegative(series: seq<Point>, d: string)
    requires forall n :: 0 <= n < |series| ==> NonNegativeAmounts(series[n])
    requires d in DateKeys(series)
    ensures DaySummary(series, d).precip >= 0.0
  {
    DatePointsExist(series, d);
    DayPointsExactly(series, d);
    var ps := DayPoints(series, d);
    forall q | q in ps[1..] ensures NonNegativeAmounts(q) {
      assert q in ps;
      var n :| 0 <= n < |series| && series[n] == q;
    }
    PrecipitationTotalNonNegative(ps[1..]);
  }

  /** The daily summaries of a series, one per date key in key order, at most six. */
  function YrDays(series: seq<Point>): seq<DailySummary> {
    var keys := DateKeys(series);
    seq(Min(|keys|, MaxDays), j requires 0 <= j < Min(|keys|, MaxDays) => DaySummary(series, keys[j]))
  }

  /** Each day of a series is the summary of the date key in its position. */
  lemma YrDaysAreKeyed(series: seq<Point>)
    ensures |YrDays(series)| == Min(|DateKeys(series)|, MaxDays)
    ensures forall j :: 0 <= j < |YrDays(series)| ==>
              YrDays(series)[j] == DaySummary(series, DateKeys(series)[j]) &&
              YrDays(series)[j].date == DateKeys(series)[j]
  {
  }

  /**
   * The days of a series: at most six and never more than points, one per
   * distinct date, each a date some point falls on; when the series spans
   * at most six dates every one of them has its day.
   */
  lemma YrDaysDistinctDates(series: seq<Point>)
    ensures |YrDays(series)| <= MaxDays && |YrDays(series)| <= |series|
    ensures forall j :: 0 <= j < |YrDays(series)| ==> HasDate(series, YrDays(series)[j].date)
    ensures forall i, j :: 0 <= i < j < |YrDays(series)| ==> YrDays(series)[i].date != YrDays(series)[j].date
    ensures |DateKeys(series)| <= MaxDays ==>
              forall d :: HasDate(series, d) ==> exists j :: 0 <= j < |YrDays(series)| && YrDays(series)[j].date == d
  {
    var keys := DateKeys(series);
    YrDaysAreKeyed(series);
    DateKeysDistinctAndComplete(series);
    if |keys| <= MaxDays {
      forall d | HasDate(series, d) ensures exists j :: 0 <= j < |YrDays(series)| && YrDays(series)[j].date == d {
        var j :| 0 <= j < |keys| && keys[j] == d;
        assert YrDays(series)[j].date == d;
      }
    }
  }

  /** The days come in the order their dates first occur in the series. */
  lemma YrDaysInFirstOccurrenceOrder(series: seq<Point>)
    ensures forall i, j, n ::
              (0 <= i < j < |YrDays(series)| && 0 <= n < |series| && series[n].dateKey == YrDays(series)[j].date) ==>
              exists m :: 0 <= m < n && series[m].dateKey == YrDays(series)[i].date
  {
    YrDaysAreKeyed(series);
    DateKeysInFirstOccurrenceOrder(series);
  }

  /**
   * The cut to six: a point whose date has no day is preceded by points of
   * six dates, the six that have days, which all occur before it.
   */
  lemma FirstSixDatesKept(series: seq<Point>, n: nat)
    requires n < |series|
    requires forall j :: 0 <= j < |YrDays(series)| ==> YrDays(series)[j].date != series[n].dateKey
    ensures |YrDays(series)| == MaxDays
    ensures forall j :: 0 <= j < |YrDays(series)| ==>
              exists m :: 0 <= m < n && series[m].dateKey == YrDays(series)[j].date
  {
    var keys := DateKeys(series);
    var d := series[n].dateKey;
    YrDaysAreKeyed(series);
    DateKeysDistinctAndComplete(series);
    DateKeysInFirstOccurrenceOrder(series);
    assert HasDate(series, d);
    var b :| 0 <= b < |keys| && keys[b] == d;
    assert b >= |YrDays(series)|;
  }

  /**
   * When the series is chronological, for a `rank` of its dates that tells
   * distinct dates apart and never decreases along the series, the days'
   * dates strictly increase.
   */
  lemma YrDaysDatesIncrease(series: seq<Point>, rank: string -> int)
    requires forall i, j :: 0 <= i < j < |series| ==> rank(series[i].dateKey) <= rank(series[j].dateKey)
    requires forall i, j :: 0 <= i < |series| && 0 <= j < |series| && series[i].dateKey != series[j].dateKey ==>
               rank(series[i].dateKey) != rank(series[j].dateKey)
    ensures forall i, j :: 0 <= i < j < |YrDays(series)| ==> rank(YrDays(series)[i].date) < rank(YrDays(series)[j].date)
  {
    var days := YrDays(series);
    YrDaysDistinctDates(series);
    forall i, j | 0 <= i < j < |days| ensures rank(days[i].date) < rank(days[j].date) {
      var n :| 0 <= n < |series| && series[n].dateKey == days[j].date;
      var m := EarlierDayPoint(series, i, j, n);
      assert days[i].date != days[j].date;
    }
  }

  /** A point of an earlier day that lies before a given point of a later day. */
  lemma EarlierDayPoint(series: seq<Point>, i: nat, j: nat, n: nat) returns (m: nat)
    requires i < j < |YrDays(series)| && n < |series| && series[n].dateKey == YrDays(series)[j].date
    ensures m < n && series[m].dateKey == YrDays(series)[i].date
  {
    var keys := DateKeys(series);
    YrDaysAreKeyed(series);
    DateKeysInFirstOccurrenceOrder(series);
    assert YrDays(series)[i].date == keys[i] && YrDays(series)[j].date == keys[j];
    assert 0 <= i < j < |keys| && 0 <= n < |series| && series[n].dateKey == keys[j];
    assert exists m :: 0 <= m < n && series[m].dateKey == keys[i];
    m :| 0 <= m < n && series[m].dateKey == keys[i];
  }

  /** Every day's minimum is at most its maximum. */
  lemma YrDaysRange(series: seq<Point>)
    ensures forall j :: 0 <= j < |YrDays(series)| ==> YrDays(series)[j].min <= YrDays(series)[j].max
  {
    YrDaysAreKeyed(series);
    forall j | 0 <= j < |YrDays(series)| ensures YrDays(series)[j].min <= YrDays(series)[j].max {
      DayTemperatureRange(series, DateKeys(series)[j]);
    }
  }

  // ---------------------------------------------------------------------
  // How one more point changes each day

  /**
   * Appending a point: the key order gains the point's date only when it is
   * new, and the point joins the points of its own date and no other.
   */
  lemma AppendPoint(series: seq<Point>, p: Point, d: string)
    ensures DateKeys(series + [p]) ==
              if p.dateKey in DateKeys(series) then DateKeys(series) else DateKeys(series) + [p.dateKey]
    ensures DayPoints(series + [p], d) ==
              if p.dateKey == d then DayPoints(series, d) + [p] else DayPoints(series, d)
  {
    assert (series + [p])[..|series|] == series;
  }

  /** A point on another date leaves a day's summary unchanged. */
  lemma OtherDayUnchanged(series: seq<Point>, p: Point, d: string)
    requires d in DateKeys(series) && p.dateKey != d
    ensures d in DateKeys(series + [p])
    ensures DaySummary(series + [p], d) == DaySummary(series, d)
  {
    AppendPoint(series, p, d);
  }

  /** The first point of a date opens its day with its own temperature and no precipitation. */
  lemma FirstPointOpensDay(series: seq<Point>, p: Point)
    requires p.dateKey !in DateKeys(series)
    ensures p.dateKey in DateKeys(series + [p])
    ensures DaySummary(series + [p], p.dateKey) ==
              DailySummary(p.dateKey, p.temperature, p.temperature, 0.0,
                           YrDescription(Some(SelectSymbol(p))), DaySymbol(p))
  {
    AppendPoint(series, p, p.dateKey);
    DatePointsExist(series, p.dateKey);
    DatePointsExist(series + [p], p.dateKey);
    assert DayPoints(series, p.dateKey) == [];
    assert DayPoints(series + [p], p.dateKey) == [p];
  }

  /** One more point of a day widens the range and adds its precipitation. */
  lemma SummarizeAppend(d: string, ps: seq<Point>, p: Point)
    requires ps != []
    ensures Summarize(d, ps + [p]) ==
              Summarize(d, ps).(min := MinReal(Summarize(d, ps).min, p.temperature),
                                max := MaxReal(Summarize(d, ps).max, p.temperature),
                                precip := Summarize(d, ps).precip + SelectPrecipitation(p))
  {
    var ps' := ps + [p];
    assert ps'[0] == ps[0];
    assert ps'[..|ps'| - 1] == ps;
    assert ps'[1..] == ps[1..] + [p];
    assert (ps[1..] + [p])[..|ps| - 1] == ps[1..];
  }

  /** A later point of a date widens the range and adds its precipitation. */
  lemma LaterPointExtendsDay(series: seq<Point>, p: Point)
    requires p.dateKey in DateKeys(series)
    ensures p.dateKey in DateKeys(series + [p])
    ensures var day := DaySummary(series, p.dateKey);
            DaySummary(series + [p], p.dateKey) ==
              day.(min := MinReal(day.min, p.temperature),
                   max := MaxReal(day.max, p.temperature),
                   precip := day.precip + SelectPrecipitation(p))
  {
    AppendPoint(series, p, p.dateKey);
    DatePointsExist(series, p.dateKey);
    SummarizeAppend(p.dateKey, DayPoints(series, p.dateKey), p);
  }

  // ---------------------------------------------------------------------
  // The aggregation itself

  /**
   * The state of the aggregation after a prefix of the series: `order` is
   * the key order of the insertion-ordered map `byDay`, and each entry is
   * the summary of its day so far.
   */
  ghost predicate Represents(order: seq<string>, byDay: map<string, DailySummary>, prefix: seq<Point>) {
    && order == DateKeys(prefix)
    && (forall k :: k in byDay <==> k in order)
    && (forall k :: k in byDay ==> byDay[k] == DaySummary(prefix, k))
  }

  /** Entries for other dates stay accurate when a point is appended. */
  lemma OtherEntriesKept(order: seq<string>, byDay: map<string, DailySummary>, prefix: seq<Point>, p: Point)
    requires Represents(order, byDay, prefix)
    ensures forall k :: k in byDay && k != p.dateKey ==>
              k in DateKeys(prefix + [p]) && byDay[k] == DaySummary(prefix + [p], k)
  {
    forall k | k in byDay && k != p.dateKey
      ensures k in DateKeys(prefix + [p]) && byDay[k] == DaySummary(prefix + [p], k)
    {
      OtherDayUnchanged(prefix, p, k);
    }
  }

  /** Opening a new day for the first point of a date keeps the state accurate. */
  lemma OpenDayStep(order: seq<string>, byDay: map<string, DailySummary>, prefix: seq<Point>, p: Point,
                    entry: DailySummary)
    requires Represents(order, byDay, prefix) && p.dateKey !in byDay
    requires entry == DailySummary(p.dateKey, p.temperature, p.temperature, 0.0,
                                   YrDescription(Some(SelectSymbol(p))), DaySymbol(p))
    ensures Represents(order + [p.dateKey], byDay[p.dateKey := entry], prefix + [p])
  {
    AppendPoint(prefix, p, p.dateKey);
    OtherEntriesKept(order, byDay, prefix, p);
    FirstPointOpensDay(prefix, p);
  }

  /** Folding a later point of a date into its day keeps the state accurate. */
  lemma ExtendDayStep(order: seq<string>, byDay: map<string, DailySummary>, prefix: seq<Point>, p: Point,
                      entry: DailySummary)
    requires Represents(order, byDay, prefix) && p.dateKey in byDay
    requires var day := byDay[p.dateKey];
             entry == day.(min := MinReal(day.min, p.temperature),
                           max := MaxReal(day.max, p.temperature),
                           precip := day.precip + SelectPrecipitation(p))
    ensures Represents(order, byDay[p.dateKey := entry], prefix + [p])
  {
    var updated := byDay[p.dateKey := entry];
    var extended := prefix + [p];
    AppendPoint(prefix, p, p.dateKey);
    assert order == DateKeys(extended);
    ExtendedEntry(byDay, prefix, p, entry);
    OtherEntriesKept(order, byDay, prefix, p);
    forall k | k in updated ensures updated[k] == DaySummary(extended, k) {
    }
  }

  /** The folded entry is the day's summary with the point appended. */
  lemma ExtendedEntry(byDay: map<string, DailySummary>, prefix: seq<Point>, p: Point, entry: DailySummary)
    requires p.dateKey in byDay && p.dateKey in DateKeys(prefix) && byDay[p.dateKey] == DaySummary(prefix, p.dateKey)
    requires var day := byDay[p.dateKey];
             entry == day.(min := MinReal(day.min, p.temperature),
                           max := MaxReal(day.max, p.temperature),
                           precip := day.precip + SelectPrecipitation(p))
    ensures p.dateKey in DateKeys(prefix + [p]) && entry == DaySummary(prefix + [p], p.dateKey)
  {
    LaterPointExtendsDay(prefix, p);
  }

  /**
   * `aggregateDailyFromYr`: walks the series once, keeping an
   * insertion-ordered map from date key to the day's running summary, and
   * returns the first six days in insertion order.
   */
  method AggregateDaily(series: seq<Point>) returns (days: seq<DailySummary>)
    ensures days == YrDays(series)
  {
    var order: seq<string> := [];                  // the key order of `byDay`
    var byDay: map<string, DailySummary> := map[];
    for i := 0 to |series|
      invariant Represents(order, byDay, series[..i])
    {
      var point := series[i];
      ghost var prefix := series[..i];
      assert series[..i + 1] == prefix + [point];

      var key := point.dateKey;
      var precip := SelectPrecipitation(point);
      var symbolCode := SelectSymbol(point);
      var temp := point.temperature;

      if key !in byDay {
        var entry := DailySummary(key, temp, temp, 0.0, YrDescription(Some(symbolCode)),
                                  if symbolCode == "" then "cloudy" else symbolCode);
        OpenDayStep(order, byDay, prefix, point, entry);
        byDay := byDay[key := entry];
        order := order + [key];
        assert Represents(order, byDay, prefix + [point]);
        continue;
      }

      var day := byDay[key];
      var entry := day.(min := MinReal(day.min, temp), max := MaxReal(day.max, temp),
                        precip := day.precip + precip);
      ExtendDayStep(order, byDay, prefix, point, entry);
      byDay := byDay[key := entry];
      assert Represents(order, byDay, prefix + [point]);
    }
    assert series[..|series|] == series;
    // Array.from(byDay.values()): the entries in insertion order
    var values := seq(|order|, j requires 0 <= j < |order| && order[j] in byDay => byDay[order[j]]);
    days := values[..Min(|values|, MaxDays)];
  }
}
