/**
 * The join of the two forecast requests: each source either delivered its
 * days or failed; each table shows the days or a placeholder row, and one
 * status line sums up how many sources answered.
 */
module Comparison {
  import opened Daily

  /** A settled request (`Promise.allSettled`): its value, or the reason it failed. */
  datatype Outcome = Fulfilled(value: seq<DailySummary>) | Rejected(reason: string)

  /** What a source's table body shows. */
  datatype Table = Rows(days: seq<DailySummary>) | Placeholder(message: string)

  /** The status line under the tables and whether it is styled as an error. */
  datatype Status = Status(message: string, isError: bool)

  const YrUnavailable: string := "Kunne ikke hente data fra Yr.no."
  const OpenMeteoUnavailable: string := "Kunne ikke hente data fra Open-Meteo."
  const UpdatedPrefix: string := "Sist oppdatert: "
  const OneSourceOnly: string := "Kun én kilde svarte akkurat nå. Prøv oppdater igjen."
  const NoSource: string := "Ingen av kildene svarte akkurat nå."

  /** How many of the outcomes are fulfilled. */
  function FulfilledCount(outcomes: seq<Outcome>): nat {
    if outcomes == [] then 0
    else FulfilledCount(outcomes[..|outcomes| - 1]) + (if outcomes[|outcomes| - 1].Fulfilled? then 1 else 0)
  }

  /**
   * The count is at most the number of outcomes; it is all of them exactly
   * when none was rejected, and nought exactly when none was fulfilled.
   */
  lemma {:induction false} FulfilledCountBounds(outcomes: seq<Outcome>)
    ensures FulfilledCount(outcomes) <= |outcomes|
    ensures FulfilledCount(outcomes) == |outcomes| <==> forall i :: 0 <= i < |outcomes| ==> outcomes[i].Fulfilled?
    ensures FulfilledCount(outcomes) == 0 <==> forall i :: 0 <= i < |outcomes| ==> outcomes[i].Rejected?
  {
    if outcomes != [] {
      var init := outcomes[..|outcomes| - 1];
      FulfilledCountBounds(init);
      assert forall i :: 0 <= i < |init| ==> init[i] == outcomes[i];
    }
  }

  /**
   * The reporting step of `loadForecastComparison` once both requests have
   * settled. `updatedAt` is the locally formatted time of the report.
   *
   * `okCount` counts the sources that delivered; each table shows its
   * source's days or that source's placeholder, whatever the other source
   * did; the status is a plain "updated" line exactly when both delivered
   * and an error line naming how many answered otherwise.
   */
  method ReportComparison(yr: Outcome, openMeteo: Outcome, updatedAt: string)
    returns (okCount: nat, yrTable: Table, openMeteoTable: Table, status: Status)
    ensures okCount == FulfilledCount([yr, openMeteo])
    ensures yr.Fulfilled? ==> yrTable == Rows(yr.value)
    ensures yr.Rejected? ==> yrTable == Placeholder(YrUnavailable)
    ensures openMeteo.Fulfilled? ==> openMeteoTable == Rows(openMeteo.value)
    ensures openMeteo.Rejected? ==> openMeteoTable == Placeholder(OpenMeteoUnavailable)
    ensures status.isError <==> yr.Rejected? || openMeteo.Rejected?
    ensures yr.Fulfilled? && openMeteo.Fulfilled? ==> status == Status(UpdatedPrefix + updatedAt, false)
    ensures yr.Fulfilled? != openMeteo.Fulfilled? ==> status == Status(OneSourceOnly, true)
    ensures yr.Rejected? && openMeteo.Rejected? ==> status == Status(NoSource, true)
  {
    assert [yr, openMeteo][..1] == [yr] && [yr][..0] == [];
    assert FulfilledCount([yr]) == (if yr.Fulfilled? then 1 else 0);
    assert FulfilledCount([yr, openMeteo]) == FulfilledCount([yr]) + (if openMeteo.Fulfilled? then 1 else 0);
    okCount := 0;

    if yr.Fulfilled? {
      yrTable := Rows(yr.value);
      okCount := okCount + 1;
    } else {
      yrTable := Placeholder(YrUnavailable);
    }

    if openMeteo.Fulfilled? {
      openMeteoTable := Rows(openMeteo.value);
      okCount := okCount + 1;
    } else {
      openMeteoTable := Placeholder(OpenMeteoUnavailable);
    }

    if okCount == 2 {
      status := Status(UpdatedPrefix + updatedAt, false);
    } else if okCount == 1 {
      status := Status(OneSourceOnly, true);
    } else {
      status := Status(NoSource, true);
    }
  }
}
