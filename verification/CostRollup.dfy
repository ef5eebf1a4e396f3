/** The daily cost rollup of one (project, service, source) series: month-to-date readings are
    differenced into daily actuals. Days are numbered consecutively. */
module CostRollup {
  import opened Prelude

  /** A stored day: the reading of that day and the actual derived from it, both absent if unmeasured. */
  datatype DayRow = DayRow(cumulative: Option<real>, actual: Option<real>)

  type Series = map<nat, DayRow>

  /** The most recent stored day strictly before `day`, whatever month it lies in. */
  function LatestBefore(series: Series, day: nat): (latest: Option<nat>)
    ensures latest.Some? ==> latest.value in series && latest.value < day
    ensures forall d :: (if latest.Some? then latest.value < d else 0 <= d) && d < day ==> d !in series
  {
    if day == 0 then None else if day - 1 in series then Some(day - 1) else LatestBefore(series, day - 1)
  }

  /** The reading of that day; a day without a reading counts as none. */
  function CumulativeFor(series: Series, day: nat): Option<real> {
    var prior := LatestBefore(series, day);
    if prior.Some? then series[prior.value].cumulative else None
  }

  function PriorOf(series: Series, day: nat): real {
    var prior := CumulativeFor(series, day);
    if prior.Some? then prior.value else 0.0
  }

  function DayRowFor(series: Series, day: nat, reading: Option<real>): DayRow {
    DayRow(reading, if reading.Some? then Some(MaxReal(reading.value - PriorOf(series, day), 0.0)) else None)
  }

  /** The latest stored day before `day`. */
  ghost predicate IsLatest(series: Series, d: nat, day: nat) {
    d in series && d < day && forall e :: e in series && e < day ==> e <= d
  }

  lemma PriorIs(series: Series, day: nat)
    ensures (forall d :: d in series ==> d >= day) ==> PriorOf(series, day) == 0.0
    ensures forall d :: IsLatest(series, d, day) ==>
              PriorOf(series, day) == if series[d].cumulative.Some? then series[d].cumulative.value else 0.0
  {
  }

  class Rollup {
    var series: Series

    constructor ()
      ensures series == map[]
    {
      series := map[];
    }

    /** One day's step of the rollup: an upsert keyed by the day. */
    method RollUpDay(day: nat, reading: Option<real>)
      modifies this
      ensures series == old(series)[day := DayRowFor(old(series), day, reading)]
      // The reading as it is; against no earlier day, the whole of it; against the latest earlier day, what it
      // exceeds that
      // day's reading by, if anything. A missing reading counts as zero, and gives no actual.
      ensures forall d :: d in series <==> d in old(series) || d == day
      ensures forall d :: d in old(series) && d != day ==> series[d] == old(series)[d]
      ensures series[day].cumulative == reading && (series[day].actual.Some? <==> reading.Some?)
      ensures reading.Some? && (forall d :: d in old(series) ==> d >= day) ==>
                series[day].actual == Some(if reading.value > 0.0 then reading.value else 0.0)
      ensures reading.Some? ==> forall d :: IsLatest(old(series), d, day) ==>
                var prior := if old(series)[d].cumulative.Some? then old(series)[d].cumulative.value else 0.0;
                series[day].actual == Some(if reading.value > prior then reading.value - prior else 0.0)
    {
      var actual: Option<real> := None;
      if reading.Some? {
        var prior := CumulativeFor(series, day);
        var base := if prior.Some? then prior.value else 0.0;
        actual := Some(if reading.value - base < 0.0 then 0.0 else reading.value - base);
      }
      PriorIs(series, day);
      series := series[day := DayRow(reading, actual)];
    }
  }

  // ---- A month of rollups, with days missed and days without a reading ----

  type Reading = Option<real>

  /** The series after rolling up the given days with the given readings. */
  function AfterDays(series: Series, days: seq<nat>, readings: seq<Reading>): Series
    requires |days| == |readings|
  {
    if days == [] then series
    else
      var n := |days| - 1;
      var before := AfterDays(series, days[..n], readings[..n]);
      before[days[n] := DayRowFor(before, days[n], readings[n])]
  }

  ghost predicate Increasing(days: seq<nat>) { forall i, j :: 0 <= i < j < |days| ==> days[i] < days[j] }

  /** The days are new to the series: later than everything it holds. */
  ghost predicate AppendsTo(series: Series, days: seq<nat>) {
    Increasing(days) && forall d :: d in series && days != [] ==> d < days[0]
  }

  function ActualOf(series: Series, day: nat): real {
    if day in series && series[day].actual.Some? then series[day].actual.value else 0.0
  }

  /** What the stored actuals of the days add up to. */
  function ActualSum(series: Series, days: seq<nat>): real {
    if days == [] then 0.0
    else
      var n := |days| - 1;
      ActualSum(series, days[..n]) + ActualOf(series, days[n])
  }

  /** What the day after a reading is differenced against: a missing reading counts as zero. */
  function Base(reading: Reading): real { if reading.Some? then reading.value else 0.0 }

  /** What a day with this reading adds, given what it is differenced against. */
  function Added(reading: Reading, prior: real): real {
    if reading.Some? then MaxReal(reading.value - prior, 0.0) else 0.0
  }

  /** By how much a reading is below the one before; a missing one gives all of it up. */
  function Fall(before: Reading, after: Reading): real {
    if after.Some? then MaxReal(Base(before) - after.value, 0.0) else Base(before)
  }

  /** All falls between consecutive days. */
  function Falls(readings: seq<Reading>): real {
    if |readings| <= 1 then 0.0
    else
      var n := |readings| - 1;
      Falls(readings[..n]) + Fall(readings[n - 1], readings[n])
  }

  lemma {:induction false} AfterDaysKeys(series: Series, days: seq<nat>, readings: seq<Reading>)
    requires |days| == |readings|
    ensures forall d :: d in AfterDays(series, days, readings) <==> d in series || d in days
    ensures forall d :: d in series && d !in days ==> AfterDays(series, days, readings)[d] == series[d]
  {
    if days != [] {
      var n := |days| - 1;
      AfterDaysKeys(series, days[..n], readings[..n]);
      assert days == days[..n] + [days[n]];
    }
  }

  lemma {:induction false} ActualSumFrame(series: Series, days: seq<nat>, day: nat, row: DayRow)
    requires day !in days
    ensures ActualSum(series[day := row], days) == ActualSum(series, days)
  {
    if days != [] {
      ActualSumFrame(series, days[..|days| - 1], day, row);
    }
  }

  /** The latest day stored before the next one is the one rolled up last. */
  lemma LatestIsPrevious(series: Series, days: seq<nat>, readings: seq<Reading>)
    requires |days| > 1 && |days| == |readings| && AppendsTo(series, days)
    ensures var n := |days| - 1; LatestBefore(AfterDays(series, days[..n], readings[..n]), days[n]) == Some(days[n - 1])
  {
    var n := |days| - 1;
    var before := AfterDays(series, days[..n], readings[..n]);
    AfterDaysKeys(series, days[..n], readings[..n]);
    assert days[..n][n - 1] == days[n - 1];
    forall d | d in before && d < days[n] ensures d <= days[n - 1] {
      if d !in series {
        var i :| 0 <= i < n && days[..n][i] == d;
        assert days[i] == d;
      }
    }
    assert days[n - 1] in before;
  }

  /** What the next day is differenced against: the previous rolled-up day's reading, or the first day's prior. */
  lemma PriorOfNext(series: Series, days: seq<nat>, readings: seq<Reading>)
    requires days != [] && |days| == |readings| && AppendsTo(series, days)
    ensures var n := |days| - 1;
            PriorOf(AfterDays(series, days[..n], readings[..n]), days[n]) ==
                if n == 0 then PriorOf(series, days[0]) else Base(readings[n - 1])
  {
    var n := |days| - 1;
    if n > 0 {
      LatestIsPrevious(series, days, readings);
      assert days[..n][n - 1] == days[n - 1] && readings[..n][n - 1] == readings[n - 1];
    }
  }

  /** One more day adds its own difference to the sum. */
  lemma ActualSumStep(series: Series, days: seq<nat>, readings: seq<Reading>)
    requires days != [] && |days| == |readings| && AppendsTo(series, days)
    ensures var n := |days| - 1;
            ActualSum(AfterDays(series, days, readings), days)
            == ActualSum(AfterDays(series, days[..n], readings[..n]), days[..n])
               + Added(readings[n], if n == 0 then PriorOf(series, days[0]) else Base(readings[n - 1]))
  {
    var n := |days| - 1;
    var before := AfterDays(series, days[..n], readings[..n]);
    PriorOfNext(series, days, readings);
    ActualSumFrame(before, days[..n], days[n], DayRowFor(before, days[n], readings[n]));
  }

  /** The part of the first reading that its baseline hides. */
  function Hidden(reading: Reading, prior: real): real { if reading.Some? then MinReal(reading.value, prior) else 0.0 }

  /** The exact sum of a month's stored actuals: the last reading, less what the first day's baseline hides, plus every
      fall of the readings. A day without a reading is a fall to zero, so the day after counts the month again. */
  lemma {:induction false} ActualsTelescope(series: Series, days: seq<nat>, readings: seq<Reading>)
    requires days != [] && |days| == |readings| && AppendsTo(series, days)
    ensures ActualSum(AfterDays(series, days, readings), days)
            == Base(readings[|readings| - 1]) - Hidden(readings[0], PriorOf(series, days[0])) + Falls(readings)
  {
    var n := |days| - 1;
    ActualSumStep(series, days, readings);
    if n > 0 {
      ActualsTelescope(series, days[..n], readings[..n]);
    }
  }

  /** No reading is below the one before, a missing one counting as zero. */
  ghost predicate NeverFall(readings: seq<Reading>) {
    forall i, j :: 0 <= i && j == i + 1 && j < |readings| ==> Base(readings[i]) <= Base(readings[j])
  }

  /** No missing reading follows a negative one (a credit). */
  ghost predicate GapsAfterCosts(readings: seq<Reading>) {
    forall i, j :: 0 <= i && j == i + 1 && j < |readings| && readings[j].None? ==> Base(readings[i]) >= 0.0
  }

  lemma {:induction false} FallsCharacterized(readings: seq<Reading>)
    requires GapsAfterCosts(readings)
    ensures Falls(readings) >= 0.0
    ensures Falls(readings) == 0.0 <==> NeverFall(readings)
  {
    if |readings| > 1 {
      var n := |readings| - 1;
      var shorter := readings[..n];
      assert forall i :: 0 <= i < n ==> shorter[i] == readings[i];
      FallsCharacterized(shorter);
      assert NeverFall(readings) <==> NeverFall(shorter) && Base(readings[n - 1]) <= Base(readings[n]) by {
        NeverFallStep(readings);
      }
    }
  }

  lemma NeverFallStep(readings: seq<Reading>)
    requires |readings| > 1
    ensures var n := |readings| - 1;
            NeverFall(readings) <==> NeverFall(readings[..n]) && Base(readings[n - 1]) <= Base(readings[n])
  {
    var n := |readings| - 1;
    var shorter := readings[..n];
    if NeverFall(shorter) && Base(readings[n - 1]) <= Base(readings[n]) {
      forall i, j | 0 <= i && j == i + 1 && j < |readings| ensures Base(readings[i]) <= Base(readings[j]) {
        assert j < n ==> Base(shorter[i]) <= Base(shorter[j]);
      }
    }
    if NeverFall(readings) {
      forall i, j | 0 <= i && j == i + 1 && j < n ensures Base(shorter[i]) <= Base(shorter[j]) {
        assert Base(readings[i]) <= Base(readings[j]);
      }
    }
  }

  /** The actuals of a month always cover its last reading, less what the baseline hides. */
  lemma {:induction false} ActualsCover(series: Series, days: seq<nat>, readings: seq<Reading>)
    requires days != [] && |days| == |readings| && AppendsTo(series, days) && PriorOf(series, days[0]) == 0.0
    ensures ActualSum(AfterDays(series, days, readings), days) >= MaxReal(Base(readings[|readings| - 1]), 0.0)
  {
    var n := |days| - 1;
    ActualSumStep(series, days, readings);
    if n > 0 {
      ActualsCover(series, days[..n], readings[..n]);
    }
  }

  /** Where no earlier reading exists the actuals of the month cover its last reading, and equal it exactly when the
      readings never fall, a missing one counting as zero. */
  lemma FirstMonthTelescopes(series: Series, days: seq<nat>, readings: seq<Reading>)
    requires days != [] && |days| == |readings| && AppendsTo(series, days) && PriorOf(series, days[0]) == 0.0
    ensures ActualSum(AfterDays(series, days, readings), days) >= Base(readings[|readings| - 1])
    ensures GapsAfterCosts(readings) && Base(readings[0]) >= 0.0 ==>
              (ActualSum(AfterDays(series, days, readings), days) == Base(readings[|readings| - 1])
               <==> NeverFall(readings))
  {
    ActualsCover(series, days, readings);
    ActualsTelescope(series, days, readings);
    if GapsAfterCosts(readings) { FallsCharacterized(readings); }
  }

  /** The baseline of a month's first day is the last reading of the month before, although month-to-date readings
      start over. The actuals of the month add up to its last reading if and only if what that baseline hides of the
      first reading is what the falls count twice. */
  lemma LaterMonthTelescopes(series: Series, days: seq<nat>, readings: seq<Reading>)
    requires days != [] && |days| == |readings| && AppendsTo(series, days)
    ensures ActualSum(AfterDays(series, days, readings), days) == Base(readings[|readings| - 1])
            <==> Hidden(readings[0], PriorOf(series, days[0])) == Falls(readings)
    ensures NeverFall(readings) && GapsAfterCosts(readings) && PriorOf(series, days[0]) >= 0.0
            && Base(readings[0]) >= 0.0 ==>
              (ActualSum(AfterDays(series, days, readings), days) == Base(readings[|readings| - 1])
               <==> PriorOf(series, days[0]) == 0.0 || Base(readings[0]) == 0.0)
  {
    ActualsTelescope(series, days, readings);
    if GapsAfterCosts(readings) { FallsCharacterized(readings); }
  }

  /** One day without a reading: a month whose readings are 100, none and 100 is stored as 200. */
  lemma MissingReadingExample()
    ensures var june := AfterDays(map[], [0, 1, 2], [Some(100.0), None, Some(100.0)]);
            ActualSum(june, [0, 1, 2]) == 200.0
  {
    ActualsTelescope(map[], [0, 1, 2], [Some(100.0), None, Some(100.0)]);
    var readings: seq<Reading> := [Some(100.0), None, Some(100.0)];
    assert readings[..2] == [Some(100.0), None] && [Some(100.0), None][..1] == [Some(100.0)];
  }

  /** The spend of the first of a month is lost: after a month ending at 300, a first reading of 10 is stored as 0. */
  lemma MonthStartExample()
    ensures var june := map[29 := DayRow(Some(300.0), Some(10.0))];
            DayRowFor(june, 30, Some(10.0)).actual == Some(0.0)
  {
  }

  lemma {:induction false} LatestBeforeFrame(series: Series, day: nat, row: DayRow, bound: nat)
    requires bound <= day
    ensures LatestBefore(series[day := row], bound) == LatestBefore(series, bound)
  {
    if bound > 0 {
      LatestBeforeFrame(series, day, row, bound - 1);
    }
  }

  /** Rolling a day up again with the same reading changes nothing. */
  lemma RerunChangesNothing(series: Series, day: nat, reading: Option<real>)
    ensures var once := series[day := DayRowFor(series, day, reading)];
            once[day := DayRowFor(once, day, reading)] == once
  {
    LatestBeforeFrame(series, day, DayRowFor(series, day, reading), day);
  }
}
