/** What the history kept of each row counts: steps of the run. */
module RowHistories {
  import opened Prelude
  import opened ResourceRows
  import opened WorkerProtocol
  import opened CrashRecovery
  import opened AutoRetry

  /** The step makes the row claimable without a claim having failed. */
  predicate Arms(s: System, step: Step, r: nat)
    requires WellFormed(s) && Enabled(s, step)
  {
    match step
    case Enqueue(_, _, _, _, _, _) => r == |s.rows|
    case Reapply(p) => s.pending[p].row == r
    case Mark(r', _) => r' == r
    case Deprovision(r') => r' == r
    case ReclaimStale(r', cutoff) => r' == r && Reclaimable(s.rows[r], cutoff)
    case _ => false
  }

  predicate TakesOver(s: System, step: Step, r: nat)
    requires WellFormed(s) && Enabled(s, step)
  {
    WinsRow(s, step, r) && s.rows[r].owner.Some?
  }

  datatype Kind = Arming | Claiming | Failing | TakingOver

  predicate IsOf(kind: Kind, s: System, step: Step, r: nat)
    requires WellFormed(s) && Enabled(s, step)
  {
    match kind
    case Arming => Arms(s, step, r)
    case Claiming => WinsRow(s, step, r)
    case Failing => FailsRow(s, step, r)
    case TakingOver => TakesOver(s, step, r)
  }

  /** How many of the first `i` steps of the run are of the kind for the row. */
  ghost function HowMany(run: Run, i: nat, kind: Kind, r: nat): nat
    requires IsRun(run) && i < |run.states|
  {
    if i == 0 then 0
    else HowMany(run, i - 1, kind, r) + if IsOf(kind, run.states[i - 1], run.steps[i - 1], r) then 1 else 0
  }

  /** How many failures of the row there are among the first `i` steps since the last that resets it. */
  ghost function FailuresSince(run: Run, i: nat, r: nat): nat
    requires IsRun(run) && i < |run.states|
  {
    if i == 0 || Resets(run.states[i - 1], run.steps[i - 1], r) then 0
    else FailuresSince(run, i - 1, r) + if FailsRow(run.states[i - 1], run.steps[i - 1], r) then 1 else 0
  }

  const NONE := Tally(0, 0, 0, 0, 0)

  function TallyAt(s: System, r: nat): Tally { if r < |s.tallies| then s.tallies[r] else NONE }

  function One(b: bool): nat { if b then 1 else 0 }

  lemma WrittenTally(s: System, step: Step, r: nat)
    requires WellFormed(s) && Enabled(s, step) && Written(s, step) == Some(r)
    ensures r < |Next(s, step).tallies|
    ensures var t := TallyAt(s, r);
            Next(s, step).tallies[r]
            == Tally(t.armings + One(Arms(s, step, r)), t.claims + One(WinsRow(s, step, r)),
                     t.failures + One(FailsRow(s, step, r)), t.takeovers + One(TakesOver(s, step, r)),
                     if Resets(s, step, r) then 0 else t.failuresSinceReset + One(FailsRow(s, step, r)))
  {
  }

  lemma TallyStep(s: System, step: Step, r: nat)
    requires WellFormed(s) && Enabled(s, step)
    ensures var t := TallyAt(s, r);
            TallyAt(Next(s, step), r)
            == Tally(t.armings + One(Arms(s, step, r)), t.claims + One(WinsRow(s, step, r)),
                     t.failures + One(FailsRow(s, step, r)), t.takeovers + One(TakesOver(s, step, r)),
                     if Resets(s, step, r) then 0 else t.failuresSinceReset + One(FailsRow(s, step, r)))
  {
    if Written(s, step) == Some(r) {
      WrittenTally(s, step, r);
    } else if r < |s.rows| {
      RowFrame(s, step, r);
    } else if Written(s, step).Some? {
      WrittenRows(s, step, Written(s, step).value);
    }
  }

  /** The history of a row is what happened to it: so many armings, claims, failures and takeovers among the steps of
      the run, and so many failures since the last reset. */
  lemma {:induction false} TalliesCount(run: Run, i: nat, r: nat)
    requires IsRun(run) && i < |run.states|
    ensures TallyAt(run.states[i], r)
            == Tally(HowMany(run, i, Arming, r), HowMany(run, i, Claiming, r), HowMany(run, i, Failing, r),
                     HowMany(run, i, TakingOver, r), FailuresSince(run, i, r))
  {
    if i > 0 {
      TalliesCount(run, i - 1, r);
      TallyStep(run.states[i - 1], run.steps[i - 1], r);
    }
  }
}
