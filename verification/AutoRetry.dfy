/** Automatic retries end: deadlines are armed only below the cap, every failed retry lowers a
    rank, and a row that reached its cap rests until somebody asks for it. */
module AutoRetry {
  import opened Prelude
  import opened ResourceRows
  import opened RetryPolicies
  import opened WorkerProtocol
  import MutualExclusion
  import opened CrashRecovery

  function CapOf(s: System, rtype: string): U32 { RetryPolicyFor(s.settings, rtype).maxAttempts }

  // ---- Any run ----

  ghost predicate SnapshotsTyped(s: System)
    requires WellFormed(s)
  {
    forall w :: w in s.workers ==> s.workers[w].snap.rtype == s.rows[s.workers[w].row].rtype
  }

  ghost predicate ArmedBelowCap(s: System, r: nat)
    requires WellFormed(s) && r < |s.rows|
  {
    s.rows[r].nextRetry.Some? ==> TruncU32(s.rows[r].attempts) < CapOf(s, s.rows[r].rtype)
  }

  lemma TypesNeverChange(s: System, step: Step, r: nat)
    requires WellFormed(s) && Enabled(s, step) && r < |s.rows|
    ensures Next(s, step).settings == s.settings
    ensures r < |Next(s, step).rows| && Next(s, step).rows[r].rtype == s.rows[r].rtype
  {
    RowFrame(s, step, r);
  }

  lemma SnapshotsTypedStep(s: System, step: Step)
    requires WellFormed(s) && Enabled(s, step) && SnapshotsTyped(s)
    ensures WellFormed(Next(s, step)) && SnapshotsTyped(Next(s, step))
  {
    WellFormedAlways(s, step);
    var t := Next(s, step);
    forall w | w in t.workers ensures t.workers[w].snap.rtype == t.rows[t.workers[w].row].rtype {
      TypesNeverChange(s, step, t.workers[w].row);
    }
  }

  lemma ArmedBelowCapStep(s: System, step: Step, r: nat)
    requires WellFormed(s) && Enabled(s, step) && SnapshotsTyped(s) && r < |Next(s, step).rows|
    requires r < |s.rows| ==> ArmedBelowCap(s, r)
    ensures WellFormed(Next(s, step)) && ArmedBelowCap(Next(s, step), r)
  {
    WellFormedAlways(s, step);
    if r < |s.rows| {
      RowFrame(s, step, r);
      TypesNeverChange(s, step, r);
    }
  }

  /** In every run whatsoever an armed retry deadline means the (32-bit) attempt count is below the service's cap. */
  lemma {:induction false} DeadlinesArmedBelowCap(run: Run, i: nat, r: nat)
    requires IsRun(run) && i < |run.states| && r < |run.states[i].rows|
    ensures SnapshotsTyped(run.states[i]) && ArmedBelowCap(run.states[i], r)
  {
    if i > 0 {
      var s, step := run.states[i - 1], run.steps[i - 1];
      SnapshotsTypedAlways(run, i - 1);
      SnapshotsTypedStep(s, step);
      if r < |s.rows| {
        DeadlinesArmedBelowCap(run, i - 1, r);
      }
      ArmedBelowCapStep(s, step, r);
    }
  }

  lemma {:induction false} SnapshotsTypedAlways(run: Run, i: nat)
    requires IsRun(run) && i < |run.states|
    ensures SnapshotsTyped(run.states[i])
  {
    if i > 0 {
      SnapshotsTypedAlways(run, i - 1);
      SnapshotsTypedStep(run.states[i - 1], run.steps[i - 1]);
    }
  }

  // ---- One automatic retry ----

  /** How many further automatic failures the row can still have. */
  function RetryRank(row: Row, policy: RetryPolicy): nat {
    if row.nextRetry.Some? && TruncU32(row.attempts) < policy.maxAttempts
        then policy.maxAttempts - TruncU32(row.attempts) else 0
  }

  /** The row a failed drive of `row` leaves behind. */
  function AfterFailure(row: Row, error: string, policy: RetryPolicy, now: int): Row {
    var state := if ActionFor(row.state) == Some(Destroy) then DestroyFailed else Failed;
    MarkedFailed(row, state, error, row.attempts + 1, NextDeadline(row.attempts + 1, policy, now), now)
  }

  /** A failed automatic retry of an armed row strictly lowers its rank, also across 32-bit wrap-around. */
  lemma FailedRetryLowersRank(row: Row, error: string, policy: RetryPolicy, now: int)
    requires row.nextRetry.Some? && TruncU32(row.attempts) < policy.maxAttempts
    ensures RetryRank(AfterFailure(row, error, policy, now), policy) < RetryRank(row, policy)
  {
    // policy.maxAttempts fits 32 bits, so an attempt count below it does not wrap when bumped.
    assert TruncU32(row.attempts + 1) == TruncU32(row.attempts) + 1;
  }

  /** Drives the row by automatic retries that all fail, at the given times, until no deadline is armed or the times
      run out. */
  function FailAll(row: Row, errors: seq<string>, policy: RetryPolicy, now: int): Row
    decreases |errors|
  {
    if errors == [] || row.nextRetry.None? then row
    else FailAll(AfterFailure(row, errors[0], policy, Max(now, row.nextRetry.value)), errors[1..], policy,
                 Max(now, row.nextRetry.value))
  }

  /** However the retries fail, after as many as the rank the row has no deadline any more. */
  lemma {:induction false} RetriesEnd(row: Row, errors: seq<string>, policy: RetryPolicy, now: int)
    requires row.nextRetry.Some? ==> TruncU32(row.attempts) < policy.maxAttempts
    requires |errors| >= RetryRank(row, policy)
    ensures FailAll(row, errors, policy, now).nextRetry.None?
    decreases |errors|
  {
    if row.nextRetry.Some? {
      var later := Max(now, row.nextRetry.value);
      FailedRetryLowersRank(row, errors[0], policy, later);
      RetriesEnd(AfterFailure(row, errors[0], policy, later), errors[1..], policy, later);
    }
  }

  // ---- Failures between two resets ----

  /** A claim of row `r` that is won is one a sweep makes, with listing, reading and claiming in one step: the row is
      outstanding or its retry armed, and its attempts are those the worker read. */
  predicate SweepClaim(s: System, step: Step, r: nat)
    requires WellFormed(s) && Enabled(s, step)
  {
    WinsRow(s, step, r) ==>
      && s.workers[step.worker].snap.attempts == s.rows[r].attempts
      && (IsWorkState(s.rows[r].state) || s.rows[r].nextRetry.Some?)
  }

  predicate FailsRow(s: System, step: Step, r: nat) {
    step.Fail? && step.worker in s.workers && s.workers[step.worker].row == r
  }

  /** The failure brings the attempt count back to zero in 32 bits. */
  predicate Wraps(s: System, step: Step, r: nat) {
    FailsRow(s, step, r) && TruncU32(s.workers[step.worker].snap.attempts + 1) == 0
  }

  /** A teardown request or a cascade moves the row, keeping its attempts. */
  predicate Redirects(step: Step, r: nat) { step == Deprovision(r) || (step.Mark? && step.row == r) }

  /** The live workers that drive the row. */
  function DriversOf(s: System, r: nat): set<WorkerId> {
    set w | w in s.workers && Drives(s, w) && s.workers[w].row == r
  }

  /** How many of them there are beyond the first. */
  function Others(s: System, r: nat): nat { if DriversOf(s, r) == {} then 0 else |DriversOf(s, r)| - 1 }

  /** The claim takes the row from a live worker that still drives it. */
  predicate Crowds(s: System, step: Step, r: nat)
    requires WellFormed(s) && Enabled(s, step)
  {
    WinsRow(s, step, r) && DriversOf(s, r) != {}
  }

  /** What can add to the failures between two resets: the row is redirected, claimed as no atomic sweep does or while
      somebody drives it, or its attempt count wraps around. */
  predicate IsIrregular(s: System, step: Step, r: nat)
    requires WellFormed(s) && Enabled(s, step)
  {
    Redirects(step, r) || !SweepClaim(s, step, r) || Crowds(s, step, r) || Wraps(s, step, r)
  }

  /** The step sets the row's attempts to zero. */
  predicate Resets(s: System, step: Step, r: nat)
    requires WellFormed(s) && Enabled(s, step)
  {
    match step
    case Reapply(p) => s.pending[p].row == r
    case Retry(r') => r' == r
    case ReclaimStale(r', cutoff) => r' == r && Reclaimable(s.rows[r], cutoff)
    case Finish(w) => s.workers[w].row == r
    case _ => false
  }

  /** The count after a step from `s` to `t`: a reset starts it from the drivers beyond the first that are still open.
      */
  function CountAfter(s: System, step: Step, t: System, r: nat, count: nat): nat
    requires WellFormed(s) && Enabled(s, step)
  {
    if Resets(s, step, r) then Others(t, r) else if IsIrregular(s, step, r) then count + 1 else count
  }

  /** The irregular steps since the last reset, and the drivers beyond the first that were open at it. */
  ghost function Irregular(run: Run, i: nat, r: nat): nat
    requires IsRun(run) && i < |run.states|
  {
    if i == 0 then 0
    else CountAfter(run.states[i - 1], run.steps[i - 1], run.states[i], r, Irregular(run, i - 1, r))
  }

  /** How many failures one reset or irregular step allows for. */
  function Share(cap: nat): nat { Max(1, cap) }

  /** One share for the last reset, and one for each irregular step since. */
  function Budget(cap: nat, irregular: nat): nat {
    if irregular == 0 then Share(cap) else Budget(cap, irregular - 1) + Share(cap)
  }

  /** The failures left to a driver that read so many attempts: its own, and those of the retries it arms. */
  function DriverLeft(attempts: nat, cap: nat): nat {
    if 0 < TruncU32(attempts + 1) < cap then 1 + cap - TruncU32(attempts + 1) else 1
  }

  /** The failures left to a row the sweeps pick up. */
  function RowLeft(row: Row, cap: nat): nat {
    if IsWorkState(row.state) then DriverLeft(row.attempts, cap)
    else if row.nextRetry.Some? && TruncU32(row.attempts) < cap then cap - TruncU32(row.attempts)
    else 0
  }

  /** The failures since the last reset, and one more for each driver beyond the first. */
  function Used(s: System, r: nat): nat
    requires r < |s.tallies|
  {
    s.tallies[r].failuresSinceReset + Others(s, r)
  }

  ghost predicate RowPaid(s: System, r: nat, budget: nat)
    requires WellFormed(s) && r < |s.rows|
  {
    Used(s, r) + RowLeft(s.rows[r], CapOf(s, s.rows[r].rtype)) <= budget
  }

  ghost predicate DriverPaid(s: System, w: WorkerId, budget: nat)
    requires WellFormed(s) && Drives(s, w)
  {
    var r := s.workers[w].row;
    Used(s, r) + DriverLeft(s.workers[w].snap.attempts, CapOf(s, s.rows[r].rtype)) <= budget
  }

  /** What is used, with what is left to the row or to any of its drivers, is within the budget. */
  ghost predicate Paid(s: System, r: nat, budget: nat)
    requires WellFormed(s) && r < |s.rows|
  {
    RowPaid(s, r, budget) && forall w :: w in DriversOf(s, r) ==> DriverPaid(s, w, budget)
  }

  function BudgetAfter(s: System, step: Step, t: System, r: nat, budget: nat): nat
    requires WellFormed(s) && Enabled(s, step) && r < |s.rows|
  {
    var cap := CapOf(s, s.rows[r].rtype);
    if Resets(s, step, r) then Budget(cap, Others(t, r))
    else if IsIrregular(s, step, r) then budget + Share(cap) else budget
  }

  lemma BudgetCounts(s: System, step: Step, t: System, r: nat, count: nat)
    requires WellFormed(s) && Enabled(s, step) && r < |s.rows|
    ensures var cap := CapOf(s, s.rows[r].rtype);
            BudgetAfter(s, step, t, r, Budget(cap, count)) == Budget(cap, CountAfter(s, step, t, r, count))
  {
  }

  // ---- What a step does to the drivers of a row ----

  lemma DriversStep(s: System, step: Step, r: nat)
    requires WellFormed(s) && Enabled(s, step)
    ensures DriversOf(Next(s, step), r) <= DriversOf(s, r) + if WinsRow(s, step, r) then {step.worker} else {}
    ensures FailsRow(s, step, r) ==> step.worker in DriversOf(s, r) && step.worker !in DriversOf(Next(s, step), r)
  {
    forall w | w in DriversOf(Next(s, step), r)
      ensures w in DriversOf(s, r) + if WinsRow(s, step, r) then {step.worker} else {}
    {
      WorkerFrame(s, step, w);
    }
    if FailsRow(s, step, r) && step.worker in DriversOf(Next(s, step), r) { WorkerFrame(s, step, step.worker); }
  }

  lemma OthersStep(s: System, step: Step, r: nat)
    requires WellFormed(s) && Enabled(s, step)
    ensures Others(Next(s, step), r) <= Others(s, r) + if Crowds(s, step, r) then 1 else 0
    ensures FailsRow(s, step, r) && DriversOf(Next(s, step), r) != {} ==> Others(Next(s, step), r) < Others(s, r)
  {
    DriversStep(s, step, r);
    var before, after := DriversOf(s, r), DriversOf(Next(s, step), r);
    if FailsRow(s, step, r) {
      SubsetCount(after, before - {step.worker});
    } else if WinsRow(s, step, r) {
      SubsetCount(after, before + {step.worker});
    } else {
      SubsetCount(after, before);
    }
  }

  lemma FailuresStay(s: System, step: Step, r: nat)
    requires WellFormed(s) && Enabled(s, step) && r < |s.rows| && !FailsRow(s, step, r)
    ensures r < |Next(s, step).tallies|
    ensures Next(s, step).tallies[r].failuresSinceReset
            <= if Resets(s, step, r) then 0 else s.tallies[r].failuresSinceReset
  {
    if Written(s, step) != Some(r) { RowFrame(s, step, r); }
  }

  lemma FailuresGrow(s: System, step: Step, r: nat)
    requires WellFormed(s) && Enabled(s, step) && r < |s.rows| && FailsRow(s, step, r)
    ensures r < |Next(s, step).tallies|
    ensures Next(s, step).tallies[r].failuresSinceReset == s.tallies[r].failuresSinceReset + 1
  {
  }

  /** A failure of the only driver uses one more; one of several gives back what it stood for. */
  lemma UsedStep(s: System, step: Step, r: nat)
    requires WellFormed(s) && Enabled(s, step) && r < |s.rows|
    ensures r < |Next(s, step).tallies|
    ensures var lone, crowd := FailsRow(s, step, r) && DriversOf(Next(s, step), r) == {}, Crowds(s, step, r);
            Used(Next(s, step), r)
            <= if Resets(s, step, r) then Others(Next(s, step), r) else Used(s, r) + if lone || crowd then 1 else 0
  {
    if FailsRow(s, step, r) { FailuresGrow(s, step, r); } else { FailuresStay(s, step, r); }
    OthersStep(s, step, r);
  }

  // ---- A step keeps the budget ----

  lemma {:induction false} BudgetCovers(cap: nat, k: nat)
    ensures k + Share(cap) <= Budget(cap, k)
  {
    if k > 0 { BudgetCovers(cap, k - 1); }
  }

  /** A failure leaves the row what its driver had left beyond it, or, if the count wraps, at most a share. */
  lemma FailureLeaves(s: System, step: Step, r: nat)
    requires WellFormed(s) && Enabled(s, step) && SnapshotsTyped(s) && r < |s.rows| && FailsRow(s, step, r)
    ensures r < |Next(s, step).rows|
    ensures var cap, left := CapOf(s, s.rows[r].rtype), RowLeft(Next(s, step).rows[r], CapOf(s, s.rows[r].rtype));
            && left <= Share(cap)
            && (Wraps(s, step, r) || left < DriverLeft(s.workers[step.worker].snap.attempts, cap))
  {
  }

  /** Any other step leaves it at most a share, and no more than before unless it resets or redirects the row. */
  lemma RowLeftStep(s: System, step: Step, r: nat)
    requires WellFormed(s) && Enabled(s, step) && r < |s.rows| && !FailsRow(s, step, r)
    ensures r < |Next(s, step).rows|
    ensures var cap, left := CapOf(s, s.rows[r].rtype), RowLeft(Next(s, step).rows[r], CapOf(s, s.rows[r].rtype));
            left <= Share(cap)
            && (!Redirects(step, r) && !Resets(s, step, r) ==> left <= RowLeft(s.rows[r], cap))
  {
    RowFrame(s, step, r);
  }

  /** A failure of a driver moves its allowance to the row. */
  lemma FailedRowPaid(s: System, step: Step, r: nat, budget: nat)
    requires WellFormed(s) && Enabled(s, step) && SnapshotsTyped(s) && r < |s.rows| && Paid(s, r, budget)
    requires FailsRow(s, step, r)
    ensures WellFormed(Next(s, step)) && RowPaid(Next(s, step), r, BudgetAfter(s, step, Next(s, step), r, budget))
  {
    WellFormedAlways(s, step);
    TypesNeverChange(s, step, r);
    UsedStep(s, step, r);
    FailureLeaves(s, step, r);
    DriversStep(s, step, r);
    assert DriverPaid(s, step.worker, budget);
  }

  lemma RowPaidStep(s: System, step: Step, r: nat, budget: nat)
    requires WellFormed(s) && Enabled(s, step) && r < |s.rows| && RowPaid(s, r, budget)
    requires !FailsRow(s, step, r)
    ensures WellFormed(Next(s, step)) && RowPaid(Next(s, step), r, BudgetAfter(s, step, Next(s, step), r, budget))
  {
    WellFormedAlways(s, step);
    TypesNeverChange(s, step, r);
    UsedStep(s, step, r);
    RowLeftStep(s, step, r);
    BudgetCovers(CapOf(s, s.rows[r].rtype), Others(Next(s, step), r));
  }

  lemma DriverLeftFits(attempts: nat, cap: nat)
    ensures 1 <= DriverLeft(attempts, cap) <= Share(cap)
  {
  }

  /** A driver that goes on. */
  lemma DriverPaidStep(s: System, step: Step, r: nat, w: WorkerId, budget: nat)
    requires WellFormed(s) && Enabled(s, step) && r < |s.rows| && Paid(s, r, budget)
    requires w in DriversOf(s, r) && w in DriversOf(Next(s, step), r)
    ensures WellFormed(Next(s, step)) && DriverPaid(Next(s, step), w, BudgetAfter(s, step, Next(s, step), r, budget))
  {
    WellFormedAlways(s, step);
    WorkerFrame(s, step, w);
    TypesNeverChange(s, step, r);
    UsedStep(s, step, r);
    var cap := CapOf(s, s.rows[r].rtype);
    BudgetCovers(cap, Others(Next(s, step), r));
    DriverLeftFits(s.workers[w].snap.attempts, cap);
    assert DriverPaid(s, w, budget);
  }

  /** A sweep's claim of a row nobody drives moves the row's allowance to the worker; any other is granted one. */
  lemma ClaimPaid(s: System, step: Step, r: nat, w: WorkerId, budget: nat)
    requires WellFormed(s) && Enabled(s, step) && r < |s.rows| && Paid(s, r, budget) && ArmedBelowCap(s, r)
    requires step.Claim? && step.worker == w && WinsRow(s, step, r)
    ensures WellFormed(Next(s, step)) && Drives(Next(s, step), w)
    ensures DriverPaid(Next(s, step), w, BudgetAfter(s, step, Next(s, step), r, budget))
  {
    WellFormedAlways(s, step);
    UsedStep(s, step, r);
    DriverLeftFits(s.workers[w].snap.attempts, CapOf(s, s.rows[r].rtype));
    if v :| v in DriversOf(s, r) {
      assert DriverPaid(s, v, budget);
      DriverLeftFits(s.workers[v].snap.attempts, CapOf(s, s.rows[r].rtype));
    }
  }

  lemma DriversPaidStep(s: System, step: Step, r: nat, budget: nat)
    requires WellFormed(s) && Enabled(s, step) && r < |s.rows| && ArmedBelowCap(s, r) && Paid(s, r, budget)
    ensures WellFormed(Next(s, step))
    ensures forall w :: w in DriversOf(Next(s, step), r) ==>
              DriverPaid(Next(s, step), w, BudgetAfter(s, step, Next(s, step), r, budget))
  {
    WellFormedAlways(s, step);
    DriversStep(s, step, r);
    forall w | w in DriversOf(Next(s, step), r)
      ensures DriverPaid(Next(s, step), w, BudgetAfter(s, step, Next(s, step), r, budget))
    {
      if w in DriversOf(s, r) { DriverPaidStep(s, step, r, w, budget); } else { ClaimPaid(s, step, r, w, budget); }
    }
  }

  lemma PaidStep(s: System, step: Step, r: nat, count: nat)
    requires WellFormed(s) && Enabled(s, step) && SnapshotsTyped(s) && r < |s.rows| && ArmedBelowCap(s, r)
    requires Paid(s, r, Budget(CapOf(s, s.rows[r].rtype), count))
    ensures WellFormed(Next(s, step)) && r < |Next(s, step).rows|
    ensures Paid(Next(s, step), r,
                 Budget(CapOf(s, s.rows[r].rtype), CountAfter(s, step, Next(s, step), r, count)))
  {
    var budget := Budget(CapOf(s, s.rows[r].rtype), count);
    TypesNeverChange(s, step, r);
    if FailsRow(s, step, r) { FailedRowPaid(s, step, r, budget); } else { RowPaidStep(s, step, r, budget); }
    DriversPaidStep(s, step, r, budget);
    BudgetCounts(s, step, Next(s, step), r, count);
  }

  lemma NobodyDrivesNew(s: System, step: Step, r: nat)
    requires WellFormed(s) && Enabled(s, step) && |s.rows| <= r
    ensures DriversOf(Next(s, step), r) == {}
  {
    forall w | w in DriversOf(Next(s, step), r) ensures false { WorkerFrame(s, step, w); }
  }

  lemma NewRow(s: System, step: Step, r: nat)
    requires WellFormed(s) && Enabled(s, step) && |s.rows| <= r < |Next(s, step).rows|
    ensures r < |Next(s, step).tallies| && Next(s, step).tallies[r].failuresSinceReset == 0
    ensures Next(s, step).rows[r].attempts == 0 && Next(s, step).rows[r].nextRetry.None?
    ensures Next(s, step).settings == s.settings
  {
    RowsStay(s, step);
    if Written(s, step).Some? { WrittenRows(s, step, Written(s, step).value); }
  }

  lemma NewRowPaid(s: System, step: Step, r: nat, budget: nat)
    requires WellFormed(s) && Enabled(s, step) && |s.rows| <= r < |Next(s, step).rows|
    requires budget >= Share(CapOf(s, Next(s, step).rows[r].rtype))
    ensures WellFormed(Next(s, step)) && Paid(Next(s, step), r, budget)
  {
    WellFormedAlways(s, step);
    NobodyDrivesNew(s, step, r);
    NewRow(s, step, r);
    DriverLeftFits(0, CapOf(s, Next(s, step).rows[r].rtype));
  }

  ghost predicate PaidAt(run: Run, i: nat, r: nat)
    requires IsRun(run) && i < |run.states| && r < |run.states[i].rows|
  {
    Paid(run.states[i], r, Budget(CapOf(run.states[i], run.states[i].rows[r].rtype), Irregular(run, i, r)))
  }

  lemma PaidAfter(run: Run, i: nat, r: nat)
    requires IsRun(run) && i < |run.steps| && r < |run.states[i].rows| && PaidAt(run, i, r)
    ensures r < |run.states[i + 1].rows| && PaidAt(run, i + 1, r)
  {
    DeadlinesArmedBelowCap(run, i, r);
    TypesNeverChange(run.states[i], run.steps[i], r);
    PaidStep(run.states[i], run.steps[i], r, Irregular(run, i, r));
  }

  lemma PaidAtFirst(run: Run, i: nat, r: nat)
    requires IsRun(run) && i < |run.steps| && |run.states[i].rows| <= r < |run.states[i + 1].rows|
    ensures PaidAt(run, i + 1, r)
  {
    var t, k := run.states[i + 1], Irregular(run, i + 1, r);
    var cap := CapOf(t, t.rows[r].rtype);
    BudgetCovers(cap, k);
    NewRowPaid(run.states[i], run.steps[i], r, Budget(cap, k));
  }

  lemma {:induction false} PaidAlways(run: Run, i: nat, r: nat)
    requires IsRun(run) && i < |run.states| && r < |run.states[i].rows|
    ensures PaidAt(run, i, r)
  {
    if i > 0 {
      if r < |run.states[i - 1].rows| {
        PaidAlways(run, i - 1, r);
        PaidAfter(run, i - 1, r);
      } else {
        PaidAtFirst(run, i - 1, r);
      }
    }
  }

  lemma {:induction false} BudgetIsProduct(cap: nat, irregular: nat)
    ensures Budget(cap, irregular) == (irregular + 1) * Max(1, cap)
  {
    if irregular > 0 { BudgetIsProduct(cap, irregular - 1); }
  }

  /** In every run whatsoever the failures of a row since its last reset are at most max(1, cap), and as many again for
      each irregular step since then and each driver beyond the first that was open at the reset (`BudgetIsProduct`);
      also when the attempt count outgrows the 32 bits it is compared in. */
  lemma FailuresBounded(run: Run, i: nat, r: nat)
    requires IsRun(run) && i < |run.states| && r < |run.states[i].rows|
    ensures run.states[i].tallies[r].failuresSinceReset
            <= Budget(CapOf(run.states[i], run.states[i].rows[r].rtype), Irregular(run, i, r))
  {
    PaidAlways(run, i, r);
  }

  // ---- Runs whose claims are those of the sweeps ----

  /** No teardown is requested for the row, no cascade moves it, and all its claims are sweep claims. */
  ghost predicate OnlySwept(run: Run, r: nat)
    requires IsRun(run)
  {
    forall i :: 0 <= i < |run.steps| ==> !Redirects(run.steps[i], r) && SweepClaim(run.states[i], run.steps[i], r)
  }

  /** Outstanding rows start from zero, and whoever drives a row read zero or an armed row. */
  ghost predicate Modest(s: System, r: nat)
    requires WellFormed(s) && r < |s.rows|
  {
    && (IsWorkState(s.rows[r].state) ==> s.rows[r].attempts == 0)
    && (forall w :: Drives(s, w) && s.workers[w].row == r ==> ModestDriver(s, w, CapOf(s, s.rows[r].rtype)))
  }

  predicate ModestDriver(s: System, w: WorkerId, cap: U32)
    requires w in s.workers
  {
    s.workers[w].snap.attempts == 0 || TruncU32(s.workers[w].snap.attempts) < cap
  }

  lemma ModestRowStep(s: System, step: Step, r: nat)
    requires WellFormed(s) && Enabled(s, step) && r < |s.rows| && !Redirects(step, r)
    requires IsWorkState(s.rows[r].state) ==> s.rows[r].attempts == 0
    ensures r < |Next(s, step).rows|
    ensures IsWorkState(Next(s, step).rows[r].state) ==> Next(s, step).rows[r].attempts == 0
  {
    RowFrame(s, step, r);
  }

  lemma ModestStep(s: System, step: Step, r: nat)
    requires WellFormed(s) && Enabled(s, step) && r < |s.rows| && ArmedBelowCap(s, r) && Modest(s, r)
    requires !Redirects(step, r) && SweepClaim(s, step, r)
    ensures WellFormed(Next(s, step)) && r < |Next(s, step).rows| && Modest(Next(s, step), r)
  {
    WellFormedAlways(s, step);
    ModestRowStep(s, step, r);
    TypesNeverChange(s, step, r);
    forall w | Drives(Next(s, step), w) && Next(s, step).workers[w].row == r
      ensures ModestDriver(Next(s, step), w, CapOf(s, s.rows[r].rtype))
    {
      WorkerFrame(s, step, w);
    }
  }

  lemma ModestNeverWraps(s: System, step: Step, r: nat)
    requires WellFormed(s) && Enabled(s, step) && r < |s.rows| && Modest(s, r)
    ensures !Wraps(s, step, r)
  {
    if FailsRow(s, step, r) { assert Drives(s, step.worker); }
  }

  /** Under mutual exclusion nobody takes a row from a live worker, and there is never a second driver. */
  lemma ExclusiveIsRegular(s: System, step: Step, r: nat)
    requires MutualExclusion.Invariant(s) && Enabled(s, step) && HeartbeatsLand(s)
    ensures !Crowds(s, step, r) && Others(s, r) == 0
  {
    if Crowds(s, step, r) {
      var v :| v in DriversOf(s, r);
      MutualExclusion.ClaimsAreFresh(s, step, step.worker, v);
    }
    NoOthers(s, r);
  }

  lemma NoOthers(s: System, r: nat)
    requires MutualExclusion.Exclusive(s)
    ensures Others(s, r) == 0
  {
    if v :| v in DriversOf(s, r) {
      SubsetCount(DriversOf(s, r), {v});
    }
  }

  lemma ModestAfter(run: Run, i: nat, r: nat)
    requires IsRun(run) && OnlySwept(run, r) && i < |run.steps| && r < |run.states[i + 1].rows|
    requires r < |run.states[i].rows| ==> Modest(run.states[i], r)
    ensures Modest(run.states[i + 1], r)
  {
    var s, step := run.states[i], run.steps[i];
    if r < |s.rows| {
      DeadlinesArmedBelowCap(run, i, r);
      ModestStep(s, step, r);
    } else {
      NewRow(s, step, r);
      forall w | Drives(Next(s, step), w) ensures Next(s, step).workers[w].row != r { WorkerFrame(s, step, w); }
    }
  }

  lemma {:induction false} ModestAlways(run: Run, i: nat, r: nat)
    requires IsRun(run) && OnlySwept(run, r) && i < |run.states| && r < |run.states[i].rows|
    ensures Modest(run.states[i], r)
  {
    if i > 0 {
      if r < |run.states[i - 1].rows| { ModestAlways(run, i - 1, r); }
      ModestAfter(run, i - 1, r);
    }
  }

  /** Nobody drives, claims or fails a row that does not exist. */
  lemma RegularStep(run: Run, i: nat, r: nat)
    requires IsRun(run) && Punctual(run) && RearmsFree(run) && OnlySwept(run, r) && i < |run.steps|
    ensures !IsIrregular(run.states[i], run.steps[i], r)
  {
    MutualExclusion.InvariantHolds(run, i);
    ExclusiveIsRegular(run.states[i], run.steps[i], r);
    if r < |run.states[i].rows| {
      ModestAlways(run, i, r);
      ModestNeverWraps(run.states[i], run.steps[i], r);
    }
  }

  lemma NobodyElse(run: Run, i: nat, r: nat)
    requires IsRun(run) && Punctual(run) && RearmsFree(run) && i < |run.states|
    ensures Others(run.states[i], r) == 0
  {
    MutualExclusion.InvariantHolds(run, i);
    NoOthers(run.states[i], r);
  }

  lemma {:induction false} NothingIrregular(run: Run, i: nat, r: nat)
    requires IsRun(run) && Punctual(run) && RearmsFree(run) && OnlySwept(run, r) && i < |run.states|
    ensures Irregular(run, i, r) == 0
  {
    if i > 0 {
      RegularStep(run, i - 1, r);
      NobodyElse(run, i, r);
      NothingIrregular(run, i - 1, r);
    }
  }

  /** Between resets a row that is only swept, and neither torn down nor moved by a cascade, records at most
      max(1, cap) failures. */
  lemma FailuresBetweenResetsBounded(run: Run, i: nat, r: nat)
    requires IsRun(run) && Punctual(run) && RearmsFree(run) && OnlySwept(run, r)
    requires i < |run.states| && r < |run.states[i].rows|
    ensures run.states[i].tallies[r].failuresSinceReset <= Max(1, CapOf(run.states[i], run.states[i].rows[r].rtype))
  {
    NothingIrregular(run, i, r);
    FailuresBounded(run, i, r);
  }

  // ---- Rows that reached their cap ----

  /** A failed row without a deadline that nobody drives. */
  ghost predicate AtRest(s: System, r: nat)
    requires WellFormed(s) && r < |s.rows|
  {
    && s.rows[r].state in {Failed, DestroyFailed}
    && s.rows[r].nextRetry.None?
    && (forall w :: Drives(s, w) ==> s.workers[w].row != r)
  }

  /** Somebody asks for the row: a manual retry, an in-place update, a teardown request, a cascade, or a claim that no
      atomic sweep makes. */
  predicate Asked(s: System, step: Step, r: nat)
    requires WellFormed(s) && Enabled(s, step)
  {
    step == Retry(r) || (step.Reapply? && s.pending[step.rearm].row == r) || Redirects(step, r)
        || !SweepClaim(s, step, r)
  }

  lemma AtRestStep(s: System, step: Step, r: nat)
    requires WellFormed(s) && Enabled(s, step) && r < |s.rows| && AtRest(s, r) && !Asked(s, step, r)
    ensures WellFormed(Next(s, step)) && r < |Next(s, step).rows|
    ensures Next(s, step).rows[r] == s.rows[r] && AtRest(Next(s, step), r)
  {
    WellFormedAlways(s, step);
    RowFrame(s, step, r);
    if step.Finish? || step.Fail? || step.Heartbeat? {
      assert Drives(s, step.worker);
    }
    forall w | Drives(Next(s, step), w) ensures Next(s, step).workers[w].row != r { WorkerFrame(s, step, w); }
  }

  lemma AtRestAfter(run: Run, k: nat, r: nat)
    requires IsRun(run) && k < |run.steps| && r < |run.states[k].rows| && AtRest(run.states[k], r)
    requires !Asked(run.states[k], run.steps[k], r)
    ensures r < |run.states[k + 1].rows| && run.states[k + 1].rows[r] == run.states[k].rows[r]
    ensures AtRest(run.states[k + 1], r)
  {
    AtRestStep(run.states[k], run.steps[k], r);
  }

  /** A capped row is a fixpoint of every automatic step, for as long as nobody asks for it. */
  lemma {:induction false} CappedRowRests(run: Run, i: nat, j: nat, r: nat)
    requires IsRun(run) && i <= j < |run.states| && r < |run.states[i].rows| && AtRest(run.states[i], r)
    requires forall k :: i <= k < j ==> !Asked(run.states[k], run.steps[k], r)
    ensures r < |run.states[j].rows| && run.states[j].rows[r] == run.states[i].rows[r] && AtRest(run.states[j], r)
    decreases j - i
  {
    if i < j {
      AtRestAfter(run, i, r);
      CappedRowRests(run, i + 1, j, r);
    }
  }

  /** A worker read the row as failed and has not claimed it yet, and nobody holds the row. */
  predicate ReadBy(s: System, r: nat, w: WorkerId) {
    && r < |s.rows| && s.rows[r].state == Failed && s.rows[r].owner.None?
    && w in s.workers && s.workers[w].phase.Fetched? && s.workers[w].row == r && s.workers[w].snap.state == Failed
  }

  /** The row after an apply that had read `snap` fails. */
  function FailedApply(s: System, row: Row, snap: Row, error: string): Row {
    var next := NextDeadline(snap.attempts + 1, RetryPolicyFor(s.settings, snap.rtype), s.now);
    MarkedFailed(row, Failed, error, snap.attempts + 1, next, s.now)
  }

  lemma ReaderClaims(run: Run, r: nat, w: WorkerId) returns (longer: Run)
    requires IsRun(run) && ReadBy(LastOf(run), r, w)
    ensures IsRun(longer) && Extends(longer, run)
    ensures var s, t := LastOf(run), LastOf(longer);
            && t.workers == s.workers[w := s.workers[w].(phase := Running)] && t.settings == s.settings
               && t.now == s.now
            && t.rows == s.rows[r := Claimed(s.rows[r], s.workers[w].inst, s.now)]
            && |t.tallies| == |s.tallies| && t.tallies[r].failuresSinceReset == s.tallies[r].failuresSinceReset
  {
    longer := OneMore(run, Claim(w, LastOf(run).now - STALE_SECS));
  }

  lemma ApplyFails(run: Run, w: WorkerId, error: string) returns (longer: Run)
    requires IsRun(run) && w in LastOf(run).workers && LastOf(run).workers[w].phase.Running?
    requires LastOf(run).workers[w].snap.state == Failed
    ensures IsRun(longer) && Extends(longer, run)
    ensures var s, t, r := LastOf(run), LastOf(longer), LastOf(run).workers[w].row;
            && t.workers == s.workers - {w} && t.settings == s.settings && t.now == s.now
            && t.rows == s.rows[r := FailedApply(s, s.rows[r], s.workers[w].snap, error)]
            && |t.tallies| == |s.tallies| && t.tallies[r].failuresSinceReset == s.tallies[r].failuresSinceReset + 1
  {
    longer := OneMore(run, Fail(w, error));
  }

  /** A reader of a failed row wins it, and its apply fails: one more failure, counted from what it had read. */
  lemma ReaderFails(run: Run, r: nat, w: WorkerId, error: string) returns (longer: Run)
    requires IsRun(run) && ReadBy(LastOf(run), r, w)
    ensures IsRun(longer) && Extends(longer, run)
    ensures var s, t := LastOf(run), LastOf(longer);
            && t.workers == s.workers - {w} && t.settings == s.settings && t.now == s.now
            && t.rows == s.rows[r := FailedApply(s, s.rows[r], s.workers[w].snap, error)]
            && |t.tallies| == |s.tallies| && t.tallies[r].failuresSinceReset == s.tallies[r].failuresSinceReset + 1
  {
    longer := ReaderClaims(run, r, w);
    longer := ApplyFails(longer, w, error);
  }

  /** The row is one attempt below its cap, two workers have read it so, and nobody drives it. */
  predicate ReadByTwo(s: System, r: nat, v: WorkerId, w: WorkerId) {
    && v != w && ReadBy(s, r, v) && ReadBy(s, r, w) && s.workers[v].snap == s.rows[r] && s.workers[w].snap == s.rows[r]
    && s.rows[r].attempts + 1 == CapOf(s, s.rows[r].rtype)
  }

  /** The first of the two failures makes the row rest, with the second reader's claim still to come. */
  lemma FirstReaderRests(run: Run, r: nat, v: WorkerId, w: WorkerId, error: string) returns (rested: Run)
    requires IsRun(run) && ReadByTwo(LastOf(run), r, v, w)
    requires forall u :: Drives(LastOf(run), u) ==> LastOf(run).workers[u].row != r
    ensures IsRun(rested) && Extends(rested, run) && r < |LastOf(rested).rows| && AtRest(LastOf(rested), r)
    ensures ReadBy(LastOf(rested), r, w)
    ensures LastOf(rested).tallies[r].failuresSinceReset == LastOf(run).tallies[r].failuresSinceReset + 1
  {
    rested := ReaderFails(run, r, v, error);
  }

  /** Reading and claiming are two steps in the code, and the claim compares the state alone. So when two workers have
      read a row one attempt below its cap, the first failure makes it rest and the second worker still wins it, and
      records one failure more. */
  lemma SecondReaderPassesCap(run: Run, r: nat, v: WorkerId, w: WorkerId, error: string)
    returns (rested: Run, longer: Run)
    requires IsRun(run) && ReadByTwo(LastOf(run), r, v, w)
    requires forall u :: Drives(LastOf(run), u) ==> LastOf(run).workers[u].row != r
    ensures IsRun(rested) && Extends(rested, run) && r < |LastOf(rested).rows| && AtRest(LastOf(rested), r)
    ensures IsRun(longer) && Extends(longer, rested) && r < |LastOf(longer).rows|
    ensures LastOf(longer).tallies[r].failuresSinceReset == LastOf(run).tallies[r].failuresSinceReset + 2
  {
    rested := FirstReaderRests(run, r, v, w, error);
    longer := ReaderFails(rested, r, w, error);
  }

  /** The cap lives in the sweep alone: a drive started by anything else, such as fulfilling the request again,
      claims a resting row although no deadline is armed. */
  lemma DirectDriveIgnoresCap(s: System, r: nat, w: WorkerId, inst: Instance)
    requires WellFormed(s) && r < |s.rows| && AtRest(s, r) && s.rows[r].owner.None?
    requires w !in s.workers && inst !in s.dead
    ensures Enabled(s, Fetch(w, r, inst))
    ensures var t := Next(s, Fetch(w, r, inst));
            WellFormed(t) && Enabled(t, Claim(w, t.now - STALE_SECS)) && WinsClaim(t, Claim(w, t.now - STALE_SECS), w)
            && !SweepClaim(t, Claim(w, t.now - STALE_SECS), r)
  {
  }
}
