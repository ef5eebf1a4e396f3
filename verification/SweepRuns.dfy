/** Sweeps of the reconciler, performed drive by drive, are runs of the protocol. */
module SweepRuns {
  import opened Prelude
  import opened Listings
  import opened ResourceRows
  import opened RetryPolicies
  import opened WorkerProtocol
  import opened ReconcilePasses
  import opened CrashRecovery
  import AutoRetry

  /** The worker id and the instance are free to drive. */
  predicate CanDrive(s: System, w: WorkerId, inst: Instance) { w !in s.workers && inst !in s.dead }

  /** Same clock, workers, crashes and settings. */
  predicate SameSurroundings(a: System, b: System) {
    a.now == b.now && a.workers == b.workers && a.dead == b.dead && a.settings == b.settings
  }

  /** The row needs an operation and nobody holds it. */
  predicate IsFree(s: System, r: nat) {
    r < |s.rows| && ActionFor(s.rows[r].state).Some? && Unheld(s.rows[r], s.now - STALE_SECS)
  }

  lemma ClaimIsARun(run: Run, r: nat, w: WorkerId, inst: Instance) returns (longer: Run)
    requires IsRun(run) && IsFree(LastOf(run), r) && CanDrive(LastOf(run), w, inst)
    ensures IsRun(longer) && Extends(longer, run) && ClaimedFrom(LastOf(run), LastOf(longer), r, w, inst)
  {
    FreeRowIsClaimed(LastOf(run), r, w, inst);
    longer := OneMore(run, Fetch(w, r, inst));
    longer := OneMore(longer, Claim(w, LastOf(run).now - STALE_SECS));
  }

  /** What a drive makes of a row, given what its connector answers. */
  function Driven(s: System, r: nat, inst: Instance, reply: Result<Json, string>): Row
    requires r < |s.rows|
  {
    match reply
    case Ok(outputs) => Recovered(s.rows[r], inst, outputs, s.now)
    case Err(error) => AutoRetry.AfterFailure(s.rows[r], error, RetryPolicyFor(s.settings, s.rows[r].rtype), s.now)
  }

  /** A free row, outstanding or failed, can be driven to its end by four steps, whatever its connector answers. */
  lemma DriveIsARun(run: Run, r: nat, w: WorkerId, inst: Instance, reply: Result<Json, string>) returns (longer: Run)
    requires IsRun(run) && IsFree(LastOf(run), r) && CanDrive(LastOf(run), w, inst)
    ensures IsRun(longer) && Extends(longer, run) && SameSurroundings(LastOf(longer), LastOf(run))
    ensures LastOf(longer).rows == LastOf(run).rows[r := Driven(LastOf(run), r, inst, reply)]
  {
    longer := ClaimIsARun(run, r, w, inst);
    match reply
    case Ok(outputs) =>
      ClaimedSucceeds(LastOf(run), LastOf(longer), r, w, inst, outputs);
      longer := OneMore(longer, Succeed(w, outputs));
      SucceededIsRecovered(LastOf(run), LastOf(longer), r, w, inst, outputs);
      longer := OneMore(longer, Finish(w));
    case Err(error) =>
      ClaimedIsFailed(LastOf(run), LastOf(longer), r, w, inst, error);
      longer := OneMore(longer, Fail(w, error));
  }

  /** A failing retry at its deadline. */
  lemma RetryIsARun(run: Run, r: nat, w: WorkerId, inst: Instance, error: string) returns (longer: Run)
    requires IsRun(run) && r < |LastOf(run).rows| && CanDrive(LastOf(run), w, inst)
    requires var row := LastOf(run).rows[r];
             row.state in {Failed, DestroyFailed} && row.owner.None? && row.nextRetry.Some?
    ensures IsRun(longer) && Extends(longer, run) && r < |LastOf(longer).rows| && CanDrive(LastOf(longer), w, inst)
    ensures var s, t := LastOf(run), LastOf(longer);
            && t.now == Max(s.now, s.rows[r].nextRetry.value) && t.settings == s.settings
            && t.rows[r] == AutoRetry.AfterFailure(s.rows[r], error, RetryPolicyFor(s.settings, s.rows[r].rtype), t.now)
  {
    var s := LastOf(run);
    longer := OneMore(run, Tick(Max(s.now, s.rows[r].nextRetry.value) - s.now));
    longer := DriveIsARun(longer, r, w, inst, Err(error));
  }

  /** The retry sweep: the failing retries of a row, each at its deadline, are a run, and leave the row that has no
      deadline any more once there are as many as its rank. */
  lemma {:induction false} RetriesAreARun(run: Run, r: nat, w: WorkerId, inst: Instance, errors: seq<string>)
    returns (longer: Run)
    requires IsRun(run) && r < |LastOf(run).rows| && CanDrive(LastOf(run), w, inst)
    requires LastOf(run).rows[r].state in {Failed, DestroyFailed} && LastOf(run).rows[r].owner.None?
    ensures IsRun(longer) && Extends(longer, run) && r < |LastOf(longer).rows|
    ensures var s := LastOf(run);
            LastOf(longer).rows[r] == AutoRetry.FailAll(s.rows[r], errors, RetryPolicyFor(s.settings, s.rows[r].rtype),
                                                        s.now)
    decreases |errors|
  {
    longer := run;
    if errors != [] && LastOf(run).rows[r].nextRetry.Some? {
      longer := RetryIsARun(run, r, w, inst, errors[0]);
      longer := RetriesAreARun(longer, r, w, inst, errors[1..]);
    }
  }

  function FirstOf(pass: Pass, n: nat): Pass
    requires n <= |pass.ids|
  {
    pass.(ids := pass.ids[..n])
  }

  lemma OneMoreRow(rows: seq<Row>, pass: Pass, n: nat)
    requires n < |pass.ids| && Distinct(pass.ids) && pass.ids[n] < |rows|
    ensures var part, r := AfterPass(rows, FirstOf(pass, n)), pass.ids[n];
            part[r] == rows[r] && AfterPass(rows, FirstOf(pass, n + 1))
                == part[r := Recovered(rows[r], pass.inst, pass.outputs, pass.now)]
  {
    assert pass.ids[..n + 1] == pass.ids[..n] + [pass.ids[n]];
  }

  /** What a sweep lists: distinct rows, each of them free and outstanding. */
  ghost predicate ListsFree(rows: seq<Row>, pass: Pass) {
    && Distinct(pass.ids)
    && forall i :: 0 <= i < |pass.ids| ==> pass.ids[i] < |rows| && Reclaimable(rows[pass.ids[i]], pass.now - STALE_SECS)
  }

  lemma SweepListsFree(rows: seq<Row>, pass: Pass)
    requires IsSweep(rows, pass)
    ensures ListsFree(rows, pass)
  {
  }

  /** One more listed row is driven. */
  lemma SweepStep(start: System, run: Run, pass: Pass, w: WorkerId, n: nat) returns (longer: Run)
    requires IsRun(run) && ListsFree(start.rows, pass) && n < |pass.ids| && CanDrive(start, w, pass.inst)
    requires SameSurroundings(LastOf(run), start) && pass.now == start.now
    requires LastOf(run).rows == AfterPass(start.rows, FirstOf(pass, n))
    ensures IsRun(longer) && Extends(longer, run) && SameSurroundings(LastOf(longer), start)
    ensures LastOf(longer).rows == AfterPass(start.rows, FirstOf(pass, n + 1))
  {
    OneMoreRow(start.rows, pass, n);
    longer := DriveIsARun(run, pass.ids[n], w, pass.inst, Ok(pass.outputs));
  }

  /** Driving the first `n` listed rows of a sweep one after the other is a run that leaves the table of that part of
      the sweep. */
  lemma {:induction false} SweepIsARun(run: Run, pass: Pass, w: WorkerId, n: nat) returns (longer: Run)
    requires IsRun(run) && ListsFree(LastOf(run).rows, pass)
    requires pass.now == LastOf(run).now && CanDrive(LastOf(run), w, pass.inst) && n <= |pass.ids|
    ensures IsRun(longer) && Extends(longer, run) && SameSurroundings(LastOf(longer), LastOf(run))
    ensures LastOf(longer).rows == AfterPass(LastOf(run).rows, FirstOf(pass, n))
    decreases n
  {
    if n == 0 {
      longer := run;
    } else {
      var shorter := SweepIsARun(run, pass, w, n - 1);
      longer := SweepStep(LastOf(run), shorter, pass, w, n - 1);
    }
  }

  /** Any number of sweeps, at any non-decreasing times by instances that have not crashed, extend a run to one that
      ends with the table the sweeps leave. */
  lemma {:induction false} SweepsAreARun(run: Run, tables: seq<seq<Row>>, passes: seq<Pass>, w: WorkerId, k: nat)
    returns (longer: Run)
    requires IsRun(run) && ArePasses(tables, passes) && tables[0] == LastOf(run).rows && k <= |passes|
    requires passes != [] ==> LastOf(run).now <= passes[0].now
    requires w !in LastOf(run).workers && forall i :: 0 <= i < |passes| ==> passes[i].inst !in LastOf(run).dead
    ensures IsRun(longer) && Extends(longer, run) && LastOf(longer).rows == tables[k]
    ensures LastOf(longer).workers == LastOf(run).workers && LastOf(longer).dead == LastOf(run).dead
    ensures LastOf(longer).now == if k == 0 then LastOf(run).now else passes[k - 1].now
    decreases k
  {
    if k == 0 {
      longer := run;
    } else {
      var pass := passes[k - 1];
      longer := SweepsAreARun(run, tables, passes, w, k - 1);
      longer := OneMore(longer, Tick(pass.now - LastOf(longer).now));
      SweepListsFree(tables[k - 1], pass);
      longer := SweepIsARun(longer, pass, w, |pass.ids|);
      assert pass.ids[..|pass.ids|] == pass.ids;
    }
  }

  /** Recovery as runs: once the live workers are done (`DriversFinish`), waiting out the staleness limit and sweeping
      ⌈n/50⌉ times continues the run to one that ends with no row outstanding. */
  lemma RecoveryIsARun(run: Run, tables: seq<seq<Row>>, passes: seq<Pass>, w: WorkerId) returns (longer: Run)
    requires IsRun(run) && NobodyDrives(LastOf(run)) && w !in LastOf(run).workers
    requires ArePasses(tables, passes) && passes != [] && tables[0] == LastOf(run).rows
    requires passes[0].now > LastOf(run).now + STALE_SECS
    requires SWEEP_LIMIT * |passes| >= |Outstanding(tables[0])|
    requires forall i :: 0 <= i < |passes| ==> passes[i].inst !in LastOf(run).dead
    ensures IsRun(longer) && Extends(longer, run) && NobodyDrives(LastOf(longer))
    ensures Outstanding(LastOf(longer).rows) == {}
  {
    longer := SweepsAreARun(run, tables, passes, w, |passes|);
    var i := |run.states| - 1;
    forall r: nat | r < |tables[|passes|]| ensures !IsWorkState(tables[|passes|][r].state) {
      PassesKeepSize(tables, passes, |passes|);
      RecoveryFromAnyState(run, i, passes[0].now - run.states[i].now, tables, passes, |passes|, r);
    }
  }

  // ---- Every schedule ----

  /** The step may give the row a new operation to perform. */
  predicate AddsWork(step: Step) {
    step.Enqueue? || step.Reapply? || step.Deprovision? || step.Retry? || step.Mark?
  }

  /** A worker ends its drive of the row. */
  predicate Ends(s: System, step: Step, r: nat) {
    (step.Finish? || step.Fail?) && step.worker in s.workers && s.workers[step.worker].row == r
  }

  lemma OutstandingStep(s: System, step: Step, r: nat)
    requires WellFormed(s) && Enabled(s, step) && !AddsWork(step)
    ensures r in Outstanding(Next(s, step).rows) <==> r in Outstanding(s.rows) && !Ends(s, step, r)
  {
    if r < |s.rows| { RowFrame(s, step, r); }
  }

  ghost predicate EndsBetween(run: Run, i: nat, j: nat, r: nat)
    requires IsRun(run) && i <= j < |run.states|
  {
    exists k :: i <= k < j && Ends(run.states[k], run.steps[k], r)
  }

  lemma OutstandingAfter(run: Run, k: nat, r: nat)
    requires IsRun(run) && k < |run.steps| && !AddsWork(run.steps[k])
    ensures r in Outstanding(run.states[k + 1].rows)
            <==> r in Outstanding(run.states[k].rows) && !Ends(run.states[k], run.steps[k], r)
  {
    OutstandingStep(run.states[k], run.steps[k], r);
  }

  /** However many workers on however many instances interleave, crash or fail: as long as nobody adds work, the rows
      still outstanding are exactly those whose drive has not ended. */
  lemma {:induction false} OutstandingShrinks(run: Run, i: nat, j: nat, r: nat)
    requires IsRun(run) && i <= j < |run.states| && forall k :: i <= k < j ==> !AddsWork(run.steps[k])
    ensures r in Outstanding(run.states[j].rows) <==> r in Outstanding(run.states[i].rows) && !EndsBetween(run, i, j, r)
    decreases j - i
  {
    if i < j {
      OutstandingAfter(run, i, r);
      OutstandingShrinks(run, i + 1, j, r);
      if Ends(run.states[i], run.steps[i], r) { assert EndsBetween(run, i, j, r); }
    }
  }

  /** The row is in the state it was found in, or in the one its operation leads to, and whoever drives it read the
      former. */
  ghost predicate OnItsWay(s: System, r: nat, state: RowState) {
    && r < |s.rows| && IsWorkState(state) && s.rows[r].state in {state, SuccessState(ActionFor(state).value)}
    && forall w :: Drives(s, w) && s.workers[w].row == r ==> s.workers[w].snap.state == state
  }

  lemma StateOnItsWay(s: System, step: Step, r: nat, state: RowState)
    requires WellFormed(s) && Enabled(s, step) && !AddsWork(step) && !step.Fail? && OnItsWay(s, r, state)
    ensures r < |Next(s, step).rows| && Next(s, step).rows[r].state in {state, SuccessState(ActionFor(state).value)}
  {
    RowFrame(s, step, r);
    if step.Finish? { assert Drives(s, step.worker); }
  }

  lemma OnItsWayStep(s: System, step: Step, r: nat, state: RowState)
    requires WellFormed(s) && Enabled(s, step) && !AddsWork(step) && !step.Fail? && OnItsWay(s, r, state)
    ensures OnItsWay(Next(s, step), r, state)
  {
    StateOnItsWay(s, step, r, state);
    var t := Next(s, step);
    forall w | Drives(t, w) && t.workers[w].row == r ensures t.workers[w].snap.state == state {
      WorkerFrame(s, step, w);
    }
  }

  lemma OnItsWayAt(run: Run, k: nat, r: nat, state: RowState)
    requires IsRun(run) && k < |run.steps| && OnItsWay(run.states[k], r, state)
    requires !AddsWork(run.steps[k]) && !run.steps[k].Fail?
    ensures OnItsWay(run.states[k + 1], r, state)
  {
    OnItsWayStep(run.states[k], run.steps[k], r, state);
  }

  /** Between the two states nobody adds work and no connector fails. */
  ghost predicate AllSucceed(run: Run, i: nat, j: nat)
    requires i <= j <= |run.steps|
  {
    forall k :: i <= k < j ==> !AddsWork(run.steps[k]) && !run.steps[k].Fail?
  }

  lemma {:induction false} StaysOnItsWay(run: Run, i: nat, j: nat, r: nat, state: RowState)
    requires IsRun(run) && i <= j < |run.states| && AllSucceed(run, i, j) && OnItsWay(run.states[i], r, state)
    ensures OnItsWay(run.states[j], r, state)
    decreases j - i
  {
    if i < j {
      OnItsWayAt(run, i, r, state);
      StaysOnItsWay(run, i + 1, j, r, state);
    }
  }

  /** With succeeding connectors every schedule leads every outstanding row where its state asked: from a state in which
      nobody drives, whatever workers do afterwards, the row is in its final state if a drive of it has ended, and
      as it was found if none has. */
  lemma EveryScheduleConverges(run: Run, i: nat, j: nat, r: nat)
    requires IsRun(run) && i <= j < |run.states| && NobodyDrives(run.states[i])
    requires r < |run.states[i].rows| && IsWorkState(run.states[i].rows[r].state) && AllSucceed(run, i, j)
    ensures r < |run.states[j].rows|
    ensures var state := run.states[i].rows[r].state;
            run.states[j].rows[r].state ==
                if EndsBetween(run, i, j, r) then SuccessState(ActionFor(state).value) else state
  {
    OutstandingShrinks(run, i, j, r);
    StaysOnItsWay(run, i, j, r, run.states[i].rows[r].state);
    assert r in Outstanding(run.states[i].rows);
  }

  // ---- Every fair schedule ----

  ghost predicate IsDriven(s: System, r: nat) { exists w :: Drives(s, w) && s.workers[w].row == r }

  /** Nobody has held the row since the cutoff, or a live worker drives it. */
  ghost predicate FreeOrDriven(s: System, r: nat, cutoff: int) {
    r < |s.rows| && (Unheld(s.rows[r], cutoff) || IsDriven(s, r))
  }

  /** A step that adds no work, meets no failing connector and no crash, and compares claims with a cutoff of `cutoff`
      or later. */
  predicate IsCalm(step: Step, cutoff: int) {
    !AddsWork(step) && !step.Fail? && !step.Crash? && (step.Claim? ==> step.cutoff >= cutoff)
  }

  lemma DrivenStep(s: System, step: Step, r: nat, cutoff: int)
    requires WellFormed(s) && Enabled(s, step) && IsCalm(step, cutoff) && IsDriven(s, r) && !Ends(s, step, r)
    ensures IsDriven(Next(s, step), r)
  {
    var w :| Drives(s, w) && s.workers[w].row == r;
    WorkerPersists(s, step, w);
  }

  /** A row nobody drives, and the step leaves outstanding: it is won, or stays as free as it was. */
  lemma FreeStep(s: System, step: Step, r: nat, cutoff: int)
    requires WellFormed(s) && Enabled(s, step) && IsCalm(step, cutoff) && r < |s.rows|
    requires !IsDriven(s, r) && Unheld(s.rows[r], cutoff)
    ensures r < |Next(s, step).rows| && Next(s, step).rows[r].state == s.rows[r].state
    ensures WinsRow(s, step, r) || Unheld(Next(s, step).rows[r], cutoff)
  {
    RowFrame(s, step, r);
    if step.Heartbeat? || step.Finish? { assert Drives(s, step.worker); }
  }

  lemma WonIsDriven(s: System, step: Step, r: nat)
    requires WellFormed(s) && Enabled(s, step) && WinsRow(s, step, r)
    ensures IsDriven(Next(s, step), r)
  {
    assert Drives(Next(s, step), step.worker);
  }

  lemma FreeOrDrivenStep(s: System, step: Step, r: nat, cutoff: int)
    requires WellFormed(s) && Enabled(s, step) && IsCalm(step, cutoff) && FreeOrDriven(s, r, cutoff)
             && !Ends(s, step, r)
    ensures FreeOrDriven(Next(s, step), r, cutoff)
  {
    RowFrame(s, step, r);
    if IsDriven(s, r) {
      DrivenStep(s, step, r, cutoff);
    } else {
      FreeStep(s, step, r, cutoff);
      if WinsRow(s, step, r) { WonIsDriven(s, step, r); }
    }
  }

  /** A worker drives the row, or `w` has read it as it is and is about to claim it. */
  ghost predicate Attended(s: System, r: nat, w: WorkerId) {
    r < |s.rows| && (IsDriven(s, r) || (w in s.workers && IsReaderOf(s, r, s.workers[w])))
  }

  predicate IsReaderOf(s: System, r: nat, worker: Worker)
    requires r < |s.rows|
  {
    worker.phase.Fetched? && worker.row == r && worker.snap.state == s.rows[r].state
  }

  /** A reader of a free row waits, or claims it and wins. */
  lemma ReaderStep(s: System, step: Step, r: nat, w: WorkerId, cutoff: int)
    requires WellFormed(s) && Enabled(s, step) && IsCalm(step, cutoff) && r < |s.rows| && w in s.workers
    requires IsReaderOf(s, r, s.workers[w]) && Unheld(s.rows[r], cutoff)
    ensures WinsRow(s, step, r) || (w in Next(s, step).workers && Next(s, step).workers[w] == s.workers[w])
  {
  }

  lemma AttendedStep(s: System, step: Step, r: nat, w: WorkerId, cutoff: int)
    requires WellFormed(s) && Enabled(s, step) && IsCalm(step, cutoff) && !Ends(s, step, r)
    requires FreeOrDriven(s, r, cutoff) && Attended(s, r, w)
    ensures Attended(Next(s, step), r, w)
  {
    RowFrame(s, step, r);
    if IsDriven(s, r) {
      DrivenStep(s, step, r, cutoff);
    } else {
      FreeStep(s, step, r, cutoff);
      ReaderStep(s, step, r, w, cutoff);
      if WinsRow(s, step, r) { WonIsDriven(s, step, r); }
    }
  }

  ghost predicate AreCalm(run: Run, i: nat, j: nat, cutoff: int)
    requires i <= j <= |run.steps|
  {
    forall k :: i <= k < j ==> IsCalm(run.steps[k], cutoff)
  }

  lemma FreeOrDrivenAt(run: Run, k: nat, r: nat, cutoff: int)
    requires IsRun(run) && k < |run.steps| && IsCalm(run.steps[k], cutoff) && !Ends(run.states[k], run.steps[k], r)
    requires FreeOrDriven(run.states[k], r, cutoff)
    ensures FreeOrDriven(run.states[k + 1], r, cutoff)
  {
    FreeOrDrivenStep(run.states[k], run.steps[k], r, cutoff);
  }

  lemma {:induction false} StaysFreeOrDriven(run: Run, i: nat, j: nat, r: nat, cutoff: int)
    requires IsRun(run) && i <= j < |run.states| && AreCalm(run, i, j, cutoff) && !EndsBetween(run, i, j, r)
    requires FreeOrDriven(run.states[i], r, cutoff)
    ensures FreeOrDriven(run.states[j], r, cutoff)
    decreases j - i
  {
    if i < j {
      FreeOrDrivenAt(run, i, r, cutoff);
      StaysFreeOrDriven(run, i + 1, j, r, cutoff);
    }
  }

  lemma AttendedAt(run: Run, k: nat, r: nat, w: WorkerId, cutoff: int)
    requires IsRun(run) && k < |run.steps| && IsCalm(run.steps[k], cutoff) && !Ends(run.states[k], run.steps[k], r)
    requires FreeOrDriven(run.states[k], r, cutoff) && Attended(run.states[k], r, w)
    ensures Attended(run.states[k + 1], r, w)
  {
    AttendedStep(run.states[k], run.steps[k], r, w, cutoff);
  }

  lemma {:induction false} StaysAttended(run: Run, i: nat, j: nat, r: nat, w: WorkerId, cutoff: int)
    requires IsRun(run) && i <= j < |run.states| && AreCalm(run, i, j, cutoff) && !EndsBetween(run, i, j, r)
    requires FreeOrDriven(run.states[i], r, cutoff) && Attended(run.states[i], r, w)
    ensures Attended(run.states[j], r, w)
    decreases j - i
  {
    if i < j {
      FreeOrDrivenAt(run, i, r, cutoff);
      AttendedAt(run, i, r, w, cutoff);
      StaysAttended(run, i + 1, j, r, w, cutoff);
    }
  }

  ghost predicate FetchedAt(run: Run, k: nat, r: nat)
    requires k < |run.steps|
  {
    run.steps[k].Fetch? && run.steps[k].row == r
  }

  /** A row that is fetched is driven to its end by the time no worker is left. */
  lemma FetchedEnds(run: Run, i: nat, k: nat, j: nat, r: nat, cutoff: int)
    requires IsRun(run) && i <= k < j < |run.states| && AreCalm(run, i, j, cutoff) && FetchedAt(run, k, r)
    requires FreeOrDriven(run.states[i], r, cutoff) && run.states[j].workers == map[]
    ensures EndsBetween(run, i, j, r)
  {
    if !EndsBetween(run, i, j, r) {
      var s, step := run.states[k], run.steps[k];
      assert run.states[k + 1] == Next(s, step) && Attended(Next(s, step), r, step.worker);
      StaysFreeOrDriven(run, i, k + 1, r, cutoff);
      StaysAttended(run, k + 1, j, r, step.worker, cutoff);
    }
  }

  /** Fairness: every row outstanding at `i` has its drive ended, or is fetched, before `j`. */
  ghost predicate IsFair(run: Run, i: nat, j: nat)
    requires IsRun(run) && i <= j < |run.states|
  {
    forall r :: r in Outstanding(run.states[i].rows) ==>
      EndsBetween(run, i, j, r) || exists k :: i <= k < j && FetchedAt(run, k, r)
  }

  /** Every fair schedule empties the outstanding set. Let nobody drive at first, and let nobody have held an
      outstanding row since `cutoff`. If then each of these rows is fetched, by whichever workers in whichever order,
      every claim compares with that cutoff or a later one, no connector fails, no instance crashes and nobody adds
      work, then by the time all workers are done nothing is outstanding, and each row is where its state asked. */
  lemma FairSchedulesFinish(run: Run, i: nat, j: nat, cutoff: int)
    requires IsRun(run) && i <= j < |run.states| && NobodyDrives(run.states[i]) && AreCalm(run, i, j, cutoff)
    requires forall r :: r in Outstanding(run.states[i].rows) ==> Unheld(run.states[i].rows[r], cutoff)
    requires IsFair(run, i, j) && run.states[j].workers == map[]
    ensures Outstanding(run.states[j].rows) == {}
    ensures forall r :: r in Outstanding(run.states[i].rows) ==>
              && r < |run.states[j].rows|
              && run.states[j].rows[r].state == SuccessState(ActionFor(run.states[i].rows[r].state).value)
  {
    forall r | r in Outstanding(run.states[i].rows)
      ensures EndsBetween(run, i, j, r) && r < |run.states[j].rows|
      ensures run.states[j].rows[r].state == SuccessState(ActionFor(run.states[i].rows[r].state).value)
    {
      if !EndsBetween(run, i, j, r) {
        var k :| i <= k < j && FetchedAt(run, k, r);
        FetchedEnds(run, i, k, j, r, cutoff);
      }
      EveryScheduleConverges(run, i, j, r);
    }
    forall r: nat ensures r !in Outstanding(run.states[j].rows) { OutstandingShrinks(run, i, j, r); }
  }

  /** When is everything done? If nobody drives and, after the staleness limit, the sweep lists nothing. */
  lemma EmptySweepMeansDone(run: Run, i: nat, seconds: nat)
    requires IsRun(run) && i < |run.states| && NobodyDrives(run.states[i]) && seconds > STALE_SECS
    requires forall r :: 0 <= r < |run.states[i].rows| ==>
             !Reclaimable(run.states[i].rows[r], run.states[i].now + seconds - STALE_SECS)
    ensures Outstanding(run.states[i].rows) == {}
  {
    forall r: nat | r < |run.states[i].rows| ensures !IsWorkState(run.states[i].rows[r].state) {
      if IsWorkState(run.states[i].rows[r].state) { SettledWorkIsReclaimable(run, i, seconds, r); }
    }
  }
}
