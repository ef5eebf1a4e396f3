/** Reachable states, with every heartbeat in time, in which a promise of the design is broken. */
module ProtocolExamples {
  import opened Prelude
  import opened ResourceRows
  import opened RetryPolicies
  import opened WorkerProtocol
  import opened RequestIntents
  import opened Reachability
  import AutoRetry

  /** A deployment-wide cap of two attempts, and no manifest. */
  const SETTINGS := Settings(map[], 2)
  const START := System(0, [], [], map[], {}, map[], map[], SETTINGS)

  ghost predicate Moves(s: System, t: System) { exists step :: MovesBy(s, step, t) }

  /** One step, with every heartbeat in time and no in-place update of a row that is driven. */
  ghost predicate MovesBy(s: System, step: Step, t: System) {
    && WellFormed(s) && Enabled(s, step) && t == Next(s, step) && RearmIsFree(s, step)
    && WellFormed(t) && HeartbeatsLand(t)
  }

  ghost predicate Reached(n: nat, s: System) { Reaches(START, Moves, n, s) }

  lemma Then(n: nat, s: System, step: Step, t: System)
    requires Reached(n, s) && MovesBy(s, step, t)
    ensures Reached(n + 1, t)
  {
    assert Moves(s, t);
    OneMove(START, Moves, n, s, t);
  }

  lemma ReachedWell(n: nat, s: System)
    requires Reached(n, s)
    ensures WellFormed(s)
  {
    if n > 0 { var before := LastMove(START, Moves, n, s); }
  }

  lemma PunctualMore(run: Run, step: Step) returns (longer: Run)
    requires IsRun(run) && Punctual(run) && Enabled(LastOf(run), step)
    requires WellFormed(Next(LastOf(run), step)) && HeartbeatsLand(Next(LastOf(run), step))
    ensures IsRun(longer) && Punctual(longer) && Extends(longer, run) && LastOf(longer) == Next(LastOf(run), step)
    ensures |longer.steps| == |run.steps| + 1 && longer.steps[|run.steps|] == step
  {
    longer := OneMore(run, step);
    forall i | 0 <= i < |longer.states| ensures HeartbeatsLand(longer.states[i]) {
      assert longer.states[i] == if i < |run.states| then run.states[i] else LastOf(longer);
    }
  }

  /** What the system reaches is the end of a run that meets both hypotheses of mutual exclusion. */
  lemma {:induction false} ReachedIsARun(n: nat, s: System) returns (run: Run)
    requires Reached(n, s)
    ensures IsRun(run) && Punctual(run) && RearmsFree(run) && LastOf(run) == s
  {
    if n == 0 {
      run := Run([s], []);
    } else {
      var before := LastMove(START, Moves, n, s);
      var step :| MovesBy(before, step, s);
      var shorter := ReachedIsARun(n - 1, before);
      run := PunctualMore(shorter, step);
      FreeMore(shorter, run);
    }
  }

  lemma FreeMore(run: Run, longer: Run)
    requires IsRun(run) && IsRun(longer) && RearmsFree(run) && Extends(longer, run)
    requires |longer.steps| == |run.steps| + 1 && RearmIsFree(LastOf(run), longer.steps[|run.steps|])
    ensures RearmsFree(longer)
  {
    forall i | 0 <= i < |longer.steps| ensures RearmIsFree(longer.states[i], longer.steps[i]) {
      assert longer.states[i] == run.states[i];
      if i < |run.steps| { assert longer.steps[i] == run.steps[i]; }
    }
  }

  // ---- States with one row ----

  type Workers = map<WorkerId, Worker>

  /** The requests, and the in-place updates still to land. */
  datatype Side = Side(requests: map<RequestId, RequestState>, pending: map<RearmId, Rearm>)

  function One(now: int, row: Row, tally: Tally, workers: Workers, side: Side): System {
    System(now, [row], [tally], workers, {}, side.requests, side.pending, SETTINGS)
  }

  /** The row as request 1 enqueues it, and its history then. */
  const ROW := NewRow("p", "s", "db", "old", 0.0, 1, 0)
  const NEW := Tally(1, 0, 0, 0, 0)

  const BOTH := Side(map[1 := Approved, 2 := Approved], map[])

  function Reader(row: Row): Worker { Worker(0, 7, row, Fetched) }

  lemma Submitted() returns (n: nat)
    ensures Reached(n, START.(requests := BOTH.requests))
  {
    n := 0;
    var one := START.(requests := map[1 := Approved]);
    Then(n, START, Submit(1, Approved), one);
    Then(n + 1, one, Submit(2, Approved), START.(requests := BOTH.requests));
    n := n + 2;
  }

  lemma Enqueued() returns (n: nat)
    ensures Reached(n, One(0, ROW, NEW, map[], BOTH))
  {
    n := Submitted();
    Then(n, START.(requests := BOTH.requests), Enqueue("p", "s", "db", "old", 0.0, 1),
         One(0, ROW, NEW, map[], BOTH));
    n := n + 1;
  }

  /** Nobody drives the row yet. */
  predicate AllReaders(workers: Workers) {
    forall w :: w in workers ==> workers[w].phase.Fetched? && workers[w].row == 0
  }

  lemma Read(n: nat, now: int, row: Row, tally: Tally, workers: Workers, side: Side, w: WorkerId)
    requires Reached(n, One(now, row, tally, workers, side)) && w !in workers && ActionFor(row.state).Some?
             && AllReaders(workers)
    ensures Reached(n + 1, One(now, row, tally, workers[w := Reader(row)], side))
  {
    ReachedWell(n, One(now, row, tally, workers, side));
    Then(n, One(now, row, tally, workers, side), Fetch(w, 0, 7),
         One(now, row, tally, workers[w := Reader(row)], side));
  }

  /** A reader's claim wins if nobody holds the row and its state is the one read. */
  lemma Won(n: nat, now: int, row: Row, tally: Tally, workers: Workers, side: Side, w: WorkerId)
    requires Reached(n, One(now, row, tally, workers, side)) && w in workers && AllReaders(workers)
    requires workers[w].inst == 7 && workers[w].snap.state == row.state && row.owner.None?
    ensures Reached(n + 1, One(now, Claimed(row, 7, now), tally.(claims := tally.claims + 1),
                               workers[w := workers[w].(phase := Running)], side))
  {
    ReachedWell(n, One(now, row, tally, workers, side));
    Then(n, One(now, row, tally, workers, side), Claim(w, now - STALE_SECS),
         One(now, Claimed(row, 7, now), tally.(claims := tally.claims + 1),
             workers[w := workers[w].(phase := Running)], side));
  }

  /** The workers once `w` runs its connector, and once its apply has succeeded. */
  function Driving(workers: Workers, w: WorkerId): Workers
    requires w in workers
  {
    workers[w := workers[w].(phase := Running)]
  }

  function Done(workers: Workers, w: WorkerId): Workers
    requires w in workers
  {
    workers[w := workers[w].(phase := Succeeded("{}"))]
  }

  function Served(side: Side, w: Worker): Side {
    if w.snap.requestId.Some? then side.(requests := Fulfil(side.requests, w.snap.requestId.value)) else side
  }

  function Live(row: Row, now: int): Row { Finished(row, Provisioned, "{}", now) }

  lemma Returns(n: nat, now: int, row: Row, tally: Tally, workers: Workers, side: Side, w: WorkerId)
    requires w in workers && AllReaders(workers) && Applies(workers[w]) && row.updatedAt == now
    requires Reached(n, One(now, row, tally, Driving(workers, w), side))
    ensures Reached(n + 1, One(now, row, tally, Done(workers, w), Served(side, workers[w])))
  {
    ReachedWell(n, One(now, row, tally, Driving(workers, w), side));
    Then(n, One(now, row, tally, Driving(workers, w), side), Succeed(w, "{}"),
         One(now, row, tally, Done(workers, w), Served(side, workers[w])));
  }

  lemma Ends(n: nat, now: int, row: Row, tally: Tally, workers: Workers, side: Side, w: WorkerId)
    requires w in workers && AllReaders(workers) && Applies(workers[w])
    requires Reached(n, One(now, row, tally, Done(workers, w), side))
    ensures Reached(n + 1, One(now, Live(row, now), Cleared(tally), workers - {w}, side))
  {
    ReachedWell(n, One(now, row, tally, Done(workers, w), side));
    Then(n, One(now, row, tally, Done(workers, w), side), Finish(w),
         One(now, Live(row, now), Cleared(tally), workers - {w}, side));
  }

  /** An apply that runs succeeds and finishes; `left` and `served` are the workers and requests then. */
  lemma Succeeds(n: nat, now: int, row: Row, tally: Tally, workers: Workers, side: Side, w: WorkerId,
                 left: Workers, served: Side)
    requires w in workers && AllReaders(workers) && Applies(workers[w]) && row.updatedAt == now
    requires Reached(n, One(now, row, tally, Driving(workers, w), side))
    requires left == workers - {w} && served == Served(side, workers[w])
    ensures Reached(n + 2, One(now, Live(row, now), Cleared(tally), left, served))
  {
    Returns(n, now, row, tally, workers, side, w);
    Ends(n + 1, now, row, tally, workers, served, w);
  }

  function Counted(tally: Tally): Tally { tally.(claims := tally.claims + 1) }

  function Failing(tally: Tally): Tally {
    tally.(failures := tally.failures + 1, failuresSinceReset := tally.failuresSinceReset + 1)
  }

  function AfterApply(row: Row, snap: Row, now: int): Row {
    MarkedFailed(row, Failed, "e", snap.attempts + 1,
                 NextDeadline(snap.attempts + 1, RetryPolicyFor(SETTINGS, snap.rtype), now), now)
  }

  /** A reader of a free row claims it, and its apply fails; `left` are the workers then. */
  lemma Fails(n: nat, now: int, row: Row, tally: Tally, workers: Workers, side: Side, w: WorkerId,
              left: Workers)
    requires Reached(n, One(now, row, tally, workers, side)) && w in workers && AllReaders(workers)
    requires workers[w].inst == 7 && workers[w].snap.state == row.state && row.owner.None? && Applies(workers[w])
    requires left == workers - {w}
    ensures Reached(n + 2, One(now, AfterApply(row, workers[w].snap, now), Failing(Counted(tally)), left, side))
  {
    Won(n, now, row, tally, workers, side, w);
    FailsNow(n + 1, now, Claimed(row, 7, now), Counted(tally), workers, side, w);
    assert AfterApply(Claimed(row, 7, now), workers[w].snap, now) == AfterApply(row, workers[w].snap, now);
  }

  lemma FailsNow(n: nat, now: int, row: Row, tally: Tally, workers: Workers, side: Side, w: WorkerId)
    requires w in workers && AllReaders(workers) && Applies(workers[w])
    requires Reached(n, One(now, row, tally, Driving(workers, w), side))
    ensures Reached(n + 1, One(now, AfterApply(row, workers[w].snap, now), Failing(tally), workers - {w}, side))
  {
    ReachedWell(n, One(now, row, tally, Driving(workers, w), side));
    FailLeaves(now, row, tally, workers, side, w);
    Then(n, One(now, row, tally, Driving(workers, w), side), Fail(w, "e"),
         One(now, AfterApply(row, workers[w].snap, now), Failing(tally), workers - {w}, side));
  }

  lemma FailLeaves(now: int, row: Row, tally: Tally, workers: Workers, side: Side, w: WorkerId)
    requires w in workers && AllReaders(workers) && Applies(workers[w])
    requires WellFormed(One(now, row, tally, Driving(workers, w), side))
    ensures Next(One(now, row, tally, Driving(workers, w), side), Fail(w, "e"))
            == One(now, AfterApply(row, workers[w].snap, now), Failing(tally), workers - {w}, side)
  {
    assert Driving(workers, w) - {w} == workers - {w};
  }

  // ---- The examples ----

  const FIRST: Workers := map[1 := Reader(ROW)]
  const SECOND: Workers := map[2 := Reader(ROW)]
  const TWO: Workers := map[1 := Reader(ROW), 2 := Reader(ROW)]
  const FULFILLED := Side(map[1 := Fulfilled, 2 := Approved], map[])

  lemma TwoReaders() returns (n: nat)
    ensures Reached(n, One(0, ROW, NEW, TWO, BOTH))
  {
    n := Enqueued();
    Read(n, 0, ROW, NEW, map[], BOTH, 1);
    Read(n + 1, 0, ROW, NEW, FIRST, BOTH, 2);
    assert FIRST[2 := Reader(ROW)] == TWO;
    n := n + 2;
  }

  lemma FirstDrives() returns (n: nat)
    ensures Reached(n, One(0, Claimed(ROW, 7, 0), Counted(NEW), Driving(TWO, 1), BOTH))
  {
    n := TwoReaders();
    Won(n, 0, ROW, NEW, TWO, BOTH, 1);
    n := n + 1;
  }

  lemma FirstProvisions() returns (n: nat)
    ensures Reached(n, One(0, Live(Claimed(ROW, 7, 0), 0), Cleared(Counted(NEW)), SECOND, FULFILLED))
  {
    n := FirstDrives();
    assert TWO - {1} == SECOND;
    Succeeds(n, 0, Claimed(ROW, 7, 0), Counted(NEW), TWO, BOTH, 1, SECOND, FULFILLED);
    n := n + 2;
  }

  function ArmedAgain(): Row { Rearmed(Live(Claimed(ROW, 7, 0), 0), "new", 0.0, 2, 0) }

  function History(): Tally { Cleared(Armed(Cleared(Counted(NEW)))) }

  const LOOKED_UP: map<RearmId, Rearm> := map[1 := Rearm(0, "new", 0.0, 2, 7)]

  /** Request 2 looks the live row up, and re-arms it at once. */
  lemma SecondRequested() returns (n: nat)
    ensures Reached(n, One(0, ArmedAgain(), History(), SECOND, FULFILLED))
  {
    n := FirstProvisions();
    var live, tally := Live(Claimed(ROW, 7, 0), 0), Cleared(Counted(NEW));
    var pending := One(0, live, tally, SECOND, FULFILLED.(pending := LOOKED_UP));
    Then(n, One(0, live, tally, SECOND, FULFILLED), LookUp(1, 0, "new", 0.0, 2, 7), pending);
    Then(n + 1, pending, Reapply(1), One(0, ArmedAgain(), History(), SECOND, FULFILLED));
    n := n + 2;
  }

  lemma SecondApplies() returns (n: nat)
    ensures Reached(n, One(0, Live(Claimed(ArmedAgain(), 7, 0), 0), Cleared(Counted(History())), map[], FULFILLED))
  {
    n := SecondRequested();
    Won(n, 0, ArmedAgain(), History(), SECOND, FULFILLED, 2);
    assert SECOND - {2} == map[];
    Succeeds(n + 1, 0, Claimed(ArmedAgain(), 7, 0), Counted(History()), SECOND, FULFILLED, 2, map[], FULFILLED);
    n := n + 3;
  }

  /** A claim with an old snapshot strands a request. Two workers read the row; the first provisions it; request 2
      re-arms it with the specification "new"; the second claims and applies what it had read. The row ends live, with
      the new specification and request 2, which is still approved. No sweep lists such a row, and a request with a
      record is not enqueued again. */
  lemma StaleClaimStrandsRequest() returns (run: Run)
    ensures IsRun(run) && Punctual(run) && RearmsFree(run)
    ensures var s := LastOf(run);
            && |s.rows| == 1 && s.rows[0].state == Provisioned && s.rows[0].spec == "new"
               && s.rows[0].requestId == Some(2)
            && s.requests == map[1 := Fulfilled, 2 := Approved] && s.workers == map[]
            && !IsWorkState(s.rows[0].state) && s.rows[0].nextRetry.None?
  {
    var n := SecondApplies();
    run := ReachedIsARun(n,
                         One(0, Live(Claimed(ArmedAgain(), 7, 0), 0), Cleared(Counted(History())), map[], FULFILLED));
  }

  lemma OneDrives() returns (n: nat)
    ensures Reached(n, One(0, Claimed(ROW, 7, 0), Counted(NEW), Driving(FIRST, 1), BOTH))
  {
    n := Enqueued();
    Read(n, 0, ROW, NEW, map[], BOTH, 1);
    assert map[][1 := Reader(ROW)] == FIRST;
    Won(n + 1, 0, ROW, NEW, FIRST, BOTH, 1);
    n := n + 2;
  }

  const WITHDRAWN := Side(map[1 := OtherRequestState, 2 := Approved], map[])

  lemma Withdrawn() returns (n: nat)
    ensures Reached(n, One(0, Claimed(ROW, 7, 0), Counted(NEW), Driving(FIRST, 1), WITHDRAWN))
  {
    n := OneDrives();
    Then(n, One(0, Claimed(ROW, 7, 0), Counted(NEW), Driving(FIRST, 1), BOTH), Withdraw(1),
         One(0, Claimed(ROW, 7, 0), Counted(NEW), Driving(FIRST, 1), WITHDRAWN));
    n := n + 1;
  }

  /** A request withdrawn while its apply runs: the row ends live, with a request that is neither approved nor
      fulfilled. */
  lemma WithdrawalStrandsRow() returns (run: Run)
    ensures IsRun(run) && Punctual(run) && RearmsFree(run)
    ensures var s := LastOf(run);
            && |s.rows| == 1 && s.rows[0].state == Provisioned && s.rows[0].requestId == Some(1)
            && s.requests == map[1 := OtherRequestState, 2 := Approved]
  {
    var n := Withdrawn();
    assert FIRST - {1} == map[];
    Succeeds(n, 0, Claimed(ROW, 7, 0), Counted(NEW), FIRST, WITHDRAWN, 1, map[], WITHDRAWN);
    run := ReachedIsARun(n + 2, One(0, Live(Claimed(ROW, 7, 0), 0), Cleared(Counted(NEW)), map[], WITHDRAWN));
  }

  function Torn(): System { One(0, Deprovisioned(Claimed(ROW, 7, 0), 0), Armed(Counted(NEW)), Driving(FIRST, 1), BOTH) }

  lemma TornDown() returns (n: nat)
    ensures Reached(n, Torn())
  {
    n := OneDrives();
    Then(n, One(0, Claimed(ROW, 7, 0), Counted(NEW), Driving(FIRST, 1), BOTH), Deprovision(0), Torn());
    n := n + 1;
  }

  /** A teardown requested while an apply runs: the row is in teardown, with a live apply on it, and can leave it
      again. */
  lemma TeardownOverlapped() returns (run: Run)
    ensures IsRun(run) && Punctual(run) && RearmsFree(run) && |LastOf(run).rows| == 1
    ensures IsTeardown(LastOf(run).rows[0].state) && !TeardownSafe(LastOf(run), 0) && CanBeUndone(run, 0)
  {
    var n := TornDown();
    run := ReachedIsARun(n, Torn());
    assert Drives(Torn(), 1) && Torn().workers[1].row == 0;
    TeardownUndoneIff(run, 0);
  }

  // ---- Two statements of one in-place update ----

  lemma OneLive() returns (n: nat)
    ensures Reached(n, One(0, Live(Claimed(ROW, 7, 0), 0), Cleared(Counted(NEW)), map[], FULFILLED))
  {
    n := OneDrives();
    assert FIRST - {1} == map[];
    Succeeds(n, 0, Claimed(ROW, 7, 0), Counted(NEW), FIRST, BOTH, 1, map[], FULFILLED);
    n := n + 2;
  }

  function LateTeardown(): System {
    One(0, Deprovisioned(Live(Claimed(ROW, 7, 0), 0), 0), Armed(Cleared(Counted(NEW))), map[],
        FULFILLED.(pending := LOOKED_UP))
  }

  lemma LookedUpThenTorn() returns (n: nat)
    ensures Reached(n, LateTeardown())
  {
    n := OneLive();
    var live, tally := Live(Claimed(ROW, 7, 0), 0), Cleared(Counted(NEW));
    var pending := One(0, live, tally, map[], FULFILLED.(pending := LOOKED_UP));
    Then(n, One(0, live, tally, map[], FULFILLED), LookUp(1, 0, "new", 0.0, 2, 7), pending);
    Then(n + 1, pending, Deprovision(0), LateTeardown());
    n := n + 2;
  }

  /** A teardown requested between the look-up and the re-arming of an in-place update: nobody has even read the row,
      and it can leave teardown again. */
  lemma TeardownLookedUp() returns (run: Run)
    ensures IsRun(run) && Punctual(run) && RearmsFree(run) && |LastOf(run).rows| == 1 && LastOf(run).workers == map[]
    ensures IsTeardown(LastOf(run).rows[0].state) && CanBeUndone(run, 0)
  {
    var n := LookedUpThenTorn();
    run := ReachedIsARun(n, LateTeardown());
    assert LateTeardown().pending[1].row == 0;
    TeardownUndoneIff(run, 0);
  }

  lemma LookedUpThenStopping() returns (n: nat)
    ensures Reached(n, One(0, Live(Claimed(ROW, 7, 0), 0).(state := Suspending), Armed(Cleared(Counted(NEW))), map[],
                           FULFILLED.(pending := LOOKED_UP)))
  {
    n := OneLive();
    var live, tally := Live(Claimed(ROW, 7, 0), 0), Cleared(Counted(NEW));
    var pending := One(0, live, tally, map[], FULFILLED.(pending := LOOKED_UP));
    Then(n, One(0, live, tally, map[], FULFILLED), LookUp(1, 0, "new", 0.0, 2, 7), pending);
    Then(n + 1, pending, Mark(0, Suspending),
         One(0, live.(state := Suspending), Armed(tally), map[], FULFILLED.(pending := LOOKED_UP)));
    n := n + 2;
  }

  function Restored(): System {
    One(0, ArmedAgain().(state := Provisioned), Armed(Cleared(Armed(Armed(Cleared(Counted(NEW)))))), map[], FULFILLED)
  }

  lemma StoppingThenRestored() returns (n: nat)
    ensures Reached(n, Restored())
  {
    n := LookedUpThenStopping();
    var live, tally := Live(Claimed(ROW, 7, 0), 0), Armed(Cleared(Counted(NEW)));
    var stopping := One(0, live.(state := Suspending), tally, map[], FULFILLED.(pending := LOOKED_UP));
    var armed := One(0, ArmedAgain(), Cleared(Armed(tally)), map[], FULFILLED);
    Then(n, stopping, Reapply(1), armed);
    Then(n + 1, armed, Mark(0, Provisioned), Restored());
    n := n + 2;
  }

  /** A suspension that is declined or fails strands a request. Request 2 looks the live row up; a suspension marks
      the row, the re-arming lands, and the suspension puts the row back to where it had found it. The row is live
      with the new specification and request 2, still approved; there is no worker, no update is to come, and no sweep
      lists it. */
  lemma SuspensionStrandsRequest() returns (run: Run)
    ensures IsRun(run) && Punctual(run) && RearmsFree(run)
    ensures var s := LastOf(run);
            && |s.rows| == 1 && s.rows[0].state == Provisioned && s.rows[0].spec == "new"
            && s.rows[0].requestId == Some(2) && s.requests == map[1 := Fulfilled, 2 := Approved]
            && s.workers == map[] && s.pending == map[] && s.rows[0].nextRetry.None?
  {
    var n := StoppingThenRestored();
    run := ReachedIsARun(n, Restored());
  }

  const THREE: map<RequestId, RequestState> := map[1 := Fulfilled, 2 := Approved, 3 := Approved]
  const LAST_UP: map<RearmId, Rearm> := map[2 := Rearm(0, "newer", 0.0, 3, 7)]

  /** Requests 2 and 3 look the live row up, and request 2 re-arms it. */
  lemma BothLookUp() returns (n: nat)
    ensures Reached(n, One(0, ArmedAgain(), History(), map[], Side(THREE, LAST_UP)))
  {
    n := OneLive();
    var live, tally := Live(Claimed(ROW, 7, 0), 0), Cleared(Counted(NEW));
    var s0, s1 := One(0, live, tally, map[], FULFILLED), One(0, live, tally, map[], Side(THREE, map[]));
    var s2 := One(0, live, tally, map[], Side(THREE, LOOKED_UP));
    Then(n, s0, Submit(3, Approved), s1);
    Then(n + 1, s1, LookUp(1, 0, "new", 0.0, 2, 7), s2);
    n := SecondLooksUp(n + 2);
  }

  lemma SecondLooksUp(m: nat) returns (n: nat)
    requires Reached(m, One(0, Live(Claimed(ROW, 7, 0), 0), Cleared(Counted(NEW)), map[], Side(THREE, LOOKED_UP)))
    ensures Reached(n, One(0, ArmedAgain(), History(), map[], Side(THREE, LAST_UP)))
  {
    var live, tally := Live(Claimed(ROW, 7, 0), 0), Cleared(Counted(NEW));
    var s2 := One(0, live, tally, map[], Side(THREE, LOOKED_UP));
    var s3 := One(0, live, tally, map[], Side(THREE, LOOKED_UP + LAST_UP));
    Then(m, s2, LookUp(2, 0, "newer", 0.0, 3, 7), s3);
    assert s3.pending - {1} == LAST_UP;
    Then(m + 1, s3, Reapply(1), One(0, ArmedAgain(), History(), map[], Side(THREE, LAST_UP)));
    n := m + 2;
  }

  const RUNNING: Workers := map[1 := Reader(ArmedAgain()).(phase := Running)]

  function SecondRuns(): System {
    One(0, Claimed(ArmedAgain(), 7, 0), Counted(History()), RUNNING, Side(THREE, LAST_UP))
  }

  lemma SecondDrives() returns (n: nat)
    ensures Reached(n, SecondRuns())
  {
    n := BothLookUp();
    var one: Workers := map[1 := Reader(ArmedAgain())];
    Read(n, 0, ArmedAgain(), History(), map[], Side(THREE, LAST_UP), 1);
    assert map[][1 := Reader(ArmedAgain())] == one;
    Won(n + 1, 0, ArmedAgain(), History(), one, Side(THREE, LAST_UP), 1);
    assert one[1 := one[1].(phase := Running)] == RUNNING;
    n := n + 2;
  }

  /** The row once request 3 re-armed it too, with the worker of request 2 still driving. */
  function Newer(): Row { Rearmed(Claimed(ArmedAgain(), 7, 0), "newer", 0.0, 3, 0) }

  function Doubled(row: Row, workers: Workers): System {
    One(0, row, Cleared(Armed(Counted(History()))), workers, Side(THREE, map[]))
  }

  lemma ThirdArms() returns (run: Run)
    ensures IsRun(run) && Punctual(run) && LastOf(run) == Doubled(Newer(), RUNNING)
  {
    var n := SecondDrives();
    run := ReachedIsARun(n, SecondRuns());
    run := PunctualMore(run, Reapply(2));
  }

  lemma ThirdReads() returns (run: Run)
    ensures IsRun(run) && Punctual(run) && LastOf(run) == Doubled(Newer(), RUNNING[2 := Reader(Newer())])
  {
    run := ThirdArms();
    run := PunctualMore(run, Fetch(2, 0, 7));
  }

  lemma ThirdWins()
    ensures var s, step := Doubled(Newer(), RUNNING[2 := Reader(Newer())]), Claim(2, -STALE_SECS);
            && WellFormed(s) && Enabled(s, step)
            && Next(s, step).rows == [Claimed(Newer(), 7, 0)] && Next(s, step).requests == THREE
            && Next(s, step).workers == RUNNING[2 := Reader(Newer()).(phase := Running)] && Next(s, step).now == 0
  {
  }

  lemma ThirdClaims() returns (run: Run)
    ensures IsRun(run) && Punctual(run) && 2 in LastOf(run).workers
    ensures LastOf(run).rows == [Claimed(Newer(), 7, 0)] && LastOf(run).requests == THREE
    ensures LastOf(run).workers == RUNNING[2 := Reader(Newer()).(phase := Running)]
  {
    run := ThirdReads();
    ThirdWins();
    WellFormedAlways(LastOf(run), Claim(2, -STALE_SECS));
    run := PunctualMore(run, Claim(2, -STALE_SECS));
  }

  /** Two requests look one live row up. The first re-arms it and its worker runs; the second re-arms it again, and its
      worker claims it too. Every heartbeat is in time, two live workers drive the row, and request 2, still approved,
      has lost its record. */
  lemma TwoRearmsSplit() returns (run: Run)
    ensures IsRun(run) && Punctual(run) && |LastOf(run).rows| == 1
    ensures var s := LastOf(run);
            && Drives(s, 1) && Drives(s, 2) && s.workers[1].row == s.workers[2].row == 0
            && 2 in s.requests && s.requests[2] == Approved && !Settled(s, 2)
  {
    run := ThirdClaims();
  }

  // ---- More failures than the cap ----

  function FailedOnce(): Row { AfterApply(ROW, ROW, 0) }

  function OneFailure(): Tally { Failing(Counted(NEW)) }

  lemma FirstFails() returns (n: nat)
    ensures Reached(n, One(60, FailedOnce(), OneFailure(), map[], BOTH))
  {
    n := Enqueued();
    Read(n, 0, ROW, NEW, map[], BOTH, 1);
    assert map[][1 := Reader(ROW)] == FIRST && FIRST - {1} == map[];
    Fails(n + 1, 0, ROW, NEW, FIRST, BOTH, 1, map[]);
    Then(n + 3, One(0, FailedOnce(), OneFailure(), map[], BOTH), Tick(60),
         One(60, FailedOnce(), OneFailure(), map[], BOTH));
    n := n + 4;
  }

  const AGAIN: Workers := map[1 := Reader(FailedOnce()), 2 := Reader(FailedOnce())]

  lemma BothReadAgain() returns (n: nat)
    ensures Reached(n, One(60, FailedOnce(), OneFailure(), AGAIN, BOTH))
  {
    n := FirstFails();
    var one: Workers := map[1 := Reader(FailedOnce())];
    Read(n, 60, FailedOnce(), OneFailure(), map[], BOTH, 1);
    assert map[][1 := Reader(FailedOnce())] == one && one[2 := Reader(FailedOnce())] == AGAIN;
    Read(n + 1, 60, FailedOnce(), OneFailure(), one, BOTH, 2);
    n := n + 2;
  }

  function Resting(): Row { AfterApply(FailedOnce(), FailedOnce(), 60) }

  function TwoFailures(): Tally { Failing(Counted(OneFailure())) }

  const LAST: Workers := map[2 := Reader(FailedOnce())]

  lemma SecondFails() returns (n: nat)
    ensures Reached(n, One(60, Resting(), TwoFailures(), LAST, BOTH))
  {
    n := BothReadAgain();
    assert AGAIN - {1} == LAST;
    Fails(n, 60, FailedOnce(), OneFailure(), AGAIN, BOTH, 1, LAST);
    n := n + 2;
  }

  function FailedThrice(): System {
    One(60, AfterApply(Resting(), FailedOnce(), 60), Failing(Counted(TwoFailures())), map[], BOTH)
  }

  lemma LastFails(n: nat, row: Row, tally: Tally)
    requires Reached(n, One(60, row, tally, LAST, BOTH)) && row.state == Failed && row.owner.None?
    ensures Reached(n + 2, One(60, AfterApply(row, FailedOnce(), 60), Failing(Counted(tally)), map[], BOTH))
  {
    assert LAST - {2} == map[];
    Fails(n, 60, row, tally, LAST, BOTH, 2, map[]);
  }

  lemma RestingIsFree()
    ensures Resting().state == Failed && Resting().owner.None?
  {
  }

  lemma ThirdFails() returns (n: nat)
    ensures Reached(n, FailedThrice())
  {
    n := SecondFails();
    RestingIsFree();
    LastFails(n, Resting(), TwoFailures());
    n := n + 2;
  }

  /** Three failures of a row whose service allows two attempts: after the first failure and its delay, two workers read
      the row before either claims it. */
  lemma ThreeFailuresOfTwo() returns (run: Run)
    ensures IsRun(run) && Punctual(run) && RearmsFree(run)
    ensures var s := LastOf(run);
            |s.tallies| == 1 == |s.rows| && s.tallies[0].failuresSinceReset == 3
                && AutoRetry.CapOf(s, s.rows[0].rtype) == 2
  {
    var n := ThirdFails();
    run := ReachedIsARun(n, FailedThrice());
  }
}
