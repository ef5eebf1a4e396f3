/** The provisioning work-item protocol as a transition system: many workers on many
    instances drive the rows of one table, reading and claiming in separate steps. */
module WorkerProtocol {
  import opened Prelude
  import opened ResourceRows
  import opened RetryPolicies

  type WorkerId = nat

  datatype RequestState = Approved | Fulfilled | OtherRequestState

  /** `Fetched`: the row was read, the claim is still to come. `Running`: the claim was won and
      the connector runs under a heartbeat. `Succeeded`: the connector returned, the heartbeat
      task is stopped and the request fulfilled; only the terminal write is left. */
  datatype Phase = Fetched | Running | Succeeded(outputs: Json)

  datatype Worker = Worker(row: nat, inst: Instance, snap: Row, phase: Phase)

  /** An instance looked a live record up for a request with another specification; its re-arming is still to come. */
  datatype Rearm = Rearm(row: nat, spec: Json, est: real, request: RequestId, inst: Instance)

  type RearmId = nat

  /** History of one row, kept only to state properties. An arming makes the row claimable
      without a claim having failed: creation, re-apply, teardown request, manual reclaim, a cascade. */
  datatype Tally = Tally(armings: nat, claims: nat, failures: nat, takeovers: nat, failuresSinceReset: nat)

  datatype System = System(
    now: int, rows: seq<Row>, tallies: seq<Tally>, workers: map<WorkerId, Worker>,
    dead: set<Instance>, requests: map<RequestId, RequestState>, pending: map<RearmId, Rearm>, settings: Settings)

  /** `LookUp` and `Reapply` are the two statements of an in-place update: the second has no guard. `Mark` is the
      statement by which the project cascades move a row, with no guard either. */
  datatype Step =
    | Tick(seconds: nat)
    | Submit(request: RequestId, state: RequestState)
    | Approve(request: RequestId)
    | Withdraw(request: RequestId)
    | Satisfy(request: RequestId)
    | Enqueue(project: string, rtype: string, name: string, spec: Json, est: real, request: RequestId)
    | Link(project: string, name: string, spec: Json, est: real)
    | LookUp(rearm: RearmId, row: nat, spec: Json, est: real, request: RequestId, inst: Instance)
    | Reapply(rearm: RearmId)
    | Mark(row: nat, mark: RowState)
    | Deprovision(row: nat)
    | Retry(row: nat)
    | ReclaimStale(row: nat, cutoff: int)
    | Fetch(worker: WorkerId, row: nat, inst: Instance)
    | Claim(worker: WorkerId, cutoff: int)
    | Heartbeat(worker: WorkerId)
    | Succeed(worker: WorkerId, outputs: Json)
    | Finish(worker: WorkerId)
    | Fail(worker: WorkerId, error: string)
    | Crash(inst: Instance)

  predicate IsActiveWorker(w: Worker) { !w.phase.Fetched? }

  ghost predicate Init(s: System) {
    s.rows == [] && s.tallies == [] && s.workers == map[] && s.dead == {} && s.pending == map[]
  }

  predicate Enabled(s: System, step: Step) {
    match step
    case Tick(_) => true
    case Submit(q, _) => q !in s.requests
    case Approve(q) => q in s.requests && s.requests[q] == OtherRequestState
    case Withdraw(q) => q in s.requests && s.requests[q] == Approved
    case Satisfy(q) => q in s.requests
    case Enqueue(_, _, _, _, _, q) => q in s.requests
    case Link(_, _, _, _) => true
    case LookUp(p, r, _, _, q, inst) =>
      && p !in s.pending && r < |s.rows| && s.rows[r].state == Provisioned && q in s.requests
      && inst !in s.dead
    case Reapply(p) => p in s.pending
    case Mark(r, _) => r < |s.rows|
    case Deprovision(r) => r < |s.rows|
    case Retry(r) => r < |s.rows|
    case ReclaimStale(r, cutoff) => r < |s.rows| && cutoff <= s.now - STALE_SECS
    case Fetch(w, r, inst) =>
      w !in s.workers && r < |s.rows| && inst !in s.dead && ActionFor(s.rows[r].state).Some?
    case Claim(w, cutoff) => w in s.workers && s.workers[w].phase.Fetched? && cutoff <= s.now - STALE_SECS
    case Heartbeat(w) => w in s.workers && s.workers[w].phase.Running?
    case Succeed(w, _) => w in s.workers && s.workers[w].phase.Running?
    case Finish(w) => w in s.workers && s.workers[w].phase.Succeeded?
    case Fail(w, _) => w in s.workers && s.workers[w].phase.Running?
    case Crash(_) => true
  }

  /** Workers drive existing rows on living instances, and read a row that called for an operation. */
  ghost predicate WorkersFit(s: System) {
    forall w :: w in s.workers ==>
      && s.workers[w].row < |s.rows|
      && s.workers[w].inst !in s.dead
      && ActionFor(s.workers[w].snap.state).Some?
  }

  /** In-place updates still to land concern existing rows and belong to living instances. */
  ghost predicate PendingFits(s: System) {
    forall p :: p in s.pending ==> s.pending[p].row < |s.rows| && s.pending[p].inst !in s.dead
  }

  /** What every reachable state satisfies before any hypothesis: indices are in range, workers and updates belong to
      living instances, and every claim stems from a real worker. */
  ghost predicate WellFormed(s: System) { |s.tallies| == |s.rows| && WorkersFit(s) && PendingFits(s) }

  /** The claim update of `step` matches the row as it is now. */
  predicate ClaimWins(s: System, w: WorkerId, cutoff: int)
    requires w in s.workers && s.workers[w].row < |s.rows|
  {
    Claimable(s.rows[s.workers[w].row], s.workers[w].snap.state, cutoff)
  }

  function SetRow(s: System, r: nat, row: Row, tally: Tally): System
    requires r < |s.rows| && |s.tallies| == |s.rows|
  {
    s.(rows := s.rows[r := row], tallies := s.tallies[r := tally])
  }

  function Armed(t: Tally): Tally { t.(armings := t.armings + 1) }

  function Cleared(t: Tally): Tally { t.(failuresSinceReset := 0) }

  /** Fulfilment moves an approved request to fulfilled and is harmless when repeated. */
  function Fulfil(requests: map<RequestId, RequestState>, q: RequestId): map<RequestId, RequestState> {
    if q in requests && requests[q] == Approved then requests[q := Fulfilled] else requests
  }

  ghost function Next(s: System, step: Step): System
    requires WellFormed(s) && Enabled(s, step)
  {
    match step
    case Tick(d) => s.(now := s.now + d)
    case Submit(q, state) => s.(requests := s.requests[q := state])
    case Approve(q) => s.(requests := s.requests[q := Approved])
    case Withdraw(q) => s.(requests := s.requests[q := OtherRequestState])
    case Satisfy(q) => s.(requests := Fulfil(s.requests, q))
    case Enqueue(project, rtype, name, spec, est, q) =>
      s.(rows := s.rows + [NewRow(project, rtype, name, spec, est, q, s.now)],
         tallies := s.tallies + [Tally(1, 0, 0, 0, 0)])
    case Link(project, name, spec, est) =>
      s.(rows := s.rows + [LinkedRow(project, name, spec, est, s.now)],
         tallies := s.tallies + [Tally(0, 0, 0, 0, 0)])
    case LookUp(p, r, spec, est, q, inst) =>
      s.(pending := s.pending[p := Rearm(r, spec, est, q, inst)])
    case Reapply(p) =>
      var a := s.pending[p];
      SetRow(s, a.row, Rearmed(s.rows[a.row], a.spec, a.est, a.request, s.now), Cleared(Armed(s.tallies[a.row])))
      .(pending := s.pending - {p})
    case Mark(r, state) =>
      SetRow(s, r, WithState(s.rows[r], state, s.now), Armed(s.tallies[r]))
    case Deprovision(r) =>
      SetRow(s, r, Deprovisioned(s.rows[r], s.now), Armed(s.tallies[r]))
    case Retry(r) =>
      SetRow(s, r, ResetForRetry(s.rows[r], s.now), Cleared(s.tallies[r]))
    case ReclaimStale(r, cutoff) =>
      if Reclaimable(s.rows[r], cutoff)
      then SetRow(s, r, Reclaimed(s.rows[r], s.now), Cleared(Armed(s.tallies[r])))
      else s
    case Fetch(w, r, inst) =>
      s.(workers := s.workers[w := Worker(r, inst, s.rows[r], Fetched)])
    case Claim(w, cutoff) =>
      var worker := s.workers[w];
      if ClaimWins(s, w, cutoff) then
        var t := s.tallies[worker.row];
        var stale := if s.rows[worker.row].owner.Some? then 1 else 0;
        SetRow(s, worker.row, Claimed(s.rows[worker.row], worker.inst, s.now),
               t.(claims := t.claims + 1, takeovers := t.takeovers + stale))
        .(workers := s.workers[w := worker.(phase := Running)])
      else s.(workers := s.workers - {w})
    case Heartbeat(w) =>
      var worker := s.workers[w];
      s.(rows := s.rows[worker.row := Beaten(s.rows[worker.row], worker.inst, s.now)])
    case Succeed(w, outputs) =>
      var worker := s.workers[w];
      var applied := ActionFor(worker.snap.state).value.Apply?;
      s.(workers := s.workers[w := worker.(phase := Succeeded(if applied then outputs else worker.snap.outputs))],
         requests := if applied && worker.snap.requestId.Some? then Fulfil(s.requests, worker.snap.requestId.value)
                     else s.requests)
    case Finish(w) =>
      var worker := s.workers[w];
      var terminal := SuccessState(ActionFor(worker.snap.state).value);
      SetRow(s, worker.row, Finished(s.rows[worker.row], terminal, worker.phase.outputs, s.now),
             Cleared(s.tallies[worker.row]))
      .(workers := s.workers - {w})
    case Fail(w, error) =>
      var worker := s.workers[w];
      var t := s.tallies[worker.row];
      var terminal := FailureState(ActionFor(worker.snap.state).value);
      var attempts := worker.snap.attempts + 1;
      var next := NextDeadline(attempts, RetryPolicyFor(s.settings, worker.snap.rtype), s.now);
      SetRow(s, worker.row, MarkedFailed(s.rows[worker.row], terminal, error, attempts, next, s.now),
             t.(failures := t.failures + 1, failuresSinceReset := t.failuresSinceReset + 1))
      .(workers := s.workers - {w})
    case Crash(inst) =>
      s.(dead := s.dead + {inst},
         workers := map w | w in s.workers && s.workers[w].inst != inst :: s.workers[w],
         pending := map p | p in s.pending && s.pending[p].inst != inst :: s.pending[p])
  }

  /** A finite run: consecutive states, and the step between each two of them. */
  datatype Run = Run(states: seq<System>, steps: seq<Step>)

  ghost predicate IsRun(run: Run) {
    && |run.states| == |run.steps| + 1
    && Init(run.states[0])
    && (forall i :: 0 <= i < |run.states| ==> WellFormed(run.states[i]))
    && (forall i :: 0 <= i < |run.steps| ==>
          && Enabled(run.states[i], run.steps[i])
          && run.states[i + 1] == Next(run.states[i], run.steps[i]))
  }

  /** The step starts, moves or ends a worker. */
  predicate MovesWorkers(step: Step) {
    step.Fetch? || step.Claim? || step.Succeed? || step.Finish? || step.Fail? || step.Crash?
  }

  lemma WorkersUntouched(s: System, step: Step)
    requires WellFormed(s) && Enabled(s, step) && !MovesWorkers(step)
    ensures Next(s, step).workers == s.workers && Next(s, step).dead == s.dead
  {
  }

  lemma RowsStay(s: System, step: Step)
    requires WellFormed(s) && Enabled(s, step)
    ensures |s.rows| <= |Next(s, step).rows|
  {
  }

  lemma WorkersFitAlways(s: System, step: Step)
    requires WellFormed(s) && Enabled(s, step)
    ensures WorkersFit(Next(s, step))
  {
    RowsStay(s, step);
    if !MovesWorkers(step) {
      WorkersUntouched(s, step);
    }
  }

  lemma PendingFitsAlways(s: System, step: Step)
    requires WellFormed(s) && Enabled(s, step)
    ensures PendingFits(Next(s, step)) && |Next(s, step).tallies| == |Next(s, step).rows|
  {
  }

  /** Well-formedness never restricts a run: it holds initially and every step keeps it. */
  lemma WellFormedAlways(s: System, step: Step)
    ensures Init(s) ==> WellFormed(s)
    ensures WellFormed(s) && Enabled(s, step) ==> WellFormed(Next(s, step))
  {
    if WellFormed(s) && Enabled(s, step) {
      WorkersFitAlways(s, step);
      PendingFitsAlways(s, step);
    }
  }

  function LastOf(run: Run): System
    requires |run.states| > 0
  {
    run.states[|run.states| - 1]
  }

  ghost predicate Extends(longer: Run, run: Run) { run.states <= longer.states && run.steps <= longer.steps }

  /** A run can be continued by any enabled step. */
  lemma OneMore(run: Run, step: Step) returns (longer: Run)
    requires IsRun(run) && Enabled(LastOf(run), step)
    ensures IsRun(longer) && Extends(longer, run) && LastOf(longer) == Next(LastOf(run), step)
    ensures |longer.steps| == |run.steps| + 1 && longer.steps[|run.steps|] == step
  {
    WellFormedAlways(LastOf(run), step);
    var next, n := Next(LastOf(run), step), |run.steps|;
    longer := Run(run.states + [next], run.steps + [step]);
    forall i | 0 <= i < |longer.steps|
      ensures WellFormed(longer.states[i]) && Enabled(longer.states[i], longer.steps[i])
      ensures longer.states[i + 1] == Next(longer.states[i], longer.steps[i])
    {
      if i < n {
        assert longer.states[i] == run.states[i] && longer.states[i + 1] == run.states[i + 1]
               && longer.steps[i] == run.steps[i];
      } else {
        assert longer.states[n] == LastOf(run) && longer.states[n + 1] == next && longer.steps[n] == step;
      }
    }
  }

  /** The row a step may write, if any. */
  function Written(s: System, step: Step): Option<nat>
    requires Enabled(s, step)
  {
    match step
    case Reapply(p) => Some(s.pending[p].row)
    case Mark(r, _) => Some(r)
    case Deprovision(r) => Some(r)
    case Retry(r) => Some(r)
    case ReclaimStale(r, _) => Some(r)
    case Claim(w, _) => Some(s.workers[w].row)
    case Heartbeat(w) => Some(s.workers[w].row)
    case Finish(w) => Some(s.workers[w].row)
    case Fail(w, _) => Some(s.workers[w].row)
    case _ => None
  }

  lemma UnwrittenRows(s: System, step: Step)
    requires WellFormed(s) && Enabled(s, step) && Written(s, step).None?
    ensures s.rows <= Next(s, step).rows && s.tallies <= Next(s, step).tallies
    ensures |Next(s, step).rows| <= |s.rows| + 1
  {
  }

  lemma WrittenRows(s: System, step: Step, r: nat)
    requires WellFormed(s) && Enabled(s, step) && Written(s, step) == Some(r)
    ensures r < |s.rows| == |Next(s, step).rows|
    ensures Next(s, step).rows == s.rows[r := Next(s, step).rows[r]]
    ensures |Next(s, step).tallies| == |s.tallies|
            && Next(s, step).tallies == s.tallies[r := Next(s, step).tallies[r]]
  {
  }

  /** Steps write at most one existing row, never remove one, and append at most one. */
  lemma RowFrame(s: System, step: Step, r: nat)
    requires WellFormed(s) && Enabled(s, step) && r < |s.rows|
    ensures |s.rows| <= |Next(s, step).rows| <= |s.rows| + 1
    ensures Written(s, step) != Some(r) ==>
            Next(s, step).rows[r] == s.rows[r] && Next(s, step).tallies[r] == s.tallies[r]
  {
    match Written(s, step)
    case None => UnwrittenRows(s, step);
    case Some(x) => WrittenRows(s, step, x);
  }

  predicate Drives(s: System, w: WorkerId) { w in s.workers && IsActiveWorker(s.workers[w]) }

  predicate WinsClaim(s: System, step: Step, w: WorkerId)
    requires WellFormed(s) && Enabled(s, step)
  {
    step.Claim? && step.worker == w && ClaimWins(s, w, step.cutoff)
  }

  /** A worker that drives after a step drove before it, with the same row, instance and snapshot, or has just won its
      claim. */
  lemma WorkerFrame(s: System, step: Step, w: WorkerId)
    requires WellFormed(s) && Enabled(s, step) && Drives(Next(s, step), w)
    ensures w in s.workers
    ensures var now, was := Next(s, step).workers[w], s.workers[w];
            now.row == was.row && now.inst == was.inst && now.snap == was.snap
    ensures Drives(s, w) || WinsClaim(s, step, w)
    ensures step.Finish? || step.Fail? ==> step.worker != w
  {
    if !MovesWorkers(step) {
      WorkersUntouched(s, step);
    }
  }

  /** The worker drives a row whose owner is its instance. */
  predicate Owns(s: System, w: WorkerId)
    requires WellFormed(s)
  {
    Drives(s, w) && s.rows[s.workers[w].row].owner == Some(s.workers[w].inst)
  }

  /** The hypothesis on timing: the row of a live worker that holds it never counts as stale. While the connector runs
      its heartbeat must land in time, and after that the terminal write. */
  ghost predicate HeartbeatsLand(s: System)
    requires WellFormed(s)
  {
    forall w :: Owns(s, w) ==> s.rows[s.workers[w].row].updatedAt >= s.now - STALE_SECS
  }

  ghost predicate Punctual(run: Run)
    requires IsRun(run)
  {
    forall i :: 0 <= i < |run.states| ==> HeartbeatsLand(run.states[i])
  }

  /** The hypothesis on in-place updates: nobody drives the row a re-arming hits. */
  ghost predicate RearmIsFree(s: System, step: Step)
    requires WellFormed(s) && Enabled(s, step)
  {
    step.Reapply? ==> forall w :: Drives(s, w) ==> s.workers[w].row != s.pending[step.rearm].row
  }

  ghost predicate RearmsFree(run: Run)
    requires IsRun(run)
  {
    forall i :: 0 <= i < |run.steps| ==> RearmIsFree(run.states[i], run.steps[i])
  }
}
