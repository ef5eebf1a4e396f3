/** What keeps approved intent from being stranded, and what a teardown intent can be lost to: an apply or an in-place
    update begun before it, or a cascade. */
module RequestIntents {
  import opened Prelude
  import opened ResourceRows
  import opened WorkerProtocol

  predicate IsFulfilled(s: System, q: RequestId) { q in s.requests && s.requests[q] == Fulfilled }

  /** The hypothesis on claims: one that is won names the request its row carries now, not one the row carried when
      the worker read it. */
  predicate ClaimIsCurrent(s: System, step: Step)
    requires WellFormed(s) && Enabled(s, step)
  {
    step.Claim? && WinsClaim(s, step, step.worker) ==>
      s.workers[step.worker].snap.requestId == s.rows[s.workers[step.worker].row].requestId
  }

  ghost predicate ClaimsCurrent(run: Run)
    requires IsRun(run)
  {
    forall i :: 0 <= i < |run.steps| ==> ClaimIsCurrent(run.states[i], run.steps[i])
  }

  predicate Applies(w: Worker) { ActionFor(w.snap.state) == Some(Apply) }

  /** The hypothesis on approvals: a request whose apply succeeds is still approved, or fulfilled already. */
  predicate IsApprovedStill(s: System, step: Step)
    requires Enabled(s, step)
  {
    step.Succeed? && Applies(s.workers[step.worker]) && s.workers[step.worker].snap.requestId.Some? ==>
      var q := s.workers[step.worker].snap.requestId.value;
      q in s.requests && s.requests[q] != OtherRequestState
  }

  ghost predicate ApprovedStill(run: Run)
    requires IsRun(run)
  {
    forall i :: 0 <= i < |run.steps| ==> IsApprovedStill(run.states[i], run.steps[i])
  }

  predicate RearmsRow(s: System, step: Step, r: nat)
    requires Enabled(s, step)
  {
    step.Reapply? && s.pending[step.rearm].row == r
  }

  /** The row is live at `i`, and not re-armed from then on until `k`. */
  ghost predicate LiveSince(run: Run, i: nat, k: nat, r: nat)
    requires IsRun(run) && k < |run.states|
  {
    && i <= k && r < |run.states[i].rows| && run.states[i].rows[r].state == Provisioned
    && forall m :: i <= m < k ==> !RearmsRow(run.states[m], run.steps[m], r)
  }

  /** A cascade marks a row that carries a request as provisioned. */
  predicate PutsLive(s: System, step: Step)
    requires Enabled(s, step)
  {
    step.Mark? && step.mark == Provisioned && s.rows[step.row].requestId.Some?
  }

  /** The hypothesis on cascades: they only put back what was live. A row with a request is marked as provisioned only
      if it was provisioned at some earlier instant, and has not been re-armed since. */
  ghost predicate MarksRestore(run: Run)
    requires IsRun(run)
  {
    forall k :: 0 <= k < |run.steps| && PutsLive(run.states[k], run.steps[k]) ==>
      exists i :: LiveSince(run, i, k, run.steps[k].row)
  }

  /** The four hypotheses of the fulfilment order. None is about time: claims may take rows from live workers. */
  ghost predicate Orderly(run: Run)
    requires IsRun(run)
  {
    RearmsFree(run) && ClaimsCurrent(run) && ApprovedStill(run) && MarksRestore(run)
  }

  ghost predicate WorkerServes(s: System, w: WorkerId)
    requires WellFormed(s) && Drives(s, w)
  {
    var worker := s.workers[w];
    && worker.snap.requestId == s.rows[worker.row].requestId
    && (worker.phase.Succeeded? && Applies(worker) && worker.snap.requestId.Some? ==>
          IsFulfilled(s, worker.snap.requestId.value))
  }

  predicate RowServes(s: System, r: nat)
    requires r < |s.rows|
  {
    s.rows[r].state == Provisioned && s.rows[r].requestId.Some? ==> IsFulfilled(s, s.rows[r].requestId.value)
  }

  ghost predicate Invariant(s: System) {
    && WellFormed(s)
    && (forall w :: Drives(s, w) ==> WorkerServes(s, w))
    && (forall r :: 0 <= r < |s.rows| ==> RowServes(s, r))
  }

  lemma FulfilledForGood(s: System, step: Step, q: RequestId)
    requires WellFormed(s) && Enabled(s, step)
    ensures IsFulfilled(s, q) ==> IsFulfilled(Next(s, step), q)
  {
  }

  /** The row a worker goes on driving keeps its request. */
  lemma DrivenRowKeepsRequest(s: System, step: Step, w: WorkerId)
    requires WellFormed(s) && Enabled(s, step) && RearmIsFree(s, step) && Drives(s, w)
    ensures var r := s.workers[w].row;
            r < |Next(s, step).rows| && Next(s, step).rows[r].requestId == s.rows[r].requestId
  {
    RowFrame(s, step, s.workers[w].row);
  }

  lemma DriverServesStep(s: System, step: Step, w: WorkerId)
    requires Invariant(s) && Enabled(s, step) && RearmIsFree(s, step) && IsApprovedStill(s, step)
    requires Drives(s, w) && Drives(Next(s, step), w)
    ensures WellFormed(Next(s, step)) && WorkerServes(Next(s, step), w)
  {
    WellFormedAlways(s, step);
    WorkerFrame(s, step, w);
    DrivenRowKeepsRequest(s, step, w);
    assert WorkerServes(s, w);
    if s.workers[w].snap.requestId.Some? {
      FulfilledForGood(s, step, s.workers[w].snap.requestId.value);
    }
  }

  lemma WorkerServesStep(s: System, step: Step, w: WorkerId)
    requires Invariant(s) && Enabled(s, step) && RearmIsFree(s, step)
    requires ClaimIsCurrent(s, step) && IsApprovedStill(s, step) && Drives(Next(s, step), w)
    ensures WellFormed(Next(s, step)) && WorkerServes(Next(s, step), w)
  {
    WellFormedAlways(s, step);
    WorkerFrame(s, step, w);
    if Drives(s, w) {
      DriverServesStep(s, step, w);
    }
  }

  /** The row a worker finishes serves its request, because the worker does. */
  lemma FinishedRowServes(s: System, step: Step)
    requires Invariant(s) && Enabled(s, step) && step.Finish?
    ensures var r := s.workers[step.worker].row; r < |Next(s, step).rows| && RowServes(Next(s, step), r)
  {
    assert WorkerServes(s, step.worker);
  }

  lemma RowServesStep(s: System, step: Step, r: nat)
    requires Invariant(s) && Enabled(s, step) && r < |Next(s, step).rows|
    requires PutsLive(s, step) && step.row == r ==> IsFulfilled(s, s.rows[r].requestId.value)
    ensures RowServes(Next(s, step), r)
  {
    if step.Finish? && r == s.workers[step.worker].row {
      FinishedRowServes(s, step);
    } else if r < |s.rows| {
      RowFrame(s, step, r);
      assert RowServes(s, r);
      if s.rows[r].requestId.Some? {
        FulfilledForGood(s, step, s.rows[r].requestId.value);
      }
    }
  }

  lemma InvariantStep(s: System, step: Step)
    requires Invariant(s) && Enabled(s, step) && RearmIsFree(s, step)
    requires ClaimIsCurrent(s, step) && IsApprovedStill(s, step)
    requires PutsLive(s, step) ==> IsFulfilled(s, s.rows[step.row].requestId.value)
    ensures Invariant(Next(s, step))
  {
    WellFormedAlways(s, step);
    forall w | Drives(Next(s, step), w) { WorkerServesStep(s, step, w); }
    forall r: nat | r < |Next(s, step).rows| { RowServesStep(s, step, r); }
  }

  /** A row that is not re-armed keeps its request, and a fulfilled request stays so. */
  lemma {:induction false} StaysServed(run: Run, i: nat, k: nat, r: nat)
    requires IsRun(run) && i <= k < |run.states| && r < |run.states[i].rows|
    requires forall m :: i <= m < k ==> !RearmsRow(run.states[m], run.steps[m], r)
    ensures r < |run.states[k].rows| && run.states[k].rows[r].requestId == run.states[i].rows[r].requestId
    ensures forall q :: IsFulfilled(run.states[i], q) ==> IsFulfilled(run.states[k], q)
    decreases k - i
  {
    if i < k {
      RequestStays(run, i, r);
      StaysServed(run, i + 1, k, r);
    }
  }

  lemma RequestStays(run: Run, i: nat, r: nat)
    requires IsRun(run) && i < |run.steps| && r < |run.states[i].rows|
    requires !RearmsRow(run.states[i], run.steps[i], r)
    ensures r < |run.states[i + 1].rows| && run.states[i + 1].rows[r].requestId == run.states[i].rows[r].requestId
    ensures forall q :: IsFulfilled(run.states[i], q) ==> IsFulfilled(run.states[i + 1], q)
  {
    RowFrame(run.states[i], run.steps[i], r);
    forall q | IsFulfilled(run.states[i], q) { FulfilledForGood(run.states[i], run.steps[i], q); }
  }

  lemma {:induction false} InvariantHolds(run: Run, i: nat)
    requires IsRun(run) && Orderly(run) && i < |run.states|
    ensures Invariant(run.states[i])
    decreases i, 0
  {
    if i > 0 {
      InvariantHolds(run, i - 1);
      if PutsLive(run.states[i - 1], run.steps[i - 1]) { RestoredIsServed(run, i - 1); }
      InvariantStep(run.states[i - 1], run.steps[i - 1]);
    }
  }

  /** What a cascade puts back was served when it was live. */
  lemma {:induction false} RestoredIsServed(run: Run, k: nat)
    requires IsRun(run) && Orderly(run) && k < |run.steps| && PutsLive(run.states[k], run.steps[k])
    ensures IsFulfilled(run.states[k], run.states[k].rows[run.steps[k].row].requestId.value)
    decreases k, 1
  {
    var r := run.steps[k].row;
    var i: nat :| LiveSince(run, i, k, r);
    InvariantHolds(run, i);
    assert RowServes(run.states[i], r);
    StaysServed(run, i, k, r);
  }

  /** In every reachable state the request behind a provisioned row is fulfilled. */
  lemma ProvisionedIsFulfilled(run: Run, i: nat, r: nat)
    requires IsRun(run) && Orderly(run) && i < |run.states|
    requires r < |run.states[i].rows| && run.states[i].rows[r].state == Provisioned
             && run.states[i].rows[r].requestId.Some?
    ensures IsFulfilled(run.states[i], run.states[i].rows[r].requestId.value)
  {
    InvariantHolds(run, i);
    assert RowServes(run.states[i], r);
  }

  /** What the hypotheses on claims and approvals are for: a running apply that now succeeds and finishes with nothing
      in between leaves its row provisioned, and the request the row carries is then fulfilled if and only if it was
      before, or it is the one the worker read and it is still approved. */
  lemma ServedIff(s: System, w: WorkerId, q: RequestId, outputs: Json)
    requires WellFormed(s) && Drives(s, w) && s.workers[w].phase.Running? && Applies(s.workers[w])
    requires s.rows[s.workers[w].row].requestId == Some(q)
    ensures Enabled(s, Succeed(w, outputs)) && WellFormed(Next(s, Succeed(w, outputs)))
    ensures Enabled(Next(s, Succeed(w, outputs)), Finish(w))
    ensures var after, r := Next(Next(s, Succeed(w, outputs)), Finish(w)), s.workers[w].row;
            && after.rows[r].state == Provisioned && after.rows[r].requestId == Some(q)
            && (IsFulfilled(after, q) <==>
                  IsFulfilled(s, q) || (s.workers[w].snap.requestId == Some(q) && q in s.requests
                                        && s.requests[q] == Approved))
  {
    WellFormedAlways(s, Succeed(w, outputs));
  }

  ghost predicate Carried(s: System, q: RequestId) {
    exists r :: 0 <= r < |s.rows| && s.rows[r].requestId == Some(q)
  }

  /** The hypothesis on in-place updates: the request whose record one takes is fulfilled. */
  predicate RearmKeeps(s: System, step: Step)
    requires WellFormed(s) && Enabled(s, step)
  {
    step.Reapply? ==>
      var was, a := s.rows[s.pending[step.rearm].row].requestId, s.pending[step.rearm];
      was.Some? && was != Some(a.request) ==> IsFulfilled(s, was.value)
  }

  ghost predicate RearmsKeep(run: Run)
    requires IsRun(run)
  {
    forall i :: 0 <= i < |run.steps| ==> RearmKeeps(run.states[i], run.steps[i])
  }

  ghost predicate Settled(s: System, q: RequestId) { Carried(s, q) || IsFulfilled(s, q) }

  lemma CarrierStep(s: System, step: Step, q: RequestId, r: nat)
    requires WellFormed(s) && Enabled(s, step) && r < |s.rows| && s.rows[r].requestId == Some(q)
    ensures r < |Next(s, step).rows|
    ensures Next(s, step).rows[r].requestId == Some(q)
            || (step.Reapply? && s.pending[step.rearm].row == r && s.pending[step.rearm].request != q)
  {
    RowFrame(s, step, r);
  }

  lemma SettledStep(s: System, step: Step, q: RequestId)
    requires WellFormed(s) && Enabled(s, step) && RearmKeeps(s, step) && Settled(s, q)
    ensures Settled(Next(s, step), q)
  {
    FulfilledForGood(s, step, q);
    if !IsFulfilled(s, q) {
      var r :| 0 <= r < |s.rows| && s.rows[r].requestId == Some(q);
      CarrierStep(s, step, q, r);
    }
  }

  /** A request once carried by a record or fulfilled stays so on every run on which in-place updates take no record
      from an unfulfilled request. */
  lemma {:induction false} NoRequestDropped(run: Run, i: nat, j: nat, q: RequestId)
    requires IsRun(run) && RearmsKeep(run) && i <= j < |run.states| && Settled(run.states[i], q)
    ensures Settled(run.states[j], q)
    decreases j - i
  {
    if i < j {
      SettledStep(run.states[i], run.steps[i], q);
      NoRequestDropped(run, i + 1, j, q);
    }
  }

  predicate CarriesOnly(s: System, q: RequestId, r: nat) {
    forall r' :: 0 <= r' < |s.rows| && s.rows[r'].requestId == Some(q) ==> r' == r
  }

  /** The exact condition under which a step drops a request: it re-arms, for another request, the only row that
      carries it. */
  lemma DroppedIff(s: System, step: Step, q: RequestId)
    requires WellFormed(s) && Enabled(s, step) && Carried(s, q) && !IsFulfilled(s, q)
    ensures !Settled(Next(s, step), q) ==>
              step.Reapply? && s.pending[step.rearm].request != q && CarriesOnly(s, q, s.pending[step.rearm].row)
    ensures step.Reapply? && s.pending[step.rearm].request != q && CarriesOnly(s, q, s.pending[step.rearm].row) ==>
              !Settled(Next(s, step), q)
  {
    var r :| 0 <= r < |s.rows| && s.rows[r].requestId == Some(q);
    CarrierStep(s, step, q, r);
    if step.Reapply? && s.rows[s.pending[step.rearm].row].requestId == Some(q)
        && !CarriesOnly(s, q, s.pending[step.rearm].row) {
      var r' :| 0 <= r' < |s.rows| && s.rows[r'].requestId == Some(q) && r' != s.pending[step.rearm].row;
      CarrierStep(s, step, q, r');
    }
  }

  /** In-place updates of rows that are still live when they are re-armed take no record from an unfulfilled request. */
  lemma LiveRearmsKeep(run: Run)
    requires IsRun(run) && Orderly(run)
    requires forall i :: 0 <= i < |run.steps| && run.steps[i].Reapply? ==>
               run.states[i].rows[run.states[i].pending[run.steps[i].rearm].row].state == Provisioned
    ensures RearmsKeep(run)
  {
    forall i | 0 <= i < |run.steps| ensures RearmKeeps(run.states[i], run.steps[i]) {
      InvariantHolds(run, i);
      if run.steps[i].Reapply? { assert RowServes(run.states[i], run.states[i].pending[run.steps[i].rearm].row); }
    }
  }

  // ---- Teardown intents ----

  predicate IsTeardown(state: RowState) { state in {Destroying, DestroyFailed, Destroyed} }

  /** The row is being torn down, and neither a running apply nor an in-place update looked up before can still
      overwrite that. */
  ghost predicate TeardownSafe(s: System, r: nat)
    requires WellFormed(s) && r < |s.rows|
  {
    && IsTeardown(s.rows[r].state)
    && (forall w :: Drives(s, w) && s.workers[w].row == r ==> ActionFor(s.workers[w].snap.state) == Some(Destroy))
    && (forall p :: p in s.pending ==> s.pending[p].row != r)
  }

  /** The step is a cascade that takes the row out of teardown. */
  predicate LeavesTeardown(step: Step, r: nat) { step.Mark? && step.row == r && !IsTeardown(step.mark) }

  lemma SafeDriversStep(s: System, step: Step, r: nat)
    requires WellFormed(s) && Enabled(s, step) && r < |s.rows| && TeardownSafe(s, r)
    ensures forall w :: Drives(Next(s, step), w) && Next(s, step).workers[w].row == r ==>
              ActionFor(Next(s, step).workers[w].snap.state) == Some(Destroy)
  {
    var t := Next(s, step);
    forall w | Drives(t, w) && t.workers[w].row == r ensures ActionFor(t.workers[w].snap.state) == Some(Destroy) {
      WorkerFrame(s, step, w);
    }
  }

  lemma SafeRowStep(s: System, step: Step, r: nat)
    requires WellFormed(s) && Enabled(s, step) && r < |s.rows| && TeardownSafe(s, r) && !LeavesTeardown(step, r)
    ensures r < |Next(s, step).rows| && IsTeardown(Next(s, step).rows[r].state)
  {
    RowFrame(s, step, r);
    if step.Finish? || step.Fail? {
      assert Drives(s, step.worker);
    }
  }

  /** Only live rows are looked up. */
  lemma SafePendingStep(s: System, step: Step, r: nat)
    requires WellFormed(s) && Enabled(s, step) && r < |s.rows| && TeardownSafe(s, r)
    ensures forall p :: p in Next(s, step).pending ==> Next(s, step).pending[p].row != r
  {
  }

  lemma TeardownSafeStep(s: System, step: Step, r: nat)
    requires WellFormed(s) && Enabled(s, step) && r < |s.rows| && TeardownSafe(s, r) && !LeavesTeardown(step, r)
    ensures WellFormed(Next(s, step)) && r < |Next(s, step).rows| && TeardownSafe(Next(s, step), r)
  {
    WellFormedAlways(s, step);
    SafeDriversStep(s, step, r);
    SafeRowStep(s, step, r);
    SafePendingStep(s, step, r);
  }

  lemma TeardownSafeAfter(run: Run, k: nat, r: nat)
    requires IsRun(run) && k < |run.steps| && r < |run.states[k].rows| && TeardownSafe(run.states[k], r)
    requires !LeavesTeardown(run.steps[k], r)
    ensures r < |run.states[k + 1].rows| && TeardownSafe(run.states[k + 1], r)
  {
    TeardownSafeStep(run.states[k], run.steps[k], r);
  }

  /** No cascade takes the row out of teardown between the `i`-th and the `j`-th step. */
  ghost predicate Unmarked(run: Run, i: nat, j: nat, r: nat)
    requires i <= j <= |run.steps|
  {
    forall k :: i <= k < j ==> !LeavesTeardown(run.steps[k], r)
  }

  /** With no timing or atomicity hypothesis: a safe teardown is never undone, unless by a cascade. */
  lemma {:induction false} TeardownKept(run: Run, i: nat, j: nat, r: nat)
    requires IsRun(run) && i <= j < |run.states| && r < |run.states[i].rows| && TeardownSafe(run.states[i], r)
    requires Unmarked(run, i, j, r)
    ensures r < |run.states[j].rows| && TeardownSafe(run.states[j], r)
    decreases j - i
  {
    if i < j {
      TeardownSafeAfter(run, i, r);
      TeardownKept(run, i + 1, j, r);
    }
  }

  /** Some continuation of the run without a cascade takes the row out of teardown. */
  ghost predicate CanBeUndone(run: Run, r: nat)
    requires IsRun(run)
  {
    exists longer :: Undoes(longer, run, r)
  }

  ghost predicate Undoes(longer: Run, run: Run, r: nat)
    requires IsRun(run)
  {
    && IsRun(longer) && Extends(longer, run) && Unmarked(longer, |run.steps|, |longer.steps|, r)
    && r < |LastOf(longer).rows| && !IsTeardown(LastOf(longer).rows[r].state)
  }

  lemma UndoesLater(longer: Run, mid: Run, run: Run, r: nat)
    requires IsRun(run) && IsRun(mid) && Undoes(longer, mid, r)
    requires Extends(mid, run) && Unmarked(mid, |run.steps|, |mid.steps|, r)
    ensures Undoes(longer, run, r)
  {
    forall k | |run.steps| <= k < |longer.steps| ensures !LeavesTeardown(longer.steps[k], r) {
      if k < |mid.steps| { assert longer.steps[k] == mid.steps[k]; }
    }
  }

  /** An apply that has succeeded only has to finish. */
  lemma ApplyFinishes(run: Run, w: WorkerId) returns (longer: Run)
    requires IsRun(run) && Drives(LastOf(run), w)
    requires Applies(LastOf(run).workers[w]) && LastOf(run).workers[w].phase.Succeeded?
    ensures Undoes(longer, run, LastOf(run).workers[w].row)
  {
    longer := OneMore(run, Finish(w));
  }

  lemma ApplySucceeds(run: Run, w: WorkerId, outputs: Json) returns (longer: Run)
    requires IsRun(run) && Drives(LastOf(run), w) && LastOf(run).workers[w].phase.Running?
    ensures IsRun(longer) && Extends(longer, run) && |longer.steps| == |run.steps| + 1
    ensures longer.steps[|run.steps|] == Succeed(w, outputs)
    ensures Drives(LastOf(longer), w) && LastOf(longer).workers[w].phase.Succeeded?
    ensures LastOf(longer).workers[w].row == LastOf(run).workers[w].row
    ensures LastOf(longer).workers[w].snap == LastOf(run).workers[w].snap
  {
    longer := OneMore(run, Succeed(w, outputs));
  }

  lemma RearmLands(run: Run, p: RearmId) returns (longer: Run)
    requires IsRun(run) && p in LastOf(run).pending
    ensures IsRun(longer) && Extends(longer, run) && |longer.steps| == |run.steps| + 1
    ensures longer.steps[|run.steps|] == Reapply(p)
    ensures var r := LastOf(run).pending[p].row;
            r < |LastOf(longer).rows| && LastOf(longer).rows[r].state == Provisioning
  {
    longer := OneMore(run, Reapply(p));
  }

  /** A teardown an apply overlaps is undone when the apply succeeds. */
  lemma ApplyUndoes(run: Run, r: nat, w: WorkerId, outputs: Json) returns (longer: Run)
    requires IsRun(run) && Drives(LastOf(run), w) && LastOf(run).workers[w].row == r && Applies(LastOf(run).workers[w])
    ensures Undoes(longer, run, r)
  {
    if LastOf(run).workers[w].phase.Running? {
      var mid := ApplySucceeds(run, w, outputs);
      longer := ApplyFinishes(mid, w);
      UndoesLater(longer, mid, run, r);
    } else {
      longer := ApplyFinishes(run, w);
    }
  }

  /** One that was looked up for an in-place update is undone when the update lands. */
  lemma RearmUndoes(run: Run, r: nat, p: RearmId) returns (longer: Run)
    requires IsRun(run) && p in LastOf(run).pending && LastOf(run).pending[p].row == r
    ensures Undoes(longer, run, r)
  {
    longer := RearmLands(run, p);
  }

  lemma TeardownLost(run: Run, r: nat, outputs: Json) returns (longer: Run)
    requires IsRun(run) && r < |LastOf(run).rows| && IsTeardown(LastOf(run).rows[r].state)
    requires !TeardownSafe(LastOf(run), r)
    ensures Undoes(longer, run, r)
  {
    var s := LastOf(run);
    if p :| p in s.pending && s.pending[p].row == r {
      longer := RearmUndoes(run, r, p);
    } else {
      var w :| Drives(s, w) && s.workers[w].row == r && ActionFor(s.workers[w].snap.state) != Some(Destroy);
      assert Applies(s.workers[w]);
      longer := ApplyUndoes(run, r, w, outputs);
    }
  }

  /** The exact condition: in any run whatsoever, a row in teardown can leave it again, other than by a cascade, if and
      only if a live worker is still applying it or an in-place update that had looked it up is still to come. */
  lemma TeardownUndoneIff(run: Run, r: nat)
    requires IsRun(run) && r < |LastOf(run).rows| && IsTeardown(LastOf(run).rows[r].state)
    ensures CanBeUndone(run, r) <==> !TeardownSafe(LastOf(run), r)
  {
    if !TeardownSafe(LastOf(run), r) {
      var longer := TeardownLost(run, r, "{}");
      assert Undoes(longer, run, r);
    } else if CanBeUndone(run, r) {
      var longer :| Undoes(longer, run, r);
      var i := |run.states| - 1;
      assert longer.states[i] == LastOf(run);
      TeardownKept(longer, i, |longer.states| - 1, r);
    }
  }
}
