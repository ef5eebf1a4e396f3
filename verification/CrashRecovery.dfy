/** Interrupted work is never lost: every outstanding row is driven, reclaimable, or about to
    become reclaimable, and repeated reconcile passes finish all of them. */
module CrashRecovery {
  import opened Prelude
  import opened ResourceRows
  import opened WorkerProtocol

  ghost predicate DrivenBy(s: System, r: nat, inst: Instance) {
    exists w :: Drives(s, w) && s.workers[w].row == r && s.workers[w].inst == inst
  }

  /** Whoever is named as a row's owner is dead or really has a worker on it; clocks never run ahead. */
  ghost predicate Explained(s: System, r: nat)
    requires r < |s.rows|
  {
    && (s.rows[r].owner.Some? ==> s.rows[r].owner.value in s.dead || DrivenBy(s, r, s.rows[r].owner.value))
    && s.rows[r].updatedAt <= s.now
  }

  lemma WorkerPersists(s: System, step: Step, w: WorkerId)
    requires WellFormed(s) && Enabled(s, step) && Drives(s, w)
    requires !((step.Finish? || step.Fail?) && step.worker == w)
    requires !(step.Crash? && step.inst == s.workers[w].inst)
    ensures Drives(Next(s, step), w)
    ensures Next(s, step).workers[w].row == s.workers[w].row && Next(s, step).workers[w].inst == s.workers[w].inst
  {
    if !MovesWorkers(step) { WorkersUntouched(s, step); }
  }

  predicate WinsRow(s: System, step: Step, r: nat)
    requires WellFormed(s) && Enabled(s, step)
  {
    step.Claim? && WinsClaim(s, step, step.worker) && s.workers[step.worker].row == r
  }

  lemma OwnerStep(s: System, step: Step, r: nat)
    requires WellFormed(s) && Enabled(s, step) && r < |s.rows|
    ensures r < |Next(s, step).rows|
    ensures var now, was := Next(s, step).rows[r], s.rows[r];
            || now.owner.None?
            || WinsRow(s, step, r)
            || (now.owner == was.owner && !((step.Finish? || step.Fail?) && s.workers[step.worker].row == r))
  {
    RowFrame(s, step, r);
  }

  lemma TimeStep(s: System, step: Step, r: nat)
    requires WellFormed(s) && Enabled(s, step) && r < |s.rows| && s.rows[r].updatedAt <= s.now
    ensures r < |Next(s, step).rows| && Next(s, step).rows[r].updatedAt <= Next(s, step).now
  {
    RowFrame(s, step, r);
  }

  /** Whoever drives a row goes on, ends its drive, or dies. */
  lemma GoesOnOrDies(s: System, step: Step, w: WorkerId)
    requires WellFormed(s) && Enabled(s, step) && Drives(s, w) && !((step.Finish? || step.Fail?) && step.worker == w)
    ensures s.workers[w].inst in Next(s, step).dead
            || DrivenBy(Next(s, step), s.workers[w].row, s.workers[w].inst)
  {
    if step != Crash(s.workers[w].inst) {
      WorkerPersists(s, step, w);
      assert Drives(Next(s, step), w);
    }
  }

  lemma DeadStayDead(s: System, step: Step)
    requires WellFormed(s) && Enabled(s, step)
    ensures s.dead <= Next(s, step).dead
  {
    if !MovesWorkers(step) { WorkersUntouched(s, step); }
  }

  lemma OwnerStaysExplained(s: System, step: Step, r: nat)
    requires WellFormed(s) && Enabled(s, step) && r < |s.rows| && Explained(s, r)
    requires r < |Next(s, step).rows| && Next(s, step).rows[r].owner.Some? && !WinsRow(s, step, r)
    ensures var t := Next(s, step); t.rows[r].owner.value in t.dead || DrivenBy(t, r, t.rows[r].owner.value)
  {
    OwnerStep(s, step, r);
    if s.rows[r].owner.value in s.dead {
      DeadStayDead(s, step);
    } else {
      var w :| Drives(s, w) && s.workers[w].row == r && s.workers[w].inst == s.rows[r].owner.value;
      GoesOnOrDies(s, step, w);
    }
  }

  lemma ExplainedStep(s: System, step: Step, r: nat)
    requires WellFormed(s) && Enabled(s, step) && r < |Next(s, step).rows|
    requires r < |s.rows| ==> Explained(s, r)
    ensures Explained(Next(s, step), r)
  {
    if r < |s.rows| {
      TimeStep(s, step, r);
      if Next(s, step).rows[r].owner.Some? {
        if WinsRow(s, step, r) {
          assert Drives(Next(s, step), step.worker);
        } else {
          OwnerStaysExplained(s, step, r);
        }
      }
    }
  }

  lemma {:induction false} ExplainedHolds(run: Run, i: nat, r: nat)
    requires IsRun(run) && i < |run.states| && r < |run.states[i].rows|
    ensures Explained(run.states[i], r)
  {
    if i > 0 {
      if r < |run.states[i - 1].rows| {
        ExplainedHolds(run, i - 1, r);
      }
      ExplainedStep(run.states[i - 1], run.steps[i - 1], r);
    }
  }

  /** Every outstanding row is driven by a live worker, reclaimable now, or held by a dead instance. */
  lemma WorkIsNeverLost(run: Run, i: nat, r: nat)
    requires IsRun(run) && i < |run.states| && r < |run.states[i].rows| && IsWorkState(run.states[i].rows[r].state)
    ensures var s := run.states[i];
            || Reclaimable(s.rows[r], s.now - STALE_SECS)
            || (s.rows[r].owner.Some? && (DrivenBy(s, r, s.rows[r].owner.value) || s.rows[r].owner.value in s.dead))
  {
    ExplainedHolds(run, i, r);
  }

  /** The step writes the row other than by a heartbeat. */
  predicate Rewrites(s: System, step: Step, r: nat)
    requires Enabled(s, step)
  {
    !step.Heartbeat? && Written(s, step) == Some(r)
  }

  lemma OrphanStep(run: Run, k: nat, r: nat)
    requires IsRun(run) && k < |run.steps| && r < |run.states[k].rows|
    requires run.states[k].rows[r].owner.Some? && run.states[k].rows[r].owner.value in run.states[k].dead
    requires !Rewrites(run.states[k], run.steps[k], r)
    ensures r < |run.states[k + 1].rows| && run.states[k + 1].rows[r] == run.states[k].rows[r]
    ensures run.states[k].dead <= run.states[k + 1].dead
  {
    RowFrame(run.states[k], run.steps[k], r);
    DeadStayDead(run.states[k], run.steps[k]);
  }

  /** No step other than a write to the row itself changes a row held by a dead instance; heartbeats do not either. */
  lemma {:induction false} OrphanFrozen(run: Run, i: nat, j: nat, r: nat)
    requires IsRun(run) && i <= j < |run.states| && r < |run.states[i].rows|
    requires run.states[i].rows[r].owner.Some? && run.states[i].rows[r].owner.value in run.states[i].dead
    requires forall k :: i <= k < j ==> !Rewrites(run.states[k], run.steps[k], r)
    ensures r < |run.states[j].rows| && run.states[j].rows[r] == run.states[i].rows[r]
    ensures run.states[i].dead <= run.states[j].dead
    decreases j - i
  {
    if i < j {
      OrphanStep(run, i, r);
      OrphanFrozen(run, i + 1, j, r);
    }
  }

  /** A dead holder's row becomes reclaimable exactly when its last heartbeat is older than STALE_SECS. */
  lemma OrphanAgesOut(run: Run, i: nat, j: nat, r: nat)
    requires IsRun(run) && i <= j < |run.states| && r < |run.states[i].rows| && IsWorkState(run.states[i].rows[r].state)
    requires run.states[i].rows[r].owner.Some? && run.states[i].rows[r].owner.value in run.states[i].dead
    requires forall k :: i <= k < j ==> !Rewrites(run.states[k], run.steps[k], r)
    ensures r < |run.states[j].rows|
    ensures Reclaimable(run.states[j].rows[r], run.states[j].now - STALE_SECS)
            <==> run.states[j].now > run.states[i].rows[r].updatedAt + STALE_SECS
  {
    OrphanFrozen(run, i, j, r);
  }

  ghost predicate NobodyDrives(s: System) { forall w :: w in s.workers ==> !IsActiveWorker(s.workers[w]) }

  /** Once no live worker drives anything and more than STALE_SECS pass, all outstanding work is reclaimable. */
  lemma SettledWorkIsReclaimable(run: Run, i: nat, seconds: nat, r: nat)
    requires IsRun(run) && i < |run.states| && NobodyDrives(run.states[i]) && seconds > STALE_SECS
    requires r < |run.states[i].rows| && IsWorkState(run.states[i].rows[r].state)
    ensures var t := Next(run.states[i], Tick(seconds)); r < |t.rows| && Reclaimable(t.rows[r], t.now - STALE_SECS)
  {
    ExplainedHolds(run, i, r);
  }

  // ---- Letting the live workers finish ----

  function Driving(s: System): set<WorkerId> { set w | w in s.workers && IsActiveWorker(s.workers[w]) }

  /** A live worker whose connector succeeds is done after at most two steps, and no other worker is touched. */
  lemma DriverFinishes(run: Run, w: WorkerId, outputs: Json) returns (longer: Run)
    requires IsRun(run) && w in Driving(LastOf(run))
    ensures IsRun(longer) && Extends(longer, run)
    ensures LastOf(longer).workers == LastOf(run).workers - {w} && LastOf(longer).now == LastOf(run).now
  {
    longer := run;
    if LastOf(run).workers[w].phase.Running? { longer := OneMore(run, Succeed(w, outputs)); }
    longer := OneMore(longer, Finish(w));
  }

  /** Every run can be continued, without time passing, to one in which no live worker drives a row: all connectors
      succeed. */
  lemma {:induction false} DriversFinish(run: Run, outputs: Json) returns (longer: Run)
    requires IsRun(run)
    ensures IsRun(longer) && Extends(longer, run) && NobodyDrives(LastOf(longer))
            && LastOf(longer).now == LastOf(run).now
    decreases |Driving(LastOf(run))|
  {
    longer := run;
    var driving := Driving(LastOf(run));
    if driving != {} {
      var w :| w in driving;
      longer := DriverFinishes(run, w, outputs);
      assert Driving(LastOf(longer)) == driving - {w};
      longer := DriversFinish(longer, outputs);
    } else {
      forall w | w in LastOf(run).workers ensures !IsActiveWorker(LastOf(run).workers[w]) { assert w !in driving; }
    }
  }
}
