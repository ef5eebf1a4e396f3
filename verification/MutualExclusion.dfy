/** At most one live worker drives a row, across instances and crashes, as long as heartbeats land and no in-place
    update hits a row that is being driven. */
module MutualExclusion {
  import opened Prelude
  import opened ResourceRows
  import opened WorkerProtocol

  ghost predicate Exclusive(s: System) {
    forall v, w :: Drives(s, v) && Drives(s, w) && v != w ==> s.workers[v].row != s.workers[w].row
  }

  /** An active worker holds its row. */
  ghost predicate HoldersDrive(s: System)
    requires WellFormed(s)
  {
    forall w :: Drives(s, w) ==> Owns(s, w)
  }

  ghost predicate Invariant(s: System) { WellFormed(s) && Exclusive(s) && HoldersDrive(s) }

  /** A claim is never won while another live worker drives the row. */
  lemma ClaimsAreFresh(s: System, step: Step, w: WorkerId, v: WorkerId)
    requires Invariant(s) && Enabled(s, step) && HeartbeatsLand(s) && WinsClaim(s, step, w) && Drives(s, v)
    ensures s.workers[v].row != s.workers[w].row
  {
  }

  lemma ExclusiveStep(s: System, step: Step)
    requires Invariant(s) && Enabled(s, step) && HeartbeatsLand(s)
    ensures Exclusive(Next(s, step))
  {
    var t := Next(s, step);
    forall v, w | Drives(t, v) && Drives(t, w) && v != w ensures t.workers[v].row != t.workers[w].row {
      WorkerFrame(s, step, v);
      WorkerFrame(s, step, w);
      if !Drives(s, v) {
        ClaimsAreFresh(s, step, v, w);
      } else if !Drives(s, w) {
        ClaimsAreFresh(s, step, w, v);
      }
    }
  }

  /** A step by somebody else leaves the owner of a row that a worker drives. */
  lemma OwnerKept(s: System, step: Step, w: WorkerId)
    requires Invariant(s) && Enabled(s, step) && HeartbeatsLand(s) && RearmIsFree(s, step) && Drives(s, w)
    requires step.Finish? || step.Fail? ==> step.worker != w
    ensures var r := s.workers[w].row; r < |Next(s, step).rows| && Next(s, step).rows[r].owner == s.rows[r].owner
  {
    RowFrame(s, step, s.workers[w].row);
    if step.Claim? && WinsClaim(s, step, step.worker) {
      ClaimsAreFresh(s, step, step.worker, w);
    } else if step.Finish? || step.Fail? {
      assert Drives(s, step.worker);
    } else if step.ReclaimStale? {
      assert Owns(s, w);
    }
  }

  lemma HoldersDriveStep(s: System, step: Step, w: WorkerId)
    requires Invariant(s) && Enabled(s, step) && HeartbeatsLand(s) && RearmIsFree(s, step)
    requires Drives(Next(s, step), w)
    ensures WellFormed(Next(s, step)) && Owns(Next(s, step), w)
  {
    WellFormedAlways(s, step);
    WorkerFrame(s, step, w);
    if Drives(s, w) {
      OwnerKept(s, step, w);
    }
  }

  lemma InvariantStep(s: System, step: Step)
    requires Invariant(s) && Enabled(s, step) && HeartbeatsLand(s) && RearmIsFree(s, step)
    ensures Invariant(Next(s, step))
  {
    WellFormedAlways(s, step);
    ExclusiveStep(s, step);
    forall w | Drives(Next(s, step), w) { HoldersDriveStep(s, step, w); }
  }

  lemma {:induction false} InvariantHolds(run: Run, i: nat)
    requires IsRun(run) && Punctual(run) && RearmsFree(run) && i < |run.states|
    ensures Invariant(run.states[i])
  {
    if i > 0 {
      InvariantHolds(run, i - 1);
      InvariantStep(run.states[i - 1], run.steps[i - 1]);
    }
  }

  /** Mutual exclusion: in every reachable state at most one live worker runs a connector for a row. */
  lemma MutualExclusionHolds(run: Run, i: nat, v: WorkerId, w: WorkerId)
    requires IsRun(run) && Punctual(run) && RearmsFree(run) && i < |run.states|
    requires Drives(run.states[i], v) && Drives(run.states[i], w)
    requires run.states[i].workers[v].row == run.states[i].workers[w].row
    ensures v == w
  {
    InvariantHolds(run, i);
  }

  /** The first hypothesis is needed: whenever a live worker's heartbeat is late, and its row still calls for an
      operation, a fetch and a claim by anybody else put two live workers on the row. */
  lemma LateHeartbeatSplits(s: System, v: WorkerId, w: WorkerId, inst: Instance)
    requires WellFormed(s) && Drives(s, v) && w !in s.workers && inst !in s.dead
    requires var row := s.rows[s.workers[v].row]; row.updatedAt < s.now - STALE_SECS && ActionFor(row.state).Some?
    ensures Splits(s, v, w, inst)
  {
    WellFormedAlways(s, Fetch(w, s.workers[v].row, inst));
  }

  /** Another worker can read and claim the row that `v` drives, at once. */
  ghost predicate Splits(s: System, v: WorkerId, w: WorkerId, inst: Instance)
    requires WellFormed(s) && v in s.workers
  {
    var r := s.workers[v].row;
    && Enabled(s, Fetch(w, r, inst)) && WellFormed(Next(s, Fetch(w, r, inst)))
    && Enabled(Next(s, Fetch(w, r, inst)), Claim(w, s.now - STALE_SECS))
    && var t := Next(Next(s, Fetch(w, r, inst)), Claim(w, s.now - STALE_SECS));
      v != w && Drives(t, v) && Drives(t, w) && t.workers[v].row == t.workers[w].row
  }

  /** The second hypothesis is needed: whenever an in-place update hits a row a live worker drives, a fetch and a claim
      put a second one on it, at an instant at which the row was just written. */
  lemma RearmSplits(s: System, p: RearmId, v: WorkerId, w: WorkerId, inst: Instance)
    requires WellFormed(s) && Drives(s, v) && w !in s.workers && inst !in s.dead
    requires p in s.pending && s.pending[p].row == s.workers[v].row
    ensures var t := Next(s, Reapply(p));
            && WellFormed(t) && v in t.workers && t.rows[t.workers[v].row].updatedAt == t.now
            && Splits(t, v, w, inst)
  {
    WellFormedAlways(s, Reapply(p));
    SplitsFree(Next(s, Reapply(p)), v, w, inst);
  }

  lemma SplitsFree(s: System, v: WorkerId, w: WorkerId, inst: Instance)
    requires WellFormed(s) && Drives(s, v) && w !in s.workers && inst !in s.dead
    requires var row := s.rows[s.workers[v].row]; row.owner.None? && ActionFor(row.state).Some?
    ensures Splits(s, v, w, inst)
  {
    WellFormedAlways(s, Fetch(w, s.workers[v].row, inst));
  }
}
