/** What claims cost, with no hypothesis on timing at all. */
module ClaimAccounting {
  import opened Prelude
  import opened ResourceRows
  import opened WorkerProtocol

  /** A row anybody could claim at once carries one unspent permission to be claimed. */
  function Unspent(row: Row): nat { if ActionFor(row.state).Some? && row.owner.None? then 1 else 0 }

  ghost predicate Accounted(s: System, r: nat)
    requires WellFormed(s) && r < |s.rows|
  {
    var t := s.tallies[r];
    t.claims + Unspent(s.rows[r]) <= t.armings + t.failures + t.takeovers
  }

  lemma AccountedStep(s: System, step: Step, r: nat)
    requires WellFormed(s) && Enabled(s, step) && r < |Next(s, step).rows|
    requires r < |s.rows| ==> Accounted(s, r)
    ensures WellFormed(Next(s, step)) && Accounted(Next(s, step), r)
  {
    WellFormedAlways(s, step);
    if r < |s.rows| {
      RowFrame(s, step, r);
    }
  }

  /** Claims of a row never outnumber its armings, recorded failures and stale takeovers together. */
  lemma {:induction false} ClaimsBounded(run: Run, i: nat, r: nat)
    requires IsRun(run) && i < |run.states| && r < |run.states[i].rows|
    ensures Accounted(run.states[i], r)
  {
    if i > 0 {
      var s := run.states[i - 1];
      if r < |s.rows| {
        ClaimsBounded(run, i - 1, r);
      }
      AccountedStep(s, run.steps[i - 1], r);
    }
  }

  /** The step takes the row from its holder. */
  ghost predicate Releases(s: System, step: Step, r: nat)
    requires WellFormed(s) && Enabled(s, step) && r < |s.rows|
  {
    RowFrame(s, step, r);
    s.rows[r].owner.Some? && Next(s, step).rows[r].owner.None?
  }

  /** Only terminal writes, in-place updates and reclaims of a stale row release a row. */
  lemma ReleaseKinds(s: System, step: Step, r: nat)
    requires WellFormed(s) && Enabled(s, step) && r < |s.rows| && Releases(s, step, r)
    ensures step.Finish? || step.Fail? || step.Reapply?
            || (step.ReclaimStale? && s.rows[r].updatedAt < s.now - STALE_SECS)
  {
  }

  ghost predicate ReleasedBetween(run: Run, i: nat, j: nat, r: nat)
    requires IsRun(run) && i <= j < |run.states|
  {
    exists k :: i <= k < j && r < |run.states[k].rows| && Releases(run.states[k], run.steps[k], r)
  }

  lemma OwnedOrReleased(run: Run, i: nat, r: nat)
    requires IsRun(run) && i < |run.steps| && r < |run.states[i].rows| && run.states[i].rows[r].owner.Some?
    ensures r < |run.states[i + 1].rows|
    ensures run.states[i + 1].rows[r].owner.Some? || Releases(run.states[i], run.steps[i], r)
  {
    RowFrame(run.states[i], run.steps[i], r);
  }

  lemma {:induction false} OwnedUntilReleased(run: Run, i: nat, j: nat, r: nat)
    requires IsRun(run) && i <= j < |run.states| && r < |run.states[i].rows| && run.states[i].rows[r].owner.Some?
    ensures ReleasedBetween(run, i, j, r) || (r < |run.states[j].rows| && run.states[j].rows[r].owner.Some?)
    decreases j - i
  {
    if i < j {
      OwnedOrReleased(run, i, r);
      if run.states[i + 1].rows[r].owner.Some? { OwnedUntilReleased(run, i + 1, j, r); }
    }
  }

  /** Two successful claims of one row are separated by a release, or the second takes over a stale heartbeat. */
  lemma ClaimsSeparated(run: Run, i: nat, j: nat, v: WorkerId, w: WorkerId)
    requires IsRun(run) && i < j < |run.steps|
    requires WinsClaim(run.states[i], run.steps[i], v) && WinsClaim(run.states[j], run.steps[j], w)
    requires run.states[i].workers[v].row == run.states[j].workers[w].row
    ensures var r := run.states[j].workers[w].row;
            || ReleasedBetween(run, i + 1, j, r)
            || (run.states[j].rows[r].owner.Some? && run.states[j].rows[r].updatedAt < run.states[j].now - STALE_SECS)
  {
    var r := run.states[j].workers[w].row;
    RowFrame(run.states[i], run.steps[i], r);
    OwnedUntilReleased(run, i + 1, j, r);
  }
}
