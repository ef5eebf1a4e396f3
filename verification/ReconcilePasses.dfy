/** Repeated sweeps of the reconciler drain all outstanding work although one pass takes at most 50 rows. */
module ReconcilePasses {
  import opened Prelude
  import opened Listings
  import opened ResourceRows
  import opened RetryPolicies
  import opened WorkerProtocol
  import CrashRecovery
  import AutoRetry

  const SWEEP_LIMIT: nat := 50

  function Outstanding(rows: seq<Row>): set<nat> {
    set r: nat | r < |rows| && IsWorkState(rows[r].state)
  }

  /** A row after a drive whose connector succeeds: claimed and finished. */
  function Recovered(row: Row, inst: Instance, outputs: Json, now: int): Row {
    match ActionFor(row.state)
    case None => row
    case Some(action) => Finished(Claimed(row, inst, now), SuccessState(action), if action.Apply? then outputs
                                  else row.outputs, now)
  }

  /** One reclaim sweep over `ids` at time `now`, all connectors succeeding. */
  datatype Pass = Pass(ids: seq<nat>, now: int, inst: Instance, outputs: Json)

  function AfterPass(rows: seq<Row>, pass: Pass): seq<Row> {
    seq(|rows|, r requires 0 <= r < |rows| =>
      if r in pass.ids then Recovered(rows[r], pass.inst, pass.outputs, pass.now) else rows[r])
  }

  ghost predicate IsSweep(rows: seq<Row>, pass: Pass) {
    IsListing(rows, pass.ids, row => Reclaimable(row, pass.now - STALE_SECS), (row: Row) => row.createdAt, SWEEP_LIMIT)
  }

  /** Tables between consecutive passes; time never runs backwards. */
  ghost predicate ArePasses(tables: seq<seq<Row>>, passes: seq<Pass>) {
    && |tables| == |passes| + 1
    && (forall k :: 0 <= k < |passes| ==>
        IsSweep(tables[k], passes[k]) && tables[k + 1] == AfterPass(tables[k], passes[k]))
    && (forall k :: 0 < k < |passes| ==> passes[k - 1].now <= passes[k].now)
  }

  ghost predicate AllReclaimable(rows: seq<Row>, now: int) {
    forall r :: 0 <= r < |rows| && IsWorkState(rows[r].state) ==> Reclaimable(rows[r], now - STALE_SECS)
  }

  /** A pass removes exactly the rows it lists from the outstanding work. */
  lemma PassFinishesListed(rows: seq<Row>, pass: Pass)
    requires IsSweep(rows, pass)
    ensures Outstanding(AfterPass(rows, pass)) == Outstanding(rows) - Elements(pass.ids)
    ensures Elements(pass.ids) <= Outstanding(rows)
  {
  }

  /** One pass finishes 50 outstanding rows, or all that are left. */
  lemma PassShrinks(rows: seq<Row>, pass: Pass)
    requires IsSweep(rows, pass) && AllReclaimable(rows, pass.now)
    ensures |Outstanding(AfterPass(rows, pass))| == Max(0, |Outstanding(rows)| - SWEEP_LIMIT)
  {
    var listed := Elements(pass.ids);
    DistinctCount(pass.ids);
    PassFinishesListed(rows, pass);
    if |pass.ids| < SWEEP_LIMIT {
      forall r | r in Outstanding(rows) ensures r in listed {
        assert Reclaimable(rows[r], pass.now - STALE_SECS);
        assert r in pass.ids;
      }
    }
  }

  /** What one or more passes may have done to a row. */
  predicate LeftOrFinished(before: Row, after: Row) {
    after == before
    || (IsWorkState(before.state) && after.state == (if before.state.Provisioning? then Provisioned else Destroyed)
        && after.owner.None?)
  }

  lemma PassKeeps(rows: seq<Row>, pass: Pass, r: nat)
    requires IsSweep(rows, pass) && r < |rows|
    ensures LeftOrFinished(rows[r], AfterPass(rows, pass)[r])
  {
  }

  lemma {:induction false} PassesKeep(tables: seq<seq<Row>>, passes: seq<Pass>, k: nat, r: nat)
    requires ArePasses(tables, passes) && k <= |passes| && r < |tables[0]|
    ensures |tables[k]| == |tables[0]| && LeftOrFinished(tables[0][r], tables[k][r])
  {
    if k > 0 {
      PassesKeep(tables, passes, k - 1, r);
      PassKeeps(tables[k - 1], passes[k - 1], r);
    }
  }

  lemma {:induction false} TimeMovesOn(tables: seq<seq<Row>>, passes: seq<Pass>, k: nat)
    requires ArePasses(tables, passes) && k < |passes|
    ensures passes[0].now <= passes[k].now
  {
    if k > 0 {
      TimeMovesOn(tables, passes, k - 1);
    }
  }

  lemma {:induction false} PassesKeepSize(tables: seq<seq<Row>>, passes: seq<Pass>, k: nat)
    requires ArePasses(tables, passes) && k <= |passes|
    ensures |tables[k]| == |tables[0]|
  {
    if k > 0 {
      PassesKeepSize(tables, passes, k - 1);
    }
  }

  /** What was reclaimable before the first pass and is still outstanding is reclaimable in every later one. */
  lemma StillReclaimable(tables: seq<seq<Row>>, passes: seq<Pass>, k: nat)
    requires ArePasses(tables, passes) && k < |passes| && AllReclaimable(tables[0], passes[0].now)
    ensures AllReclaimable(tables[k], passes[k].now)
  {
    TimeMovesOn(tables, passes, k);
    PassesKeepSize(tables, passes, k);
    forall r | 0 <= r < |tables[k]|
        && IsWorkState(tables[k][r].state) ensures Reclaimable(tables[k][r], passes[k].now - STALE_SECS) {
      PassesKeep(tables, passes, k, r);
    }
  }

  lemma OnePassShrinks(tables: seq<seq<Row>>, passes: seq<Pass>, k: nat)
    requires ArePasses(tables, passes) && k < |passes| && AllReclaimable(tables[0], passes[0].now)
    ensures |Outstanding(tables[k + 1])| == Max(0, |Outstanding(tables[k])| - SWEEP_LIMIT)
  {
    StillReclaimable(tables, passes, k);
    PassShrinks(tables[k], passes[k]);
  }

  lemma {:induction false} PassesShrink(tables: seq<seq<Row>>, passes: seq<Pass>, k: nat)
    requires ArePasses(tables, passes) && k <= |passes| && passes != [] && AllReclaimable(tables[0], passes[0].now)
    ensures |Outstanding(tables[k])| == Max(0, |Outstanding(tables[0])| - SWEEP_LIMIT * k)
  {
    if k > 0 {
      PassesShrink(tables, passes, k - 1);
      OnePassShrinks(tables, passes, k - 1);
    }
  }

  /** Convergence: after ⌈n/50⌉ passes over n outstanding rows each of them is provisioned or
      destroyed, as its state asked, and every other row is as it was. */
  lemma PassesConverge(tables: seq<seq<Row>>, passes: seq<Pass>, k: nat, r: nat)
    requires ArePasses(tables, passes) && k <= |passes| && passes != [] && AllReclaimable(tables[0], passes[0].now)
    requires SWEEP_LIMIT * k >= |Outstanding(tables[0])| && r < |tables[0]|
    ensures |tables[k]| == |tables[0]|
    ensures IsWorkState(tables[0][r].state) ==>
              tables[k][r].state == if tables[0][r].state.Provisioning? then Provisioned else Destroyed
    ensures !IsWorkState(tables[0][r].state) ==> tables[k][r] == tables[0][r]
  {
    PassesShrink(tables, passes, k);
    PassesKeep(tables, passes, k, r);
    assert r !in Outstanding(tables[k]);
  }

  /** From any reachable state in which no live worker drives a row, waiting out STALE_SECS and then
      sweeping ⌈n/50⌉ times finishes all outstanding work. */
  lemma RecoveryFromAnyState(run: Run, i: nat, seconds: nat, tables: seq<seq<Row>>, passes: seq<Pass>, k: nat, r: nat)
    requires IsRun(run) && i < |run.states| && CrashRecovery.NobodyDrives(run.states[i]) && seconds > STALE_SECS
    requires ArePasses(tables, passes) && passes != [] && k <= |passes|
    requires tables[0] == run.states[i].rows && passes[0].now >= run.states[i].now + seconds
    requires SWEEP_LIMIT * k >= |Outstanding(tables[0])| && r < |tables[0]|
    ensures |tables[k]| == |tables[0]|
    ensures IsWorkState(tables[0][r].state) ==>
              tables[k][r].state == if tables[0][r].state.Provisioning? then Provisioned else Destroyed
    ensures !IsWorkState(tables[0][r].state) ==> tables[k][r] == tables[0][r]
  {
    forall q | 0 <= q < |tables[0]| && IsWorkState(tables[0][q].state)
      ensures Reclaimable(tables[0][q], passes[0].now - STALE_SECS)
    {
      CrashRecovery.SettledWorkIsReclaimable(run, i, seconds, q);
    }
    PassesConverge(tables, passes, k, r);
  }

  /** Any row that needs an operation and is free can be read and claimed at once, whichever sweep selected it. */
  lemma FreeRowIsClaimed(s: System, r: nat, w: WorkerId, inst: Instance)
    requires WellFormed(s) && r < |s.rows| && w !in s.workers && inst !in s.dead
    requires ActionFor(s.rows[r].state).Some? && Unheld(s.rows[r], s.now - STALE_SECS)
    ensures Enabled(s, Fetch(w, r, inst))
    ensures var t := Next(s, Fetch(w, r, inst));
            WellFormed(t) && Enabled(t, Claim(w, t.now - STALE_SECS)) && WinsClaim(t, Claim(w, t.now - STALE_SECS), w)
    ensures var t := Next(Next(s, Fetch(w, r, inst)), Claim(w, s.now - STALE_SECS));
            t.workers == s.workers[w := Worker(r, inst, s.rows[r], Running)]
            && t.rows == s.rows[r := Claimed(s.rows[r], inst, s.now)] && t.now == s.now
  {
  }

  /** `t` is `s` with a worker that has just claimed row `r`. */
  predicate ClaimedFrom(s: System, t: System, r: nat, w: WorkerId, inst: Instance) {
    && r < |s.rows| && w !in s.workers && t.now == s.now && t.dead == s.dead && t.settings == s.settings
    && t.workers == s.workers[w := Worker(r, inst, s.rows[r], Running)]
    && t.rows == s.rows[r := Claimed(s.rows[r], inst, s.now)]
  }

  /** The outputs a successful drive of the row stores. */
  function OutputsOf(row: Row, outputs: Json): Json {
    if ActionFor(row.state) == Some(Apply) then outputs else row.outputs
  }

  predicate SucceededFrom(s: System, t: System, r: nat, w: WorkerId, inst: Instance, outputs: Json) {
    && r < |s.rows| && w !in s.workers && t.now == s.now && t.dead == s.dead && t.settings == s.settings
    && t.workers == s.workers[w := Worker(r, inst, s.rows[r], Succeeded(OutputsOf(s.rows[r], outputs)))]
    && t.rows == s.rows[r := Claimed(s.rows[r], inst, s.now)]
  }

  lemma ClaimedSucceeds(s: System, t: System, r: nat, w: WorkerId, inst: Instance, outputs: Json)
    requires WellFormed(t) && ClaimedFrom(s, t, r, w, inst)
    ensures Enabled(t, Succeed(w, outputs)) && SucceededFrom(s, Next(t, Succeed(w, outputs)), r, w, inst, outputs)
  {
  }

  /** A claimed drive whose connector succeeds leaves the recovered row, and no worker. */
  lemma SucceededIsRecovered(s: System, t: System, r: nat, w: WorkerId, inst: Instance, outputs: Json)
    requires WellFormed(t) && SucceededFrom(s, t, r, w, inst, outputs)
    ensures Enabled(t, Finish(w))
    ensures var u := Next(t, Finish(w));
            && u.rows == s.rows[r := Recovered(s.rows[r], inst, outputs, s.now)] && u.workers == s.workers
            && u.now == s.now && u.dead == s.dead && u.settings == s.settings
  {
  }

  /** A claimed drive whose connector fails: the row is failed with one more attempt and the next deadline, if any. */
  lemma ClaimedIsFailed(s: System, t: System, r: nat, w: WorkerId, inst: Instance, error: string)
    requires WellFormed(t) && ClaimedFrom(s, t, r, w, inst)
    ensures Enabled(t, Fail(w, error))
    ensures var u, policy := Next(t, Fail(w, error)), RetryPolicyFor(s.settings, s.rows[r].rtype);
            && u.rows == s.rows[r := AutoRetry.AfterFailure(s.rows[r], error, policy, s.now)] && u.workers == s.workers
            && u.now == s.now && u.dead == s.dead && u.settings == s.settings
  {
  }
}
