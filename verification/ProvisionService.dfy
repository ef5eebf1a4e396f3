/** The provisioning service over the table: one drive of a row, enqueueing approved requests,
    the reconciler's sweeps, manual retry and teardown, and the admission test. */
module ProvisionService {
  import opened Prelude
  import opened Listings
  import opened ResourceRows
  import opened RetryPolicies
  import opened ProvisionTable
  import opened WorkerProtocol
  import opened ReconcilePasses
  import AutoRetry
  import SelfServiceCeiling

  const APPROVED_LIMIT: nat := 200

  /** A workflow request, with the payload fields provisioning reads. */
  datatype Request = Request(kind: string, projectId: Option<string>, rtype: Option<string>, name: string, spec: Json,
                             state: RequestState, createdAt: int)

  /** The request's record exists, or the request is fulfilled. */
  ghost predicate Settled(rows: seq<Row>, requests: seq<Request>, q: nat)
    requires q < |requests|
  {
    requests[q].state.Fulfilled? || exists r :: 0 <= r < |rows| && rows[r].requestId == Some(q)
  }

  /** Every live record's request is fulfilled (the invariant `ProvisionedIsFulfilled` of the protocol). */
  ghost predicate Serves(rows: seq<Row>, requests: seq<Request>) {
    forall r :: 0 <= r < |rows| && rows[r].requestId.Some? ==>
      rows[r].requestId.value < |requests|
          && (rows[r].state.Provisioned? ==> requests[rows[r].requestId.value].state.Fulfilled?)
  }

  /** Requests only move from approved to fulfilled. */
  ghost predicate OnlyFulfils(before: seq<Request>, after: seq<Request>) {
    |before| == |after| && forall q :: 0 <= q < |before| ==>
      after[q] == before[q] || (before[q].state.Approved? && after[q] == before[q].(state := Fulfilled))
  }

  function FulfilledAt(requests: seq<Request>, q: RequestId): seq<Request> {
    if q < |requests| && requests[q].state.Approved? then requests[q := requests[q].(state := Fulfilled)] else requests
  }

  ghost predicate KeepsSettled(rows: seq<Row>, requests: seq<Request>, rows': seq<Row>, requests': seq<Request>) {
    |requests| == |requests'| && forall q :: 0 <= q < |requests| && Settled(rows, requests, q) ==>
        Settled(rows', requests', q)
  }

  lemma AppendKeepsSettled(rows: seq<Row>, row: Row, requests: seq<Request>)
    ensures KeepsSettled(rows, requests, rows + [row], requests)
  {
    forall q | 0 <= q < |requests| && Settled(rows, requests, q) ensures Settled(rows + [row], requests, q) {
      if !requests[q].state.Fulfilled? {
        var r :| 0 <= r < |rows| && rows[r].requestId == Some(q);
        assert (rows + [row])[r].requestId == Some(q);
      }
    }
  }

  /** Re-arming a live row may take it from an older request, but that one is fulfilled. */
  lemma RearmKeepsSettled(rows: seq<Row>, id: nat, row: Row, requests: seq<Request>)
    requires id < |rows| && rows[id].state.Provisioned? && Serves(rows, requests)
    ensures KeepsSettled(rows, requests, rows[id := row], requests)
  {
    forall q | 0 <= q < |requests| && Settled(rows, requests, q) ensures Settled(rows[id := row], requests, q) {
      if !requests[q].state.Fulfilled? {
        var r :| 0 <= r < |rows| && rows[r].requestId == Some(q);
        assert rows[id := row][r].requestId == Some(q);
      }
    }
  }

  datatype Tables = Tables(rows: seq<Row>, requests: seq<Request>)

  predicate Carries(rows: seq<Row>, q: nat) { exists r :: 0 <= r < |rows| && rows[r].requestId == Some(q) }

  predicate NewestActive(rows: seq<Row>, id: nat, project: string, rtype: string, name: string) {
    id < |rows| && IsActiveNamed(rows[id], project, rtype, name)
    && forall r :: 0 <= r < |rows| && IsActiveNamed(rows[r], project, rtype, name) ==>
       rows[r].createdAt <= rows[id].createdAt
  }

  /** What enqueueing a request does: nothing if it has a record; a re-arming of the newest live row of its name if its
      spec changed; fulfilment if that row already does, or is about to do, what is asked; otherwise a new row. Rows in
      flight, failed, resting or torn down are never written. */
  ghost predicate Enqueued(before: Tables, after: Tables, project: string, q: nat,
                           estimate: (string, Json) -> Option<real>, now: int, record: Result<nat, string>)
    requires q < |before.requests|
  {
    var req := before.requests[q];
    if Carries(before.rows, q) then
      && after == before && record.Ok?
      && record.value < |before.rows| && before.rows[record.value].requestId == Some(q)
    else if req.rtype.None? then after == before && record.Err?
    else
      var est := estimate(req.rtype.value, req.spec);
      if exists r :: 0 <= r < |before.rows| && IsActiveNamed(before.rows[r], project, req.rtype.value, req.name) then
        && record.Ok? && NewestActive(before.rows, record.value, project, req.rtype.value, req.name)
        && var row := before.rows[record.value];
          var armed := row.(spec := req.spec, est := if est.Some? then est.value else row.est, requestId := Some(q),
                            state := Provisioning, error := "", owner := None, attempts := 0, nextRetry := None,
                            updatedAt := now);
          if row.state.Provisioned? && row.spec != req.spec
          then after == before.(rows := before.rows[record.value := armed])
          else after == before.(requests := FulfilledAt(before.requests, q))
      else
        var cost := if est.Some? then est.value else 0.0;
        && record == Ok(|before.rows|)
        && after == before.(rows := before.rows
                                    + [Row(project, req.rtype.value, req.name, req.spec, "{}", cost, Provisioning, None,
                                           Some(q), now, now, "", 0, None)])
  }

  /** Every other request that is still approved has a record after the step if and only if it had one before. */
  ghost predicate CarriesAlike(before: Tables, after: Tables, q: nat) {
    forall p :: 0 <= p < |before.requests| && p != q && before.requests[p].state.Approved? ==>
      (Carries(after.rows, p) <==> Carries(before.rows, p))
  }

  lemma CarriesStay(before: Tables, after: Tables, project: string, q: nat, estimate: (string, Json) -> Option<real>,
                    now: int, record: Result<nat, string>)
    requires q < |before.requests| && Serves(before.rows, before.requests)
             && Enqueued(before, after, project, q, estimate, now, record)
    ensures CarriesAlike(before, after, q)
  {
    forall p | 0 <= p < |before.requests| && p != q && before.requests[p].state.Approved?
      ensures Carries(after.rows, p) <==> Carries(before.rows, p)
    {
      if r :| 0 <= r < |before.rows| && before.rows[r].requestId == Some(p) {
        assert after.rows[r].requestId == Some(p);
      }
      if r :| 0 <= r < |after.rows| && after.rows[r].requestId == Some(p) {
        assert r < |before.rows| && before.rows[r].requestId == Some(p);
      }
    }
  }

  /** Enqueueing an approved request settles it unless its payload names no resource type, and unsettles no other, not
      even when it takes a live record from an older request: that one is fulfilled. */
  lemma EnqueueSettles(before: Tables, after: Tables, project: string, q: nat,
                       estimate: (string, Json) -> Option<real>, now: int, record: Result<nat, string>)
    requires q < |before.requests| && before.requests[q].state.Approved? && Serves(before.rows, before.requests)
    requires Enqueued(before, after, project, q, estimate, now, record)
    ensures Progressed(before, after)
    ensures Settled(after.rows, after.requests, q) || before.requests[q].rtype.None?
    ensures forall p :: 0 <= p < |before.requests| && p != q ==> after.requests[p] == before.requests[p]
    ensures CarriesAlike(before, after, q)
  {
    CarriesStay(before, after, project, q, estimate, now, record);
    if |after.rows| > |before.rows| {
      AppendKeepsSettled(before.rows, after.rows[|before.rows|], before.requests);
      assert after.rows[|before.rows|].requestId == Some(q);
    } else if after.rows != before.rows {
      RearmKeepsSettled(before.rows, record.value, after.rows[record.value], before.requests);
      assert after.rows[record.value].requestId == Some(q);
    }
  }

  /** `rows` is the table after one enqueue step, or after a look-up and, with nothing in between, the re-arming of the
      row looked up. */
  ghost predicate IsEnqueued(s: System, rows: seq<Row>)
    requires WellFormed(s)
  {
    (exists step :: IsEnqueueStep(s, step, rows)) || (exists look :: IsRearmed(s, look, rows))
  }

  ghost predicate IsEnqueueStep(s: System, step: Step, rows: seq<Row>)
    requires WellFormed(s)
  {
    step.Enqueue? && Enabled(s, step) && Next(s, step).rows == rows
  }

  ghost predicate IsRearmed(s: System, look: Step, rows: seq<Row>)
    requires WellFormed(s)
  {
    && look.LookUp? && Enabled(s, look)
    && var t := Next(s, look);
      && WellFormed(t) && Enabled(t, Reapply(look.rearm)) && Next(t, Reapply(look.rearm)).rows == rows
  }

  lemma RearmIsTwoSteps(s: System, look: Step)
    requires WellFormed(s) && look.LookUp? && Enabled(s, look)
    ensures IsRearmed(s, look, s.rows[look.row := Rearmed(s.rows[look.row], look.spec, look.est, look.request, s.now)])
  {
    WellFormedAlways(s, look);
  }

  /** What an undisturbed enqueueing does to the table is one step of the protocol, or the two of an in-place update, or
      nothing. */
  lemma EnqueueIsAStep(s: System, before: Tables, after: Tables, project: string, q: nat,
                       estimate: (string, Json) -> Option<real>, record: Result<nat, string>, p: RearmId,
                       inst: Instance)
    requires WellFormed(s) && s.rows == before.rows && q in s.requests && p !in s.pending && inst !in s.dead
    requires q < |before.requests| && Enqueued(before, after, project, q, estimate, s.now, record)
    ensures after.rows == s.rows || IsEnqueued(s, after.rows)
  {
    var req := before.requests[q];
    if |after.rows| > |before.rows| {
      var step := Enqueue(project, req.rtype.value, req.name, req.spec, after.rows[|before.rows|].est, q);
      assert IsEnqueueStep(s, step, after.rows);
    } else if after.rows != before.rows {
      var look := LookUp(p, record.value, req.spec, after.rows[record.value].est, q, inst);
      RearmIsTwoSteps(s, look);
    }
  }

  /** The reconciler has a reason to enqueue the request. */
  predicate Enqueueable(req: Request, active: set<string>) {
    "provision:" <= req.kind && req.projectId.Some? && req.projectId.value in active
  }

  /** Carried by a record or fulfilled, unless there was no reason to enqueue it or no resource type to enqueue. */
  ghost predicate Covered(rows: seq<Row>, requests: seq<Request>, q: nat, active: set<string>)
    requires q < |requests|
  {
    Settled(rows, requests, q) || !Enqueueable(requests[q], active) || requests[q].rtype.None?
  }

  /** The reconciler enqueues the request. */
  predicate IsDue(tables: Tables, q: nat, active: set<string>) {
    q < |tables.requests| && Enqueueable(tables.requests[q], active) && !Carries(tables.rows, q)
  }

  /** How many of the first `n` listed requests it enqueues. */
  function CountDue(tables: Tables, listed: seq<nat>, n: nat, active: set<string>): nat
    requires n <= |listed|
  {
    if n == 0 then 0
    else
      var earlier := CountDue(tables, listed, n - 1, active);
      if IsDue(tables, listed[n - 1], active) then earlier + 1 else earlier
  }

  /** The requests from the `i`-th listed on are still approved, and due if and only if they were at first. */
  ghost predicate StillDue(first: Tables, now: Tables, listed: seq<nat>, i: nat, active: set<string>) {
    forall k :: i <= k < |listed| ==>
      && listed[k] < |now.requests| && now.requests[listed[k]].state.Approved?
      && (IsDue(now, listed[k], active) <==> IsDue(first, listed[k], active))
  }

  lemma StillDueStep(first: Tables, before: Tables, after: Tables, listed: seq<nat>, i: nat, active: set<string>)
    requires i < |listed| && Distinct(listed) && StillDue(first, before, listed, i, active)
             && |before.requests| == |after.requests|
    requires CarriesAlike(before, after, listed[i])
    requires forall p :: 0 <= p < |before.requests| && p != listed[i] ==> after.requests[p] == before.requests[p]
    ensures StillDue(first, after, listed, i + 1, active)
  {
  }

  /** What enqueueing requests may do to the two tables. */
  ghost predicate Progressed(before: Tables, after: Tables) {
    && Serves(after.rows, after.requests) && OnlyFulfils(before.requests, after.requests)
    && KeepsSettled(before.rows, before.requests, after.rows, after.requests)
    && |before.rows| <= |after.rows|
    && forall r :: 0 <= r < |before.rows| && !before.rows[r].state.Provisioned? ==> after.rows[r] == before.rows[r]
  }

  lemma ProgressedOn(a: Tables, b: Tables, c: Tables)
    requires Progressed(a, b) && Progressed(b, c)
    ensures Progressed(a, c)
  {
  }

  lemma CoveredStays(before: Tables, after: Tables, q: nat, active: set<string>)
    requires Progressed(before, after) && q < |before.requests| && Covered(before.rows, before.requests, q, active)
    ensures Covered(after.rows, after.requests, q, active)
  {
  }

  ghost predicate AllCovered(tables: Tables, listed: seq<nat>, n: nat, active: set<string>)
    requires n <= |listed|
  {
    forall k :: 0 <= k < n ==>
      listed[k] < |tables.requests| && Covered(tables.rows, tables.requests, listed[k], active)
  }

  lemma AllCoveredStay(before: Tables, after: Tables, listed: seq<nat>, n: nat, active: set<string>)
    requires n <= |listed| && Progressed(before, after) && AllCovered(before, listed, n, active)
    ensures AllCovered(after, listed, n, active)
  {
    forall k | 0 <= k < n
      ensures listed[k] < |after.requests| && Covered(after.rows, after.requests, listed[k], active)
    {
      CoveredStays(before, after, listed[k], active);
    }
  }

  // ---- The last sweep, in the terms of the requests ----

  /** The row is outstanding work, free, that carries out request `q`, a provisioning request of an active project. */
  predicate IsWorkItemOf(row: Row, req: Request, q: nat, active: set<string>, now: int) {
    && "provision:" <= req.kind && req.projectId.Some? && req.projectId.value in active && req.rtype.Some?
    && row.requestId == Some(q) && row.state.Provisioning? && row.owner.None? && row.updatedAt == now
    && row.project == req.projectId.value && row.rtype == req.rtype.value && row.name == req.name
    && row.spec == req.spec
  }

  /** Every row is as it was, or work newly written for one of the first `n` listed requests. */
  ghost predicate WritesOnlyFor(before: Tables, rows: seq<Row>, listed: seq<nat>, n: nat, active: set<string>, now: int)
    requires n <= |listed|
  {
    |before.rows| <= |rows| && forall r :: 0 <= r < |rows| ==>
      (r < |before.rows| && rows[r] == before.rows[r])
      || exists k :: 0 <= k < n && listed[k] < |before.requests|
                     && IsWorkItemOf(rows[r], before.requests[listed[k]], listed[k], active, now)
  }

  /** Every request is as it was, or one of the first `n` listed ones, for provisioning in an active project, and now
      fulfilled. */
  ghost predicate FulfilsOnly(before: Tables, requests: seq<Request>, listed: seq<nat>, n: nat, active: set<string>)
    requires n <= |listed|
  {
    |requests| == |before.requests| && forall p :: 0 <= p < |requests| ==>
      requests[p] == before.requests[p]
      || (p in listed[..n] && "provision:" <= requests[p].kind && requests[p].projectId.Some?
          && requests[p].projectId.value in active && requests[p] == before.requests[p].(state := Fulfilled))
  }

  /** Each of the first `n` listed requests that asks to provision a resource in an active project is fulfilled, or
      carried by a row. */
  ghost predicate ServesListed(before: Tables, after: Tables, listed: seq<nat>, n: nat, active: set<string>)
    requires n <= |listed|
  {
    forall k :: 0 <= k < n && listed[k] < |before.requests| && listed[k] < |after.requests| ==>
      var req := before.requests[listed[k]];
      "provision:" <= req.kind && req.projectId.Some? && req.projectId.value in active && req.rtype.Some? ==>
        after.requests[listed[k]].state == Fulfilled
        || exists r :: 0 <= r < |after.rows| && after.rows[r].requestId == Some(listed[k])
  }

  /** A provisioning request of an active project that no row carries. */
  ghost predicate IsUncarried(tables: Tables, q: nat, active: set<string>) {
    && q < |tables.requests| && "provision:" <= tables.requests[q].kind && tables.requests[q].projectId.Some?
    && tables.requests[q].projectId.value in active
    && forall r :: 0 <= r < |tables.rows| ==> tables.rows[r].requestId != Some(q)
  }

  ghost function UncarriedOf(tables: Tables, listed: seq<nat>, active: set<string>): set<nat> {
    set q | q in listed && IsUncarried(tables, q, active)
  }

  lemma DueIsUncarried(tables: Tables, q: nat, active: set<string>)
    ensures IsDue(tables, q, active) <==> IsUncarried(tables, q, active)
  {
  }

  lemma {:induction false} CountDueIs(tables: Tables, listed: seq<nat>, n: nat, active: set<string>)
    requires n <= |listed| && Distinct(listed)
    ensures CountDue(tables, listed, n, active) == |UncarriedOf(tables, listed[..n], active)|
  {
    if n > 0 {
      CountDueIs(tables, listed, n - 1, active);
      var q := listed[n - 1];
      DueIsUncarried(tables, q, active);
      OneMoreUncarried(tables, listed[..n - 1], q, active);
      assert listed[..n] == listed[..n - 1] + [q];
    }
  }

  lemma OneMoreUncarried(tables: Tables, listed: seq<nat>, q: nat, active: set<string>)
    requires q !in listed
    ensures |UncarriedOf(tables, listed + [q], active)|
            == |UncarriedOf(tables, listed, active)| + if IsUncarried(tables, q, active) then 1 else 0
  {
    var shorter, longer := UncarriedOf(tables, listed, active), UncarriedOf(tables, listed + [q], active);
    if IsUncarried(tables, q, active) {
      assert longer == shorter + {q};
    } else {
      assert longer == shorter;
    }
  }

  lemma CoveredIsServed(before: Tables, after: Tables, listed: seq<nat>, n: nat, active: set<string>)
    requires n <= |listed| && AllCovered(after, listed, n, active) && OnlyFulfils(before.requests, after.requests)
    ensures ServesListed(before, after, listed, n, active)
  {
  }

  /** One request of the sweep: nothing changes unless it is to be enqueued, and then only for it. */
  ghost predicate ConsiderOnly(before: Tables, after: Tables, q: nat, active: set<string>, now: int) {
    && q < |before.requests| == |after.requests| && |before.rows| <= |after.rows|
    && (forall r :: 0 <= r < |after.rows| ==>
          (r < |before.rows| && after.rows[r] == before.rows[r])
          || IsWorkItemOf(after.rows[r], before.requests[q], q, active, now))
    && (after.requests[q] == before.requests[q]
        || ("provision:" <= before.requests[q].kind && before.requests[q].projectId.Some?
            && before.requests[q].projectId.value in active
            && after.requests[q] == before.requests[q].(state := Fulfilled)))
    && (forall p :: 0 <= p < |before.requests| && p != q ==> after.requests[p] == before.requests[p])
  }

  lemma SweepOneMore(first: Tables, before: Tables, after: Tables, listed: seq<nat>, i: nat, active: set<string>,
                     now: int)
    requires i < |listed| && WritesOnlyFor(first, before.rows, listed, i, active, now)
    requires FulfilsOnly(first, before.requests, listed, i, active)
    requires listed[i] < |first.requests| && ConsiderOnly(before, after, listed[i], active, now)
    ensures WritesOnlyFor(first, after.rows, listed, i + 1, active, now)
    ensures FulfilsOnly(first, after.requests, listed, i + 1, active)
  {
    WritesOneMore(first, before, after, listed, i, active, now);
    assert listed[..i + 1] == listed[..i] + [listed[i]];
  }

  lemma WritesOneMore(first: Tables, before: Tables, after: Tables, listed: seq<nat>, i: nat, active: set<string>,
                      now: int)
    requires i < |listed| && WritesOnlyFor(first, before.rows, listed, i, active, now)
    requires FulfilsOnly(first, before.requests, listed, i, active)
    requires listed[i] < |first.requests| && ConsiderOnly(before, after, listed[i], active, now)
    ensures WritesOnlyFor(first, after.rows, listed, i + 1, active, now)
  {
    forall r | 0 <= r < |after.rows| && !(r < |first.rows| && after.rows[r] == first.rows[r])
      ensures exists k :: 0 <= k < i + 1 && listed[k] < |first.requests|
                          && IsWorkItemOf(after.rows[r], first.requests[listed[k]], listed[k], active, now)
    {
      if !(r < |before.rows| && after.rows[r] == before.rows[r]) {
        assert IsWorkItemOf(after.rows[r], first.requests[listed[i]], listed[i], active, now);
      }
    }
  }

  /** Where the sweep stands after the first `i` listed requests. */
  ghost predicate SweptSoFar(first: Tables, tables: Tables, listed: seq<nat>, i: nat, active: set<string>, now: int)
    requires i <= |listed|
  {
    && Progressed(first, tables) && StillDue(first, tables, listed, i, active) && AllCovered(tables, listed, i, active)
    && WritesOnlyFor(first, tables.rows, listed, i, active, now)
       && FulfilsOnly(first, tables.requests, listed, i, active)
  }

  lemma SweptOneMore(first: Tables, before: Tables, after: Tables, listed: seq<nat>, i: nat, active: set<string>,
                     now: int)
    requires i < |listed| && Distinct(listed) && SweptSoFar(first, before, listed, i, active, now)
    requires listed[i] < |first.requests| && ConsiderOnly(before, after, listed[i], active, now)
    requires Progressed(before, after) && CarriesAlike(before, after, listed[i])
    requires Covered(after.rows, after.requests, listed[i], active)
    ensures SweptSoFar(first, after, listed, i + 1, active, now)
  {
    ProgressedOn(first, before, after);
    StillDueStep(first, before, after, listed, i, active);
    AllCoveredStay(before, after, listed, i, active);
    SweepOneMore(first, before, after, listed, i, active, now);
  }

  // ---- One drive, in the terms of the row ----

  predicate NeedsApply(row: Row) { row.state in {Provisioning, Failed} }

  /** The row needs an operation, and nobody has held it for the last 900 seconds. */
  predicate IsDrivable(row: Row, now: int) {
    row.state in {Provisioning, Failed, Destroying, DestroyFailed} && (row.owner.None? || row.updatedAt < now - 900)
  }

  /** The row after a connector that succeeded: live with its outputs, or destroyed; free, with a clean record. */
  predicate DroveWell(was: Row, after: Row, outputs: Json, now: int) {
    after == was.(state := if NeedsApply(was) then Provisioned else Destroyed,
                  outputs := if NeedsApply(was) then outputs else was.outputs,
                  error := "", owner := None, attempts := 0, nextRetry := None, updatedAt := now)
  }

  /** The row after one that failed: failed for the same operation, with the error and one attempt more, free, and due
      again at the deadline of that many attempts. */
  ghost predicate DroveBadly(settings: Settings, was: Row, after: Row, error: string, now: int) {
    && after == was.(state := if NeedsApply(was) then Failed else DestroyFailed, error := error, owner := None,
                     attempts := was.attempts + 1, nextRetry := after.nextRetry, updatedAt := now)
    && IsDeadline(settings, was.rtype, was.attempts + 1, now, after.nextRetry)
  }

  /** No retry sweep before its deadline lists a row, and none at all if it has no deadline. */
  ghost predicate RestsUntilDue(row: Row) {
    forall later, stale :: DueAgain(later, stale)(row) ==> row.nextRetry.Some? && later >= row.nextRetry.value
  }

  lemma RestsIs(row: Row)
    ensures RestsUntilDue(row)
  {
  }

  lemma FailureWrites(s: System, w: WorkerId, error: string)
    requires WellFormed(s) && Enabled(s, Fail(w, error))
    ensures var r, snap, t := s.workers[w].row, s.workers[w].snap, Next(s, Fail(w, error));
            && |t.rows| == |s.rows| && (forall q :: 0 <= q < |s.rows| && q != r ==> t.rows[q] == s.rows[q])
            && t.rows[r] == s.rows[r].(state := if NeedsApply(snap) then Failed else DestroyFailed, error := error,
                                       owner := None, attempts := snap.attempts + 1, nextRetry := t.rows[r].nextRetry,
                                       updatedAt := s.now)
            && t.rows[r].nextRetry == NextDeadline(snap.attempts + 1, RetryPolicyFor(s.settings, snap.rtype), s.now)
            && w !in t.workers
  {
  }

  /** The failure of a worker in the protocol, in the same terms: what it had read decides the operation and the
      count. */
  lemma FailureIs(s: System, w: WorkerId, error: string)
    requires WellFormed(s) && Enabled(s, Fail(w, error))
    ensures var r, snap, t := s.workers[w].row, s.workers[w].snap, Next(s, Fail(w, error));
            && |t.rows| == |s.rows| && (forall q :: 0 <= q < |s.rows| && q != r ==> t.rows[q] == s.rows[q])
            && t.rows[r] == s.rows[r].(state := if NeedsApply(snap) then Failed else DestroyFailed, error := error,
                                       owner := None, attempts := snap.attempts + 1, nextRetry := t.rows[r].nextRetry,
                                       updatedAt := s.now)
            && IsDeadline(s.settings, snap.rtype, snap.attempts + 1, s.now, t.rows[r].nextRetry)
            && RestsUntilDue(t.rows[r]) && w !in t.workers
  {
    var snap := s.workers[w].snap;
    FailureWrites(s, w, error);
    DeadlineIs(s.settings, snap.rtype, snap.attempts + 1, s.now);
    RestsIs(Next(s, Fail(w, error)).rows[s.workers[w].row]);
  }

  /** The success of a worker's terminal write, likewise. */
  lemma FinishIs(s: System, w: WorkerId)
    requires WellFormed(s) && Enabled(s, Finish(w))
    ensures var r, worker, t := s.workers[w].row, s.workers[w], Next(s, Finish(w));
            && |t.rows| == |s.rows| && (forall q :: 0 <= q < |s.rows| && q != r ==> t.rows[q] == s.rows[q])
            && t.rows[r] == s.rows[r].(state := if NeedsApply(worker.snap) then Provisioned else Destroyed,
                                       outputs := worker.phase.outputs, error := "", owner := None, attempts := 0,
                                       nextRetry := None, updatedAt := s.now)
            && w !in t.workers
  {
  }

  function Approvals(): Request -> bool { (req: Request) => req.state == Approved }

  function NewestFirst(): Request -> int { (req: Request) => -req.createdAt }

  class Service {
    const repo: ProvisionRepo
    const inst: Instance
    const settings: Settings
    /** The catalog's resolved monthly estimate for a spec; none if the service has no manifest. */
    const estimate: (string, Json) -> Option<real>
    var requests: seq<Request>

    constructor (inst: Instance, settings: Settings, estimate: (string, Json) -> Option<real>)
      ensures requests == [] && repo.rows == [] && fresh(repo)
    {
      this.inst, this.settings, this.estimate, this.requests := inst, settings, estimate, [];
      repo := new ProvisionRepo();
    }

    /** Fulfils an approved request and is a no-op on a fulfilled one. */
    method Fulfil(q: RequestId)
      modifies this
      ensures requests == if q < |old(requests)| && old(requests)[q].state == Approved
                          then old(requests)[q := old(requests)[q].(state := Fulfilled)] else old(requests)
    {
      if q < |requests| && requests[q].state.Approved? { requests := requests[q := requests[q].(state := Fulfilled)]; }
    }

    /** One drive of a row with nobody interfering: nothing unless the row needs an operation and is free; then
        the row of a successful or of a failed drive, the request being fulfilled only by a successful apply. */
    method DriveCore(id: nat, start: int, end: int, connector: (Action, Row) -> Result<Json, string>)
      modifies repo, this
      ensures var was, stale := old(repo.rows), start - STALE_SECS;
              if id >= |was| || ActionFor(was[id].state).None? || !Unheld(was[id], stale)
                  then repo.rows == was && requests == old(requests)
              else var action := ActionFor(was[id].state).value;
                match connector(action, was[id])
                case Ok(outputs) =>
                  && repo.rows == was[id := Recovered(was[id], inst, outputs, end)]
                  && requests == (if action.Apply? && was[id].requestId.Some?
                                  then FulfilledAt(old(requests), was[id].requestId.value)
                                  else old(requests))
                case Err(error) =>
                  var policy := RetryPolicyFor(settings, was[id].rtype);
                  && repo.rows == was[id := AutoRetry.AfterFailure(was[id], error, policy, end)]
                  && requests == old(requests)
      // The same in the terms of the row, its settings and the request.
      ensures id >= |old(repo.rows)| || !IsDrivable(old(repo.rows)[id], start) ==>
                repo.rows == old(repo.rows) && requests == old(requests)
      ensures id < |old(repo.rows)| && IsDrivable(old(repo.rows)[id], start) ==>
                var was, reply := old(repo.rows)[id],
                    connector(if NeedsApply(old(repo.rows)[id]) then Apply else Destroy, old(repo.rows)[id]);
                && |repo.rows| == |old(repo.rows)|
                && (forall r :: 0 <= r < |repo.rows| && r != id ==> repo.rows[r] == old(repo.rows)[r])
                && (reply.Ok? ==> DroveWell(was, repo.rows[id], reply.value, end))
                && (reply.Err? ==> DroveBadly(settings, was, repo.rows[id], reply.error, end)
                                   && RestsUntilDue(repo.rows[id]))
                && requests == if reply.Ok? && NeedsApply(was) && was.requestId.Some?
                                  && was.requestId.value < |old(requests)|
                                  && old(requests)[was.requestId.value].state == Approved
                               then old(requests)[was.requestId.value :=
                                                    old(requests)[was.requestId.value].(state := Fulfilled)]
                               else old(requests)
    {
      var found := repo.Get(id);
      if found.None? { return; }
      var rec := found.value;
      var action := ActionFor(rec.state);
      if action.None? { return; }
      var won := repo.Claim(id, rec.state, inst, start - STALE_SECS, start);
      if !won { return; }
      match connector(action.value, rec)
      case Ok(outputs) =>
        if action.value.Apply? && rec.requestId.Some? { Fulfil(rec.requestId.value); }
        repo.Finish(id, SuccessState(action.value), if action.value.Apply? then outputs else rec.outputs, end);
      case Err(error) =>
        var attempts := rec.attempts + 1;
        var next := NextDeadline(attempts, RetryPolicyFor(settings, rec.rtype), end);
        DeadlineIs(settings, rec.rtype, attempts, end);
        repo.MarkFailed(id, FailureState(action.value), error, attempts, next, end);
        RestsIs(repo.rows[id]);
    }

    /** Writes the durable work item of an approved request, or reuses what is there. */
    method EnqueueApply(project: string, q: RequestId, now: int) returns (record: Result<nat, string>)
      requires q < |requests|
      modifies repo, this
      ensures Enqueued(Tables(old(repo.rows), old(requests)), Tables(repo.rows, requests), project, q, estimate, now,
                       record)
    {
      var req := requests[q];
      var existing := repo.GetByRequest(q);
      if existing.Some? { return Ok(existing.value); }
      if req.rtype.None? { return Err("request has no resource_type"); }
      var active := repo.GetActiveByName(project, req.rtype.value, req.name);
      var est := estimate(req.rtype.value, req.spec);
      if active.Some? {
        var row := repo.rows[active.value];
        if row.state.Provisioned? && row.spec != req.spec {
          repo.UpdateForReapply(active.value, req.spec, if est.Some? then est.value else row.est, q, now);
        } else {
          Fulfil(q);
        }
        return Ok(active.value);
      }
      var id := repo.Record(NewRow(project, req.rtype.value, req.name, req.spec, if est.Some? then est.value
                                   else 0.0, q, now));
      return Ok(id);
    }

    /** One approved request of the reconciler's last sweep. */
    method Consider(q: RequestId, active: set<string>, now: int) returns (dispatched: bool)
      requires q < |requests| && requests[q].state.Approved? && Serves(repo.rows, requests)
      modifies repo, this
      ensures Progressed(Tables(old(repo.rows), old(requests)), Tables(repo.rows, requests))
      ensures Covered(repo.rows, requests, q, active)
      ensures forall p :: 0 <= p < |requests| && p != q ==> requests[p] == old(requests[p])
      ensures dispatched <==> IsDue(Tables(old(repo.rows), old(requests)), q, active)
      ensures CarriesAlike(Tables(old(repo.rows), old(requests)), Tables(repo.rows, requests), q)
      ensures ConsiderOnly(Tables(old(repo.rows), old(requests)), Tables(repo.rows, requests), q, active, now)
    {
      if !Enqueueable(requests[q], active) { return false; }
      var existing := repo.GetByRequest(q);
      if existing.Some? { return false; }
      ghost var before := Tables(repo.rows, requests);
      var project := requests[q].projectId.value;
      var record := EnqueueApply(project, q, now);
      EnqueueSettles(before, Tables(repo.rows, requests), project, q, estimate, now, record);
      return true;
    }

    /** The loop of the last sweep over the listed requests. */
    method EnqueueApproved(listed: seq<nat>, active: set<string>, now: int) returns (n: nat)
      requires Serves(repo.rows, requests) && Distinct(listed)
      requires forall k :: 0 <= k < |listed| ==> listed[k] < |requests| && requests[listed[k]].state.Approved?
      modifies repo, this
      ensures Progressed(Tables(old(repo.rows), old(requests)), Tables(repo.rows, requests))
      ensures ServesListed(Tables(old(repo.rows), old(requests)), Tables(repo.rows, requests), listed, |listed|, active)
      ensures n == |UncarriedOf(Tables(old(repo.rows), old(requests)), listed, active)|
      ensures WritesOnlyFor(Tables(old(repo.rows), old(requests)), repo.rows, listed, |listed|, active, now)
      ensures FulfilsOnly(Tables(old(repo.rows), old(requests)), requests, listed, |listed|, active)
    {
      n := 0;
      ghost var first := Tables(repo.rows, requests);
      for i := 0 to |listed|
        invariant SweptSoFar(first, Tables(repo.rows, requests), listed, i, active, now)
        invariant n == CountDue(first, listed, i, active)
      {
        ghost var before := Tables(repo.rows, requests);
        var dispatched := Consider(listed[i], active, now);
        if dispatched { n := n + 1; }
        SweptOneMore(first, before, Tables(repo.rows, requests), listed, i, active, now);
      }
      CoveredIsServed(first, Tables(repo.rows, requests), listed, |listed|, active);
      CountDueIs(first, listed, |listed|, active);
      assert listed[..|listed|] == listed;
    }

    /** The workflow's list of approved requests, the newest first. */
    method ListApproved() returns (listed: seq<nat>)
      ensures IsListing(requests, listed, Approvals(), NewestFirst(), 200)
      ensures Distinct(listed)
      ensures forall k :: 0 <= k < |listed| ==> listed[k] < |requests| && requests[listed[k]].state == Approved
      ensures |listed| < 200 ==> forall q :: 0 <= q < |requests| && requests[q].state == Approved ==> q in listed
    {
      listed := Query(requests, (req: Request) => req.state.Approved?, (req: Request) => -req.createdAt,
                      APPROVED_LIMIT);
    }

    /** Heals interrupted work: collects the rows to drive again, then enqueues approved requests without a record.
        A listed request of an active project ends up carried by a record or fulfilled unless its payload names no
        resource type; when fewer than 200 requests are approved, that is all of them. */
    method Reconcile(active: set<string>, now: int)
      returns (n: nat, reclaimed: seq<nat>, retried: seq<nat>, listed: seq<nat>)
      requires Serves(repo.rows, requests)
      modifies repo, this
      // What the three sweeps list: at most 50 outstanding rows and 50 failed ones that are due, none of them held
      // within
      // the last 900 seconds, and at most 200 approved requests.
      ensures IsListing(old(repo.rows), reclaimed, Abandoned(now - 900), OldestFirst(), 50)
      ensures IsListing(old(repo.rows), retried, DueAgain(now, now - 900), EarliestFirst(), 50)
      ensures IsListing(old(requests), listed, Approvals(), NewestFirst(), 200)
      // What the last one writes, and what it leaves.
      ensures WritesOnlyFor(Tables(old(repo.rows), old(requests)), repo.rows, listed, |listed|, active, now)
      ensures FulfilsOnly(Tables(old(repo.rows), old(requests)), requests, listed, |listed|, active)
      ensures ServesListed(Tables(old(repo.rows), old(requests)), Tables(repo.rows, requests), listed, |listed|, active)
      ensures n == |reclaimed| + |retried| + |UncarriedOf(Tables(old(repo.rows), old(requests)), listed, active)|
      ensures Progressed(Tables(old(repo.rows), old(requests)), Tables(repo.rows, requests))
      ensures |listed| < 200 ==> forall q :: 0 <= q < |requests| && old(requests)[q].state == Approved ==> q in listed
    {
      var stale := now - STALE_SECS;
      reclaimed := repo.ListReclaimable(stale, SWEEP_LIMIT);
      retried := repo.ListRetryable(now, stale, SWEEP_LIMIT);
      listed := ListApproved();
      var enqueued := EnqueueApproved(listed, active, now);
      n := |reclaimed| + |retried| + enqueued;
    }

    /** Manual retry: a failed row is re-armed, an outstanding one is taken from its holder only when that holder is
        stale, any other is left alone. `dispatched` tells whether a worker is started. */
    method RetryResource(id: nat, now: int) returns (dispatched: Result<bool, string>)
      modifies repo
      ensures dispatched.Err? <==> id >= |repo.rows|
      ensures |repo.rows| == |old(repo.rows)| && forall r :: 0 <= r < |repo.rows| && r != id ==>
              repo.rows[r] == old(repo.rows[r])
      ensures id < |repo.rows| ==>
                var was, after := old(repo.rows)[id], repo.rows[id];
                // Afterwards a dispatched row is free to claim or still held by a retry already running on it, with a
                // clean count.
                if dispatched.value
                then after == was.(state := if NeedsApply(was) then Provisioning else Destroying,
                                   attempts := 0, nextRetry := None, updatedAt := now,
                                   owner := if was.state in {Provisioning, Destroying} then None else was.owner,
                                   error := if was.state in {Provisioning, Destroying} then "" else was.error)
                else after == was
      ensures id < |repo.rows| ==>
                var was := old(repo.rows)[id];
                dispatched == Ok(true)
                <==> || was.state in {Failed, DestroyFailed}
                     || (was.state in {Provisioning, Destroying} && (was.owner.None? || was.updatedAt < now - 900))
    {
      var found := repo.Get(id);
      if found.None? { return Err("not found"); }
      match found.value.state
      case Failed | DestroyFailed =>
        repo.ResetForRetry(id, now);
        return Ok(true);
      case Provisioning | Destroying =>
        var won := repo.ReclaimStale(id, now - STALE_SECS, now);
        return Ok(won);
      case _ =>
        return Ok(false);
    }

    /** Teardown request: a no-op on a row being or already torn down, an unlink for a linked record, otherwise the
        row becomes outstanding teardown work; its holder, attempts and deadline stay. */
    method Deprovision(id: nat, now: int) returns (dispatched: Result<bool, string>)
      modifies repo
      ensures dispatched.Err? <==> id >= |repo.rows|
      ensures |repo.rows| == |old(repo.rows)| && forall r :: 0 <= r < |repo.rows| && r != id ==>
              repo.rows[r] == old(repo.rows[r])
      ensures id < |repo.rows| ==>
                var was, after := old(repo.rows)[id], repo.rows[id];
                if was.state in {Destroyed, Destroying} then after == was && !dispatched.value
                else after == was.(state := if was.state.Linked? then Destroyed else Destroying, updatedAt := now)
                     && dispatched.value == !was.state.Linked? && after == Deprovisioned(was, now)
    {
      var found := repo.Get(id);
      if found.None? { return Err("not found"); }
      match found.value.state
      case Destroyed | Destroying =>
        return Ok(false);
      case Linked =>
        repo.MarkState(id, Destroyed, now);
        return Ok(false);
      case _ =>
        repo.MarkState(id, Destroying, now);
        return Ok(true);
    }

    /** The sum the database computes over a project's in-flight and live rows. */
    method InfraCommitted(project: string) returns (total: real)
      ensures total == SelfServiceCeiling.Committed(repo.rows, project)
    {
      var rows := repo.rows;
      total := 0.0;
      var i := |rows|;
      while i > 0
        invariant 0 <= i <= |rows|
        invariant total == SelfServiceCeiling.Committed(rows[i..], project)
      {
        i := i - 1;
        assert rows[i..][1..] == rows[i + 1..];
        total := SelfServiceCeiling.Commitment(project)(rows[i]) + total;
      }
    }

    /** The cost half of the auto-approval test. A request for the name of an active record replaces that record's
        estimate; any other replaces nothing. */
    method ClearsCeiling(project: string, rtype: string, name: string, est: real, modelSpend: real,
                         ceiling: Option<real>)
      returns (ok: bool)
      ensures (forall r :: 0 <= r < |repo.rows| ==> !IsActiveNamed(repo.rows[r], project, rtype, name)) ==>
                (ok <==> ceiling.Some?
                         && modelSpend + SelfServiceCeiling.Committed(repo.rows, project) + est <= ceiling.value)
      ensures (exists r :: 0 <= r < |repo.rows| && IsActiveNamed(repo.rows[r], project, rtype, name)) ==>
                exists r: nat :: NewestActive(repo.rows, r, project, rtype, name)
                  && (ok <==> ceiling.Some? && modelSpend + SelfServiceCeiling.Committed(repo.rows, project)
                                               + est - repo.rows[r].est <= ceiling.value)
    {
      var committed := InfraCommitted(project);
      var existing := repo.GetActiveByName(project, rtype, name);
      var existingEst := if existing.Some? then repo.rows[existing.value].est else 0.0;
      ok := SelfServiceCeiling.WithinCeiling(modelSpend, committed, est, existingEst, ceiling);
    }
  }
}
