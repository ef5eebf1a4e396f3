/** The `provisioned_resources` table and the statements the repository runs on it. A statement
    naming a missing row changes nothing, as an UPDATE that matches no row does. */
module ProvisionTable {
  import opened Prelude
  import opened Listings
  import opened ResourceRows

  // ---- What the two sweeps ask for, in the terms of the columns ----

  /** Outstanding, and nobody holds it or its holder was last heard of before `stale`. */
  function Abandoned(stale: int): Row -> bool {
    (row: Row) => row.state in {Provisioning, Destroying} && (row.owner.None? || row.updatedAt < stale)
  }

  function OldestFirst(): Row -> int { (row: Row) => row.createdAt }

  /** Failed with a deadline that has passed, and nobody holds it, likewise. */
  function DueAgain(now: int, stale: int): Row -> bool {
    (row: Row) => && row.state in {Failed, DestroyFailed} && row.nextRetry.Some? && row.nextRetry.value <= now
                  && (row.owner.None? || row.updatedAt < stale)
  }

  function EarliestFirst(): Row -> int { (row: Row) => if row.nextRetry.Some? then row.nextRetry.value else 0 }

  class ProvisionRepo {
    var rows: seq<Row>
    /** The states written one by one, each committed before whatever comes next. */
    ghost var marked: seq<(nat, RowState)>

    constructor ()
      ensures rows == [] && marked == []
    {
      rows, marked := [], [];
    }

    method Record(row: Row) returns (id: nat)
      modifies this`rows
      ensures id == |old(rows)| && rows == old(rows) + [row]
    {
      id := |rows|;
      rows := rows + [row];
    }

    method Get(id: nat) returns (row: Option<Row>)
      ensures row == if id < |rows| then Some(rows[id]) else None
    {
      row := if id < |rows| then Some(rows[id]) else None;
    }

    method MarkState(id: nat, state: RowState, now: int)
      modifies this
      ensures marked == old(marked) + [(id, state)]
      ensures rows == if id < |old(rows)| then old(rows)[id := old(rows)[id].(state := state, updatedAt := now)]
                      else old(rows)
    {
      if id < |rows| { rows := rows[id := WithState(rows[id], state, now)]; }
      marked := marked + [(id, state)];
    }

    /** Compare-and-set claim: `won` tells whether this caller may drive the row. */
    method Claim(id: nat, expected: RowState, owner: Instance, stale: int, now: int) returns (won: bool)
      modifies this`rows
      ensures won <==> && id < |old(rows)| && old(rows)[id].state == expected
                       && (old(rows)[id].owner.None? || old(rows)[id].updatedAt < stale)
      ensures rows == if won then old(rows)[id := old(rows)[id].(owner := Some(owner), updatedAt := now)] else old(rows)
    {
      won := id < |rows| && Claimable(rows[id], expected, stale);
      if won { rows := rows[id := Claimed(rows[id], owner, now)]; }
    }

    method Heartbeat(id: nat, owner: Instance, now: int)
      modifies this`rows
      ensures rows == if id < |old(rows)| && old(rows)[id].owner == Some(owner)
                      then old(rows)[id := old(rows)[id].(updatedAt := now)] else old(rows)
      // A heartbeat of the owner shuts out every claim and reclaim until it ages; anybody else's changes nothing.
      ensures id < |rows| && old(rows)[id].owner == Some(owner) ==> forall stale :: stale <= now ==>
              !Unheld(rows[id], stale)
    {
      if id < |rows| { rows := rows[id := Beaten(rows[id], owner, now)]; }
    }

    method Finish(id: nat, state: RowState, outputs: Json, now: int)
      modifies this`rows
      ensures rows == if id < |old(rows)|
                      then old(rows)[id := old(rows)[id].(state := state, outputs := outputs, error := "",
                                                          owner := None, attempts := 0, nextRetry := None,
                                                          updatedAt := now)]
                      else old(rows)
      // Whatever the row was: it is free, and no sweep selects it unless the new state is a work state.
      ensures id < |rows| ==> forall later, stale :: !Retryable(rows[id], later, stale)
      ensures id < |rows| ==> forall stale :: Reclaimable(rows[id], stale) <==> IsWorkState(state)
    {
      if id < |rows| {
        rows := rows[id := Finished(rows[id], state, outputs, now)];
        assert rows[id].owner.None? && rows[id].nextRetry.None?;
      }
    }

    method MarkFailed(id: nat, state: RowState, error: string, attempts: nat, next: Option<int>, now: int)
      modifies this`rows
      ensures rows == if id < |old(rows)|
                      then old(rows)[id := old(rows)[id].(state := state, error := error, owner := None,
                                                          attempts := attempts, nextRetry := next, updatedAt := now)]
                      else old(rows)
      // Whatever the row was: it is free, and the retry sweep selects it exactly from its deadline on, if it has one.
      ensures id < |rows| ==> rows[id].owner.None?
      ensures id < |rows| && state in {Failed, DestroyFailed} && next.Some? ==>
                forall later, stale :: Retryable(rows[id], later, stale) <==> next.value <= later
      ensures id < |rows| && !(state in {Failed, DestroyFailed} && next.Some?) ==>
                forall later, stale :: !Retryable(rows[id], later, stale)
    {
      if id < |rows| {
        rows := rows[id := ResourceRows.MarkedFailed(rows[id], state, error, attempts, next, now)];
        assert rows[id].owner.None? && rows[id].nextRetry == next;
      }
    }

    method UpdateForReapply(id: nat, spec: Json, est: real, request: RequestId, now: int)
      modifies this`rows
      ensures rows == if id < |old(rows)|
                      then old(rows)[id := old(rows)[id].(spec := spec, est := est, requestId := Some(request),
                                                          state := Provisioning, error := "", owner := None,
                                                          attempts := 0, nextRetry := None, updatedAt := now)]
                      else old(rows)
      // Whatever the row was: it is outstanding and free at once.
      ensures id < |rows| ==> forall stale :: Reclaimable(rows[id], stale)
    {
      if id < |rows| { rows := rows[id := Rearmed(rows[id], spec, est, request, now)]; }
    }

    method ReclaimStale(id: nat, stale: int, now: int) returns (won: bool)
      modifies this`rows
      ensures won <==> && id < |old(rows)| && old(rows)[id].state in {Provisioning, Destroying}
                       && (old(rows)[id].owner.None? || old(rows)[id].updatedAt < stale)
      ensures rows == if won
                      then old(rows)[id := old(rows)[id].(owner := None, attempts := 0, nextRetry := None, error := "",
                                                          updatedAt := now)]
                      else old(rows)
    {
      won := id < |rows| && Reclaimable(rows[id], stale);
      if won { rows := rows[id := Reclaimed(rows[id], now)]; }
    }

    method ResetForRetry(id: nat, now: int)
      modifies this`rows
      ensures rows == if id < |old(rows)|
                      then old(rows)[id := old(rows)[id].(state := if old(rows)[id].state.Failed? then Provisioning
                                                                   else if old(rows)[id].state.DestroyFailed?
                                                                   then Destroying else old(rows)[id].state,
                                                          attempts := 0, nextRetry := None, updatedAt := now)]
                      else old(rows)
      // A failed row becomes outstanding work for the same operation as before.
      ensures id < |rows| && old(rows)[id].state in {Failed, DestroyFailed} ==>
                IsWorkState(rows[id].state) && ActionFor(rows[id].state) == ActionFor(old(rows)[id].state)
    {
      if id < |rows| { rows := rows[id := ResourceRows.ResetForRetry(rows[id], now)]; }
    }

    method ListReclaimable(stale: int, limit: nat) returns (ids: seq<nat>)
      ensures IsListing(rows, ids, Abandoned(stale), OldestFirst(), limit)
    {
      ids := Query(rows, row => Reclaimable(row, stale), (row: Row) => row.createdAt, limit);
    }

    method ListRetryable(now: int, stale: int, limit: nat) returns (ids: seq<nat>)
      ensures IsListing(rows, ids, DueAgain(now, stale), EarliestFirst(), limit)
    {
      ids := Query(rows, row => Retryable(row, now, stale), (row: Row) => Deadline(row), limit);
    }

    /** All rows of a project, newest first. */
    method ListByProject(project: string) returns (ids: seq<nat>)
      ensures InOrder(rows, ids, (row: Row) => -row.createdAt)
      ensures forall q: nat :: q in ids <==> q < |rows| && rows[q].project == project
    {
      ids := QueryAll(rows, (row: Row) => row.project == project, (row: Row) => -row.createdAt);
    }

    /** The oldest record of a request, if any. */
    method GetByRequest(request: RequestId) returns (id: Option<nat>)
      ensures id.Some? ==> id.value < |rows| && rows[id.value].requestId == Some(request)
      ensures id.Some? ==> forall r :: 0 <= r < |rows| && rows[r].requestId == Some(request) ==>
                                       rows[id.value].createdAt <= rows[r].createdAt
      ensures id.None? ==> forall r :: 0 <= r < |rows| ==> rows[r].requestId != Some(request)
    {
      var ids := Query(rows, (row: Row) => row.requestId == Some(request), (row: Row) => row.createdAt, 1);
      id := if ids == [] then None else Some(ids[0]);
    }

    /** The newest in-flight or live record of a name, if any. */
    method GetActiveByName(project: string, rtype: string, name: string) returns (id: Option<nat>)
      ensures id.Some? ==> id.value < |rows| && IsActiveNamed(rows[id.value], project, rtype, name)
      ensures id.Some? ==> rows[id.value].state in {Provisioning, Provisioned} && rows[id.value].project == project
                           && rows[id.value].rtype == rtype && rows[id.value].name == name
      ensures id.Some? ==> forall r :: 0 <= r < |rows| && IsActiveNamed(rows[r], project, rtype, name) ==>
                                       rows[r].createdAt <= rows[id.value].createdAt
      ensures id.None? ==> forall r :: 0 <= r < |rows| && rows[r].state in {Provisioning, Provisioned} ==>
                             rows[r].project != project || rows[r].rtype != rtype || rows[r].name != name
    {
      var ids := Query(rows, row => IsActiveNamed(row, project, rtype, name), (row: Row) => -row.createdAt, 1);
      id := if ids == [] then None else Some(ids[0]);
    }
  }

  function Deadline(row: Row): int { if row.nextRetry.Some? then row.nextRetry.value else 0 }
}
