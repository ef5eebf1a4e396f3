/** One row of the `provisioned_resources` table and the single-row updates that the
    repository's UPDATE statements perform on it. */
module ResourceRows {
  import opened Prelude

  type Instance = nat
  type RequestId = nat
  type Json = string  // a JSON document in canonical text form

  /** Every value the free-text `state` column takes. */
  datatype RowState =
    | Provisioning | Provisioned | Failed
    | Destroying | Destroyed | DestroyFailed
    | Suspending | Suspended | Resuming
    | Linked

  datatype Row = Row(
    project: string, rtype: string, name: string, spec: Json, outputs: Json, est: real,
    state: RowState, owner: Option<Instance>, requestId: Option<RequestId>,
    createdAt: int, updatedAt: int, error: string, attempts: nat, nextRetry: Option<int>)

  /** A claim whose heartbeat is older than this many seconds counts as abandoned. */
  const STALE_SECS: int := 900

  datatype Action = Apply | Destroy

  predicate IsWorkState(state: RowState) { state in {Provisioning, Destroying} }

  /** The connector operation a drive of a row in this state performs, if any. */
  function ActionFor(state: RowState): Option<Action> {
    match state
    case Provisioning | Failed => Some(Apply)
    case Destroying | DestroyFailed => Some(Destroy)
    case _ => None
  }

  function SuccessState(action: Action): RowState { if action.Apply? then Provisioned else Destroyed }

  function FailureState(action: Action): RowState { if action.Apply? then Failed else DestroyFailed }

  // ---- Guards of the conditional updates and of the two sweeps ----

  /** No worker holds the row, or the holder's heartbeat is older than the cutoff. */
  predicate Unheld(row: Row, cutoff: int) { row.owner.None? || row.updatedAt < cutoff }

  predicate Claimable(row: Row, expected: RowState, cutoff: int) { row.state == expected && Unheld(row, cutoff) }

  predicate Reclaimable(row: Row, cutoff: int) { IsWorkState(row.state) && Unheld(row, cutoff) }

  predicate Retryable(row: Row, now: int, cutoff: int) {
    row.state in {Failed, DestroyFailed} && row.nextRetry.Some? && row.nextRetry.value <= now && Unheld(row, cutoff)
  }

  predicate IsActive(row: Row) { row.state in {Provisioning, Provisioned} }

  predicate IsActiveNamed(row: Row, project: string, rtype: string, name: string) {
    row.project == project && row.rtype == rtype && row.name == name && IsActive(row)
  }

  // ---- The updates ----

  function WithState(row: Row, state: RowState, now: int): Row { row.(state := state, updatedAt := now) }

  function Claimed(row: Row, owner: Instance, now: int): Row { row.(owner := Some(owner), updatedAt := now) }

  function Beaten(row: Row, owner: Instance, now: int): Row {
    if row.owner == Some(owner) then row.(updatedAt := now) else row
  }

  function Finished(row: Row, state: RowState, outputs: Json, now: int): Row {
    row.(state := state, outputs := outputs, error := "", owner := None, attempts := 0, nextRetry := None,
         updatedAt := now)
  }

  function MarkedFailed(row: Row, state: RowState, error: string, attempts: nat, next: Option<int>, now: int): Row {
    row.(state := state, error := error, attempts := attempts, nextRetry := next, owner := None, updatedAt := now)
  }

  function Rearmed(row: Row, spec: Json, est: real, request: RequestId, now: int): Row {
    row.(spec := spec, est := est, requestId := Some(request), state := Provisioning, error := "",
         attempts := 0, nextRetry := None, owner := None, updatedAt := now)
  }

  function Reclaimed(row: Row, now: int): Row {
    row.(owner := None, attempts := 0, nextRetry := None, error := "", updatedAt := now)
  }

  function ResetForRetry(row: Row, now: int): Row {
    row.(state := match row.state { case Failed => Provisioning case DestroyFailed => Destroying case other => other },
         attempts := 0, nextRetry := None, updatedAt := now)
  }

  /** The state a teardown request writes: a linked record is only unlinked. */
  function Deprovisioned(row: Row, now: int): Row {
    WithState(row, if row.state.Linked? then Destroyed else Destroying, now)
  }

  function NewRow(project: string, rtype: string, name: string, spec: Json, est: real, request: RequestId,
                  now: int): Row {
    Row(project, rtype, name, spec, "{}", est, Provisioning, None, Some(request), now, now, "", 0, None)
  }

  /** External infrastructure recorded for attribution only; no connector ever touches it. */
  function LinkedRow(project: string, name: string, spec: Json, est: real, now: int): Row {
    Row(project, "external", name, spec, "{}", est, Linked, None, None, now, now, "", 0, None)
  }
}
