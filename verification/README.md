# Frontkeep, modelled and proved

A Dafny model of the parts of Frontkeep whose correctness depends on state, order and interleaving: durable
provisioning work items driven by many workers, the model gateway's spend pipeline, pull-based catalog reconciliation
and the login throttle.

## What is modelled

**Provisioning work items** (`ResourceRows`, `WorkerProtocol`, `MutualExclusion`, `ClaimAccounting`, `RowHistories`,
`CrashRecovery`, `ReconcilePasses`, `SweepRuns`, `RequestIntents`, `AutoRetry`, `SelfServiceCeiling`, `AdmissionRaces`,
`RetryPolicies`, `Reachability`, `ProtocolExamples`). The rows of `provisioned_resources` and the workers that drive
them form one transition system. Its steps are single statements. A worker reads a row and claims it in two separate
steps; a claim is won by comparing the state only; `finish` and `mark_failed` are unguarded writes; an in-place update
looks a live row up in one step and re-arms it, unguarded, in a later one; a project cascade moves a row to any state by
an unguarded `Mark`; a crash kills a whole instance with its heartbeats and the in-place updates it has begun; one
integer clock advances between any two steps. A run is any finite sequence of enabled steps from an empty table. Every
theorem is about all runs. Where the code is only correct under a condition, that condition is a named hypothesis on the
run:

- `Punctual`: the row of a live worker that owns it never counts as stale, that is, while the connector runs its
  heartbeat lands within `STALE_SECS`, and after that the terminal write does. Mutual exclusion needs it:
  `LateHeartbeatSplits` shows that any violation on a row that still calls for an operation breaks mutual exclusion.
- `RearmsFree`: nobody drives the row a re-arming hits. Mutual exclusion needs it, because `update_for_reapply` clears
  the owner without looking: `RearmSplits` shows that any violation lets a second worker claim the row at once, and
  `TwoRearmsSplit` is a run in which two requests get there with every heartbeat in time.
- `ClaimsCurrent`: a claim that is won names the request its row carries now. The fulfilment order needs it, because the
  compare-and-set compares `state` alone, so a snapshot read earlier can carry an older request.
- `ApprovedStill`: a request whose apply succeeds has not been withdrawn. `ServedIff` shows what these two are for: if a
  running apply succeeds and finishes with nothing in between, the row's request is fulfilled iff it was before, or it
  is the one the worker read and is still approved. `StaleClaimStrandsRequest` and `WithdrawalStrandsRow` are runs that
  break them.
- `MarksRestore`: cascades only put back what was live: a row with a request is marked as provisioned only if it was
  provisioned at some earlier instant and has not been re-armed since. `SuspensionStrandsRequest` is a run that breaks
  it. `Orderly` is `RearmsFree` with these three, and under it a provisioned row's request is always fulfilled, whatever
  the timing, also when claims take rows from live workers.
- `RearmsKeep`: the request whose record a re-arming takes is fulfilled. Only this is needed so that no request is
  dropped; `DroppedIff` is the exact condition for one step, and `LiveRearmsKeep` derives it from `Orderly` when rows
  are still live at their re-arming.
- `OnlySwept`: every claim of the row that is won is one a sweep makes, with listing, reading and claiming in one step,
  no teardown is requested for it and no cascade moves it. The bound of max(1, cap) failures between resets needs it: a
  drive never looks at the retry deadline (`DirectDriveIgnoresCap`), and a second worker that read the row before the
  first failed it passes the cap (`SecondReaderPassesCap`, with the run `ThreeFailuresOfTwo`). `FailuresBounded` drops
  it, and every other hypothesis: each irregular step since the last reset, and each driver beyond the first that was
  open at it, allows for as many failures again.
- `SelfService`: each admission passed the ceiling test in the step that writes the row, and links to the project have
  no negative estimate. `AdmissionRaces` drops the first: admissions, look-ups and enqueues interleave, and the bound
  grows by what one admission overlooked.

Crash recovery, claim accounting, the retry deadline's bound and `FailuresBounded` need no hypothesis. The survival of
teardowns needs none but that no cascade takes the row out of teardown again.

**The table and the service** (`Listings`, `ProvisionTable`, `ProvisionService`, `ProjectCascades`, `CostRollup`,
`SecretRouting`). The same rows as a mutable repository, and the service's operations as imperative methods over it:
one drive, enqueueing, the reconciler's sweeps, manual retry, teardown, the ceiling test, the project cascades, the
daily rollup and the routing of secrets. Lemmas connect these methods to the protocol: a sequential drive is the steps
fetch, claim, succeed (or fail) and finish, a whole sweep is a run, and enqueueing is one step, or the two of an
in-place update. Convergence is proved for sweeps whose drives follow one another and for every fair interleaving of
drives (`EveryScheduleConverges`, `FairSchedulesFinish`).

The contracts of these methods are stated column by column and in numbers, without the functions that the protocol and
its theorems use for the same updates, conditions and limits; so are those of the gateway, the catalog and the throttle.

**The gateway** (`GatewaySpend`, `Gateway`, `ToolCalls`). Calls interleave as admission on a snapshot, provider call,
atomic spend, usage event, soft-cap warning, against any budget, kill-switch and registration writes. The sequential
completion is a method over the runtime rows, keys and usage table. Above it are the brace scan for tool calls, on
bytes, and the bounded tool loop.

**The catalog** (`EntityRefs`, `Catalog`, `CatalogReconcile`). The store as a class, the reconciler's loops over it,
and what a pass makes of the stored rows.

**The login throttle** (`LoginThrottle`), with traces in which the checks and records of any number of attempts, of one
source and of others, interleave.

## Where the code differs from what it says

- Monthly actuals. The rollup documents actuals as differences of month-to-date readings, but the baseline query
  (`crates/provision/src/cost/rollup.rs:195-213`) has no lower bound on the day. From the second month on, the first
  day is differenced against the last reading of the month before. `LaterMonthTelescopes` gives the exact condition
  under which the month still adds up; `MonthStartExample` is a concrete failure.
- Missing readings. A day rolled up without a reading makes the next day count the month again
  (`MissingReadingExample`); `ActualsTelescope` gives the exact sum.
- Fulfilment. A request can end up carried by a live record without ever being fulfilled: after a claim with an old
  snapshot, after a withdrawal during the apply, or when a re-arming lands during a suspension that is then declined or
  fails (`StaleClaimStrandsRequest`, `WithdrawalStrandsRow`, `SuspensionStrandsRequest`). The first and the third record
  also show a specification that was never applied.
- The retry cap. The comment on `drive_core` says a capped row rests until a manual retry. That holds for claims that
  see the row as the sweep listed it (`CappedRowRests`), not for a worker that read it before the cap was reached
  (`SecondReaderPassesCap`), nor for a drive started by fulfilling the request again (`DirectDriveIgnoresCap`).
- The ceiling. The comment at `crates/provision/src/lib.rs:1090-1092` says that counting in-flight rows keeps two
  concurrent requests from both clearing the ceiling. Two admissions before either row exists do both clear it
  (`TwoRequestsExceed`); `CeilingHoldsUpToRaces` and `CeilingHoldsForFew` are the bounds that hold. No race is needed
  either: a suspended row is counted by no admission, and resuming it, restoring it after a failed teardown, retrying a
  failed row or a late apply brings its estimate back (`RevivalKinds`, `ResumedExceeds`).
- In-place updates. The look-up of the live row and its re-arming are two statements, and the second has no guard on
  state or owner. Two requests that looked one row up put two live workers on it and drop the first request's record
  (`TwoRearmsSplit`, `RearmSplits`, `DroppedIff`), and a teardown requested in between is undone (`TeardownLookedUp`).
- Teardown. A row in teardown can leave it again, other than by a cascade, if and only if a live worker is still applying
  it or an in-place update that had looked it up is still to land (`TeardownUndoneIff`; `TeardownOverlapped` and
  `TeardownLookedUp` are runs that get there).
- The budget warning. "Warn once" holds if and only if calls are sequential (`WarnsOnceIff`); K calls in flight can give
  K warnings (`ManyWarnings`) and never more (`SoftCapWarns`).
- Secrets. References name a version, but the built-in store reads the newest one, and resource "a" with key "b-c" shares
  its path with resource "a-b" and key "c". `PathsCollideIff` and `LaterRoutingShadows` say exactly when.
- Entity references. A trimmed reference that starts with `:` and has no `/` does not survive printing; all other
  accepted ones do (`RoundTrip`).
- Repeated reconciliation. A second pass over the same files reports no insertion and no update if and only if no key
  occurs in them with two different contents; it never removes anything (`RepeatIsQuiet`, `SecondReport`).
- Backoff. The delay equals min(cap, base·2^min(n−1, 16)) if and only if that value fits a signed 64-bit integer
  (`BackoffIsIdeal`).

## Model

| member | source | states |
|---|---|---|
| `WorkerProtocol.RowFrame` | crates/provision/src/repo.rs:127-378 | every statement writes at most one row, none removes one, and all rows but the addressed one keep their value and history |
| `WorkerProtocol.WorkerFrame` | crates/provision/src/lib.rs:1782-1845 | a worker drives a row only by having driven it before with the same snapshot or by having just won the claim |
| `MutualExclusion.MutualExclusionHolds` | crates/provision/src/lib.rs:1782-1845 | at most one live worker runs a connector for a row in every reachable state, across instances and crashes, if heartbeats and terminal writes land in time and no re-arming hits a row that is driven |
| `MutualExclusion.ClaimsAreFresh` | crates/provision/src/repo.rs:232-251 | a claim is never won on a row that a live worker owns and drives in time |
| `MutualExclusion.HoldersDriveStep` | crates/provision/src/repo.rs:255-287 | under the two hypotheses every step keeps that an active worker is its row's owner |
| `MutualExclusion.LateHeartbeatSplits` | crates/provision/src/repo.rs:232-265 | if a live worker's heartbeat is late and its row still calls for an operation, a fetch and a claim put a second live worker on it |
| `MutualExclusion.RearmSplits` | crates/provision/src/repo.rs:321-341 | if a re-arming hits a row that a live worker drives, a fetch and a claim put a second one on it, at an instant at which the row was just written |
| `ProtocolExamples.TwoRearmsSplit` | crates/provision/src/lib.rs:1693-1711 | a punctual run in which two requests that looked up one live row leave two live workers on it, and the first request without its record |
| `ClaimAccounting.ClaimsBounded` | crates/provision/src/repo.rs:232-378 | with no timing assumption, claims of a row (plus one if it is free to claim) never exceed armings, recorded failures and stale takeovers together |
| `ClaimAccounting.ReleaseKinds` | crates/provision/src/repo.rs:270-363 | a row is taken from its holder only by a terminal write, an in-place update or a reclaim of a stale heartbeat |
| `ClaimAccounting.ClaimsSeparated` | crates/provision/src/repo.rs:232-251 | two successful claims of a row have a release between them, or the second takes over a stale heartbeat |
| `RowHistories.TalliesCount` | crates/provision/src/lib.rs:1782-1845 | the history kept of a row counts the steps of the run: its armings, claims, failures and takeovers, and its failures since the last reset |
| `CrashRecovery.WorkIsNeverLost` | crates/provision/src/repo.rs:208-226 | in every reachable state an outstanding row is reclaimable now, driven by a live worker, or held by a dead instance |
| `CrashRecovery.OwnerStaysExplained` | crates/provision/src/lib.rs:1797-1804 | every step keeps that a named owner is dead or has a live worker on the row |
| `CrashRecovery.OrphanFrozen` | crates/provision/src/repo.rs:255-265 | other workers' heartbeats never refresh a row held by a dead instance |
| `CrashRecovery.OrphanAgesOut` | crates/provision/src/repo.rs:208-226 | such a row becomes reclaimable exactly when its last heartbeat is older than the staleness limit |
| `CrashRecovery.SettledWorkIsReclaimable` | crates/provision/src/lib.rs:1970-1980 | once no live worker drives a row and the staleness limit has passed, all outstanding rows are reclaimable |
| `CrashRecovery.DriversFinish` | crates/provision/src/lib.rs:1797-1821 | every run extends, with succeeding connectors and at the same instant, to one in which no live worker drives a row |
| `ReconcilePasses.PassShrinks` | crates/provision/src/lib.rs:1977-1980 | a sweep of at most 50 rows finishes exactly 50 outstanding rows or all that are left |
| `ReconcilePasses.PassesConverge` | crates/provision/src/lib.rs:1977-1980 | after ⌈n/50⌉ sweeps all n outstanding rows are provisioned or destroyed as their state asked and every other row is as it was |
| `ReconcilePasses.RecoveryFromAnyState` | crates/provision/src/lib.rs:1970-1987 | the same from any reachable state without live drivers, after waiting out the staleness limit |
| `ReconcilePasses.FreeRowIsClaimed` | crates/provision/src/lib.rs:1783-1797 | a row either sweep selects can be fetched and claimed in the protocol at once |
| `ReconcilePasses.SucceededIsRecovered` | crates/provision/src/lib.rs:1805-1821 | a claimed drive that succeeded ends with the recovered row and no worker |
| `ReconcilePasses.ClaimedIsFailed` | crates/provision/src/lib.rs:1823-1842 | a claimed drive that fails leaves the row with one more attempt and the policy's deadline, and no worker behind |
| `SweepRuns.DriveIsARun` | crates/provision/src/lib.rs:1782-1845 | a free row, outstanding or failed, is driven to its end by four protocol steps whatever its connector answers, with nothing else changed |
| `SweepRuns.RetriesAreARun` | crates/provision/src/lib.rs:1981-1987 | the failing automatic retries of a row, each at its deadline, are a run of the protocol |
| `SweepRuns.OutstandingShrinks` | crates/provision/src/lib.rs:1970-1987 | in any run, with any interleaving, crashes and failures, the rows still outstanding are exactly those whose drive has not ended, as long as nobody adds work |
| `SweepRuns.EveryScheduleConverges` | crates/provision/src/lib.rs:1757-1773 | with succeeding connectors every interleaving of spawned drives leaves every outstanding row in the state it asked for if a drive of it has ended, and as it was found if none has |
| `SweepRuns.FairSchedulesFinish` | crates/provision/src/lib.rs:1970-1987 | from rows nobody drives or has held since the cutoff, every interleaving that fetches each outstanding row, without failing connectors, crashes or new work, leaves nothing outstanding once all workers are done, and each row where its state asked |
| `SweepRuns.EmptySweepMeansDone` | crates/provision/src/lib.rs:1976-1980 | if nobody drives and the sweep lists nothing after the staleness limit, nothing is outstanding |
| `SweepRuns.SweepIsARun` | crates/provision/src/lib.rs:1976-1980 | driving the listed rows of a sweep one by one is a run, and leaves the table the sweep is said to leave |
| `SweepRuns.SweepsAreARun` | crates/provision/src/lib.rs:1976-1980 | so are any number of sweeps at any times by living instances |
| `SweepRuns.RecoveryIsARun` | crates/provision/src/lib.rs:1970-1987 | every run without live drivers continues, by waiting and ⌈n/50⌉ sweeps, to one with no row outstanding |
| `RequestIntents.ProvisionedIsFulfilled` | crates/provision/src/lib.rs:1806-1820 | in every reachable state the request behind a provisioned row is fulfilled, whatever the timing, if claims are current, requests not withdrawn, driven rows not re-armed, and cascades only put back what was live and not re-armed since |
| `RequestIntents.ServedIff` | crates/provision/src/lib.rs:1804-1821 | an apply that succeeds and finishes with nothing in between leaves its row's request fulfilled iff it was before, or is the one the worker read and still approved |
| `ProtocolExamples.StaleClaimStrandsRequest` | crates/provision/src/lib.rs:1783-1797 | a run that meets the hypotheses of mutual exclusion, in which a claim with an old snapshot leaves a live row whose approved request no sweep ever looks at again |
| `ProtocolExamples.WithdrawalStrandsRow` | crates/workflow/src/lib.rs:72-92 | such a run in which a withdrawal during the apply leaves a live row with a withdrawn request |
| `ProtocolExamples.SuspensionStrandsRequest` | crates/provision/src/lib.rs:1475-1487 | such a run in which a re-arming lands during a suspension that then puts the row back, and its approved request is left with a live row no sweep lists |
| `RequestIntents.NoRequestDropped` | crates/provision/src/lib.rs:1693-1711 | a request once carried by a record or fulfilled stays so on every run in which no re-arming takes the record of an unfulfilled request |
| `RequestIntents.DroppedIff` | crates/provision/src/repo.rs:321-341 | a step drops an unfulfilled request iff it re-arms, for another one, the only record that carries it |
| `RequestIntents.LiveRearmsKeep` | crates/provision/src/lib.rs:1693-1711 | re-arming rows that are still live takes no record from an unfulfilled request, under the same four hypotheses |
| `RequestIntents.TeardownKept` | crates/provision/src/lib.rs:1289-1319 | a teardown that no running apply and no pending in-place update overlaps is never undone, in any run in which no cascade undoes it |
| `RequestIntents.TeardownUndoneIff` | crates/provision/src/repo.rs:270-341 | in any run a row in teardown can leave it again, other than by a cascade, iff a live worker is still applying it or a living instance that had looked it up for an in-place update has still to re-arm it |
| `ProtocolExamples.TeardownOverlapped` | crates/provision/src/lib.rs:1289-1319 | a run that meets the hypotheses of mutual exclusion and reaches a teardown a live apply overlaps |
| `ProtocolExamples.TeardownLookedUp` | crates/provision/src/lib.rs:1693-1711 | such a run that reaches, with no worker at all, a teardown an in-place update can undo |
| `AutoRetry.DeadlinesArmedBelowCap` | crates/provision/src/lib.rs:1831-1838 | in every run an armed deadline means the 32-bit attempt count is below the service's cap |
| `AutoRetry.FailedRetryLowersRank` | crates/provision/src/lib.rs:1823-1842 | a failed automatic retry strictly lowers a rank bounded by the cap |
| `AutoRetry.RetriesEnd` | crates/provision/src/lib.rs:1982-1987 | however retries fail, after as many as the rank no deadline is armed |
| `AutoRetry.FailuresBetweenResetsBounded` | crates/provision/src/lib.rs:1823-1842 | between resets a row claimed only by atomic sweeps, and neither torn down nor moved by a cascade, records at most max(1, cap) failures |
| `AutoRetry.FailuresBounded` | crates/provision/src/lib.rs:1823-1842 | in every run whatsoever the failures since the last reset are at most max(1, cap) times one more than the irregular steps since then (teardown requests, cascades, claims no atomic sweep makes or of a row that is driven, wrap-arounds of the count) and the drivers beyond the first open at the reset |
| `AutoRetry.SecondReaderPassesCap` | crates/provision/src/repo.rs:232-251 | of two workers that read a row one attempt below its cap, the first makes it rest and the second still claims it and records one failure more |
| `ProtocolExamples.ThreeFailuresOfTwo` | crates/provision/src/lib.rs:1823-1842 | a run that meets the hypotheses of mutual exclusion with three failures between resets where the service allows two attempts |
| `AutoRetry.CappedRowRests` | crates/provision/src/repo.rs:384-405 | a failed row without a deadline is a fixpoint of every step for as long as nobody asks for it: no retry, update, teardown, cascade or unlisted claim |
| `AutoRetry.DirectDriveIgnoresCap` | crates/provision/src/lib.rs:1783-1797 | a drive not started by a sweep claims a resting row all the same |
| `RetryPolicies.BackoffIsIdeal` | crates/provision/src/lib.rs:2216-2222 | the machine-width delay is min(cap, base·2^min(n−1, 16)) exactly while that fits a signed 64-bit integer |
| `RetryPolicies.BackoffMonotone` | crates/provision/src/lib.rs:2216-2222 | delays never shrink from one attempt to a later one, unless exactly the later one overflows, and then it is negative |
| `RetryPolicies.DeadlineIs` | crates/provision/src/lib.rs:1823-1842 | the deadline after n failures is none once n, in 32 bits, reaches the service's or else the deployment's cap; otherwise it is the delay that starts at the base and doubles sixteen times at most up to the longest, with 60 and 3600 seconds as defaults |
| `RetryPolicies.DoublingIsIdeal` | crates/provision/src/lib.rs:2216-2222 | doubling from one attempt to the next is min(cap, base·2^(n−1)) up to the seventeenth attempt |
| `SelfServiceCeiling.ChargedExactly` | crates/provision/src/lib.rs:1089-1110 | admission holds iff the commitment it leads to is within the ceiling; an update is charged exactly its delta |
| `SelfServiceCeiling.RevivalKinds` | crates/provision/src/repo.rs:164-178 | only a manual retry of a failed row, an apply finishing on an uncommitted row, and a cascade that resumes or restores a row bring an estimate back |
| `SelfServiceCeiling.CeilingHolds` | crates/provision/src/lib.rs:1089-1110 | with the test in the step that writes the row, the committed estimate of a project exceeds its ceiling by at most the estimates of revived rows, on runs with all steps of the protocol |
| `SelfServiceCeiling.CeilingHoldsUnlessRevived` | crates/provision/src/lib.rs:1089-1110 | and not at all while nothing was revived |
| `AdmissionRaces.CeilingHoldsUpToRaces` | crates/provision/src/lib.rs:1089-1110 | with admissions, look-ups and enqueues interleaved in any way, commitment and outstanding requests exceed the ceiling by at most what a single admission overlooked and what was brought back |
| `AdmissionRaces.CeilingHoldsForFew` | crates/provision/src/lib.rs:1089-1110 | with at most K requests outstanding at a time, each for at most C, what admissions overlook is at most (K − 1)·C |
| `AdmissionRaces.WeightsShift` | crates/provision/src/lib.rs:1095-1104 | when a record changes, what outstanding updates of it may still add grows by no more than the record gives up |
| `AdmissionRaces.TwoRequestsExceed` | crates/provision/src/lib.rs:1090-1094 | a run in which two requests take the commitment to twice the ceiling: the bound is attained |
| `AdmissionRaces.ResumedExceeds` | crates/provision/src/lib.rs:1501-1527 | a run without any race in which a row is suspended, another request admitted for the whole ceiling, and the row resumed: twice the ceiling is committed |
| `Listings.Query` | crates/provision/src/repo.rs:208-226 | an ordered, limited query returns distinct selected rows in key order and omits one only if the result is full of rows with no larger key |
| `ProvisionTable.ProvisionRepo.Claim` | crates/provision/src/repo.rs:232-251 | the claim is won iff state and staleness match, and only then is anything written |
| `ProvisionTable.ProvisionRepo.Heartbeat` | crates/provision/src/repo.rs:255-265 | a heartbeat of the owner shuts out every claim and reclaim until it ages, and anybody else's changes nothing |
| `ProvisionTable.ProvisionRepo.Finish` | crates/provision/src/repo.rs:270-287 | the terminal write is unguarded, writes outputs and a clean record, and leaves a row no sweep selects unless the new state is a work state |
| `ProvisionTable.ProvisionRepo.MarkFailed` | crates/provision/src/repo.rs:292-313 | the failure write is unguarded, releases the row, and makes it retryable exactly from its deadline on |
| `ProvisionTable.ProvisionRepo.UpdateForReapply` | crates/provision/src/repo.rs:321-341 | re-arms a record in place with no guard on its state: outstanding and free at once, with outputs and creation time kept |
| `ProvisionTable.ProvisionRepo.ReclaimStale` | crates/provision/src/repo.rs:350-363 | a manual reclaim succeeds iff the row is outstanding and unheld or stale |
| `ProvisionTable.ProvisionRepo.ResetForRetry` | crates/provision/src/repo.rs:368-378 | a manual retry makes a failed row outstanding for the same operation with a clean count, and does not release it |
| `ProvisionTable.ProvisionRepo.ListRetryable` | crates/provision/src/repo.rs:384-405 | lists failed rows with an elapsed deadline that nobody holds, earliest deadline first |
| `ProvisionTable.ProvisionRepo.GetByRequest` | crates/provision/src/repo.rs:97-110 | finds an oldest record of the request iff there is one |
| `ProvisionTable.ProvisionRepo.GetActiveByName` | crates/provision/src/repo.rs:183-202 | finds a newest in-flight or live record of the name iff there is one; failed records do not count |
| `ProvisionService.Service.DriveCore` | crates/provision/src/lib.rs:1782-1845 | an undisturbed drive does nothing unless the row needs an operation and nobody held it for 900 seconds; otherwise, column by column, it leaves the live or destroyed row and a fulfilled request, or the failed row with one more attempt and the deadline of that many attempts, before which no retry sweep lists it |
| `ProvisionService.FailureIs` | crates/provision/src/lib.rs:1823-1842 | the failure of a worker in any interleaving writes the same columns, from what the worker had read |
| `ProvisionService.FinishIs` | crates/provision/src/lib.rs:1805-1821 | and so does its success |
| `ProvisionService.Service.EnqueueApply` | crates/provision/src/lib.rs:1654-1755 | the complete effect on both tables in each case: already recorded, no resource type, live with another spec, live or in flight otherwise, new |
| `ProvisionService.EnqueueSettles` | crates/provision/src/lib.rs:1654-1755 | enqueueing settles its request (record or fulfilment) unless the payload has no resource type, unsettles no other, and touches no row that is not live |
| `ProvisionService.EnqueueIsAStep` | crates/provision/src/lib.rs:1693-1755 | undisturbed, its effect on the table is one protocol step, the look-up and re-arming of an in-place update, or nothing |
| `ProvisionService.RearmKeepsSettled` | crates/provision/src/lib.rs:1697-1711 | taking a live record from an older request strands no request |
| `ProvisionService.Service.Reconcile` | crates/provision/src/lib.rs:1970-2015 | a pass lists at most 50 outstanding rows, 50 failed ones that are due and 200 approved requests; every listed provisioning request of an active project that names a resource type is carried or fulfilled afterwards, every row written carries such a request as it asked, all other rows and requests are as they were, and the count is that of the listed rows and the uncarried requests |
| `ProvisionService.CarriesStay` | crates/provision/src/lib.rs:1654-1755 | enqueueing one request gives or takes no other approved request its record |
| `ProvisionService.Service.RetryResource` | crates/provision/src/lib.rs:1399-1424 | a manual retry dispatches iff the row is failed or reclaimable, never takes a row from a live holder, and otherwise changes nothing |
| `ProvisionService.Service.Deprovision` | crates/provision/src/lib.rs:1289-1319 | a teardown request is idempotent, only unlinks linked records, and otherwise makes the row outstanding teardown work |
| `ProvisionService.Service.InfraCommitted` | crates/provision/src/repo.rs:164-178 | sums the estimates of a project's in-flight and live rows |
| `SelfServiceCeiling.CommittedCounts` | crates/provision/src/repo.rs:164-178 | the sum grows by the estimate of each row of the project in flight or live, and by nothing else |
| `ProvisionService.Service.ClearsCeiling` | crates/provision/src/lib.rs:1089-1110 | the cost half of auto-approval is the ceiling test with the newest active record of the name replaced |
| `ProjectCascades.SuspendProject` | crates/provision/src/lib.rs:1466-1496 | every row of the project ends in the state its own outcome calls for, other rows are untouched; the stopped live rows are listed as suspended, those that declined as skipped, those that failed with their error, in order, and nothing else is listed |
| `ProjectCascades.ResumeProject` | crates/provision/src/lib.rs:1501-1527 | the same for resuming: suspended rows that resumed, and those that failed |
| `ProjectCascades.DestroyProjectResources` | crates/provision/src/lib.rs:1533-1566 | the same for tearing down: linked rows and those destroyed, and those that failed |
| `ProjectCascades.ReportedOnce` | crates/provision/src/lib.rs:1466-1566 | a cascade reports every row it acts on exactly once over all its lists, and no other row |
| `ProjectCascades.NamesWhereCounts` | crates/provision/src/lib.rs:1466-1566 | a list of a summary mentions a name once for each listed row of that name with the property, and no more |
| `ProjectCascades.SuspendRow` | crates/provision/src/lib.rs:1475-1494 | the state in between is committed before the final one |
| `ProjectCascades.SuspendSettles` | crates/provision/src/lib.rs:1466-1496 | a suspension leaves no row in between, suspends a live row iff its stop succeeded, and restores it otherwise |
| `ProjectCascades.ResumeSettles` | crates/provision/src/lib.rs:1501-1527 | a suspended row is live afterwards iff it resumed, and every other row is in the state it had |
| `ProjectCascades.SuspendThenResume` | crates/provision/src/lib.rs:1466-1527 | suspend then resume restores all states iff every stopped row resumes and none that was suspended before does |
| `ProjectCascades.TeardownRestores` | crates/provision/src/lib.rs:1533-1566 | a failed teardown restores the prior state, and a row ends destroyed iff it was destroyed or linked or its teardown succeeded |
| `CostRollup.Rollup.RollUpDay` | crates/provision/src/lib.rs:682-712 | upserts the day's reading; its actual is what the reading exceeds the latest stored reading before it by, whatever the month, or all of it if there is none, and never negative |
| `CostRollup.ActualsTelescope` | crates/provision/src/lib.rs:682-712 | the exact sum of a month's actuals, with days missed and days without a reading: the last reading less what the baseline hides of the first, plus every fall |
| `CostRollup.MissingReadingExample` | crates/provision/src/cost/rollup.rs:195-213 | a month of 100 with one day unmeasured is stored as 200 |
| `CostRollup.FirstMonthTelescopes` | crates/provision/src/lib.rs:2810-2841 | without an earlier reading the actuals cover the last reading, and equal it iff readings never fall, a missing one counting as zero |
| `CostRollup.LaterMonthTelescopes` | crates/provision/src/cost/rollup.rs:195-213 | otherwise the month adds up iff the baseline hides what the falls count twice; with readings that never fall, iff the baseline or the first reading is zero |
| `CostRollup.MonthStartExample` | crates/provision/src/cost/rollup.rs:195-213 | a concrete first of a month whose spend is stored as zero |
| `CostRollup.RerunChangesNothing` | crates/provision/src/cost/rollup.rs:163-190 | rolling a day up again with the same reading changes nothing |
| `SecretRouting.RouteSecrets` | crates/provision/src/lib.rs:2020-2052 | every declared or flagged key present is replaced by a reference to a fresh version under project/resource-key holding the string itself or the value's text; all other fields and paths are unchanged; it fails iff the store refuses one of the writes, and then only accepted keys were written |
| `SecretRouting.SecretStore.Put` | crates/provision/src/secrets/builtin.rs:41-87 | a write adds a version under its path and returns a reference that resolves to the value |
| `SecretRouting.StoreHoldsStep` | crates/provision/src/lib.rs:2037-2050 | routing one more key keeps all earlier versions in place: paths of different keys never collide |
| `SecretRouting.RecordedReferencesResolve` | crates/provision/src/lib.rs:2020-2052 | every recorded reference resolves to the original string form, which is also what a read right after returns |
| `SecretRouting.PathsCollideIff` | crates/provision/src/lib.rs:2045 | two fields of a project share a path iff they are one field, or a dash of a resource name is taken for the one before a key |
| `SecretRouting.ProjectsApart` | crates/provision/src/secrets/builtin.rs:41-87 | projects whose names have no slash never share a path |
| `SecretRouting.LaterRoutingShadows` | crates/provision/src/secrets/builtin.rs:143-157 | a later routing leaves a secret readable iff its outputs do not collide with it or hold the same value |
| `SecretRouting.SecretStore.Get` | crates/provision/src/secrets/builtin.rs:143-157 | a read returns the newest version of a path, and so a reference's own value while that is the newest |
| `SecretRouting.RecordIndependentOfSecrets` | crates/provision/src/lib.rs:2017-2019 | outputs that differ only in secret values are recorded identically |
| `GatewaySpend.LedgerConserved` | crates/gateway/src/lib.rs:221-238 | in every interleaving spend is the sum of usage events plus the costs of calls between the two writes |
| `GatewaySpend.OnlyCallsSpend` | crates/gateway/src/keys.rs:104-163 | registration, lifecycle, budget and kill-switch writes never change spend |
| `GatewaySpend.OvershootBounded` | crates/gateway/src/lib.rs:95-148 | with a fixed budget B > 0, at most K pending calls and costs of at most C, spend stays below B + K·C |
| `GatewaySpend.KilledAdmitsNothing` | crates/gateway/src/lib.rs:125-135 | while the kill switch is set nothing is admitted, so only calls admitted before add spend |
| `GatewaySpend.SoftCapWarns` | crates/gateway/src/lib.rs:240-255 | past 80 % of a fixed budget between one and K warnings were given, and before it none |
| `GatewaySpend.ManyWarnings` | crates/gateway/src/lib.rs:240-255 | for every K a run with at most K calls in flight gives K warnings |
| `GatewaySpend.WarnsOnceIff` | crates/gateway/src/lib.rs:240-255 | every run past the soft cap gives exactly one warning iff calls are sequential |
| `Gateway.GatewayService.Complete` | crates/gateway/src/lib.rs:85-282 | each refusal happens exactly under its condition, leaves its own audit entry and changes no money; a success costs a thousandth of prompt tokens times the input price plus completion tokens times the output price, warns iff it takes spend from below 80 % of the budget to it or past it, and is one uninterrupted call of the interleaved model |
| `Gateway.GatewayService.Charge` | crates/gateway/src/lib.rs:218-282 | an answered call adds that cost once to the total and once to the ledger and warns iff it crosses 80 % of the budget |
| `Gateway.GatewayRepo.SetRegistration` | crates/gateway/src/keys.rs:267-308 | re-registration overwrites budget and attribution and keeps spend and kill switch |
| `Gateway.GatewayRepo.EnsureProject` | crates/gateway/src/keys.rs:72-89 | never clobbers an existing runtime row |
| `Gateway.GatewayRepo.AddSpend` | crates/gateway/src/keys.rs:152-163 | adds to the running total of one project and returns the new total |
| `Gateway.GatewayRepo.ProjectSpend` | crates/gateway/src/keys.rs:366-376 | sums a project's usage events |
| `Gateway.ChargeConserves` | crates/gateway/src/lib.rs:218-238 | charging an event to row and ledger keeps both in agreement for every project |
| `Gateway.AloneIsFourSteps` | crates/gateway/src/lib.rs:85-282 | seen as a gate, a runtime row with its usage events and warnings admits a call iff the sequential checks pass, and after it is what the four steps leave |
| `Gateway.WritesAreSteps` | crates/gateway/src/keys.rs:104-308 | registration, budget, kill switch and lifecycle writes are the steps of the interleaved model of those names |
| `ToolCalls.ParseToolCall` | crates/gateway/src/tools.rs:142-166 | returns a call iff some brace opens a span that decodes to one, and then that of the leftmost such brace |
| `ToolCalls.ScanSpan` | crates/gateway/src/tools.rs:145-164 | finds the first return to depth zero, or that there is none |
| `ToolCalls.SpanUnique` | crates/gateway/src/tools.rs:145-164 | a brace opens at most one span |
| `ToolCalls.SpanIsSliceable` | crates/gateway/src/tools.rs:152 | slicing the text at the ends of a span never splits a character |
| `ToolCalls.RunToolLoop` | crates/gateway/src/tools.rs:48-137 | at most max(1, max_rounds) completions; success iff the last reply arrived and the required tool was called; the cost is the sum over all rounds and the answer the last reply |
| `ToolCalls.TranscriptAlternates` | crates/gateway/src/tools.rs:105-123 | after n continuing rounds the transcript has 1 + 2n messages of alternating roles, replies and follow-ups in their places |
| `EntityRefs.RoundTrip` | crates/catalog/src/entity.rs:164-189 | parse ∘ print is the identity on a parsed reference iff the trimmed input does not start with a colon without having a slash |
| `EntityRefs.ParseIs` | crates/catalog/src/entity.rs:164-182 | a reference is accepted as a kind, namespace and name iff, trimmed, it reads as them: kind before the first colon, namespace before the first slash of the rest or else default, and a name that is not empty |
| `EntityRefs.TrimCuts` | crates/catalog/src/entity.rs:164-166 | trimming cuts off whitespace at both ends and nothing else |
| `EntityRefs.EntityRefParsesBack` | crates/catalog/src/entity.rs:145-182 | an entity's printed reference parses back to its lowercased kind, namespace and name iff its parts are free of the separators that would shift them |
| `EntityRefs.CanonicalReads` | crates/catalog/src/entity.rs:164-189 | canonical text of a settled reference parses to that reference |
| `EntityRefs.AsciiIsText` | crates/catalog/src/entity.rs:164-182 | the facts assumed of trimming and lowercasing hold of their ASCII restriction |
| `Catalog.PassExact` | crates/catalog/src/reconcile.rs:43-109 | after a pass: observed entities are active with their last observed hash, no active row of the source is unobserved, other rows are untouched, identity survives |
| `Catalog.PassReconciles` | crates/catalog/src/repo.rs:60-143 | the complete effect of a pass on a key: content, hash, path, source and update time are those of the last observation that found the key absent, deleted or with another hash, or else kept; unseen active rows of the source are soft-deleted; any other row is as it was |
| `Catalog.OutcomeIs` | crates/catalog/src/repo.rs:60-143 | an observation is reported unchanged iff it changes nothing, inserted iff it is the first of its key, and updated otherwise |
| `Catalog.UpsertsExact` | crates/catalog/src/repo.rs:60-143 | a sequence of upserts touches observed keys only and keeps uid, creation time and lifecycle of rows that existed |
| `Catalog.PassStoresContent` | crates/catalog/src/repo.rs:81-111 | with a hash that tells a key's contents apart the stored content is the last observed one |
| `Catalog.UnchangedIffMatches` | crates/catalog/src/repo.rs:81-88 | upserts report only "unchanged" iff the stored rows match all observations |
| `Catalog.RepeatIsQuiet` | crates/catalog/src/reconcile.rs:84-108 | a repeated pass inserts and updates nothing iff no key was observed with two different contents, and never removes anything |
| `Catalog.PassesConcerned` | crates/catalog/src/reconcile.rs:43-109 | among independent sources, a key ends as the pass of its own source alone would leave it |
| `Catalog.OrderIndependent` | crates/catalog/src/reconcile.rs:43-109 | sources with disjoint keys can be reconciled in any order with the same catalog up to uids and timestamps |
| `CatalogReconcile.CatalogRepo.Upsert` | crates/catalog/src/repo.rs:60-143 | inserts an absent key, updates a deleted or changed one with the source and path of the observation, only notes any other as seen, column by column, and keeps uids unique |
| `CatalogReconcile.CatalogRepo.ActiveRefsForSource` | crates/catalog/src/repo.rs:230-250 | lists each active row of the source exactly once with uid and reference |
| `CatalogReconcile.CatalogRepo.SoftDelete` | crates/catalog/src/repo.rs:252-264 | marks the row of a uid deleted and touches no other |
| `CatalogReconcile.LifecycleInvisible` | crates/catalog/src/repo.rs:266-278 | a lifecycle set between two passes changes nothing the second stores, updates or removes, and survives it |
| `CatalogReconcile.UpsertAll` | crates/catalog/src/reconcile.rs:43-96 | the observation loops store exactly the valid manifests, in order, report the invalid ones, and count the outcomes |
| `CatalogReconcile.ObservedIs` | crates/catalog/src/reconcile.rs:43-82 | what is observed are the manifests without a schema error, or of unknown kind with a name, in the order of the files |
| `CatalogReconcile.InvalidIs` | crates/catalog/src/reconcile.rs:43-74 | what is reported invalid are the files that do not parse and the other manifests, in the same order, with label and errors |
| `CatalogReconcile.RemoveStale` | crates/catalog/src/reconcile.rs:98-107 | soft-deletes exactly the active rows of the source whose reference was not seen, and counts them |
| `CatalogReconcile.Reconcile` | crates/catalog/src/reconcile.rs:32-112 | a pass has the effect of `PassReconciles` on every key, for exactly the valid manifests of the files in order, and reports how many observations insert, change or leave their key, how many keys it removes and what is wrong with the files |
| `CatalogReconcile.UnseenAreStale` | crates/catalog/src/reconcile.rs:98-107 | deleting by uid the unseen among the listed rows is the removal of the stale ones |
| `CatalogReconcile.SecondReport` | crates/catalog/src/reconcile.rs:84-108 | the report of a second pass over the same files is empty of insertions and updates iff no key occurs with two contents, and always of removals |
| `LoginThrottle.Throttle.Login` | crates/api/src/lib.rs:2892-2923 | a blocked source is refused without a record; a success forgets its failures; a failure is recorded when the password has been verified |
| `LoginThrottle.Throttle.RecordFailure` | crates/api/src/lib.rs:2815-2823 | the fifth failure in a row blocks the source for 300 seconds and restarts its count, any other is counted, and no other source is touched |
| `LoginThrottle.AttemptIsTwoEvents` | crates/api/src/lib.rs:2903-2922 | an attempt nobody interrupts is its check followed by its record |
| `LoginThrottle.FailuresSpaced` | crates/api/src/lib.rs:2804-2823 | with at most K attempts of a source overlapping, after every fifth failure at most K − 1 more are recorded before a full block has passed |
| `LoginThrottle.RateBounded` | crates/api/src/lib.rs:2804-2823 | failures of a source since its last success within a window of length L number at most (K + 4)·(⌊L/300 s⌋ + 1), which is 5 a block for sequential attempts |

## Left out

- SQL text, connection pools, HTTP, Terraform, connectors, Cedar, guardrail patterns, JSON decoding, hashing and password verification: parameters or uninterpreted functions of the model.
- Floating point and text timestamps: amounts are reals and instants are integers, because the comparisons only need order and addition; rounding is not modelled.
- Overflow of the 64-bit attempt counter, of the 32-bit failure counter and of the 32-bit brace depth: not modelled; the 32-bit truncation of the attempt count and the 64-bit arithmetic of the backoff are.
- Row ids and catalog uids: table indices and a counter, so that they are unique by construction.
- Database errors in the middle of a drive, and a heartbeat task that dies alone: a drive ends by a terminal write or by the crash of its instance.
- States of a request other than approved and fulfilled: one state; requests are approved from it and withdrawn to it.
- Requests approved by a person: not bound by the ceiling, and not part of the ceiling theorems.
- Cascades as runs: in the protocol a cascade is any sequence of unguarded `Mark` steps, racing everything else; the loops of the cascades themselves are proved sequentially in `ProjectCascades`, and their connector calls hold no row.
- ProvisionService.EnqueueIsAStep: stated for an enqueueing nobody disturbs; in the protocol its two statements are separate steps.
- ProvisionService.RearmKeepsSettled: requires the row to be live at the re-arming; `RequestIntents.DroppedIff` says what happens otherwise.
- SelfServiceCeiling.CeilingHolds: admission and enqueue are one step; `AdmissionRaces.CeilingHoldsUpToRaces` separates them.
- The estimate of a request: the same at admission and at enqueue, as both resolve it from the manifest.
- The switch that disables local login, and the bound without a success in between: a success forgets the failures of its source, also while other attempts are open.
- Inline provisioning without a workflow engine, waiting for a drive, and eager dispatch: the drives they start are runs of the protocol.
- ProvisionService.Service.Reconcile: returns the rows to drive instead of driving them, because dispatch only spawns the workers of the protocol.
- ReconcilePasses.RecoveryFromAnyState: the drives of a sweep happen at one instant, and it assumes that no live worker drives a row, which `CrashRecovery.DriversFinish` reaches from every run.
- AutoRetry.RetriesEnd: a sequence of failing retries of one row; `SweepRuns.RetriesAreARun` makes it a run of the protocol.
- CostRollup.Rollup.RollUpDay: one (project, service, source) series; attribution columns, linked sources, forecasts and anomalies are not modelled.
- ToolCalls.RunToolLoop: prompt and follow-up wording are parameters; the replies are any sequence, so a reply may depend on the transcript in any way.
- Gateway.GatewayService.Complete: messages, redaction, routing and audit details other than the outcome are not modelled.
- CatalogReconcile.Reconcile: relations are part of an entity's content; audit records, database errors and the count query are not modelled.
- Role tables, the model registry, seeds, evaluations, the command line and the web site: no hard property.
