/** Interleaved model calls of one project against its budget, its kill switch and the usage ledger. */
module GatewaySpend {
  import opened Prelude

  /** `Pending`: admitted, the provider has not answered. `Charged`: the spend was added, the usage event is still
      to be written. `Booked`: both are written, the budget warning is still to be decided. */
  datatype Phase = Pending | Charged(cost: real, newSpent: real) | Booked(cost: real, newSpent: real)

  /** A call in flight with the runtime row it was admitted on. */
  datatype Call = Call(id: nat, sawSpent: real, sawBudget: real, phase: Phase)

  datatype Gate = Gate(budget: real, spent: real, killed: bool, active: bool, ledger: seq<real>, calls: seq<Call>,
                       nextId: nat, warnings: nat)

  datatype Step =
    | Admit
    | Abort(i: nat)
    | AddSpend(i: nat, cost: real)
    | RecordUsage(i: nat)
    | Complete(i: nat)
    | SetKilled(killed: bool)
    | SetBudget(budget: real)
    | Register(budget: real)
    | SetLifecycle(active: bool)

  predicate BudgetExceeded(spent: real, budget: real) { budget > 0.0 && spent >= budget }

  function SoftCap(budget: real): real { 0.8 * budget }

  /** The call saw spend below the soft cap of its budget and left it at or above. */
  predicate Crosses(sawSpent: real, sawBudget: real, newSpent: real) {
    sawBudget > 0.0 && sawSpent < SoftCap(sawBudget) && newSpent >= SoftCap(sawBudget)
  }

  predicate Enabled(g: Gate, step: Step) {
    match step
    case Admit => g.active && !g.killed && !BudgetExceeded(g.spent, g.budget)
    case Abort(i) => i < |g.calls| && g.calls[i].phase.Pending?
    case AddSpend(i, cost) => i < |g.calls| && g.calls[i].phase.Pending? && cost >= 0.0
    case RecordUsage(i) => i < |g.calls| && g.calls[i].phase.Charged?
    case Complete(i) => i < |g.calls| && g.calls[i].phase.Booked?
    case _ => true
  }

  function Without(calls: seq<Call>, i: nat): seq<Call>
    requires i < |calls|
  {
    calls[..i] + calls[i + 1..]
  }

  function Next(g: Gate, step: Step): Gate
    requires Enabled(g, step)
  {
    match step
    case Admit => g.(calls := g.calls + [Call(g.nextId, g.spent, g.budget, Pending)], nextId := g.nextId + 1)
    case Abort(i) => g.(calls := Without(g.calls, i))
    case AddSpend(i, cost) =>
      g.(spent := g.spent + cost, calls := g.calls[i := g.calls[i].(phase := Charged(cost, g.spent + cost))])
    case RecordUsage(i) =>
      var c := g.calls[i];
      g.(ledger := g.ledger + [c.phase.cost],
         calls := g.calls[i := c.(phase := Booked(c.phase.cost, c.phase.newSpent))])
    case Complete(i) =>
      var c := g.calls[i];
      var warned := if Crosses(c.sawSpent, c.sawBudget, c.phase.newSpent) then 1 else 0;
      g.(calls := Without(g.calls, i), warnings := g.warnings + warned)
    case SetKilled(k) => g.(killed := k)
    case SetBudget(b) => g.(budget := b)
    case Register(b) => g.(budget := b, active := true)
    case SetLifecycle(a) => g.(active := a)
  }

  datatype Run = Run(states: seq<Gate>, steps: seq<Step>)

  predicate Init(g: Gate) { g.spent == 0.0 && g.ledger == [] && g.calls == [] && g.warnings == 0 }

  ghost predicate IsRun(run: Run) {
    && |run.states| == |run.steps| + 1
    && Init(run.states[0])
    && (forall i :: 0 <= i < |run.steps| ==>
        Enabled(run.states[i], run.steps[i]) && run.states[i + 1] == Next(run.states[i], run.steps[i]))
  }

  // ---- Ledger conservation ----

  function Unbooked(c: Call): real { if c.phase.Charged? then c.phase.cost else 0.0 }

  function Amount(event: real): real { event }

  ghost predicate Conserved(g: Gate) { g.spent == Total(g.ledger, Amount) + Total(g.calls, Unbooked) }

  lemma ConservedStep(g: Gate, step: Step)
    requires Enabled(g, step) && Conserved(g)
    ensures Conserved(Next(g, step))
  {
    match step
    case Admit => TotalAppend(g.calls, Call(g.nextId, g.spent, g.budget, Pending), Unbooked);
    case Abort(i) => TotalRemove(g.calls, i, Unbooked);
    case AddSpend(i, cost) => TotalUpdate(g.calls, i, g.calls[i].(phase := Charged(cost, g.spent + cost)), Unbooked);
    case RecordUsage(i) =>
      var c := g.calls[i];
      TotalUpdate(g.calls, i, c.(phase := Booked(c.phase.cost, c.phase.newSpent)), Unbooked);
      TotalAppend(g.ledger, c.phase.cost, Amount);
    case Complete(i) => TotalRemove(g.calls, i, Unbooked);
    case _ =>
  }

  /** In every interleaving the running total is the sum of the usage events plus the costs of the calls between the two
      writes; with no such call it is the sum of the events. */
  lemma {:induction false} LedgerConserved(run: Run, i: nat)
    requires IsRun(run) && i < |run.states|
    ensures Conserved(run.states[i])
  {
    if i > 0 {
      LedgerConserved(run, i - 1);
      ConservedStep(run.states[i - 1], run.steps[i - 1]);
    }
  }

  /** Registration, lifecycle, budget and kill-switch writes never change spend; only a pending call does. */
  lemma OnlyCallsSpend(g: Gate, step: Step)
    requires Enabled(g, step) && Next(g, step).spent != g.spent
    ensures step.AddSpend? && Next(g, step).spent > g.spent
  {
  }

  // ---- Bounded overshoot ----

  function IsPending(c: Call): real { if c.phase.Pending? then 1.0 else 0.0 }

  ghost predicate FixedBudget(run: Run, budget: real)
  {
    forall i :: 0 <= i < |run.states| ==> run.states[i].budget == budget
  }

  ghost predicate Bounded(run: Run, inFlight: nat, maxCost: real) {
    && (forall i :: 0 <= i < |run.states| ==> Total(run.states[i].calls, IsPending) <= inFlight as real)
    && (forall i :: 0 <= i < |run.steps| && run.steps[i].AddSpend? ==> run.steps[i].cost <= maxCost)
  }

  /** Every call still pending holds one cost's worth of the room above the budget. */
  ghost predicate Room(g: Gate, budget: real, inFlight: nat, maxCost: real) {
    g.spent < budget + (inFlight as real - Total(g.calls, IsPending)) * maxCost
  }

  lemma Scale(a: real, b: real, c: real)
    requires a <= b && c >= 0.0
    ensures a * c <= b * c
  {
  }

  /** How a step changes the number of pending calls. */
  function PendingChange(step: Step): real {
    match step
    case Admit => 1.0
    case Abort(_) => -1.0
    case AddSpend(_, _) => -1.0
    case _ => 0.0
  }

  lemma PendingStep(g: Gate, step: Step)
    requires Enabled(g, step)
    ensures Total(Next(g, step).calls, IsPending) == Total(g.calls, IsPending) + PendingChange(step)
  {
    match step
    case Admit => TotalAppend(g.calls, Call(g.nextId, g.spent, g.budget, Pending), IsPending);
    case Abort(i) => TotalRemove(g.calls, i, IsPending);
    case AddSpend(i, cost) => TotalUpdate(g.calls, i, g.calls[i].(phase := Charged(cost, g.spent + cost)), IsPending);
    case RecordUsage(i) =>
      var c := g.calls[i];
      TotalUpdate(g.calls, i, c.(phase := Booked(c.phase.cost, c.phase.newSpent)), IsPending);
    case Complete(i) => TotalRemove(g.calls, i, IsPending);
    case _ =>
  }

  /** One cost's worth of room is given up for one cost. */
  lemma SpendsRoom(room: real, left: real, cost: real, maxCost: real)
    requires left == room + 1.0 && cost <= maxCost
    ensures room * maxCost + cost <= left * maxCost
  {
    assert left * maxCost == room * maxCost + maxCost;
  }

  lemma RoomStep(g: Gate, step: Step, budget: real, inFlight: nat, maxCost: real)
    requires Enabled(g, step) && g.budget == budget > 0.0 && maxCost >= 0.0 && Room(g, budget, inFlight, maxCost)
    requires Total(Next(g, step).calls, IsPending) <= inFlight as real
    requires step.AddSpend? ==> step.cost <= maxCost
    ensures Room(Next(g, step), budget, inFlight, maxCost)
  {
    PendingStep(g, step);
    var room, left := inFlight as real - Total(g.calls, IsPending),
        inFlight as real - Total(Next(g, step).calls, IsPending);
    match step
    case Admit => Scale(0.0, left, maxCost);
    case Abort(_) => Scale(room, left, maxCost);
    case AddSpend(_, cost) => SpendsRoom(room, left, cost, maxCost);
    case _ => assert left == room;
  }

  /** With a fixed budget B > 0, at most K calls pending at once and each costing at most C, spend stays below B +
      K·C. */
  lemma {:induction false} OvershootBounded(run: Run, i: nat, budget: real, inFlight: nat, maxCost: real)
    requires IsRun(run) && i < |run.states| && budget > 0.0 && maxCost >= 0.0
    requires FixedBudget(run, budget) && Bounded(run, inFlight, maxCost)
    ensures Room(run.states[i], budget, inFlight, maxCost)
    ensures run.states[i].spent < budget + inFlight as real * maxCost
  {
    if i > 0 {
      OvershootBounded(run, i - 1, budget, inFlight, maxCost);
      assert run.states[i] == Next(run.states[i - 1], run.steps[i - 1]);
      RoomStep(run.states[i - 1], run.steps[i - 1], budget, inFlight, maxCost);
    } else {
      Scale(0.0, inFlight as real, maxCost);
    }
    PendingNonNegative(run.states[i].calls);
    Scale(inFlight as real - Total(run.states[i].calls, IsPending), inFlight as real, maxCost);
  }

  lemma {:induction false} PendingNonNegative(calls: seq<Call>)
    ensures Total(calls, IsPending) >= 0.0
  {
    if calls != [] {
      PendingNonNegative(calls[1..]);
    }
  }

  // ---- Kill switch ----

  ghost predicate OldCalls(g: Gate, before: nat) { forall k :: 0 <= k < |g.calls| ==> g.calls[k].id < before }

  ghost predicate IdsUsed(g: Gate) { OldCalls(g, g.nextId) }

  lemma {:induction false} IdsAlwaysUsed(run: Run, i: nat)
    requires IsRun(run) && i < |run.states|
    ensures IdsUsed(run.states[i])
  {
    if i > 0 {
      IdsAlwaysUsed(run, i - 1);
    }
  }

  /** While the kill switch stays set no call is admitted, so whoever adds spend was admitted before it was set. */
  lemma {:induction false} KilledAdmitsNothing(run: Run, i: nat, j: nat)
    requires IsRun(run) && i <= j < |run.states|
    requires forall k :: i <= k <= j ==> run.states[k].killed
    ensures OldCalls(run.states[j], run.states[i].nextId)
    ensures |run.states[j].calls| <= |run.states[i].calls|
    ensures j < |run.steps| && run.steps[j].AddSpend? ==> run.states[j].calls[run.steps[j].i].id < run.states[i].nextId
  {
    if i == j {
      IdsAlwaysUsed(run, i);
    } else {
      KilledAdmitsNothing(run, i, j - 1);
    }
  }

  // ---- Soft cap ----

  /** A call that saw spend below the soft cap: the only ones that can warn. */
  function SawBelow(softCap: real): Call -> real { (c: Call) => if c.sawSpent < softCap then 1.0 else 0.0 }

  predicate WillWarn(c: Call) { !c.phase.Pending? && Crosses(c.sawSpent, c.sawBudget, c.phase.newSpent) }

  ghost predicate CallsConsistent(g: Gate, budget: real) {
    forall k :: 0 <= k < |g.calls| ==>
      && g.calls[k].sawBudget == budget
      && g.calls[k].sawSpent <= g.spent
      && (!g.calls[k].phase.Pending? ==> g.calls[k].phase.newSpent <= g.spent)
  }

  lemma CallsConsistentStep(g: Gate, step: Step, budget: real)
    requires Enabled(g, step) && CallsConsistent(g, budget) && g.budget == budget
    ensures CallsConsistent(Next(g, step), budget)
  {
  }

  /** Once spend is past the soft cap, a warning was given or is about to be. */
  ghost predicate SomeWarning(g: Gate, budget: real) {
    g.spent >= SoftCap(budget) ==> g.warnings >= 1 || exists k :: 0 <= k < |g.calls| && WillWarn(g.calls[k])
  }

  lemma SomeWarningStep(g: Gate, step: Step, budget: real)
    requires Enabled(g, step) && CallsConsistent(g, budget) && g.budget == budget > 0.0 && SomeWarning(g, budget)
    ensures SomeWarning(Next(g, step), budget)
  {
    var t := Next(g, step);
    if g.spent >= SoftCap(budget) {
      if g.warnings == 0 {
        var k :| 0 <= k < |g.calls| && WillWarn(g.calls[k]);
        if t.warnings == 0 {
          var moved := (step.Abort? || step.Complete?) && step.i < k;
          assert WillWarn(t.calls[if moved then k - 1 else k]);
        }
      }
    } else if step.AddSpend? && t.spent >= SoftCap(budget) {
      assert WillWarn(t.calls[step.i]);
    }
  }

  /** No warning before the soft cap; after it, warnings given and calls that may still warn are together at most K. */
  ghost predicate FewWarnings(g: Gate, budget: real, inFlight: nat) {
    if g.spent < SoftCap(budget) then g.warnings == 0
    else g.warnings as real + Total(g.calls, SawBelow(SoftCap(budget))) <= inFlight as real
  }

  lemma SawBelowBounded(calls: seq<Call>, softCap: real)
    ensures 0.0 <= Total(calls, SawBelow(softCap)) <= |calls| as real
  {
  }

  lemma FewWarningsStep(g: Gate, step: Step, budget: real, inFlight: nat)
    requires Enabled(g, step) && CallsConsistent(g, budget) && g.budget == budget > 0.0
             && FewWarnings(g, budget, inFlight)
    requires |Next(g, step).calls| <= inFlight
    ensures FewWarnings(Next(g, step), budget, inFlight)
  {
    var below := SawBelow(SoftCap(budget));
    SawBelowBounded(Next(g, step).calls, SoftCap(budget));
    match step
    case Admit => TotalAppend(g.calls, Call(g.nextId, g.spent, g.budget, Pending), below);
    case Abort(i) => TotalRemove(g.calls, i, below);
    case AddSpend(i, cost) => TotalUpdate(g.calls, i, g.calls[i].(phase := Charged(cost, g.spent + cost)), below);
    case RecordUsage(i) =>
      var c := g.calls[i];
      TotalUpdate(g.calls, i, c.(phase := Booked(c.phase.cost, c.phase.newSpent)), below);
    case Complete(i) => TotalRemove(g.calls, i, below);
    case _ =>
  }

  lemma {:induction false} WarningsHold(run: Run, i: nat, budget: real, inFlight: nat)
    requires IsRun(run) && i < |run.states| && budget > 0.0 && FixedBudget(run, budget)
    requires forall k :: 0 <= k < |run.states| ==> |run.states[k].calls| <= inFlight
    ensures CallsConsistent(run.states[i], budget) && SomeWarning(run.states[i], budget)
            && FewWarnings(run.states[i], budget, inFlight)
  {
    if i > 0 {
      WarningsHold(run, i - 1, budget, inFlight);
      var g, step := run.states[i - 1], run.steps[i - 1];
      assert run.states[i] == Next(g, step) && g.budget == budget;
      CallsConsistentStep(g, step, budget);
      SomeWarningStep(g, step, budget);
      FewWarningsStep(g, step, budget, inFlight);
    }
  }

  /** With a fixed budget and at most K calls in flight: whenever no call is in flight and spend has passed 80 % of the
      budget, between one and K warnings were given; before that, none. Sequential calls give exactly one. */
  lemma SoftCapWarns(run: Run, i: nat, budget: real, inFlight: nat)
    requires IsRun(run) && i < |run.states| && budget > 0.0 && FixedBudget(run, budget)
    requires forall k :: 0 <= k < |run.states| ==> |run.states[k].calls| <= inFlight
    ensures run.states[i].warnings <= inFlight
    ensures 10.0 * run.states[i].spent < 8.0 * budget ==> run.states[i].warnings == 0
    ensures 10.0 * run.states[i].spent >= 8.0 * budget && run.states[i].calls == [] ==> 1 <= run.states[i].warnings
    ensures inFlight == 1 && 10.0 * run.states[i].spent >= 8.0 * budget && run.states[i].calls == [] ==>
              run.states[i].warnings == 1
  {
    WarningsHold(run, i, budget, inFlight);
    SawBelowBounded(run.states[i].calls, SoftCap(budget));
  }

  // ---- As many warnings as calls in flight ----

  function LastOf(run: Run): Gate
    requires |run.states| > 0
  {
    run.states[|run.states| - 1]
  }

  ghost predicate AtMost(run: Run, inFlight: nat) {
    forall i :: 0 <= i < |run.states| ==> |run.states[i].calls| <= inFlight
  }

  /** A run under a fixed budget with at most so many calls in flight. */
  ghost predicate Governed(run: Run, budget: real, inFlight: nat) {
    IsRun(run) && FixedBudget(run, budget) && AtMost(run, inFlight)
  }

  lemma Then(run: Run, step: Step, budget: real, inFlight: nat) returns (longer: Run)
    requires Governed(run, budget, inFlight) && Enabled(LastOf(run), step)
    requires Next(LastOf(run), step).budget == budget && |Next(LastOf(run), step).calls| <= inFlight
    ensures Governed(longer, budget, inFlight) && LastOf(longer) == Next(LastOf(run), step)
  {
    longer := Run(run.states + [Next(LastOf(run), step)], run.steps + [step]);
  }

  /** The call was admitted before anything was spent, and its provider has not answered. */
  predicate Early(c: Call, budget: real) { c.sawSpent == 0.0 && c.sawBudget == budget && c.phase.Pending? }

  ghost predicate AllEarly(g: Gate, budget: real) { forall k :: 0 <= k < |g.calls| ==> Early(g.calls[k], budget) }

  /** So many calls are admitted before any of them spends. */
  lemma {:induction false} AdmitsMany(budget: real, inFlight: nat, k: nat) returns (run: Run)
    requires budget > 0.0 && k <= inFlight
    ensures Governed(run, budget, inFlight) && AllEarly(LastOf(run), budget) && |LastOf(run).calls| == k
    ensures LastOf(run).spent == 0.0 && LastOf(run).warnings == 0 && LastOf(run).active && !LastOf(run).killed
    decreases k
  {
    if k == 0 {
      run := Run([Gate(budget, 0.0, false, true, [], [], 0, 0)], []);
    } else {
      run := AdmitsMany(budget, inFlight, k - 1);
      run := Then(run, Admit, budget, inFlight);
    }
  }

  /** The first of the calls spends the whole budget and completes with a warning. */
  lemma CompletesFirst(run: Run, budget: real, inFlight: nat) returns (longer: Run)
    requires Governed(run, budget, inFlight) && AllEarly(LastOf(run), budget) && LastOf(run).calls != []
    requires budget > 0.0 && LastOf(run).spent >= 0.0
    ensures Governed(longer, budget, inFlight) && AllEarly(LastOf(longer), budget)
    ensures |LastOf(longer).calls| == |LastOf(run).calls| - 1 && LastOf(longer).warnings == LastOf(run).warnings + 1
    ensures LastOf(longer).spent == LastOf(run).spent + budget
  {
    longer := Then(run, AddSpend(0, budget), budget, inFlight);
    longer := Then(longer, RecordUsage(0), budget, inFlight);
    longer := Then(longer, Complete(0), budget, inFlight);
  }

  lemma {:induction false} CompletesAll(run: Run, budget: real, inFlight: nat) returns (longer: Run)
    requires Governed(run, budget, inFlight) && AllEarly(LastOf(run), budget) && budget > 0.0
             && LastOf(run).spent >= 0.0
    ensures Governed(longer, budget, inFlight) && LastOf(longer).calls == []
    ensures LastOf(longer).warnings == LastOf(run).warnings + |LastOf(run).calls|
    ensures LastOf(longer).spent >= LastOf(run).spent && (LastOf(run).calls != [] ==> LastOf(longer).spent >= budget)
    decreases |LastOf(run).calls|
  {
    longer := run;
    if LastOf(run).calls != [] {
      longer := CompletesFirst(run, budget, inFlight);
      longer := CompletesAll(longer, budget, inFlight);
    }
  }

  /** Spend has passed 80 % of the budget, and no call is in flight. */
  predicate IsPastCap(g: Gate, budget: real) { g.calls == [] && 10.0 * g.spent >= 8.0 * budget }

  /** The upper bound of `SoftCapWarns` is attained: K calls in flight can give K warnings. */
  lemma ManyWarnings(budget: real, inFlight: nat) returns (run: Run)
    requires budget > 0.0 && inFlight > 0
    ensures Governed(run, budget, inFlight) && IsPastCap(LastOf(run), budget)
    ensures LastOf(run).warnings == inFlight
  {
    run := AdmitsMany(budget, inFlight, inFlight);
    run := CompletesAll(run, budget, inFlight);
  }

  ghost predicate WarnsOnce(budget: real, inFlight: nat) {
    forall run: Run :: Governed(run, budget, inFlight) && IsPastCap(LastOf(run), budget) ==> LastOf(run).warnings == 1
  }

  /** "Warn once" holds if and only if calls are sequential. */
  lemma WarnsOnceIff(budget: real, inFlight: nat)
    requires budget > 0.0 && inFlight > 0
    ensures WarnsOnce(budget, inFlight) <==> inFlight == 1
  {
    if inFlight == 1 {
      forall run: Run | Governed(run, budget, 1) && IsPastCap(LastOf(run), budget)
        ensures LastOf(run).warnings == 1
      {
        SoftCapWarns(run, |run.states| - 1, budget, 1);
      }
    } else {
      var run := ManyWarnings(budget, inFlight);
    }
  }
}
