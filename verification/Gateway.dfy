/** The gateway over its store: project runtime rows, virtual keys, usage events, and one governed completion. */
module Gateway {
  import opened Prelude
  import opened GatewaySpend

  /** Who pays: copied onto every usage event. */
  datatype Attribution = Attribution(owner: string, manager: string, costGroup: string, costCenter: string,
                                     classification: string)

  const NOBODY := Attribution("", "", "", "", "")

  datatype Runtime = Runtime(budget: real, spent: real, killed: bool, dataClass: string, attribution: Attribution,
                             lifecycle: string, registered: bool)

  datatype Key = Key(project: string, active: bool)

  datatype UsageEvent = UsageEvent(project: string, model: string, promptTokens: nat, completionTokens: nat,
                                   cost: real, attribution: Attribution)

  datatype Audit = AuthDenied | Blocked(project: string, reason: string) | PolicyRefused(project: string)
                 | GuardrailRefused(project: string) | BudgetWarning(project: string) | Completed(project: string)

  datatype GatewayError = Unauthorized | ProjectInactive | ProjectKilled | OverBudget | UnknownModel
                        | PolicyDenied | GuardrailBlocked | NoProvider | ProviderFailed(error: string)

  /** What one project's usage events add up to. */
  function SpendOf(project: string): UsageEvent -> real {
    (event: UsageEvent) => if event.project == project then event.cost else 0.0
  }

  function SpentBy(projects: map<string, Runtime>, project: string): real {
    if project in projects then projects[project].spent else 0.0
  }

  class GatewayRepo {
    var projects: map<string, Runtime>
    var keys: map<string, Key>  // by key hash
    var usage: seq<UsageEvent>

    constructor ()
      ensures projects == map[] && keys == map[] && usage == [] && Conserved()
    {
      projects, keys, usage := map[], map[], [];
    }

    /** The stored running totals agree with the ledger. */
    ghost predicate Conserved()
      reads this
    {
      forall p {:trigger SpentBy(projects, p)} :: SpentBy(projects, p) == Total(usage, SpendOf(p))
    }

    /** Creates the runtime row if absent; never clobbers an existing one. */
    method EnsureProject(project: string, budget: real, dataClass: string)
      modifies this
      ensures keys == old(keys) && usage == old(usage)
      ensures projects == if project in old(projects) then old(projects)
                          else old(projects)[project := Runtime(budget, 0.0, false, dataClass, NOBODY, "active", false)]
      ensures forall p {:trigger SpentBy(projects, p)} :: SpentBy(projects, p) == SpentBy(old(projects), p)
    {
      if project !in projects {
        projects := projects[project := Runtime(budget, 0.0, false, dataClass, NOBODY, "active", false)];
      }
    }

    /** Re-registration overwrites budget and attribution and revives the lifecycle; it keeps spend and kill switch. */
    method SetRegistration(project: string, attribution: Attribution, dataClass: string, budget: real)
      modifies this
      ensures keys == old(keys) && usage == old(usage) && projects.Keys == old(projects).Keys + {project}
      ensures forall p :: p in old(projects) && p != project ==> projects[p] == old(projects)[p]
      ensures projects[project]
              == Runtime(budget, SpentBy(old(projects), project), project in old(projects)
                         && old(projects)[project].killed,
                                           dataClass, attribution, "active", true)
      ensures forall p {:trigger SpentBy(projects, p)} :: SpentBy(projects, p) == SpentBy(old(projects), p)
    {
      var row := if project in projects
                 then projects[project].(budget := budget, dataClass := dataClass, attribution := attribution,
                                         lifecycle := "active", registered := true)
                 else Runtime(budget, 0.0, false, dataClass, attribution, "active", true);
      projects := projects[project := row];
    }

    method SetKilled(project: string, killed: bool)
      modifies this
      ensures keys == old(keys) && usage == old(usage)
      ensures projects == if project in old(projects)
              then old(projects)[project := old(projects)[project].(killed := killed)] else old(projects)
    {
      if project in projects { projects := projects[project := projects[project].(killed := killed)]; }
    }

    method SetBudget(project: string, budget: real)
      modifies this
      ensures keys == old(keys) && usage == old(usage)
      ensures projects == if project in old(projects)
              then old(projects)[project := old(projects)[project].(budget := budget)] else old(projects)
    {
      if project in projects { projects := projects[project := projects[project].(budget := budget)]; }
    }

    /** Adds to the running total and returns the new one; an unknown project is an error. */
    method AddSpend(project: string, amount: real) returns (spent: Option<real>)
      modifies this
      ensures keys == old(keys) && usage == old(usage)
      ensures spent == if project in old(projects) then Some(old(projects)[project].spent + amount) else None
      ensures projects == if spent.Some? then old(projects)[project := old(projects)[project].(spent := spent.value)]
              else old(projects)
    {
      if project !in projects { return None; }
      spent := Some(projects[project].spent + amount);
      projects := projects[project := projects[project].(spent := spent.value)];
    }

    method RecordUsage(event: UsageEvent)
      modifies this
      ensures keys == old(keys) && projects == old(projects) && usage == old(usage) + [event]
    {
      usage := usage + [event];
    }

    /** The sum the database computes over a project's usage events. */
    method ProjectSpend(project: string) returns (total: real)
      ensures total == Total(usage, SpendOf(project))
    {
      var events := usage;
      total := 0.0;
      var i := |events|;
      while i > 0
        invariant 0 <= i <= |events|
        invariant total == Total(events[i..], SpendOf(project))
      {
        i := i - 1;
        assert events[i..][1..] == events[i + 1..];
        total := SpendOf(project)(events[i]) + total;
      }
    }

    /** An active key whose project has a runtime row. */
    predicate Resolves(hash: string)
      reads this
    {
      hash in keys && keys[hash].active && keys[hash].project in projects
    }
  }

  datatype Model = Model(ref: string, costIn: real, costOut: real)

  /** What the foreign engines and the provider answer for one call. */
  datatype World = World(model: Option<Model>, policyAllows: bool, guardrailBlocks: bool, providerKnown: bool,
                         reply: Result<(nat, nat), string>)

  function CostOf(model: Model, promptTokens: nat, completionTokens: nat): real {
    promptTokens as real / 1000.0 * model.costIn + completionTokens as real / 1000.0 * model.costOut
  }

  lemma CostIs(model: Model, promptTokens: nat, completionTokens: nat)
    ensures 1000.0 * CostOf(model, promptTokens, completionTokens)
            == promptTokens as real * model.costIn + completionTokens as real * model.costOut
  {
  }

  /** A call of that cost takes the project from below 80 % of its budget to 80 % of it or more. */
  predicate Warns(rt: Runtime, cost: real) {
    rt.budget > 0.0 && 10.0 * rt.spent < 8.0 * rt.budget <= 10.0 * (rt.spent + cost)
  }

  class GatewayService {
    const repo: GatewayRepo
    var audits: seq<Audit>

    constructor (repo: GatewayRepo)
      ensures this.repo == repo && audits == []
    {
      this.repo, this.audits := repo, [];
    }

    /** What an answered call adds: its cost to the running total, an event to the ledger, a warning if it crosses the
        soft cap. Together with its admission that is one call of the interleaved model that nothing interrupts. */
    method Charge(p: string, rt: Runtime, model: Model, promptTokens: nat, completionTokens: nat) returns (cost: real)
      requires p in repo.projects && repo.projects[p] == rt
      modifies this, repo
      ensures 1000.0 * cost == promptTokens as real * model.costIn + completionTokens as real * model.costOut
      ensures repo.keys == old(repo.keys)
      ensures repo.projects == old(repo.projects)[p := rt.(spent := rt.spent + cost)]
      ensures repo.usage == old(repo.usage)
              + [UsageEvent(p, model.ref, promptTokens, completionTokens, cost, rt.attribution)]
      ensures audits == old(audits)
              + (if Warns(rt, cost) then [BudgetWarning(p)] else []) + [Completed(p)]
      ensures old(repo.Conserved()) ==> repo.Conserved()
      ensures var before := GateOf(rt, old(repo.usage), old(audits), p);
              cost >= 0.0 && Enabled(before, Admit) ==>
                  GateOf(repo.projects[p], repo.usage, audits, p) == AfterCall(before, cost)
    {
      cost := CostOf(model, promptTokens, completionTokens);
      CostIs(model, promptTokens, completionTokens);
      var charged := repo.AddSpend(p, cost);
      var newSpent := charged.value;
      var event := UsageEvent(p, model.ref, promptTokens, completionTokens, cost, rt.attribution);
      repo.RecordUsage(event);
      if old(repo.Conserved()) { ChargeConserves(old(repo.projects), old(repo.usage), repo.projects, event); }
      if rt.budget > 0.0 {
        var soft := SoftCap(rt.budget);
        if rt.spent < soft && newSpent >= soft { audits := audits + [BudgetWarning(p)]; }
      }
      audits := audits + [Completed(p)];
      AloneIsFourSteps(rt, old(repo.usage), old(audits), event);
    }

    /** One completion with nobody interfering. Refusals come in a fixed order and change no money; a success charges
        its cost once to the running total and once to the ledger, and warns exactly when it crosses the soft cap. */
    method Complete(hash: string, world: World) returns (result: Result<real, GatewayError>)
      modifies this, repo
      ensures repo.keys == old(repo.keys)
      ensures result == Err(Unauthorized)
              <==> hash !in old(repo.keys) || !old(repo.keys)[hash].active
                   || old(repo.keys)[hash].project !in old(repo.projects)
      ensures old(repo.Resolves(hash)) ==>
                var p := old(repo.keys)[hash].project;
                var rt := old(repo.projects)[p];
                && (result == Err(ProjectInactive) <==> rt.lifecycle != "active")
                && (result == Err(ProjectKilled) <==> rt.lifecycle == "active" && rt.killed)
                && (result == Err(OverBudget)
                    <==> rt.lifecycle == "active" && !rt.killed && rt.budget > 0.0 && rt.spent >= rt.budget)
                && var open := rt.lifecycle == "active" && !rt.killed && (rt.budget <= 0.0 || rt.spent < rt.budget);
                  var allowed := open && world.model.Some? && world.policyAllows;
                  var asked := allowed && !world.guardrailBlocks && world.providerKnown;
                  && (result == Err(UnknownModel) <==> open && world.model.None?)
                  && (result == Err(PolicyDenied) <==> open && world.model.Some? && !world.policyAllows)
                  && (result == Err(GuardrailBlocked) <==> allowed && world.guardrailBlocks)
                  && (result == Err(NoProvider) <==> allowed && !world.guardrailBlocks && !world.providerKnown)
                  && (result.Ok? <==> asked && world.reply.Ok?)
                  && (result.Err? && result.error.ProviderFailed? <==> asked && world.reply.Err?)
                  && (result.Err? && result.error.ProviderFailed? ==> result.error.error == world.reply.error)
      ensures result.Ok? ==>
                var p := old(repo.keys)[hash].project;
                var rt := old(repo.projects)[p];
                && 1000.0 * result.value == world.reply.value.0 as real * world.model.value.costIn
                                            + world.reply.value.1 as real * world.model.value.costOut
                && repo.projects == old(repo.projects)[p := rt.(spent := rt.spent + result.value)]
                && repo.usage == old(repo.usage)
                   + [UsageEvent(p, world.model.value.ref, world.reply.value.0, world.reply.value.1,
                                 result.value, rt.attribution)]
                && audits == old(audits)
                   + (if Warns(rt, result.value) then [BudgetWarning(p)] else []) + [Completed(p)]
      ensures result.Err? ==> repo.projects == old(repo.projects) && repo.usage == old(repo.usage)
      // A success is one call of the interleaved model that nothing interrupts.
      ensures result.Ok? && result.value >= 0.0 ==>
                var p := old(repo.keys)[hash].project;
                var before := GateOf(old(repo.projects)[p], old(repo.usage), old(audits), p);
                Enabled(before, Admit) && p in repo.projects
                    && GateOf(repo.projects[p], repo.usage, audits, p) == AfterCall(before, result.value)
      // What a refusal leaves in the audit log; an unknown model, a missing provider and its error leave nothing.
      ensures result == Err(Unauthorized) ==> audits == old(audits) + [AuthDenied]
      ensures result.Err? && result != Err(Unauthorized) ==>
                var p := old(repo.keys)[hash].project;
                match result.error
                case ProjectInactive => audits == old(audits) + [Blocked(p, "lifecycle")]
                case ProjectKilled => audits == old(audits) + [Blocked(p, "kill switch")]
                case OverBudget => audits == old(audits) + [Blocked(p, "budget exceeded")]
                case PolicyDenied => audits == old(audits) + [PolicyRefused(p)]
                case GuardrailBlocked => audits == old(audits) + [GuardrailRefused(p)]
                case _ => audits == old(audits)
      ensures old(repo.Conserved()) ==> repo.Conserved()
    {
      if !repo.Resolves(hash) {
        audits := audits + [AuthDenied];
        return Err(Unauthorized);
      }
      var p := repo.keys[hash].project;
      var rt := repo.projects[p];
      if rt.lifecycle != "active" {
        audits := audits + [Blocked(p, "lifecycle")];
        return Err(ProjectInactive);
      }
      if rt.killed {
        audits := audits + [Blocked(p, "kill switch")];
        return Err(ProjectKilled);
      }
      if BudgetExceeded(rt.spent, rt.budget) {
        audits := audits + [Blocked(p, "budget exceeded")];
        return Err(OverBudget);
      }
      if world.model.None? { return Err(UnknownModel); }
      if !world.policyAllows {
        audits := audits + [PolicyRefused(p)];
        return Err(PolicyDenied);
      }
      if world.guardrailBlocks {
        audits := audits + [GuardrailRefused(p)];
        return Err(GuardrailBlocked);
      }
      if !world.providerKnown { return Err(NoProvider); }
      if world.reply.Err? { return Err(ProviderFailed(world.reply.error)); }
      var cost := Charge(p, rt, world.model.value, world.reply.value.0, world.reply.value.1);
      return Ok(cost);
    }
  }

  /** Charging an event to its project's row and to the ledger keeps the two in agreement for every project. */
  lemma ChargeConserves(projects: map<string, Runtime>, usage: seq<UsageEvent>, charged: map<string, Runtime>,
                        event: UsageEvent)
    requires event.project in projects
    requires var row := projects[event.project];
             charged == projects[event.project := row.(spent := row.spent + event.cost)]
    requires forall p {:trigger SpentBy(projects, p)} :: SpentBy(projects, p) == Total(usage, SpendOf(p))
    ensures forall p {:trigger SpentBy(charged, p)} :: SpentBy(charged, p) == Total(usage + [event], SpendOf(p))
  {
    forall p ensures SpentBy(charged, p) == Total(usage + [event], SpendOf(p)) {
      assert SpentBy(projects, p) == Total(usage, SpendOf(p));
      TotalAppend(usage, event, SpendOf(p));
    }
  }

  // ---- The sequential completion among the interleaved ones ----

  /** The costs of one project's usage events. */
  function Ledger(usage: seq<UsageEvent>, project: string): seq<real> {
    if usage == [] then []
    else
      var n := |usage| - 1;
      Ledger(usage[..n], project) + if usage[n].project == project then [usage[n].cost] else []
  }

  /** How many budget warnings one project got. */
  function Warnings(audits: seq<Audit>, project: string): nat {
    if audits == [] then 0
    else
      var n := |audits| - 1;
      Warnings(audits[..n], project) + if audits[n] == BudgetWarning(project) then 1 else 0
  }

  /** What the interleaved model sees of one project while no call is in flight. */
  function GateOf(rt: Runtime, usage: seq<UsageEvent>, audits: seq<Audit>, project: string): Gate {
    Gate(rt.budget, rt.spent, rt.killed, rt.lifecycle == "active", Ledger(usage, project), [],
         |Ledger(usage, project)|, Warnings(audits, project))
  }

  /** The interleaved model after one call that nothing interrupts. */
  function AfterCall(g: Gate, cost: real): Gate
    requires g.calls == [] && Enabled(g, Admit) && cost >= 0.0
  {
    var g1 := Next(g, Admit);
    assert |g1.calls| == 1;
    var g2 := Next(g1, AddSpend(0, cost));
    var g3 := Next(g2, RecordUsage(0));
    Next(g3, GatewaySpend.Complete(0))
  }

  lemma WarningsAppend(audits: seq<Audit>, audit: Audit, project: string)
    ensures Warnings(audits + [audit], project) == Warnings(audits, project) +
            if audit == BudgetWarning(project) then 1 else 0
  {
    assert (audits + [audit])[..|audits|] == audits;
  }

  /** The four steps, field by field. */
  lemma AfterCallIs(g: Gate, cost: real)
    requires g.calls == [] && Enabled(g, Admit) && cost >= 0.0
    ensures AfterCall(g, cost) ==
            g.(spent := g.spent + cost, ledger := g.ledger + [cost], nextId := g.nextId + 1,
               warnings := g.warnings + if Crosses(g.spent, g.budget, g.spent + cost) then 1 else 0)
  {
  }

  /** What the warning and the completion add to the count of warnings. */
  lemma WarningsAfter(audits: seq<Audit>, project: string, warned: seq<Audit>)
    requires warned == [] || warned == [BudgetWarning(project)]
    ensures Warnings(audits + warned + [Completed(project)], project) == Warnings(audits, project) + |warned|
  {
    WarningsAppend(audits + warned, Completed(project), project);
    if warned == [] {
      assert audits + warned == audits;
    } else {
      WarningsAppend(audits, BudgetWarning(project), project);
    }
  }

  /** A completion alone is the run Admit, AddSpend, RecordUsage, Complete of the interleaved model: it may begin
      exactly when that model admits a call, and the runtime row, usage events and warnings it leaves are those the
      four steps leave. */
  lemma AloneIsFourSteps(rt: Runtime, usage: seq<UsageEvent>, audits: seq<Audit>, event: UsageEvent)
    ensures var g, p := GateOf(rt, usage, audits, event.project), event.project;
            && (Enabled(g, Admit)
                <==> rt.lifecycle == "active" && !rt.killed && (rt.budget <= 0.0 || rt.spent < rt.budget))
            && (Enabled(g, Admit) && event.cost >= 0.0 ==>
                  var warned := if Warns(rt, event.cost) then [BudgetWarning(p)] else [];
                  AfterCall(g, event.cost)
                  == GateOf(rt.(spent := rt.spent + event.cost), usage + [event], audits + warned + [Completed(p)], p))
  {
    var g, p := GateOf(rt, usage, audits, event.project), event.project;
    if Enabled(g, Admit) && event.cost >= 0.0 {
      assert (usage + [event])[..|usage|] == usage;
      WarningsAfter(audits, p, if Warns(rt, event.cost) then [BudgetWarning(p)] else []);
      AfterCallIs(g, event.cost);
    }
  }

  /** The writes to a runtime row are those of the interleaved model: a registration, a budget, the kill switch and the
      lifecycle. None of them is seen in spend, ledger, calls or warnings. */
  lemma WritesAreSteps(rt: Runtime, usage: seq<UsageEvent>, audits: seq<Audit>, project: string, budget: real,
                       killed: bool, attribution: Attribution, dataClass: string, lifecycle: string)
    ensures var g, registered := GateOf(rt, usage, audits, project),
                Runtime(budget, rt.spent, rt.killed, dataClass, attribution, "active", true);
            && GateOf(registered, usage, audits, project) == Next(g, Register(budget))
            && GateOf(rt.(budget := budget), usage, audits, project) == Next(g, SetBudget(budget))
            && GateOf(rt.(killed := killed), usage, audits, project) == Next(g, SetKilled(killed))
            && GateOf(rt.(lifecycle := lifecycle), usage, audits, project)
               == Next(g, SetLifecycle(lifecycle == "active"))
  {
  }
}
