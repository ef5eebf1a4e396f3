/** The self-service ceiling when admission and enqueue are separate steps, as they are in the code: requests admitted
    before others are enqueued are counted by none of the tests, and the ceiling is exceeded by what they ask for. */
module AdmissionRaces {
  import opened Prelude
  import opened ResourceRows
  import opened WorkerProtocol
  import opened RetryPolicies
  import opened SelfServiceCeiling
  import opened Reachability

  /** A request that passed the test and is still to be enqueued. `target` is the record whose estimate the test
      subtracted, unless another outstanding request had that record subtracted already. */
  datatype Admission = Admission(request: RequestId, est: real, target: Option<nat>)

  datatype Desk = Desk(sys: System, open: seq<Admission>)

  /** The project whose ceiling is looked at. */
  datatype Budget = Budget(project: string, ceiling: real)

  datatype Event =
    | Admit(request: RequestId, est: real, existing: Option<nat>, modelSpend: real)
    | Abandon(i: nat)
    | Land(i: nat, step: Step)
    | Other(step: Step)

  function Contribution(rows: seq<Row>, project: string, r: Option<nat>): real {
    if r.Some? && r.value < |rows| then Commitment(project)(rows[r.value]) else 0.0
  }

  /** Another outstanding request already has the record subtracted. */
  predicate IsTaken(open: seq<Admission>, r: Option<nat>) {
    r.Some? && exists i :: 0 <= i < |open| && open[i].target == r
  }

  predicate CanReplace(rows: seq<Row>, project: string, r: nat) {
    r < |rows| && rows[r].project == project && IsActive(rows[r])
  }

  /** The step enqueues the admitted request: as a new row of the project, or by re-arming a row that was looked up for
      it. */
  predicate Lands(s: System, project: string, step: Step, a: Admission)
    requires WellFormed(s) && Enabled(s, step)
  {
    match step
    case Enqueue(p, _, _, _, est, q) => p == project && est == a.est && q == a.request
    case Reapply(p) =>
      s.pending[p].est == a.est && s.pending[p].request == a.request && s.rows[s.pending[p].row].project == project
    case _ => false
  }

  function LandedOn(s: System, step: Step): Option<nat>
    requires Enabled(s, step)
  {
    if step.Reapply? then Some(s.pending[step.rearm].row) else None
  }

  ghost predicate CanHappen(d: Desk, b: Budget, event: Event)
    requires WellFormed(d.sys)
  {
    match event
    case Admit(_, est, existing, spend) =>
      && est >= 0.0 && spend >= 0.0
      && (existing.Some? ==> CanReplace(d.sys.rows, b.project, existing.value))
      && WithinCeiling(spend, Committed(d.sys.rows, b.project), est, Contribution(d.sys.rows, b.project, existing),
                       Some(b.ceiling))
    case Abandon(i) => i < |d.open|
    case Land(i, step) => i < |d.open| && Enabled(d.sys, step) && Lands(d.sys, b.project, step, d.open[i])
    case Other(step) =>
      && Enabled(d.sys, step)
      && (step.Enqueue? ==> step.project != b.project)
      && (step.Reapply? ==> d.sys.rows[d.sys.pending[step.rearm].row].project != b.project)
      && (step.Link? && step.project == b.project ==> step.est >= 0.0)
  }

  ghost function After(d: Desk, b: Budget, event: Event): Desk
    requires WellFormed(d.sys) && CanHappen(d, b, event)
  {
    match event
    case Admit(q, est, existing, _) =>
        d.(open := d.open + [Admission(q, est, if IsTaken(d.open, existing) then None else existing)])
    case Abandon(i) => d.(open := d.open[..i] + d.open[i + 1..])
    case Land(i, step) => Desk(Next(d.sys, step), d.open[..i] + d.open[i + 1..])
    case Other(step) => d.(sys := Next(d.sys, step))
  }

  /** What an outstanding request may still add to the commitment. */
  function Weight(rows: seq<Row>, project: string): Admission -> real {
    (a: Admission) => MaxReal(0.0, a.est - Contribution(rows, project, a.target))
  }

  function Outstanding(d: Desk, b: Budget): real { Total(d.open, Weight(d.sys.rows, b.project)) }

  /** What the test of an admission does not see: what other outstanding requests may still add, and the estimate it
      subtracts if one of them has it subtracted as well. */
  function Unseen(d: Desk, b: Budget, event: Event): real {
    if !event.Admit? then 0.0
    else
      var twice := if IsTaken(d.open, event.existing) then Contribution(d.sys.rows, b.project, event.existing) else 0.0;
      Outstanding(d, b) + twice
  }

  /** What an event brings back: the row that another step revives, and, for a request that lands elsewhere than on the
      record its admission subtracted, what that record still contributes. */
  ghost function RegainedIn(d: Desk, b: Budget, event: Event): real
    requires WellFormed(d.sys) && CanHappen(d, b, event)
  {
    match event
    case Other(step) => RevivedBy(d.sys, step, b.project)
    case Land(i, step) =>
      if d.open[i].target == LandedOn(d.sys, step) then 0.0 else Contribution(d.sys.rows, b.project, d.open[i].target)
    case _ => 0.0
  }

  // ---- The invariant ----

  ghost predicate OnceEach(open: seq<Admission>) {
    forall i, j :: 0 <= i < j < |open| && open[i].target.Some? ==> open[i].target != open[j].target
  }

  ghost predicate Good(d: Desk, b: Budget) {
    && WellFormed(d.sys) && EstimatesNonNegative(d.sys, b.project) && OnceEach(d.open)
    && (forall i :: 0 <= i < |d.open| ==> d.open[i].est >= 0.0)
    && (forall i :: 0 <= i < |d.open| && d.open[i].target.Some? ==> d.open[i].target.value < |d.sys.rows|)
  }

  ghost predicate Within(d: Desk, b: Budget, unseen: real, regained: real) {
    Committed(d.sys.rows, b.project) + Outstanding(d, b) <= b.ceiling + unseen + regained
  }

  /** All rows but `x` are as they were. */
  ghost predicate Differ(rows: seq<Row>, rows': seq<Row>, x: nat) {
    |rows| <= |rows'| && forall r :: 0 <= r < |rows| && r != x ==> rows'[r] == rows[r]
  }

  /** When one row changes, what is outstanding grows by at most what the row no longer contributes, and not at all if
      no outstanding request has that row subtracted. */
  lemma {:induction false} WeightsShift(open: seq<Admission>, rows: seq<Row>, rows': seq<Row>, project: string, x: nat)
    requires Differ(rows, rows', x) && OnceEach(open)
    requires forall i :: 0 <= i < |open| && open[i].target.Some? ==> open[i].target.value < |rows|
    ensures var before, after := Total(open, Weight(rows, project)), Total(open, Weight(rows', project));
            && after <= before + MaxReal(0.0,
                                         Contribution(rows, project, Some(x)) - Contribution(rows', project, Some(x)))
            && (!IsTaken(open, Some(x)) ==> after == before)
  {
    if open != [] {
      var rest := open[1..];
      assert forall i :: 0 <= i < |rest| ==> rest[i] == open[i + 1];
      WeightsShift(rest, rows, rows', project, x);
      if open[0].target == Some(x) {
        assert !IsTaken(rest, Some(x));
      } else if IsTaken(rest, Some(x)) {
        var i :| 0 <= i < |rest| && rest[i].target == Some(x);
        assert open[i + 1].target == Some(x);
      }
    }
  }

  lemma AppendingStep(d: Desk, b: Budget, step: Step)
    requires Good(d, b) && CanHappen(d, b, Other(step)) && (step.Enqueue? || step.Link?)
    ensures Committed(Next(d.sys, step).rows, b.project) + Outstanding(After(d, b, Other(step)), b)
            <= Committed(d.sys.rows, b.project) + Outstanding(d, b)
  {
    var rows, rows' := d.sys.rows, Next(d.sys, step).rows;
    AppendedRow(d.sys, step);
    TotalAppend(rows, rows'[|rows|], Commitment(b.project));
    WeightsShift(d.open, rows, rows', b.project, |rows|);
  }

  lemma WritingStep(d: Desk, b: Budget, step: Step, r: nat)
    requires Good(d, b) && CanHappen(d, b, Other(step)) && Written(d.sys, step) == Some(r) && r < |d.sys.rows|
    ensures Committed(Next(d.sys, step).rows, b.project) + Outstanding(After(d, b, Other(step)), b)
            <= Committed(d.sys.rows, b.project) + Outstanding(d, b) + RevivedBy(d.sys, step, b.project)
    ensures RevivedBy(d.sys, step, b.project) >= 0.0
  {
    var rows, rows' := d.sys.rows, Next(d.sys, step).rows;
    WrittenRow(d.sys, step, r);
    TotalUpdate(rows, r, rows'[r], Commitment(b.project));
    WeightsShift(d.open, rows, rows', b.project, r);
  }

  /** A step of the protocol that enqueues nothing for the project adds at most what it revives. */
  lemma OtherStep(d: Desk, b: Budget, step: Step, unseen: real, regained: real)
    requires Good(d, b) && CanHappen(d, b, Other(step)) && Within(d, b, unseen, regained)
    ensures Within(After(d, b, Other(step)), b, unseen, regained + RevivedBy(d.sys, step, b.project))
    ensures RevivedBy(d.sys, step, b.project) >= 0.0
  {
    if step.Enqueue? || step.Link? {
      AppendingStep(d, b, step);
    } else if Written(d.sys, step).None? {
      UnchangedRows(d.sys, step);
    } else {
      WritingStep(d, b, step, Written(d.sys, step).value);
    }
  }

  lemma LandNew(d: Desk, b: Budget, i: nat, step: Step, unseen: real, regained: real)
    requires Good(d, b) && CanHappen(d, b, Land(i, step)) && step.Enqueue? && Within(d, b, unseen, regained)
    ensures Within(After(d, b, Land(i, step)), b, unseen, regained + RegainedIn(d, b, Land(i, step)))
  {
    var rows, rows' := d.sys.rows, Next(d.sys, step).rows;
    AppendedRow(d.sys, step);
    TotalAppend(rows, rows'[|rows|], Commitment(b.project));
    WeightsShift(d.open, rows, rows', b.project, |rows|);
    TotalRemove(d.open, i, Weight(rows', b.project));
  }

  /** What landing an update does to the two sums. */
  lemma UpdateShifts(d: Desk, b: Budget, i: nat, step: Step)
    requires Good(d, b) && CanHappen(d, b, Land(i, step)) && step.Reapply?
    ensures var rows, rows', a, on := d.sys.rows, Next(d.sys, step).rows, d.open[i], LandedOn(d.sys, step);
            var was, left := Contribution(rows, b.project, on), d.open[..i] + d.open[i + 1..];
            && Committed(rows', b.project) == Committed(rows, b.project) - was + a.est
            && Total(left, Weight(rows', b.project))
               <= Outstanding(d, b) - Weight(rows, b.project)(a)
                  + if a.target == on then 0.0 else MaxReal(0.0, was - a.est)
  {
    var rows, rows', x := d.sys.rows, Next(d.sys, step).rows, d.sys.pending[step.rearm].row;
    var left := d.open[..i] + d.open[i + 1..];
    WrittenRow(d.sys, step, x);
    TotalUpdate(rows, x, rows'[x], Commitment(b.project));
    TotalRemove(d.open, i, Weight(rows, b.project));
    LeftIsGood(d, b, i);
    WeightsShift(left, rows, rows', b.project, x);
  }

  lemma LandUpdate(d: Desk, b: Budget, i: nat, step: Step, unseen: real, regained: real)
    requires Good(d, b) && CanHappen(d, b, Land(i, step)) && step.Reapply? && Within(d, b, unseen, regained)
    ensures Within(After(d, b, Land(i, step)), b, unseen, regained + RegainedIn(d, b, Land(i, step)))
  {
    UpdateShifts(d, b, i, step);
  }

  lemma LeftIsGood(d: Desk, b: Budget, i: nat)
    requires Good(d, b) && i < |d.open|
    ensures var left := d.open[..i] + d.open[i + 1..];
            && OnceEach(left)
            && (forall k :: 0 <= k < |left| ==>
                left[k].est >= 0.0 && (left[k].target.Some? ==> left[k].target.value < |d.sys.rows|))
            && (d.open[i].target.Some? ==> !IsTaken(left, d.open[i].target))
  {
    var left := d.open[..i] + d.open[i + 1..];
    assert forall k :: 0 <= k < |left| ==> left[k] == d.open[if k < i then k else k + 1];
  }

  lemma AdmitStep(d: Desk, b: Budget, event: Event, unseen: real, regained: real)
    requires Good(d, b) && event.Admit? && CanHappen(d, b, event) && Within(d, b, unseen, regained)
    requires Unseen(d, b, event) <= unseen && regained >= 0.0
    ensures Within(After(d, b, event), b, unseen, regained)
  {
    var a := Admission(event.request, event.est, if IsTaken(d.open, event.existing) then None else event.existing);
    TotalAppend(d.open, a, Weight(d.sys.rows, b.project));
  }

  lemma AbandonStep(d: Desk, b: Budget, i: nat, unseen: real, regained: real)
    requires Good(d, b) && i < |d.open| && Within(d, b, unseen, regained)
    ensures Within(After(d, b, Abandon(i)), b, unseen, regained)
  {
    TotalRemove(d.open, i, Weight(d.sys.rows, b.project));
  }

  lemma GoodStep(d: Desk, b: Budget, event: Event)
    requires Good(d, b) && CanHappen(d, b, event)
    ensures Good(After(d, b, event), b)
  {
    if event.Land? || event.Other? {
      EstimatesStayNonNegative(d, b, event.step);
    }
    if event.Land? { LeftIsGood(d, b, event.i); }
    if event.Abandon? { LeftIsGood(d, b, event.i); }
  }

  lemma EstimatesStayNonNegative(d: Desk, b: Budget, step: Step)
    requires Good(d, b) && Enabled(d.sys, step)
    requires step.Enqueue? && step.project == b.project ==> step.est >= 0.0
    requires step.Reapply? && d.sys.rows[d.sys.pending[step.rearm].row].project == b.project ==>
               d.sys.pending[step.rearm].est >= 0.0
    requires step.Link? && step.project == b.project ==> step.est >= 0.0
    ensures WellFormed(Next(d.sys, step)) && EstimatesNonNegative(Next(d.sys, step), b.project)
            && |d.sys.rows| <= |Next(d.sys, step).rows|
  {
    WellFormedAlways(d.sys, step);
    var t := Next(d.sys, step);
    forall r | 0 <= r < |t.rows| && t.rows[r].project == b.project ensures t.rows[r].est >= 0.0 {
      if r < |d.sys.rows| { RowFrame(d.sys, step, r); }
    }
  }

  // ---- Runs ----

  datatype DeskRun = DeskRun(desks: seq<Desk>, events: seq<Event>)

  ghost predicate IsDeskRun(run: DeskRun, b: Budget) {
    && |run.desks| == |run.events| + 1
    && Init(run.desks[0].sys) && run.desks[0].open == []
    && (forall i :: 0 <= i < |run.desks| ==> WellFormed(run.desks[i].sys))
    && (forall i :: 0 <= i < |run.events| ==>
          CanHappen(run.desks[i], b, run.events[i]) && run.desks[i + 1] == After(run.desks[i], b, run.events[i]))
  }

  ghost function Regained(run: DeskRun, b: Budget, i: nat): real
    requires IsDeskRun(run, b) && i < |run.desks|
  {
    if i == 0 then 0.0 else Regained(run, b, i - 1) + RegainedIn(run.desks[i - 1], b, run.events[i - 1])
  }

  /** No admission overlooks more than `unseen`. */
  ghost predicate Overlooks(run: DeskRun, b: Budget, unseen: real)
    requires IsDeskRun(run, b)
  {
    forall i :: 0 <= i < |run.events| ==> Unseen(run.desks[i], b, run.events[i]) <= unseen
  }

  lemma {:induction false} WeightsNonNegative(open: seq<Admission>, rows: seq<Row>, project: string)
    ensures Total(open, Weight(rows, project)) >= 0.0
  {
    if open != [] {
      WeightsNonNegative(open[1..], rows, project);
    }
  }

  lemma WithinStep(d: Desk, b: Budget, event: Event, unseen: real, regained: real)
    requires Good(d, b) && CanHappen(d, b, event) && Within(d, b, unseen, regained)
    requires Unseen(d, b, event) <= unseen && regained >= 0.0
    ensures Within(After(d, b, event), b, unseen, regained + RegainedIn(d, b, event)) && RegainedIn(d, b, event) >= 0.0
  {
    match event
    case Admit(_, _, _, _) => AdmitStep(d, b, event, unseen, regained);
    case Abandon(k) => AbandonStep(d, b, k, unseen, regained);
    case Land(k, step) =>
      if step.Enqueue? {
        LandNew(d, b, k, step, unseen, regained);
      } else {
        LandUpdate(d, b, k, step, unseen, regained);
      }
    case Other(step) => OtherStep(d, b, step, unseen, regained);
  }

  /** On every run in which admissions and enqueues interleave in any way, the committed estimate of a project together
      with what its outstanding requests may still add exceeds the ceiling by at most what a single admission overlooked
      and what was brought back. */
  lemma {:induction false} CeilingHoldsUpToRaces(run: DeskRun, b: Budget, unseen: real, i: nat)
    requires IsDeskRun(run, b) && Overlooks(run, b, unseen) && b.ceiling >= 0.0 && unseen >= 0.0 && i < |run.desks|
    ensures Good(run.desks[i], b) && Regained(run, b, i) >= 0.0 && Within(run.desks[i], b, unseen, Regained(run, b, i))
    ensures Committed(run.desks[i].sys.rows, b.project) <= b.ceiling + unseen + Regained(run, b, i)
  {
    WeightsNonNegative(run.desks[i].open, run.desks[i].sys.rows, b.project);
    if i > 0 {
      CeilingHoldsUpToRaces(run, b, unseen, i - 1);
      GoodStep(run.desks[i - 1], b, run.events[i - 1]);
      WithinStep(run.desks[i - 1], b, run.events[i - 1], unseen, Regained(run, b, i - 1));
    }
  }

  // ---- A bound in the number of requests and their size ----

  /** At most `k` requests of the project are admitted and not yet enqueued. */
  ghost predicate FewOpen(run: DeskRun, k: nat) { forall i :: 0 <= i < |run.desks| ==> |run.desks[i].open| <= k }

  /** Whatever is asked for, or linked to the project, is estimated at no more than `c`. */
  predicate IsSmall(event: Event, b: Budget, c: real) {
    (event.Admit? ==> event.est <= c)
        && (event.Other? && event.step.Link? && event.step.project == b.project ==> event.step.est <= c)
  }

  ghost predicate SmallRequests(run: DeskRun, b: Budget, c: real) {
    forall i :: 0 <= i < |run.events| ==> IsSmall(run.events[i], b, c)
  }

  ghost predicate AtMost(d: Desk, b: Budget, c: real) {
    && (forall r :: 0 <= r < |d.sys.rows| && d.sys.rows[r].project == b.project ==> d.sys.rows[r].est <= c)
    && (forall i :: 0 <= i < |d.open| ==> d.open[i].est <= c)
  }

  lemma AtMostStep(d: Desk, b: Budget, event: Event, c: real)
    requires WellFormed(d.sys) && CanHappen(d, b, event) && AtMost(d, b, c) && IsSmall(event, b, c)
    ensures AtMost(After(d, b, event), b, c)
  {
    if event.Land? || event.Other? {
      RowsAtMost(d, b, event, c);
    }
  }

  lemma RowsAtMost(d: Desk, b: Budget, event: Event, c: real)
    requires WellFormed(d.sys) && CanHappen(d, b, event) && AtMost(d, b, c) && IsSmall(event, b, c)
    requires event.Land? || event.Other?
    ensures var rows := Next(d.sys, event.step).rows;
            forall r :: 0 <= r < |rows| && rows[r].project == b.project ==> rows[r].est <= c
  {
    var rows := Next(d.sys, event.step).rows;
    forall r | 0 <= r < |rows| && rows[r].project == b.project ensures rows[r].est <= c {
      if r < |d.sys.rows| { RowFrame(d.sys, event.step, r); }
    }
  }

  /** `n` times `c`. */
  function Times(n: nat, c: real): real { if n == 0 then 0.0 else Times(n - 1, c) + c }

  lemma {:induction false} TimesMonotone(m: nat, n: nat, c: real)
    requires m <= n && c >= 0.0
    ensures Times(m, c) <= Times(n, c) == n as real * c
    decreases n
  {
    if m < n { TimesMonotone(m, n - 1, c); } else if n > 0 { TimesMonotone(n - 1, n - 1, c); }
  }

  /** Outstanding requests add at most their number times `c`, also together with a record one of them has subtracted.
      */
  lemma {:induction false} WeightsAtMost(open: seq<Admission>, rows: seq<Row>, project: string, c: real, x: Option<nat>)
    requires c >= 0.0 && Contribution(rows, project, x) <= c
    requires forall i :: 0 <= i < |open| ==> 0.0 <= open[i].est <= c
    requires forall r :: 0 <= r < |rows| && rows[r].project == project ==> rows[r].est >= 0.0
    ensures var sum := Total(open, Weight(rows, project));
            && sum <= Times(|open|, c)
            && (IsTaken(open, x) ==> sum + Contribution(rows, project, x) <= Times(|open|, c))
  {
    if open != [] {
      var rest := open[1..];
      WeightsAtMost(rest, rows, project, c, x);
      if IsTaken(open, x) && open[0].target != x {
        var i :| 0 <= i < |open| && open[i].target == x;
        assert rest[i - 1].target == x;
      }
    }
  }

  lemma {:induction false} AtMostAlways(run: DeskRun, b: Budget, c: real, i: nat)
    requires IsDeskRun(run, b) && SmallRequests(run, b, c) && i < |run.desks|
    ensures AtMost(run.desks[i], b, c)
  {
    if i > 0 {
      AtMostAlways(run, b, c, i - 1);
      AtMostStep(run.desks[i - 1], b, run.events[i - 1], c);
    }
  }

  /** An admission overlooks at most the requests outstanding before it. */
  lemma OverlooksFew(d: Desk, b: Budget, event: Event, k: nat, c: real)
    requires Good(d, b) && CanHappen(d, b, event) && AtMost(d, b, c) && c >= 0.0
    requires event.Admit? ==> |d.open| <= k
    ensures Unseen(d, b, event) <= Times(k, c)
  {
    TimesMonotone(0, k, c);
    if event.Admit? {
      WeightsAtMost(d.open, d.sys.rows, b.project, c, event.existing);
      TimesMonotone(|d.open|, k, c);
    }
  }

  lemma {:induction false} GoodAlways(run: DeskRun, b: Budget, i: nat)
    requires IsDeskRun(run, b) && i < |run.desks|
    ensures Good(run.desks[i], b)
  {
    if i > 0 {
      GoodAlways(run, b, i - 1);
      GoodStep(run.desks[i - 1], b, run.events[i - 1]);
    }
  }

  lemma FewOverlooked(run: DeskRun, b: Budget, k: nat, c: real)
    requires IsDeskRun(run, b) && FewOpen(run, k) && SmallRequests(run, b, c) && k > 0 && c >= 0.0
    ensures Overlooks(run, b, Times(k - 1, c))
  {
    forall j | 0 <= j < |run.events| ensures Unseen(run.desks[j], b, run.events[j]) <= Times(k - 1, c) {
      GoodAlways(run, b, j);
      AtMostAlways(run, b, c, j);
      assert |run.desks[j + 1].open| <= k;
      OverlooksFew(run.desks[j], b, run.events[j], k - 1, c);
    }
  }

  /** With at most K requests outstanding at a time, each for at most C, the ceiling is exceeded by at most (K - 1) * C
      and what was brought back. With one at a time, races add nothing. */
  lemma CeilingHoldsForFew(run: DeskRun, b: Budget, k: nat, c: real, i: nat)
    requires IsDeskRun(run, b) && b.ceiling >= 0.0 && i < |run.desks|
    requires FewOpen(run, k) && SmallRequests(run, b, c) && k > 0 && c >= 0.0
    ensures Committed(run.desks[i].sys.rows, b.project) <= b.ceiling + Times(k - 1, c) + Regained(run, b, i)
  {
    FewOverlooked(run, b, k, c);
    TimesMonotone(0, k - 1, c);
    CeilingHoldsUpToRaces(run, b, Times(k - 1, c), i);
  }

  // ---- The bound is attained ----

  function LastDesk(run: DeskRun): Desk
    requires |run.desks| > 0
  {
    run.desks[|run.desks| - 1]
  }

  /** A run whose admissions overlook at most `unseen`, and that brings back `regained`. */
  ghost predicate Traces(run: DeskRun, b: Budget, unseen: real, regained: real) {
    IsDeskRun(run, b) && Overlooks(run, b, unseen) && Regained(run, b, |run.events|) == regained
  }

  /** A desk, and what was brought back so far. */
  datatype Traced = Traced(desk: Desk, regained: real)

  /** The project, what admissions may overlook, and the settings. */
  datatype Stage = Stage(b: Budget, unseen: real, settings: Settings)

  ghost predicate MovesBy(e: Stage, s: Traced, event: Event, t: Traced) {
    && WellFormed(s.desk.sys) && CanHappen(s.desk, e.b, event) && Unseen(s.desk, e.b, event) <= e.unseen
    && t == Traced(After(s.desk, e.b, event), s.regained + RegainedIn(s.desk, e.b, event))
    && WellFormed(t.desk.sys)
  }

  ghost predicate Moves(e: Stage, s: Traced, t: Traced) { exists event :: MovesBy(e, s, event, t) }

  ghost function MovesOf(e: Stage): (Traced, Traced) -> bool { (s, t) => Moves(e, s, t) }

  function Empty(e: Stage): Traced {
    Traced(Desk(System(0, [], [], map[], {}, map[], map[], e.settings), []), 0.0)
  }

  ghost predicate Reached(e: Stage, n: nat, s: Traced) { Reaches(Empty(e), MovesOf(e), n, s) }

  lemma Then(e: Stage, n: nat, s: Traced, event: Event, t: Traced)
    requires Reached(e, n, s) && MovesBy(e, s, event, t)
    ensures Reached(e, n + 1, t)
  {
    assert MovesOf(e)(s, t);
    OneMove(Empty(e), MovesOf(e), n, s, t);
  }

  lemma {:induction false} ReachedIsARun(e: Stage, n: nat, s: Traced) returns (run: DeskRun)
    requires Reached(e, n, s)
    ensures Traces(run, e.b, e.unseen, s.regained) && LastDesk(run) == s.desk
  {
    if n == 0 {
      run := DeskRun([s.desk], []);
    } else {
      var before := LastMove(Empty(e), MovesOf(e), n, s);
      var event :| MovesBy(e, before, event, s);
      run := ReachedIsARun(e, n - 1, before);
      run := OneEvent(run, e, before, event, s);
    }
  }

  lemma OneEvent(run: DeskRun, e: Stage, s: Traced, event: Event, t: Traced) returns (longer: DeskRun)
    requires Traces(run, e.b, e.unseen, s.regained) && LastDesk(run) == s.desk && MovesBy(e, s, event, t)
    ensures Traces(longer, e.b, e.unseen, t.regained) && LastDesk(longer) == t.desk
  {
    longer := DeskRun(run.desks + [t.desk], run.events + [event]);
    SameRegained(run, longer, e.b, |run.events|);
  }

  lemma {:induction false} SameRegained(run: DeskRun, longer: DeskRun, b: Budget, i: nat)
    requires IsDeskRun(run, b) && IsDeskRun(longer, b) && run.desks <= longer.desks && run.events <= longer.events
             && i < |run.desks|
    ensures Regained(longer, b, i) == Regained(run, b, i)
  {
    if i > 0 {
      SameRegained(run, longer, b, i - 1);
      assert run.desks[i - 1] == longer.desks[i - 1] && run.events[i - 1] == longer.events[i - 1];
    }
  }

  // ---- Two requests for the whole ceiling ----

  type Workers = map<WorkerId, Worker>

  type Requests = map<RequestId, RequestState>

  const BOTH: Requests := map[1 := Approved, 2 := Approved]

  /** The desk at the first instant, with nothing brought back. */
  function At(e: Stage, requests: Requests, rows: seq<Row>, tallies: seq<Tally>, workers: Workers,
              open: seq<Admission>): Traced {
    Traced(Desk(System(0, rows, tallies, workers, {}, requests, map[], e.settings), open), 0.0)
  }

  const FIRST: Requests := map[1 := Approved]

  lemma FirstSubmitted(e: Stage) returns (n: nat)
    requires e.b.ceiling > 0.0 && e.unseen >= 0.0
    ensures Reached(e, n, At(e, FIRST, [], [], map[], []))
  {
    n := 0;
    Then(e, n, At(e, map[], [], [], map[], []), Other(Submit(1, Approved)), At(e, FIRST, [], [], map[], []));
    n := n + 1;
  }

  lemma BothSubmitted(e: Stage) returns (n: nat)
    requires e.b.ceiling > 0.0 && e.unseen >= 0.0
    ensures Reached(e, n, At(e, BOTH, [], [], map[], []))
  {
    n := FirstSubmitted(e);
    Then(e, n, At(e, FIRST, [], [], map[], []), Other(Submit(2, Approved)), At(e, BOTH, [], [], map[], []));
    n := n + 1;
  }

  function Asks(e: Stage, q: RequestId): Admission { Admission(q, e.b.ceiling, None) }

  function Asked(e: Stage, q: RequestId): Row {
    NewRow(e.b.project, "s", if q == 1 then "a" else "b", "", e.b.ceiling, q, 0)
  }

  const ONCE := Tally(1, 0, 0, 0, 0)

  lemma CommittedByOne(rows: seq<Row>, row: Row, project: string)
    ensures Committed([], project) == 0.0 && Committed([row], project) == Commitment(project)(row)
    ensures Committed(rows + [row], project) == Committed(rows, project) + Commitment(project)(row)
  {
    TotalAppend([], row, Commitment(project));
    TotalAppend(rows, row, Commitment(project));
    assert [] + [row] == [row];
  }

  lemma OutstandingOfOne(e: Stage, rows: seq<Row>, q: RequestId)
    requires e.b.ceiling > 0.0
    ensures Total([], Weight(rows, e.b.project)) == 0.0
    ensures Total([Asks(e, q)], Weight(rows, e.b.project)) == e.b.ceiling
  {
    TotalAppend([], Asks(e, q), Weight(rows, e.b.project));
    assert [] + [Asks(e, q)] == [Asks(e, q)];
  }

  /** A request for the whole ceiling is admitted while nothing is committed. */
  lemma Admits(e: Stage, n: nat, s: Traced, q: RequestId, t: Traced)
    requires Reached(e, n, s) && WellFormed(s.desk.sys) && e.b.ceiling > 0.0
    requires Committed(s.desk.sys.rows, e.b.project) == 0.0 && Outstanding(s.desk, e.b) <= e.unseen
    requires t == s.(desk := s.desk.(open := s.desk.open + [Asks(e, q)]))
    ensures Reached(e, n + 1, t)
  {
    Then(e, n, s, Admit(q, e.b.ceiling, None, 0.0), t);
  }

  /** An admitted request is enqueued as a new row. */
  lemma LandsNew(e: Stage, n: nat, requests: Requests, rows: seq<Row>, tallies: seq<Tally>, open: seq<Admission>,
                 q: RequestId, t: Traced)
    requires |rows| == |tallies| && q in requests && e.unseen >= 0.0
    requires Reached(e, n, At(e, requests, rows, tallies, map[], [Asks(e, q)] + open))
    requires t == At(e, requests, rows + [Asked(e, q)], tallies + [ONCE], map[], open)
    ensures Reached(e, n + 1, t)
  {
    var d := At(e, requests, rows, tallies, map[], [Asks(e, q)] + open);
    assert d.desk.open[..0] + d.desk.open[1..] == open;
    Then(e, n, d, Land(0, Enqueue(e.b.project, "s", Asked(e, q).name, "", e.b.ceiling, q)), t);
  }

  lemma BothAdmitted(e: Stage) returns (n: nat)
    requires e.unseen == e.b.ceiling > 0.0
    ensures Reached(e, n, At(e, BOTH, [], [], map[], [Asks(e, 1), Asks(e, 2)]))
  {
    n := BothSubmitted(e);
    OutstandingOfOne(e, [], 1);
    assert [] + [Asks(e, 1)] == [Asks(e, 1)] && [Asks(e, 1)] + [Asks(e, 2)] == [Asks(e, 1), Asks(e, 2)];
    Admits(e, n, At(e, BOTH, [], [], map[], []), 1, At(e, BOTH, [], [], map[], [Asks(e, 1)]));
    Admits(e, n + 1, At(e, BOTH, [], [], map[], [Asks(e, 1)]), 2, At(e, BOTH, [], [], map[], [Asks(e, 1), Asks(e, 2)]));
    n := n + 2;
  }

  lemma BothLanded(e: Stage) returns (n: nat)
    requires e.unseen == e.b.ceiling > 0.0
    ensures Reached(e, n, At(e, BOTH, [Asked(e, 1), Asked(e, 2)], [ONCE, ONCE], map[], []))
  {
    n := BothAdmitted(e);
    assert [Asks(e, 1)] + [Asks(e, 2)] == [Asks(e, 1), Asks(e, 2)] && [Asks(e, 2)] + [] == [Asks(e, 2)];
    assert [] + [Asked(e, 1)] == [Asked(e, 1)] && [Asked(e, 1)] + [Asked(e, 2)] == [Asked(e, 1), Asked(e, 2)];
    assert [] + [ONCE] == [ONCE] && [ONCE] + [ONCE] == [ONCE, ONCE];
    LandsNew(e, n, BOTH, [], [], [Asks(e, 2)], 1, At(e, BOTH, [Asked(e, 1)], [ONCE], map[], [Asks(e, 2)]));
    LandsNew(e, n + 1, BOTH, [Asked(e, 1)], [ONCE], [], 2,
             At(e, BOTH, [Asked(e, 1), Asked(e, 2)], [ONCE, ONCE], map[], []));
    n := n + 2;
  }

  /** Two requests that are admitted before either is enqueued take the commitment to twice the ceiling, which is what
      the second admission overlooked: the bound above is attained. */
  lemma TwoRequestsExceed(b: Budget, settings: Settings) returns (run: DeskRun)
    requires b.ceiling > 0.0
    ensures Traces(run, b, b.ceiling, 0.0) && LastDesk(run).open == []
    ensures Committed(LastDesk(run).sys.rows, b.project) == b.ceiling + b.ceiling
  {
    var e := Stage(b, b.ceiling, settings);
    var n := BothLanded(e);
    run := ReachedIsARun(e, n, At(e, BOTH, [Asked(e, 1), Asked(e, 2)], [ONCE, ONCE], map[], []));
    CommittedByOne([Asked(e, 1)], Asked(e, 2), b.project);
    CommittedByOne([], Asked(e, 1), b.project);
    assert [Asked(e, 1)] + [Asked(e, 2)] == [Asked(e, 1), Asked(e, 2)];
  }

  // ---- Suspended, replaced and resumed ----

  /** A cascade marks the first row; only a mark that takes it back among the committed ones brings its estimate back.
      */
  lemma Marks(e: Stage, n: nat, requests: Requests, rows: seq<Row>, tallies: seq<Tally>, mark: RowState, t: Traced)
    requires |rows| == |tallies| > 0 && e.unseen >= 0.0 && rows[0].project == e.b.project
    requires Reached(e, n, At(e, requests, rows, tallies, map[], []))
    requires var marked := WithState(rows[0], mark, 0);
             t == At(e, requests, rows[0 := marked], tallies[0 := Armed(tallies[0])], map[], [])
                  .(regained := if !IsActive(rows[0]) && IsActive(marked) then rows[0].est else 0.0)
    ensures Reached(e, n + 1, t)
  {
    Then(e, n, At(e, requests, rows, tallies, map[], []), Other(Mark(0, mark)), t);
  }

  function Reader(e: Stage): Worker { Worker(0, 7, Asked(e, 1), Fetched) }

  lemma FirstAlone(e: Stage) returns (n: nat)
    requires e.b.ceiling > 0.0 && e.unseen == 0.0
    ensures Reached(e, n, At(e, BOTH, [Asked(e, 1)], [ONCE], map[], []))
  {
    n := BothSubmitted(e);
    OutstandingOfOne(e, [], 1);
    assert [] + [Asks(e, 1)] == [Asks(e, 1)] && [Asks(e, 1)] + [] == [Asks(e, 1)];
    assert [] + [Asked(e, 1)] == [Asked(e, 1)] && [] + [ONCE] == [ONCE];
    Admits(e, n, At(e, BOTH, [], [], map[], []), 1, At(e, BOTH, [], [], map[], [Asks(e, 1)]));
    LandsNew(e, n + 1, BOTH, [], [], [], 1, At(e, BOTH, [Asked(e, 1)], [ONCE], map[], []));
    n := n + 2;
  }

  const CLAIMED := Tally(1, 1, 0, 0, 0)

  function Held(e: Stage): Row { Claimed(Asked(e, 1), 7, 0) }

  lemma FirstRead(e: Stage) returns (n: nat)
    requires e.b.ceiling > 0.0 && e.unseen == 0.0
    ensures Reached(e, n, At(e, BOTH, [Asked(e, 1)], [ONCE], map[1 := Reader(e)], []))
  {
    n := FirstAlone(e);
    Then(e, n, At(e, BOTH, [Asked(e, 1)], [ONCE], map[], []), Other(Fetch(1, 0, 7)),
         At(e, BOTH, [Asked(e, 1)], [ONCE], map[1 := Reader(e)], []));
    n := n + 1;
  }

  function InPhase(e: Stage, phase: Phase): Workers { map[1 := Reader(e).(phase := phase)] }

  lemma FirstDriven(e: Stage) returns (n: nat)
    requires e.b.ceiling > 0.0 && e.unseen == 0.0
    ensures Reached(e, n, At(e, BOTH, [Held(e)], [CLAIMED], InPhase(e, Running), []))
  {
    n := FirstRead(e);
    Then(e, n, At(e, BOTH, [Asked(e, 1)], [ONCE], map[1 := Reader(e)], []), Other(Claim(1, -STALE_SECS)),
         At(e, BOTH, [Held(e)], [CLAIMED], InPhase(e, Running), []));
    n := n + 1;
  }

  const SERVED: Requests := map[1 := Fulfilled, 2 := Approved]

  function LiveRow(e: Stage): Row { Finished(Held(e), Provisioned, "{}", 0) }

  lemma FirstServed(e: Stage) returns (n: nat)
    requires e.b.ceiling > 0.0 && e.unseen == 0.0
    ensures Reached(e, n, At(e, SERVED, [Held(e)], [CLAIMED], InPhase(e, Succeeded("{}")), []))
  {
    n := FirstDriven(e);
    Then(e, n, At(e, BOTH, [Held(e)], [CLAIMED], InPhase(e, Running), []), Other(Succeed(1, "{}")),
         At(e, SERVED, [Held(e)], [CLAIMED], InPhase(e, Succeeded("{}")), []));
    n := n + 1;
  }

  lemma FirstLive(e: Stage) returns (n: nat)
    requires e.b.ceiling > 0.0 && e.unseen == 0.0
    ensures Reached(e, n, At(e, SERVED, [LiveRow(e)], [CLAIMED], map[], []))
  {
    n := FirstServed(e);
    Then(e, n, At(e, SERVED, [Held(e)], [CLAIMED], InPhase(e, Succeeded("{}")), []), Other(Finish(1)),
         At(e, SERVED, [LiveRow(e)], [CLAIMED], map[], []));
    n := n + 1;
  }

  function Resting(e: Stage): Row { LiveRow(e).(state := Suspended) }

  function Moved(times: nat): Tally { Tally(1 + times, 1, 0, 0, 0) }

  lemma FirstSuspended(e: Stage) returns (n: nat)
    requires e.b.ceiling > 0.0 && e.unseen == 0.0
    ensures Reached(e, n, At(e, SERVED, [Resting(e)], [Moved(2)], map[], []))
  {
    n := FirstLive(e);
    var stopping := LiveRow(e).(state := Suspending);
    Marks(e, n, SERVED, [LiveRow(e)], [CLAIMED], Suspending, At(e, SERVED, [stopping], [Moved(1)], map[], []));
    Marks(e, n + 1, SERVED, [stopping], [Moved(1)], Suspended, At(e, SERVED, [Resting(e)], [Moved(2)], map[], []));
    n := n + 2;
  }

  lemma SecondReplaces(e: Stage) returns (n: nat)
    requires e.b.ceiling > 0.0 && e.unseen == 0.0
    ensures Reached(e, n, At(e, SERVED, [Resting(e), Asked(e, 2)], [Moved(2), ONCE], map[], []))
  {
    n := FirstSuspended(e);
    var rows, tallies := [Resting(e)], [Moved(2)];
    OutstandingOfOne(e, rows, 2);
    CommittedByOne([], Resting(e), e.b.project);
    assert [] + [Asks(e, 2)] == [Asks(e, 2)] && [Asks(e, 2)] + [] == [Asks(e, 2)];
    assert rows + [Asked(e, 2)] == [Resting(e), Asked(e, 2)] && tallies + [ONCE] == [Moved(2), ONCE];
    Admits(e, n, At(e, SERVED, rows, tallies, map[], []), 2, At(e, SERVED, rows, tallies, map[], [Asks(e, 2)]));
    LandsNew(e, n + 1, SERVED, rows, tallies, [], 2,
             At(e, SERVED, [Resting(e), Asked(e, 2)], [Moved(2), ONCE], map[], []));
    n := n + 2;
  }

  function BothCommitted(e: Stage): Traced {
    At(e, SERVED, [LiveRow(e), Asked(e, 2)], [Moved(4), ONCE], map[], []).(regained := e.b.ceiling)
  }

  lemma FirstResumed(e: Stage) returns (n: nat)
    requires e.b.ceiling > 0.0 && e.unseen == 0.0
    ensures Reached(e, n, BothCommitted(e))
  {
    n := SecondReplaces(e);
    var starting := LiveRow(e).(state := Resuming);
    Marks(e, n, SERVED, [Resting(e), Asked(e, 2)], [Moved(2), ONCE], Resuming,
          At(e, SERVED, [starting, Asked(e, 2)], [Moved(3), ONCE], map[], []));
    Marks(e, n + 1, SERVED, [starting, Asked(e, 2)], [Moved(3), ONCE], Provisioned, BothCommitted(e));
    n := n + 2;
  }

  /** No race is needed: a live row for the whole ceiling is suspended, a second request for the whole ceiling is
      admitted and enqueued, and the row is resumed. Nothing was overlooked, and twice the ceiling is committed. */
  lemma ResumedExceeds(b: Budget, settings: Settings) returns (run: DeskRun)
    requires b.ceiling > 0.0
    ensures Traces(run, b, 0.0, b.ceiling) && LastDesk(run).open == []
    ensures Committed(LastDesk(run).sys.rows, b.project) == b.ceiling + b.ceiling
  {
    var e := Stage(b, 0.0, settings);
    var n := FirstResumed(e);
    run := ReachedIsARun(e, n, BothCommitted(e));
    CommittedByOne([LiveRow(e)], Asked(e, 2), b.project);
    CommittedByOne([], LiveRow(e), b.project);
    assert [LiveRow(e)] + [Asked(e, 2)] == [LiveRow(e), Asked(e, 2)];
  }
}
