/** Suspending, resuming and tearing down all resources of a project, one connector call per row. */
module ProjectCascades {
  import opened Prelude
  import opened Listings
  import opened ResourceRows
  import opened ProvisionTable

  datatype Cascade = Suspend | Resume | Teardown

  /** Where a cascade reports a row; rows it passes over are reported nowhere. */
  datatype Report = ReportSuspended | ReportResumed | ReportDestroyed | ReportSkipped | ReportFailed(error: string)
      | NotReported

  /** The names a cascade reports, in the order it went through the rows; failed ones with their error. */
  datatype Summary = Summary(suspended: seq<string>, resumed: seq<string>, destroyed: seq<string>,
                             skipped: seq<string>, failed: seq<(string, string)>)

  type Outcome = Result<bool, string>

  // ---- What each cascade means for one row ----

  /** The state the row ends in: a failed or declined operation leaves the state it had. */
  function Target(cascade: Cascade, state: RowState, outcome: Outcome): RowState {
    match cascade
    case Suspend => if state.Provisioned? && outcome == Ok(true) then Suspended else state
    case Resume => if state.Suspended? && outcome.Ok? then Provisioned else state
    case Teardown => if state.Linked? || outcome.Ok? then Destroyed else state
  }

  function ReportOf(cascade: Cascade, state: RowState, outcome: Outcome): Report {
    match cascade
    case Suspend =>
      if !state.Provisioned? then NotReported
      else if outcome == Ok(true) then ReportSuspended else if outcome.Ok? then ReportSkipped
          else ReportFailed(outcome.error)
    case Resume =>
      if !state.Suspended? then NotReported else if outcome.Ok? then ReportResumed else ReportFailed(outcome.error)
    case Teardown =>
      if state.Destroyed? then NotReported else if state.Linked? || outcome.Ok? then ReportDestroyed
          else ReportFailed(outcome.error)
  }

  // ---- What it means for the table and the summary ----

  /** Equal but for the timestamp. */
  predicate SameButTime(a: Row, b: Row) { a.(updatedAt := b.updatedAt) == b }

  /** Every row of the project is in its target state and otherwise untouched but for its timestamp; all other rows
      are untouched. */
  ghost predicate Moved(before: seq<Row>, after: seq<Row>, project: string, cascade: Cascade, outcome: nat -> Outcome) {
    |after| == |before| && forall r :: 0 <= r < |before| ==>
      if before[r].project == project
      then SameButTime(after[r], before[r].(state := Target(cascade, before[r].state, outcome(r))))
      else after[r] == before[r]
  }

  function Noted(summary: Summary, report: Report, name: string): Summary {
    match report
    case ReportSuspended => summary.(suspended := summary.suspended + [name])
    case ReportResumed => summary.(resumed := summary.resumed + [name])
    case ReportDestroyed => summary.(destroyed := summary.destroyed + [name])
    case ReportSkipped => summary.(skipped := summary.skipped + [name])
    case ReportFailed(error) => summary.(failed := summary.failed + [(name, error)])
    case NotReported => summary
  }

  /** The names of the first `n` listed rows, each under the report its row calls for. */
  function SummaryOf(ids: seq<nat>, n: nat, rows: seq<Row>, cascade: Cascade, outcome: nat -> Outcome): Summary
    requires n <= |ids| && forall i :: 0 <= i < |ids| ==> ids[i] < |rows|
  {
    if n == 0 then Summary([], [], [], [], [])
    else
      var r := ids[n - 1];
      Noted(SummaryOf(ids, n - 1, rows, cascade, outcome), ReportOf(cascade, rows[r].state, outcome(r)), rows[r].name)
  }

  /** The first `i` listed rows are moved, everything else is as it was. */
  ghost predicate Progress(before: seq<Row>, now: seq<Row>, ids: seq<nat>, i: nat, cascade: Cascade,
                           outcome: nat -> Outcome)
    requires i <= |ids|
  {
    |now| == |before| && forall r :: 0 <= r < |before| ==>
      if r in ids[..i] then SameButTime(now[r], before[r].(state := Target(cascade, before[r].state, outcome(r))))
          else now[r] == before[r]
  }

  /** One row is moved, all others are as they were. */
  ghost predicate MovedOne(before: seq<Row>, after: seq<Row>, id: nat, cascade: Cascade, outcome: Outcome) {
    && id < |before| == |after|
    && SameButTime(after[id], before[id].(state := Target(cascade, before[id].state, outcome)))
    && forall r :: 0 <= r < |before| && r != id ==> after[r] == before[r]
  }

  lemma ProgressStep(before: seq<Row>, now: seq<Row>, after: seq<Row>, ids: seq<nat>, i: nat, cascade: Cascade,
                     outcome: nat -> Outcome)
    requires i < |ids| && Distinct(ids) && Progress(before, now, ids, i, cascade, outcome)
    requires MovedOne(now, after, ids[i], cascade, outcome(ids[i]))
    ensures Progress(before, after, ids, i + 1, cascade, outcome)
  {
  }

  /** All rows of the project, newest first. */
  ghost predicate ListsProject(rows: seq<Row>, ids: seq<nat>, project: string) {
    && InOrder(rows, ids, (row: Row) => -row.createdAt)
    && forall q: nat :: q in ids <==> q < |rows| && rows[q].project == project
  }

  /** The effect of a whole cascade over the listed rows: all are moved, and each name is reported once under the
      outcome of its row. */
  ghost predicate Done(before: seq<Row>, after: seq<Row>, ids: seq<nat>, project: string, cascade: Cascade,
                       outcome: nat -> Outcome, summary: Summary) {
    && ListsProject(before, ids, project)
    && Moved(before, after, project, cascade, outcome)
    && summary == SummaryOf(ids, |ids|, before, cascade, outcome)
  }

  lemma ProgressDone(before: seq<Row>, now: seq<Row>, ids: seq<nat>, project: string, cascade: Cascade,
                     outcome: nat -> Outcome)
    requires ListsProject(before, ids, project) && Progress(before, now, ids, |ids|, cascade, outcome)
    ensures Moved(before, now, project, cascade, outcome)
  {
  }

  // ---- The lists of a summary, in the terms of the rows ----

  /** The names of the first `n` listed rows with a property, in order. */
  function NamesWhere(ids: seq<nat>, n: nat, rows: seq<Row>, keep: nat -> bool): seq<string>
    requires n <= |ids| && forall i :: 0 <= i < |ids| ==> ids[i] < |rows|
  {
    if n == 0 then []
    else NamesWhere(ids, n - 1, rows, keep) + if keep(ids[n - 1]) then [rows[ids[n - 1]].name] else []
  }

  /** The names of those with a property, each with the error of its outcome, in order. */
  function FailuresWhere(ids: seq<nat>, n: nat, rows: seq<Row>, keep: nat -> bool,
                         outcome: nat -> Outcome): seq<(string, string)>
    requires n <= |ids| && forall i :: 0 <= i < |ids| ==> ids[i] < |rows|
  {
    if n == 0 then []
    else
      var r := ids[n - 1];
      FailuresWhere(ids, n - 1, rows, keep, outcome)
      + if keep(r) && outcome(r).Err? then [(rows[r].name, outcome(r).error)] else []
  }

  /** How many of the first `n` listed rows have the property and the name. */
  function CountWhere(ids: seq<nat>, n: nat, rows: seq<Row>, keep: nat -> bool, name: string): nat
    requires n <= |ids| && forall i :: 0 <= i < |ids| ==> ids[i] < |rows|
  {
    if n == 0 then 0
    else
      CountWhere(ids, n - 1, rows, keep, name) + if keep(ids[n - 1]) && rows[ids[n - 1]].name == name then 1 else 0
  }

  /** Such a list mentions a name as often as there are listed rows of that name with the property. */
  lemma {:induction false} NamesWhereCounts(ids: seq<nat>, n: nat, rows: seq<Row>, keep: nat -> bool, name: string)
    requires n <= |ids| && forall i :: 0 <= i < |ids| ==> ids[i] < |rows|
    ensures Times(NamesWhere(ids, n, rows, keep), name) == CountWhere(ids, n, rows, keep, name)
  {
    if n > 0 {
      NamesWhereCounts(ids, n - 1, rows, keep, name);
      if keep(ids[n - 1]) {
        TimesAppend(NamesWhere(ids, n - 1, rows, keep), rows[ids[n - 1]].name, name);
      } else {
        assert NamesWhere(ids, n, rows, keep) == NamesWhere(ids, n - 1, rows, keep);
      }
    }
  }

  predicate IsIn(rows: seq<Row>, r: nat, state: RowState) { r < |rows| && rows[r].state == state }

  /** The row was in the state, and its outcome was the given success. */
  function Answered(rows: seq<Row>, state: RowState, outcome: nat -> Outcome, answer: bool): nat -> bool {
    (r: nat) => IsIn(rows, r, state) && outcome(r) == Ok(answer)
  }

  function Succeeded(rows: seq<Row>, state: RowState, outcome: nat -> Outcome): nat -> bool {
    (r: nat) => IsIn(rows, r, state) && outcome(r).Ok?
  }

  function WasIn(rows: seq<Row>, state: RowState): nat -> bool { (r: nat) => IsIn(rows, r, state) }

  function Gone(rows: seq<Row>, destroy: nat -> Outcome): nat -> bool {
    (r: nat) => IsIn(rows, r, Linked) || (!IsIn(rows, r, Destroyed) && destroy(r).Ok?)
  }

  function Managed(rows: seq<Row>): nat -> bool { (r: nat) => !IsIn(rows, r, Linked) && !IsIn(rows, r, Destroyed) }

  /** What a suspension reports: the live rows, by what stopping them answered. */
  ghost predicate ReportsSuspension(ids: seq<nat>, n: nat, rows: seq<Row>, stop: nat -> Outcome, summary: Summary)
    requires n <= |ids| && forall i :: 0 <= i < |ids| ==> ids[i] < |rows|
  {
    && summary.suspended == NamesWhere(ids, n, rows, Answered(rows, Provisioned, stop, true))
    && summary.skipped == NamesWhere(ids, n, rows, Answered(rows, Provisioned, stop, false))
    && summary.failed == FailuresWhere(ids, n, rows, WasIn(rows, Provisioned), stop)
    && summary.resumed == [] && summary.destroyed == []
  }

  /** What a resumption reports: the suspended rows, by whether they resumed. */
  ghost predicate ReportsResumption(ids: seq<nat>, n: nat, rows: seq<Row>, resume: nat -> Outcome, summary: Summary)
    requires n <= |ids| && forall i :: 0 <= i < |ids| ==> ids[i] < |rows|
  {
    && summary.resumed == NamesWhere(ids, n, rows, Succeeded(rows, Suspended, resume))
    && summary.failed == FailuresWhere(ids, n, rows, WasIn(rows, Suspended), resume)
    && summary.suspended == [] && summary.destroyed == [] && summary.skipped == []
  }

  /** What a teardown reports: the rows not destroyed before, linked ones as destroyed whatever a connector would say.
      */
  ghost predicate ReportsTeardown(ids: seq<nat>, n: nat, rows: seq<Row>, destroy: nat -> Outcome, summary: Summary)
    requires n <= |ids| && forall i :: 0 <= i < |ids| ==> ids[i] < |rows|
  {
    && summary.destroyed == NamesWhere(ids, n, rows, Gone(rows, destroy))
    && summary.failed == FailuresWhere(ids, n, rows, Managed(rows), destroy)
    && summary.suspended == [] && summary.resumed == [] && summary.skipped == []
  }

  lemma {:induction false} SuspensionReported(ids: seq<nat>, n: nat, rows: seq<Row>, stop: nat -> Outcome)
    requires n <= |ids| && forall i :: 0 <= i < |ids| ==> ids[i] < |rows|
    ensures ReportsSuspension(ids, n, rows, stop, SummaryOf(ids, n, rows, Suspend, stop))
  {
    if n > 0 {
      SuspensionReported(ids, n - 1, rows, stop);
      var outcome := stop(ids[n - 1]);
      if outcome.Ok? { assert outcome == if outcome.value then Ok(true) else Ok(false); }
    }
  }

  lemma {:induction false} ResumptionReported(ids: seq<nat>, n: nat, rows: seq<Row>, resume: nat -> Outcome)
    requires n <= |ids| && forall i :: 0 <= i < |ids| ==> ids[i] < |rows|
    ensures ReportsResumption(ids, n, rows, resume, SummaryOf(ids, n, rows, Resume, resume))
  {
    if n > 0 { ResumptionReported(ids, n - 1, rows, resume); }
  }

  lemma {:induction false} TeardownReported(ids: seq<nat>, n: nat, rows: seq<Row>, destroy: nat -> Outcome)
    requires n <= |ids| && forall i :: 0 <= i < |ids| ==> ids[i] < |rows|
    ensures ReportsTeardown(ids, n, rows, destroy, SummaryOf(ids, n, rows, Teardown, destroy))
  {
    if n > 0 { TeardownReported(ids, n - 1, rows, destroy); }
  }

  // ---- The cascades ----

  method SuspendRow(repo: ProvisionRepo, id: nat, rec: Row, now: int, stop: nat -> Outcome) returns (report: Report)
    requires id < |repo.rows| && repo.rows[id] == rec
    modifies repo
    ensures MovedOne(old(repo.rows), repo.rows, id, Suspend, stop(id))
    ensures report == ReportOf(Suspend, rec.state, stop(id))
    ensures repo.marked == old(repo.marked)
                           + if !rec.state.Provisioned? then []
                             else [(id, Suspending), (id, if stop(id) == Ok(true) then Suspended else Provisioned)]
  {
    if !rec.state.Provisioned? { return NotReported; }
    repo.MarkState(id, Suspending, now);
    match stop(id) {
      case Ok(true) =>
        repo.MarkState(id, Suspended, now);
        report := ReportSuspended;
      case Ok(false) =>
        repo.MarkState(id, Provisioned, now);
        report := ReportSkipped;
      case Err(e) =>
        repo.MarkState(id, Provisioned, now);
        report := ReportFailed(e);
    }
  }

  method SuspendProject(repo: ProvisionRepo, project: string, now: int, stop: nat -> Outcome)
    returns (summary: Summary, ghost ids: seq<nat>)
    modifies repo
    ensures Done(old(repo.rows), repo.rows, ids, project, Suspend, stop, summary)
    ensures ReportsSuspension(ids, |ids|, old(repo.rows), stop, summary)
  {
    var records := repo.rows;
    var listed := repo.ListByProject(project);
    ids := listed;
    summary := Summary([], [], [], [], []);
    for i := 0 to |listed|
      invariant Progress(records, repo.rows, ids, i, Suspend, stop)
      invariant summary == SummaryOf(ids, i, records, Suspend, stop)
    {
      ghost var current := repo.rows;
      assert listed[i] !in ids[..i];
      var report := SuspendRow(repo, listed[i], records[listed[i]], now, stop);
      ProgressStep(records, current, repo.rows, ids, i, Suspend, stop);
      summary := Noted(summary, report, records[listed[i]].name);
    }
    ProgressDone(records, repo.rows, ids, project, Suspend, stop);
    SuspensionReported(ids, |ids|, records, stop);
  }

  method ResumeRow(repo: ProvisionRepo, id: nat, rec: Row, now: int, resume: nat -> Outcome) returns (report: Report)
    requires id < |repo.rows| && repo.rows[id] == rec
    modifies repo
    ensures MovedOne(old(repo.rows), repo.rows, id, Resume, resume(id))
    ensures report == ReportOf(Resume, rec.state, resume(id))
    ensures repo.marked == old(repo.marked)
                           + if !rec.state.Suspended? then []
                             else [(id, Resuming), (id, if resume(id).Ok? then Provisioned else Suspended)]
  {
    if !rec.state.Suspended? { return NotReported; }
    repo.MarkState(id, Resuming, now);
    match resume(id) {
      case Ok(_) =>
        repo.MarkState(id, Provisioned, now);
        report := ReportResumed;
      case Err(e) =>
        repo.MarkState(id, Suspended, now);
        report := ReportFailed(e);
    }
  }

  method ResumeProject(repo: ProvisionRepo, project: string, now: int, resume: nat -> Outcome)
    returns (summary: Summary, ghost ids: seq<nat>)
    modifies repo
    ensures Done(old(repo.rows), repo.rows, ids, project, Resume, resume, summary)
    ensures ReportsResumption(ids, |ids|, old(repo.rows), resume, summary)
  {
    var records := repo.rows;
    var listed := repo.ListByProject(project);
    ids := listed;
    summary := Summary([], [], [], [], []);
    for i := 0 to |listed|
      invariant Progress(records, repo.rows, ids, i, Resume, resume)
      invariant summary == SummaryOf(ids, i, records, Resume, resume)
    {
      ghost var current := repo.rows;
      assert listed[i] !in ids[..i];
      var report := ResumeRow(repo, listed[i], records[listed[i]], now, resume);
      ProgressStep(records, current, repo.rows, ids, i, Resume, resume);
      summary := Noted(summary, report, records[listed[i]].name);
    }
    ProgressDone(records, repo.rows, ids, project, Resume, resume);
    ResumptionReported(ids, |ids|, records, resume);
  }

  method DestroyRow(repo: ProvisionRepo, id: nat, rec: Row, now: int, destroy: nat -> Outcome) returns (report: Report)
    requires id < |repo.rows| && repo.rows[id] == rec
    modifies repo
    ensures MovedOne(old(repo.rows), repo.rows, id, Teardown, destroy(id))
    ensures report == ReportOf(Teardown, rec.state, destroy(id))
    ensures repo.marked == old(repo.marked)
                           + if rec.state.Destroyed? then [] else if rec.state.Linked? then [(id, Destroyed)]
                             else [(id, Destroying), (id, if destroy(id).Ok? then Destroyed else rec.state)]
  {
    var prior := rec.state;
    if prior.Destroyed? { return NotReported; }
    if prior.Linked? {
      repo.MarkState(id, Destroyed, now);
      return ReportDestroyed;
    }
    repo.MarkState(id, Destroying, now);
    match destroy(id) {
      case Ok(_) =>
        repo.MarkState(id, Destroyed, now);
        report := ReportDestroyed;
      case Err(e) =>
        repo.MarkState(id, prior, now);
        report := ReportFailed(e);
    }
  }

  method DestroyProjectResources(repo: ProvisionRepo, project: string, now: int, destroy: nat -> Outcome)
    returns (summary: Summary, ghost ids: seq<nat>)
    modifies repo
    ensures Done(old(repo.rows), repo.rows, ids, project, Teardown, destroy, summary)
    ensures ReportsTeardown(ids, |ids|, old(repo.rows), destroy, summary)
  {
    var records := repo.rows;
    var listed := repo.ListByProject(project);
    ids := listed;
    summary := Summary([], [], [], [], []);
    for i := 0 to |listed|
      invariant Progress(records, repo.rows, ids, i, Teardown, destroy)
      invariant summary == SummaryOf(ids, i, records, Teardown, destroy)
    {
      ghost var current := repo.rows;
      assert listed[i] !in ids[..i];
      var report := DestroyRow(repo, listed[i], records[listed[i]], now, destroy);
      ProgressStep(records, current, repo.rows, ids, i, Teardown, destroy);
      summary := Noted(summary, report, records[listed[i]].name);
    }
    ProgressDone(records, repo.rows, ids, project, Teardown, destroy);
    TeardownReported(ids, |ids|, records, destroy);
  }

  // ---- What the design promises about them ----

  /** The rows a cascade acts on at all. */
  predicate Concerned(cascade: Cascade, state: RowState) {
    match cascade
    case Suspend => state.Provisioned?
    case Resume => state.Suspended?
    case Teardown => !state.Destroyed?
  }

  /** How often a name occurs among the first `n` listed rows that the cascade acts on. */
  function Concerns(ids: seq<nat>, n: nat, rows: seq<Row>, cascade: Cascade, name: string): nat
    requires n <= |ids| && forall i :: 0 <= i < |ids| ==> ids[i] < |rows|
  {
    if n == 0 then 0 else Concerns(ids, n - 1, rows, cascade, name) + Concern(rows[ids[n - 1]], cascade, name)
  }

  function Concern(row: Row, cascade: Cascade, name: string): nat {
    if Concerned(cascade, row.state) && row.name == name then 1 else 0
  }

  function Times(names: seq<string>, name: string): nat { multiset(names)[name] }

  lemma TimesAppend(names: seq<string>, x: string, name: string)
    ensures Times(names + [x], name) == Times(names, name) + if x == name then 1 else 0
  {
  }

  function NamesOf(failures: seq<(string, string)>): seq<string> {
    seq(|failures|, i requires 0 <= i < |failures| => failures[i].0)
  }

  lemma NamesAppend(failures: seq<(string, string)>, name: string, error: string)
    ensures NamesOf(failures + [(name, error)]) == NamesOf(failures) + [name]
  {
  }

  /** How often a summary mentions a name, over all its lists. */
  function Mentions(s: Summary, name: string): nat {
    Times(s.suspended, name) + Times(s.resumed, name) + Times(s.destroyed, name) + Times(s.skipped, name)
        + Times(NamesOf(s.failed), name)
  }

  lemma NotedOnce(s: Summary, report: Report, x: string, name: string)
    ensures Mentions(Noted(s, report, x), name) == Mentions(s, name) + if report.NotReported? || x != name then 0 else 1
  {
    match report
    case ReportSuspended => TimesAppend(s.suspended, x, name);
    case ReportResumed => TimesAppend(s.resumed, x, name);
    case ReportDestroyed => TimesAppend(s.destroyed, x, name);
    case ReportSkipped => TimesAppend(s.skipped, x, name);
    case ReportFailed(error) =>
      NamesAppend(s.failed, x, error);
      TimesAppend(NamesOf(s.failed), x, name);
    case NotReported =>
  }

  lemma ReportedStep(s: Summary, row: Row, cascade: Cascade, outcome: Outcome, name: string)
    ensures Mentions(Noted(s, ReportOf(cascade, row.state, outcome), row.name), name)
            == Mentions(s, name) + Concern(row, cascade, name)
  {
    NotedOnce(s, ReportOf(cascade, row.state, outcome), row.name, name);
  }

  /** A cascade reports every row it acts on exactly once, in exactly one of its lists, and no other row. */
  lemma {:induction false} ReportedOnce(ids: seq<nat>, n: nat, rows: seq<Row>, cascade: Cascade,
                                        outcome: nat -> Outcome, name: string)
    requires n <= |ids| && forall i :: 0 <= i < |ids| ==> ids[i] < |rows|
    ensures Mentions(SummaryOf(ids, n, rows, cascade, outcome), name) == Concerns(ids, n, rows, cascade, name)
  {
    if n > 0 {
      var r := ids[n - 1];
      ReportedOnce(ids, n - 1, rows, cascade, outcome, name);
      ReportedStep(SummaryOf(ids, n - 1, rows, cascade, outcome), rows[r], cascade, outcome(r), name);
    }
  }

  /** Suspending never leaves a row in between: no row that was not already in `Suspending` is in it afterwards,
      failures and declines are restored, and each live row of the project is reported exactly once. */
  lemma SuspendSettles(before: seq<Row>, after: seq<Row>, project: string, stop: nat -> Outcome, r: nat)
    requires Moved(before, after, project, Suspend, stop) && r < |before|
    ensures after[r].state.Suspending? ==> before[r].state.Suspending?
    ensures before[r].state.Provisioned? && before[r].project == project ==>
              (stop(r) == Ok(true) <==> after[r].state.Suspended?)
                  && (stop(r) != Ok(true) <==> after[r].state.Provisioned?)
    ensures before[r].project != project || !before[r].state.Provisioned? ==> after[r].state == before[r].state
    ensures before[r].project == project ==>
            (ReportOf(Suspend, before[r].state, stop(r)).NotReported? <==> !before[r].state.Provisioned?)
  {
  }

  /** Resuming leaves no row in between: a suspended row of the project is live afterwards if and only if it resumed,
      and every other row is in the state it had. */
  lemma ResumeSettles(before: seq<Row>, after: seq<Row>, project: string, resume: nat -> Outcome, r: nat)
    requires Moved(before, after, project, Resume, resume) && r < |before|
    ensures after[r].state == if before[r].project == project && before[r].state.Suspended? && resume(r).Ok?
                              then Provisioned else before[r].state
  {
  }

  /** Suspend then resume gives every row its state back exactly when every row the suspension stopped resumes, and no
      row of the project that was already suspended does. */
  lemma SuspendThenResume(before: seq<Row>, mid: seq<Row>, after: seq<Row>, project: string, stop: nat -> Outcome,
                          resume: nat -> Outcome)
    requires Moved(before, mid, project, Suspend, stop) && Moved(mid, after, project, Resume, resume)
    ensures (forall r :: 0 <= r < |before| ==> after[r].state == before[r].state)
            <==> (forall r :: 0 <= r < |before| && before[r].project == project ==>
                    && (before[r].state.Provisioned? && stop(r) == Ok(true) ==> resume(r).Ok?)
                    && (before[r].state.Suspended? ==> resume(r).Err?))
  {
  }

  /** A row whose teardown fails keeps its prior state; a row whose teardown succeeds, or that was only linked, ends
      destroyed, and nothing is reported twice. */
  lemma TeardownRestores(before: seq<Row>, after: seq<Row>, project: string, destroy: nat -> Outcome, r: nat)
    requires Moved(before, after, project, Teardown, destroy) && r < |before| && before[r].project == project
    ensures !before[r].state.Linked? && destroy(r).Err? ==> after[r].state == before[r].state
    ensures after[r].state.Destroyed? <==> before[r].state in {Destroyed, Linked} || destroy(r).Ok?
  {
  }
}
