/** The self-service spending ceiling over every run of admitted requests. */
module SelfServiceCeiling {
  import opened Prelude
  import opened ResourceRows
  import opened WorkerProtocol

  /** What a row adds to its project's committed estimate. */
  function Commitment(project: string): Row -> real {
    (row: Row) => if row.project == project && IsActive(row) then row.est else 0.0
  }

  /** The committed infrastructure estimate of a project: in-flight and live rows. */
  function Committed(rows: seq<Row>, project: string): real { Total(rows, Commitment(project)) }

  /** What the sum is, row by row: the estimates of the project's rows in flight and live. */
  lemma CommittedCounts(rows: seq<Row>, row: Row, project: string)
    ensures Committed([], project) == 0.0
    ensures Committed(rows + [row], project)
            == Committed(rows, project)
               + if row.project == project && row.state in {Provisioning, Provisioned} then row.est else 0.0
  {
    TotalAppend(rows, row, Commitment(project));
  }

  /** The admission test: model spend, what is committed and the new estimate, less the estimate the
      request replaces, against the ceiling of the project's classification (none: never self-service). */
  predicate WithinCeiling(modelSpend: real, committed: real, est: real, existingEst: real, ceiling: Option<real>) {
    ceiling.Some? && modelSpend + committed + est - existingEst <= ceiling.value
  }

  /** Admission in the step that writes the row: a new row replaces nothing, an in-place update what its row still
      contributes. */
  ghost predicate Admitted(s: System, step: Step, project: string, modelSpend: real, ceiling: Option<real>)
    requires WellFormed(s) && Enabled(s, step)
  {
    match step
    case Enqueue(p, _, _, _, est, _) =>
      p == project ==> est >= 0.0 && WithinCeiling(modelSpend, Committed(s.rows, project), est, 0.0, ceiling)
    case Reapply(p) =>
      var a := s.pending[p];
      s.rows[a.row].project == project ==>
          a.est >= 0.0 && WithinCeiling(modelSpend, Committed(s.rows, project), a.est,
                                        Commitment(project)(s.rows[a.row]), ceiling)
    case Link(p, _, _, est) => p == project ==> est >= 0.0
    case _ => true
  }

  /** An admitted request is charged exactly what it adds: admission holds iff the commitment it leads to,
      on top of the model spend, is within the ceiling. In particular an update is charged its delta. */
  lemma ChargedExactly(s: System, step: Step, project: string, modelSpend: real, ceiling: real)
    requires WellFormed(s) && Enabled(s, step)
    requires step.Enqueue? || step.Reapply?
    requires step.Enqueue? ==> step.project == project && step.est >= 0.0
    requires step.Reapply? ==> s.rows[s.pending[step.rearm].row].project == project && s.pending[step.rearm].est >= 0.0
    ensures Admitted(s, step, project, modelSpend, Some(ceiling))
            <==> modelSpend + Committed(Next(s, step).rows, project) <= ceiling
  {
    if step.Enqueue? {
      TotalAppend(s.rows, Next(s, step).rows[|s.rows|], Commitment(project));
    } else {
      var r := s.pending[step.rearm].row;
      TotalUpdate(s.rows, r, Next(s, step).rows[r], Commitment(project));
    }
  }

  /** The estimate of a row that a step other than an admission brings back into the committed states. */
  ghost function RevivedBy(s: System, step: Step, project: string): real
    requires WellFormed(s) && Enabled(s, step)
  {
    var w := Written(s, step);
    if w.None? || step.Reapply? || w.value >= |s.rows| then 0.0
    else
      RowFrame(s, step, w.value);
      if IsActive(s.rows[w.value]) then 0.0 else Commitment(project)(Next(s, step).rows[w.value])
  }

  /** Three things revive a row outside the committed states: a manual retry of a failed one, an apply that finishes on
      it, and a cascade that resumes a suspended row or restores one whose teardown failed. */
  lemma RevivalKinds(s: System, step: Step, project: string)
    requires WellFormed(s) && Enabled(s, step) && RevivedBy(s, step, project) != 0.0
    ensures (step.Retry? && s.rows[step.row].state.Failed?)
            || (step.Finish? && ActionFor(s.workers[step.worker].snap.state) == Some(Apply)
                && !IsActive(s.rows[s.workers[step.worker].row]))
            || (step.Mark? && step.mark in {Provisioning, Provisioned} && !IsActive(s.rows[step.row]))
  {
  }

  ghost function Revived(run: Run, project: string, i: nat): real
    requires IsRun(run) && i < |run.states|
  {
    if i == 0 then 0.0 else Revived(run, project, i - 1) + RevivedBy(run.states[i - 1], run.steps[i - 1], project)
  }

  /** Every admission in the run passed the test against the model spend of its moment. */
  ghost predicate SelfService(run: Run, project: string, spend: seq<real>, ceiling: real)
    requires IsRun(run)
  {
    && |spend| == |run.steps|
    && (forall i :: 0 <= i < |run.steps| ==>
        spend[i] >= 0.0 && Admitted(run.states[i], run.steps[i], project, spend[i], Some(ceiling)))
  }

  ghost predicate EstimatesNonNegative(s: System, project: string) {
    forall r :: 0 <= r < |s.rows| && s.rows[r].project == project ==> s.rows[r].est >= 0.0
  }

  lemma EstimateStep(s: System, step: Step, project: string, modelSpend: real, ceiling: real, r: nat)
    requires WellFormed(s) && Enabled(s, step) && Admitted(s, step, project, modelSpend, Some(ceiling))
    requires r < |Next(s, step).rows| && Next(s, step).rows[r].project == project && EstimatesNonNegative(s, project)
    ensures Next(s, step).rows[r].est >= 0.0
  {
    if r < |s.rows| {
      RowFrame(s, step, r);
    }
  }

  lemma UnchangedRows(s: System, step: Step)
    requires WellFormed(s) && Enabled(s, step) && Written(s, step).None? && !step.Enqueue? && !step.Link?
    ensures Next(s, step).rows == s.rows
  {
  }

  lemma AppendedRow(s: System, step: Step)
    requires WellFormed(s) && Enabled(s, step) && (step.Enqueue? || step.Link?)
    ensures |Next(s, step).rows| == |s.rows| + 1 && Next(s, step).rows == s.rows + [Next(s, step).rows[|s.rows|]]
  {
  }

  lemma WrittenRow(s: System, step: Step, r: nat)
    requires WellFormed(s) && Enabled(s, step) && Written(s, step) == Some(r) && r < |s.rows|
    ensures |Next(s, step).rows| == |s.rows| && Next(s, step).rows == s.rows[r := Next(s, step).rows[r]]
    ensures !step.Reapply? ==>
            Next(s, step).rows[r].est == s.rows[r].est && Next(s, step).rows[r].project == s.rows[r].project
  {
  }

  lemma CommittedStep(s: System, step: Step, project: string, modelSpend: real, ceiling: real)
    requires WellFormed(s) && Enabled(s, step) && modelSpend >= 0.0
             && Admitted(s, step, project, modelSpend, Some(ceiling))
    requires EstimatesNonNegative(s, project)
    ensures RevivedBy(s, step, project) >= 0.0
    ensures Committed(Next(s, step).rows, project) <= ceiling
            || Committed(Next(s, step).rows, project) <= Committed(s.rows, project) + RevivedBy(s, step, project)
  {
    var w, rows := Written(s, step), Next(s, step).rows;
    if step.Enqueue? || step.Link? {
      AppendedRow(s, step);
      TotalAppend(s.rows, rows[|s.rows|], Commitment(project));
    } else if w.None? {
      UnchangedRows(s, step);
    } else {
      assert w.value < |s.rows|;
      WrittenRow(s, step, w.value);
      TotalUpdate(s.rows, w.value, rows[w.value], Commitment(project));
    }
  }

  /** On every run of self-service requests, completions, failures, crashes, retries, teardowns and cascades the
      committed estimate of a project exceeds its ceiling by at most the estimates of revived rows. */
  lemma {:induction false} CeilingHolds(run: Run, project: string, spend: seq<real>, ceiling: real, i: nat)
    requires IsRun(run) && SelfService(run, project, spend, ceiling) && ceiling >= 0.0 && i < |run.states|
    ensures Committed(run.states[i].rows, project) <= ceiling + Revived(run, project, i)
    ensures Revived(run, project, i) >= 0.0 && EstimatesNonNegative(run.states[i], project)
  {
    if i > 0 {
      CeilingHolds(run, project, spend, ceiling, i - 1);
      var s, step := run.states[i - 1], run.steps[i - 1];
      assert Admitted(s, step, project, spend[i - 1], Some(ceiling));
      CommittedStep(s, step, project, spend[i - 1], ceiling);
      forall r | 0 <= r < |Next(s, step).rows| && Next(s, step).rows[r].project == project
        ensures Next(s, step).rows[r].est >= 0.0
      {
        EstimateStep(s, step, project, spend[i - 1], ceiling, r);
      }
    }
  }

  /** While nothing has been revived, the committed estimate is within the ceiling. */
  lemma {:induction false} CeilingHoldsUnlessRevived(run: Run, project: string, spend: seq<real>, ceiling: real, i: nat)
    requires IsRun(run) && SelfService(run, project, spend, ceiling) && ceiling >= 0.0 && i < |run.states|
    requires forall k :: 0 <= k < i ==> RevivedBy(run.states[k], run.steps[k], project) == 0.0
    ensures Committed(run.states[i].rows, project) <= ceiling && Revived(run, project, i) == 0.0
  {
    if i > 0 {
      CeilingHoldsUnlessRevived(run, project, spend, ceiling, i - 1);
    }
    CeilingHolds(run, project, spend, ceiling, i);
  }
}
