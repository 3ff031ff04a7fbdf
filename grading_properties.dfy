/**
 * What the grading task guarantees about the database it leaves: the
 * tables stay consistent (run ids are positions, every result row belongs
 * to a run and is unique per run and case, a submission's latest run is its
 * own), a graded submission's scores add up, and the two status defects of
 * the task as written next to the corrected task.
 */
module GradingProperties {
  import opened Wrappers
  import opened Json
  import opened Models
  import opened Grading

  // ---------------------------------------------------------------------
  // Consistency of the tables
  // ---------------------------------------------------------------------

  /** A run's id is its position: ids are assigned in insertion order. */
  ghost predicate RunsIndexed(runs: seq<GradingRun>) {
    forall i :: 0 <= i < |runs| ==> runs[i].id == i
  }

  /** Every result row refers to one of the first `n` runs (the foreign key on `grading_run_id`). */
  ghost predicate RowsInRuns(rows: seq<TestCaseResult>, n: int) {
    forall i :: 0 <= i < |rows| ==> 0 <= rows[i].gradingRunId < n
  }

  /** A submission's latest run exists and belongs to that submission. */
  ghost predicate LinksValid(submissions: map<int, Submission>, runs: seq<GradingRun>) {
    forall sid :: sid in submissions && submissions[sid].latestGradingRunId.Some? ==>
      0 <= submissions[sid].latestGradingRunId.value < |runs|
      && runs[submissions[sid].latestGradingRunId.value].submissionId == sid
  }

  /** IO case ids are primary keys: distinct within an assignment's cases. */
  ghost predicate CaseIdsDistinct(cases: seq<IOTestCase>) {
    forall i, j :: 0 <= i < j < |cases| ==> cases[i].id != cases[j].id
  }

  /**
   * The invariant of the tables: run ids are positions, result rows belong
   * to runs and are unique per run and case, latest-run links are valid,
   * each assignment's cases are its own, held in query order, and each
   * assignment has at most one unit-test spec, stored under its id.
   */
  ghost predicate Consistent(db: Db) {
    && RunsIndexed(db.runs)
    && RowsInRuns(db.results, |db.runs|)
    && ResultsUnique(db.results)
    && LinksValid(db.submissions, db.runs)
    && (forall aid :: aid in db.cases ==> CaseIdsDistinct(db.cases[aid]))
    && (forall aid :: aid in db.cases ==> CasesInQueryOrder(db.cases[aid], aid))
    && UnitSpecsKeyed(db.unitSpecs)
  }

  /** Rows of run `runId` that name distinct cases. */
  ghost predicate FreshRows(rows: seq<TestCaseResult>, runId: int) {
    && (forall i :: 0 <= i < |rows| ==> rows[i].gradingRunId == runId)
    && (forall i, j :: 0 <= i < j < |rows| ==> rows[i].ioTestCaseId != rows[j].ioTestCaseId)
  }

  /** The rows the IO loop added all belong to the run and name distinct cases. */
  lemma IoRowsFresh(runId: int, cases: seq<IOTestCase>, grades: seq<Result<CaseGrade, string>>)
    requires |cases| == |grades| && CaseIdsDistinct(cases)
    ensures FreshRows(IoPassOf(runId, cases, grades, |cases|).tally.rows, runId)
  {
    IoRowsFollowCases(runId, cases, grades, |cases|);
  }

  /** Rows of a new run, naming distinct cases, keep the result rows unique and attached to runs. */
  lemma AppendFreshRows(results: seq<TestCaseResult>, rows: seq<TestCaseResult>, n: int)
    requires n >= 0 && RowsInRuns(results, n) && ResultsUnique(results)
    requires FreshRows(rows, n)
    ensures RowsInRuns(results + rows, n + 1) && ResultsUnique(results + rows)
  {
    var all := results + rows;
    forall i | 0 <= i < |all| ensures 0 <= all[i].gradingRunId < n + 1 {
      if i < |results| { assert all[i] == results[i]; } else { assert all[i] == rows[i - |results|]; }
    }
    forall i, j | 0 <= i < j < |all|
      ensures (all[i].gradingRunId, all[i].ioTestCaseId) != (all[j].gradingRunId, all[j].ioTestCaseId)
    {
      if j < |results| {
        assert all[i] == results[i] && all[j] == results[j];
      } else if i < |results| {
        assert all[i].gradingRunId < n == all[j].gradingRunId;
      } else {
        assert all[i] == rows[i - |results|] && all[j] == rows[j - |results|];
      }
    }
  }

  /**
   * Creating a run for a submission, linking it, and adding that run's rows
   * keeps the tables consistent, whatever status the submission and the run
   * end in.
   */
  lemma NewRunConsistent(db: Db, sid: int, sub: Submission, run: GradingRun, rows: seq<TestCaseResult>)
    requires Consistent(db) && sub.latestGradingRunId == Some(|db.runs|)
    requires run.id == |db.runs| && run.submissionId == sid
    requires FreshRows(rows, |db.runs|)
    ensures Consistent(db.(submissions := db.submissions[sid := sub], runs := db.runs + [run],
                           results := db.results + rows))
  {
    var runs := db.runs + [run];
    var subs := db.submissions[sid := sub];
    AppendFreshRows(db.results, rows, |db.runs|);
    assert RunsIndexed(runs) by {
      forall i | 0 <= i < |runs| ensures runs[i].id == i {
        if i < |db.runs| { assert runs[i] == db.runs[i]; }
      }
    }
    assert LinksValid(subs, runs) by {
      forall s | s in subs && subs[s].latestGradingRunId.Some?
        ensures 0 <= subs[s].latestGradingRunId.value < |runs|
                && runs[subs[s].latestGradingRunId.value].submissionId == s
      {
        if s != sid {
          var k := db.submissions[s].latestGradingRunId.value;
          assert runs[k] == db.runs[k];
        }
      }
    }
  }

  /** Failing a submission without touching its run link keeps the tables consistent. */
  lemma FailSubmissionConsistent(db: Db, sid: int)
    requires Consistent(db) && sid in db.submissions
    ensures Consistent(db.(submissions := db.submissions[sid := db.submissions[sid].(status := Failed)]))
  {
    var subs := db.submissions[sid := db.submissions[sid].(status := Failed)];
    assert LinksValid(subs, db.runs) by {
      forall s | s in subs && subs[s].latestGradingRunId.Some?
        ensures 0 <= subs[s].latestGradingRunId.value < |db.runs|
                && db.runs[subs[s].latestGradingRunId.value].submissionId == s
      {
        assert subs[s].latestGradingRunId == db.submissions[s].latestGradingRunId;
      }
    }
  }

  /**
   * Grading keeps the database consistent, as written and corrected, on
   * every path: not found, assignment missing, an exception in the IO loop,
   * or a completed run.
   */
  lemma GradingKeepsConsistent(db: Db, sid: int, io: seq<Outcome>, unit: Outcome, variant: Variant)
    requires Consistent(db) && OutcomesFit(db, sid, io)
    ensures Consistent(GradeWith(db, sid, io, unit, variant).db)
  {
    if sid !in db.submissions {
      return;
    }
    var sub := db.submissions[sid];
    if sub.assignmentId !in db.assignments {
      FailSubmissionConsistent(db, sid);
      return;
    }
    var runId := |db.runs|;
    var cases := CasesOf(db, sub.assignmentId);
    assert CaseIdsDistinct(cases);
    var grades := GradeAll(cases, io);
    var p := IoPassOf(runId, cases, grades, |cases|);
    IoRowsFresh(runId, cases, grades);
    if p.error.Some? {
      AbortedConsistent(db, sid, cases, p, variant);
      assert GradeWith(db, sid, io, unit, variant) == Aborted(db, sid, cases, p, variant);
    } else {
      var spec := UnitSpecOf(db, sub.assignmentId);
      var u := GradeUnit(spec, unit);
      FinishedConsistent(db, sid, cases, p, spec, u, variant);
      assert GradeWith(db, sid, io, unit, variant) == Finished(db, sid, cases, p, spec, u, variant);
    }
  }

  lemma AbortedConsistent(db: Db, sid: int, cases: seq<IOTestCase>, p: IoPass, variant: Variant)
    requires Consistent(db) && sid in db.submissions && p.error.Some? && Sent(p) <= |cases|
    requires FreshRows(p.tally.rows, |db.runs|)
    ensures Consistent(Aborted(db, sid, cases, p, variant).db)
  {
    var runId := |db.runs|;
    var run := NewGradingRun(runId, sid);
    var run' := if variant == Corrected then run.(status := RunFailed) else run;
    var linked := db.submissions[sid].(latestGradingRunId := Some(runId));
    NewRunConsistent(db, sid, linked.(status := Failed), run', p.tally.rows);
  }

  lemma FinishedConsistent(db: Db, sid: int, cases: seq<IOTestCase>, p: IoPass, spec: Option<UnitTestSpec>,
                           u: UnitOutcome, variant: Variant)
    requires Consistent(db) && sid in db.submissions && p.error.None? && |p.tally.rows| == |cases|
    requires FreshRows(p.tally.rows, |db.runs|)
    ensures Consistent(Finished(db, sid, cases, p, spec, u, variant).db)
  {
    var runId := |db.runs|;
    var run := CompletedRun(runId, sid, p.tally, cases, u);
    var status := if spec.None? && variant == AsWritten then Failed else Completed;
    var linked := db.submissions[sid].(latestGradingRunId := Some(runId));
    NewRunConsistent(db, sid, linked.(status := status), run, p.tally.rows);
  }

  // ---------------------------------------------------------------------
  // Scores of a graded submission
  // ---------------------------------------------------------------------

  /** Every case's points are non-negative, as the schema requires. */
  ghost predicate PointsNonNegative(cases: seq<IOTestCase>) {
    forall i :: 0 <= i < |cases| ==> cases[i].points >= 0
  }

  /** The IO score after the first `n` cases lies between 0 and the points of those cases. */
  lemma {:induction false} IoScoreBounded(runId: int, cases: seq<IOTestCase>, grades: seq<Result<CaseGrade, string>>, n: nat)
    requires n <= |cases| == |grades| && PointsNonNegative(cases)
    requires forall i :: 0 <= i < |grades| && grades[i].Ok? ==> grades[i].value.pointsAwarded in {0, cases[i].points}
    ensures var p := IoPassOf(runId, cases, grades, n);
            0 <= p.tally.ioScore <= SumCasePoints(cases[..|p.tally.rows|])
  {
    if n > 0 {
      IoScoreBounded(runId, cases, grades, n - 1);
      var p := IoPassOf(runId, cases, grades, n - 1);
      if p.error.None? && grades[n - 1].Ok? {
        assert |p.tally.rows| == n - 1;
        assert cases[..n][..n - 1] == cases[..n - 1];
        assert cases[..n][n - 1] == cases[n - 1];
      }
    }
  }

  /** Every graded case earns its points or nothing. */
  lemma GradesAllOrNothing(cases: seq<IOTestCase>, io: seq<Outcome>)
    requires |cases| == |io|
    ensures var grades := GradeAll(cases, io);
            forall i :: 0 <= i < |grades| && grades[i].Ok? ==> grades[i].value.pointsAwarded in {0, cases[i].points}
  {
    var grades := GradeAll(cases, io);
    forall i | 0 <= i < |grades| && grades[i].Ok?
      ensures grades[i].value.pointsAwarded in {0, cases[i].points}
    {
      assert grades[i] == GradeCase(cases[i], io[i]);
    }
  }

  /**
   * What a graded submission leaves: its run is the new one, completed,
   * holding the returned scores; the total is io + unit + 0; the IO score
   * is the sum of the rows added, within 0 and the IO points possible; the
   * unit score is all or nothing; and the submission is completed and
   * linked to the run.
   */
  ghost predicate GradedState(db: Db, sid: int, g: Grading) {
    var o := g.outcome; var runId := |db.runs|;
    && o.Graded? && sid in g.db.submissions && |g.db.runs| == runId + 1 && |db.results| <= |g.db.results|
    && o.submissionId == sid && o.status == Completed && o.staticScore == 0
    && o.totalScore == o.ioScore + o.unitScore
    && (o.unitScore == 0 || o.unitScore == o.unitPointsPossible)
    && o.ioScore == SumAwarded(g.db.results[|db.results|..])
    && 0 <= o.ioScore <= o.ioPointsPossible
    && g.db.runs[runId].status == RunCompleted && g.db.runs[runId].scoreTotal == o.totalScore
    && g.db.runs[runId].ioScore == o.ioScore && g.db.runs[runId].unitScore == o.unitScore
    && g.db.runs[runId].staticScore == o.staticScore
    && g.db.submissions[sid].status == Completed
    && g.db.submissions[sid].latestGradingRunId == Some(runId)
  }

  /** Every grading that returns a grade leaves a `GradedState`. */
  lemma GradedScores(db: Db, sid: int, io: seq<Outcome>, unit: Outcome, variant: Variant)
    requires OutcomesFit(db, sid, io) && GradeWith(db, sid, io, unit, variant).outcome.Graded?
    requires Gradable(db, sid) ==> PointsNonNegative(CasesOf(db, db.submissions[sid].assignmentId))
    ensures GradedState(db, sid, GradeWith(db, sid, io, unit, variant))
  {
    var sub := db.submissions[sid];
    var runId := |db.runs|;
    var cases := CasesOf(db, sub.assignmentId);
    var grades := GradeAll(cases, io);
    var p := IoPassOf(runId, cases, grades, |cases|);
    var spec := UnitSpecOf(db, sub.assignmentId);
    var u := GradeUnit(spec, unit);
    assert p.error.None?;
    assert GradeWith(db, sid, io, unit, variant) == Finished(db, sid, cases, p, spec, u, variant);
    IoScoreIsSum(runId, cases, grades, |cases|);
    GradesAllOrNothing(cases, io);
    IoScoreBounded(runId, cases, grades, |cases|);
    assert cases[..|p.tally.rows|] == cases;
    FinishedScores(db, sid, cases, p, spec, u, variant);
  }

  lemma FinishedScores(db: Db, sid: int, cases: seq<IOTestCase>, p: IoPass, spec: Option<UnitTestSpec>,
                       u: UnitOutcome, variant: Variant)
    requires sid in db.submissions && p.error.None? && |p.tally.rows| == |cases|
    requires p.tally.ioScore == SumAwarded(p.tally.rows) && 0 <= p.tally.ioScore <= SumCasePoints(cases)
    requires u.score == 0 || u.score == UnitPointsPossible(spec)
    requires Finished(db, sid, cases, p, spec, u, variant).outcome.Graded?
    ensures GradedState(db, sid, Finished(db, sid, cases, p, spec, u, variant))
  {
    var g := Finished(db, sid, cases, p, spec, u, variant);
    var runId := |db.runs|;
    var run := CompletedRun(runId, sid, p.tally, cases, u);
    assert !(spec.None? && variant == AsWritten);
    CompletedState(db, sid, g, run, p.tally.rows);
  }

  lemma CompletedState(db: Db, sid: int, g: Grading, run: GradingRun, rows: seq<TestCaseResult>)
    requires g.db.runs == db.runs + [run] && g.db.results == db.results + rows
    requires sid in g.db.submissions && g.db.submissions[sid].status == Completed
    requires g.db.submissions[sid].latestGradingRunId == Some(|db.runs|)
    requires var o := g.outcome;
             && o.Graded? && o.submissionId == sid && o.status == Completed && o.staticScore == 0
             && o.totalScore == o.ioScore + o.unitScore
             && (o.unitScore == 0 || o.unitScore == o.unitPointsPossible)
             && o.ioScore == SumAwarded(rows) && 0 <= o.ioScore <= o.ioPointsPossible
             && run.status == RunCompleted && run.scoreTotal == o.totalScore
             && run.ioScore == o.ioScore && run.unitScore == o.unitScore && run.staticScore == o.staticScore
    ensures GradedState(db, sid, g)
  {
    assert g.db.results[|db.results|..] == rows;
  }
  // ---------------------------------------------------------------------
  // Statuses: the task as written, and corrected
  // ---------------------------------------------------------------------

  /** The assignment has no unit-test spec and no IO case raised. */
  predicate CompletesWithoutSpec(db: Db, sid: int, io: seq<Outcome>)
    requires OutcomesFit(db, sid, io)
  {
    && Gradable(db, sid)
    && UnitSpecOf(db, db.submissions[sid].assignmentId).None?
    && var cases := CasesOf(db, db.submissions[sid].assignmentId);
       IoPassOf(|db.runs|, cases, GradeAll(cases, io), |cases|).error.None?
  }

  /** Some IO case of a gradable submission raised. */
  predicate IoRaises(db: Db, sid: int, io: seq<Outcome>)
    requires OutcomesFit(db, sid, io)
  {
    && Gradable(db, sid)
    && var cases := CasesOf(db, db.submissions[sid].assignmentId);
       IoPassOf(|db.runs|, cases, GradeAll(cases, io), |cases|).error.Some?
  }

  /**
   * As written, an assignment without a unit-test spec fails the task after
   * the run was completed and committed: the submission ends failed while
   * its latest run is completed and holds the scores.
   */
  lemma AsWrittenNoSpecFailsCompletedRun(db: Db, sid: int, io: seq<Outcome>, unit: Outcome)
    requires OutcomesFit(db, sid, io) && CompletesWithoutSpec(db, sid, io)
    ensures var g := GradeSpec(db, sid, io, unit);
            && g.outcome == TaskFailed(NoUnitSpecError)
            && g.db.submissions[sid].status == Failed
            && g.db.submissions[sid].latestGradingRunId == Some(|db.runs|)
            && g.db.runs[|db.runs|].status == RunCompleted
  {
    var sub := db.submissions[sid];
    var cases := CasesOf(db, sub.assignmentId);
    var p := IoPassOf(|db.runs|, cases, GradeAll(cases, io), |cases|);
    var u := GradeUnit(None, unit);
    assert GradeSpec(db, sid, io, unit) == Finished(db, sid, cases, p, None, u, AsWritten);
  }

  /**
   * As written, an exception in the IO loop fails the submission but leaves
   * the run it links to running for ever, with no scores.
   */
  lemma AsWrittenIoErrorLeavesRunRunning(db: Db, sid: int, io: seq<Outcome>, unit: Outcome)
    requires OutcomesFit(db, sid, io) && IoRaises(db, sid, io)
    ensures var g := GradeSpec(db, sid, io, unit);
            && g.outcome.TaskFailed?
            && g.db.submissions[sid].status == Failed
            && g.db.submissions[sid].latestGradingRunId == Some(|db.runs|)
            && g.db.runs[|db.runs|].status == RunRunning
  {
    var sub := db.submissions[sid];
    var cases := CasesOf(db, sub.assignmentId);
    var p := IoPassOf(|db.runs|, cases, GradeAll(cases, io), |cases|);
    assert GradeSpec(db, sid, io, unit) == Aborted(db, sid, cases, p, AsWritten);
  }

  /**
   * Corrected, a gradable submission and the run it links to end in
   * agreeing statuses (completed and completed, or failed and failed), and
   * the task reports a grade exactly when both are completed. In particular
   * an assignment without a unit-test spec is graded with 0 unit points.
   */
  lemma CorrectedStatusesAgree(db: Db, sid: int, io: seq<Outcome>, unit: Outcome)
    requires OutcomesFit(db, sid, io) && Gradable(db, sid)
    ensures var g := GradeWith(db, sid, io, unit, Corrected);
            var s := g.db.submissions[sid];
            && s.latestGradingRunId == Some(|db.runs|) && |g.db.runs| == |db.runs| + 1
            && (s.status == Completed <==> g.db.runs[|db.runs|].status == RunCompleted)
            && (s.status == Failed <==> g.db.runs[|db.runs|].status == RunFailed)
            && (s.status == Completed || s.status == Failed)
            && (g.outcome.Graded? <==> s.status == Completed)
    ensures CompletesWithoutSpec(db, sid, io) ==>
              var o := GradeWith(db, sid, io, unit, Corrected).outcome;
              o.Graded? && o.unitScore == 0 && o.unitPointsPossible == 0
  {
    var sub := db.submissions[sid];
    var cases := CasesOf(db, sub.assignmentId);
    var p := IoPassOf(|db.runs|, cases, GradeAll(cases, io), |cases|);
    if p.error.Some? {
      assert GradeWith(db, sid, io, unit, Corrected) == Aborted(db, sid, cases, p, Corrected);
    } else {
      var spec := UnitSpecOf(db, sub.assignmentId);
      var u := GradeUnit(spec, unit);
      assert GradeWith(db, sid, io, unit, Corrected) == Finished(db, sid, cases, p, spec, u, Corrected);
    }
  }

  /** The two variants differ only where the defects are: a graded outcome of the task as written is the corrected one. */
  lemma CorrectionKeepsGrades(db: Db, sid: int, io: seq<Outcome>, unit: Outcome)
    requires OutcomesFit(db, sid, io) && GradeSpec(db, sid, io, unit).outcome.Graded?
    ensures GradeWith(db, sid, io, unit, Corrected) == GradeSpec(db, sid, io, unit)
  {
    var sub := db.submissions[sid];
    var cases := CasesOf(db, sub.assignmentId);
    var p := IoPassOf(|db.runs|, cases, GradeAll(cases, io), |cases|);
    var spec := UnitSpecOf(db, sub.assignmentId);
    var u := GradeUnit(spec, unit);
    assert GradeSpec(db, sid, io, unit) == Finished(db, sid, cases, p, spec, u, AsWritten);
    assert GradeWith(db, sid, io, unit, Corrected) == Finished(db, sid, cases, p, spec, u, Corrected);
  }

  /** A missing submission changes nothing and requests no execution. */
  lemma MissingSubmissionChangesNothing(db: Db, sid: int, io: seq<Outcome>, unit: Outcome, variant: Variant)
    requires sid !in db.submissions
    ensures GradeWith(db, sid, io, unit, variant) == Grading(db, TaskFailed("Submission not found"), [])
  {
  }

  /** A missing assignment fails the submission, creating no run and no row and requesting no execution. */
  lemma MissingAssignmentCreatesNoRun(db: Db, sid: int, io: seq<Outcome>, unit: Outcome, variant: Variant)
    requires sid in db.submissions && db.submissions[sid].assignmentId !in db.assignments
    ensures var g := GradeWith(db, sid, io, unit, variant);
            && g.db.runs == db.runs && g.db.results == db.results
            && g.db.submissions == db.submissions[sid := db.submissions[sid].(status := Failed)]
            && g.outcome == TaskFailed("Assignment not found") && g.requests == []
  {
  }
}
