/**
 * The student's read endpoints: a submission is visible only to the
 * student who made it, and its result shows the scores and per-case rows
 * of its latest run once grading has finished, and only the status before.
 */
module StudentResults {
  import opened Wrappers
  import opened Json
  import opened Models
  import opened Http
  import opened Grading
  import opened GradingProperties

  const SubmissionNotFound := HttpError(404, "Submission not found")
  const NoAccess := HttpError(403, "You do not have access to this submission")

  /** The submission belongs to the student. */
  predicate Owns(submissions: map<int, Submission>, submissionId: int, studentId: int) {
    submissionId in submissions && submissions[submissionId].studentId == studentId
  }

  /** `_get_owned_submission`: 404 when the submission is missing, 403 when it is someone else's. */
  function OwnedSubmission(submissions: map<int, Submission>, submissionId: int, studentId: int): (r: Result<Submission, HttpError>)
    ensures r.Ok? <==> Owns(submissions, submissionId, studentId)
    ensures r.Ok? ==> r.value == submissions[submissionId]
    ensures r.Err? ==> (r.error == SubmissionNotFound <==> submissionId !in submissions)
  {
    if submissionId !in submissions then Err(SubmissionNotFound)
    else
      var submission := submissions[submissionId];
      if submission.studentId != studentId then Err(NoAccess)
      else Ok(submission)
  }

  /** A submission is readable by one student at most. */
  lemma OnlyOwnerReads(submissions: map<int, Submission>, submissionId: int, student1: int, student2: int)
    requires OwnedSubmission(submissions, submissionId, student1).Ok?
    requires OwnedSubmission(submissions, submissionId, student2).Ok?
    ensures student1 == student2
  {
  }

  /** `SubmissionStatusOut`, without the timestamps. */
  datatype SubmissionStatusOut = SubmissionStatusOut(
    submissionId: int, assignmentId: int, filename: Option<string>, status: SubmissionStatus)

  /** `get_submission_status`: the owner sees the submission's metadata and status. */
  function SubmissionStatusView(submissions: map<int, Submission>, submissionId: int, studentId: int)
      : (r: Result<SubmissionStatusOut, HttpError>)
    ensures r.Ok? <==> Owns(submissions, submissionId, studentId)
    ensures r.Ok? ==> var s := submissions[submissionId];
                     r.value == SubmissionStatusOut(s.id, s.assignmentId, s.filename, s.status)
  {
    match OwnedSubmission(submissions, submissionId, studentId)
    case Err(e) => Err(e)
    case Ok(s) => Ok(SubmissionStatusOut(s.id, s.assignmentId, s.filename, s.status))
  }

  /** `TestCaseResultOut`: one stored row as the student sees it. */
  datatype TestCaseResultOut = TestCaseResultOut(
    ioTestCaseId: int, passed: bool, pointsAwarded: int, stdout: string,
    stderr: Json, status: Json, timeMs: Json, memoryKb: Json)

  /** The part of `GradingResultOut` that only a finished run fills in. */
  datatype RunView = RunView(
    scoreTotal: int, ioScore: int, unitScore: int, staticScore: int,
    feedback: Option<Feedback>, ioResults: seq<TestCaseResultOut>)

  /** `GradingResultOut`: the id and status, and the run's breakdown when there is one to show. */
  datatype GradingResultOut = GradingResultOut(submissionId: int, status: SubmissionStatus, run: Option<RunView>)

  /** The index of the first run with the given id, or -1: the query on `GradingRun.id`. */
  function FirstRunIndex(runs: seq<GradingRun>, runId: int): (k: int)
    ensures -1 <= k < |runs|
    ensures k >= 0 ==> runs[k].id == runId
    ensures forall j :: 0 <= j < |runs| && (k < 0 || j < k) ==> runs[j].id != runId
  {
    if runs == [] then -1
    else
      var k := FirstRunIndex(runs[..|runs| - 1], runId);
      if k >= 0 then k
      else if runs[|runs| - 1].id == runId then |runs| - 1
      else -1
  }

  /** When run ids are positions, looking a run up by id finds the run at that position. */
  lemma IndexedRunFound(runs: seq<GradingRun>, runId: int)
    requires RunsIndexed(runs) && 0 <= runId < |runs|
    ensures FirstRunIndex(runs, runId) == runId
  {
    var k := FirstRunIndex(runs, runId);
    assert runs[runId].id == runId;
    assert k >= 0 && runs[k].id == k;
  }

  /** The latest run of a submission, if it has one and the row exists. */
  function LatestRun(runs: seq<GradingRun>, latest: Option<int>): (r: Option<GradingRun>)
    ensures r.Some? ==> latest.Some? && r.value.id == latest.value && r.value in runs
  {
    if latest.None? then None
    else
      var k := FirstRunIndex(runs, latest.value);
      if k < 0 then None else Some(runs[k])
  }

  /** The result rows of one run, in table order: `run.test_case_results`. */
  function RowsOf(results: seq<TestCaseResult>, runId: int): (r: seq<TestCaseResult>)
    ensures |r| <= |results|
    ensures forall i :: 0 <= i < |r| ==> r[i].gradingRunId == runId
  {
    if results == [] then []
    else
      var last := results[|results| - 1];
      RowsOf(results[..|results| - 1], runId) + (if last.gradingRunId == runId then [last] else [])
  }

  lemma {:induction false} RowsOfAppend(a: seq<TestCaseResult>, b: seq<TestCaseResult>, runId: int)
    ensures RowsOf(a + b, runId) == RowsOf(a, runId) + RowsOf(b, runId)
  {
    if b != [] {
      var n := |b| - 1;
      assert (a + b)[..|a + b| - 1] == a + b[..n];
      RowsOfAppend(a, b[..n], runId);
    } else {
      assert a + b == a;
    }
  }

  /** Rows that all belong to the run are all of its rows; rows that none do give none. */
  lemma {:induction false} RowsOfUniform(rows: seq<TestCaseResult>, runId: int, belong: bool)
    requires forall i :: 0 <= i < |rows| ==> (rows[i].gradingRunId == runId) == belong
    ensures RowsOf(rows, runId) == if belong then rows else []
  {
    if rows != [] {
      RowsOfUniform(rows[..|rows| - 1], runId, belong);
      if belong {
        assert rows[..|rows| - 1] + [rows[|rows| - 1]] == rows;
      }
    }
  }

  /** A stored row as returned: every field of the row, none of the test case's. */
  function RowOut(row: TestCaseResult): TestCaseResultOut {
    TestCaseResultOut(row.ioTestCaseId, row.passed, row.pointsAwarded, row.stdout,
                      row.stderr, row.status, row.timeMs, row.memoryKb)
  }

  function RowsOut(rows: seq<TestCaseResult>): (r: seq<TestCaseResultOut>)
    ensures |r| == |rows|
  {
    seq(|rows|, i requires 0 <= i < |rows| => RowOut(rows[i]))
  }

  /** The points shown across the returned rows. */
  function SumShown(outs: seq<TestCaseResultOut>): int {
    if outs == [] then 0 else SumShown(outs[..|outs| - 1]) + outs[|outs| - 1].pointsAwarded
  }

  /** The points shown are the points stored. */
  lemma {:induction false} SumShownIsSumAwarded(rows: seq<TestCaseResult>)
    ensures SumShown(RowsOut(rows)) == SumAwarded(rows)
  {
    if rows != [] {
      var n := |rows| - 1;
      assert RowsOut(rows)[..n] == RowsOut(rows[..n]);
      SumShownIsSumAwarded(rows[..n]);
    }
  }

  function RunViewOf(run: GradingRun, rows: seq<TestCaseResult>): RunView {
    RunView(run.scoreTotal, run.ioScore, run.unitScore, run.staticScore, run.feedback, RowsOut(rows))
  }

  /** The submission has finished grading: neither queued nor running. */
  predicate GradingDone(s: Submission) {
    s.status != Queued && s.status != Running
  }

  /**
   * `get_submission_result`. While the submission is queued or running, and
   * when a finished submission has no run to read, only the id and status
   * come back; otherwise the latest run's scores, feedback and rows.
   */
  function SubmissionResult(db: Db, submissionId: int, studentId: int): (r: Result<GradingResultOut, HttpError>)
    ensures r.Ok? <==> Owns(db.submissions, submissionId, studentId)
    ensures r.Err? ==> r == Err(OwnedSubmission(db.submissions, submissionId, studentId).error)
  {
    match OwnedSubmission(db.submissions, submissionId, studentId)
    case Err(e) => Err(e)
    case Ok(s) =>
      if !GradingDone(s) then Ok(GradingResultOut(s.id, s.status, None))
      else match LatestRun(db.runs, s.latestGradingRunId)
        case None => Ok(GradingResultOut(s.id, s.status, None))
        case Some(run) => Ok(GradingResultOut(s.id, s.status, Some(RunViewOf(run, RowsOf(db.results, run.id)))))
  }

  /**
   * The owner gets a run breakdown exactly when the submission has finished
   * and its latest run exists; the breakdown is that run's scores and
   * feedback and the rows stored for it, in order.
   */
  lemma ResultShowsRunIff(db: Db, submissionId: int, studentId: int)
    requires Owns(db.submissions, submissionId, studentId)
    ensures var s := db.submissions[submissionId];
            var r := SubmissionResult(db, submissionId, studentId).value;
            && r.submissionId == s.id && r.status == s.status
            && (r.run.Some? <==> GradingDone(s) && LatestRun(db.runs, s.latestGradingRunId).Some?)
            && (r.run.Some? ==> var run := LatestRun(db.runs, s.latestGradingRunId).value;
                                 var rows := RowsOf(db.results, run.id);
                                 && r.run.value.scoreTotal == run.scoreTotal && r.run.value.ioScore == run.ioScore
                                 && r.run.value.unitScore == run.unitScore && r.run.value.staticScore == run.staticScore
                                 && r.run.value.feedback == run.feedback
                                 && |r.run.value.ioResults| == |rows|
                                 && forall i :: 0 <= i < |rows| ==> r.run.value.ioResults[i] == RowOut(rows[i]))
  {
  }

  /**
   * The response never reads the IO test cases or the unit spec, so
   * changing their stdin, expected output or test code cannot change what
   * a student is shown. This is no barrier for hidden cases: their result
   * rows, which carry the program's output on the hidden stdin, are shown
   * (`AsWrittenShowsHiddenRows`).
   */
  lemma ResultIgnoresTestData(db: Db, cases: map<int, seq<IOTestCase>>, specs: map<int, UnitTestSpec>, submissionId: int, studentId: int)
    ensures SubmissionResult(db.(cases := cases, unitSpecs := specs), submissionId, studentId)
            == SubmissionResult(db, submissionId, studentId)
  {
  }

  /** A row stored for a run is among the rows read for it. */
  lemma {:induction false} RowOfRunRead(results: seq<TestCaseResult>, runId: int, row: TestCaseResult)
    requires row in results && row.gradingRunId == runId
    ensures row in RowsOf(results, runId)
  {
    var n := |results| - 1;
    assert results == results[..n] + [results[n]];
    if results[n] != row {
      RowOfRunRead(results[..n], runId, row);
    }
  }

  // ---------------------------------------------------------------------
  // Hidden test cases in the result view
  // ---------------------------------------------------------------------

  /** The ids of the hidden cases among `cases`. */
  function HiddenIds(cases: seq<IOTestCase>): set<int> {
    set c | c in cases && c.isHidden :: c.id
  }

  /**
   * As written, the result lists a row for every case of the latest run,
   * hidden ones included: a hidden case's row is shown with its pass flag,
   * its points and the program's stdout on the hidden stdin.
   */
  lemma AsWrittenShowsHiddenRows(db: Db, submissionId: int, studentId: int, row: TestCaseResult)
    requires Owns(db.submissions, submissionId, studentId) && GradingDone(db.submissions[submissionId])
    requires LatestRun(db.runs, db.submissions[submissionId].latestGradingRunId).Some?
    requires row in db.results && row.gradingRunId == LatestRun(db.runs, db.submissions[submissionId].latestGradingRunId).value.id
    requires row.ioTestCaseId in HiddenIds(CasesOf(db, db.submissions[submissionId].assignmentId))
    ensures var r := SubmissionResult(db, submissionId, studentId).value;
            && r.run.Some?
            && TestCaseResultOut(row.ioTestCaseId, row.passed, row.pointsAwarded, row.stdout,
                                 row.stderr, row.status, row.timeMs, row.memoryKb) in r.run.value.ioResults
  {
    var s := db.submissions[submissionId];
    var run := LatestRun(db.runs, s.latestGradingRunId).value;
    var rows := RowsOf(db.results, run.id);
    ResultShowsRunIff(db, submissionId, studentId);
    RowOfRunRead(db.results, run.id, row);
    var i :| 0 <= i < |rows| && rows[i] == row;
    assert SubmissionResult(db, submissionId, studentId).value.run.value.ioResults[i] == RowOut(row);
  }

  /** The output rows whose case is not among `hidden`, in order. */
  function VisibleOuts(outs: seq<TestCaseResultOut>, hidden: set<int>): (r: seq<TestCaseResultOut>)
    ensures forall o :: o in r ==> o in outs && o.ioTestCaseId !in hidden
    ensures forall o :: o in outs && o.ioTestCaseId !in hidden ==> o in r
  {
    if outs == [] then []
    else (if outs[0].ioTestCaseId in hidden then [] else [outs[0]]) + VisibleOuts(outs[1..], hidden)
  }

  /**
   * The result view with the hidden-test barrier: the rows of the
   * assignment's hidden cases are left out, while the scores and the
   * feedback, which hold hidden cases only in aggregate, stay as they are.
   */
  function VisibleResult(db: Db, submissionId: int, studentId: int): Result<GradingResultOut, HttpError> {
    match SubmissionResult(db, submissionId, studentId)
    case Err(e) => Err(e)
    case Ok(out) =>
      if out.run.None? then Ok(out)
      else
        var hidden := HiddenIds(CasesOf(db, db.submissions[submissionId].assignmentId));
        Ok(out.(run := Some(out.run.value.(ioResults := VisibleOuts(out.run.value.ioResults, hidden)))))
  }

  /**
   * Corrected, no row of a hidden case reaches the student, every row of a
   * visible case still does, and everything else in the result (ownership
   * errors, status, scores and feedback) is unchanged.
   */
  lemma VisibleResultHidesHiddenCases(db: Db, submissionId: int, studentId: int)
    ensures VisibleResult(db, submissionId, studentId).Err? ==>
              VisibleResult(db, submissionId, studentId) == SubmissionResult(db, submissionId, studentId)
    ensures VisibleResult(db, submissionId, studentId).Ok? ==>
              var r := VisibleResult(db, submissionId, studentId).value;
              var all := SubmissionResult(db, submissionId, studentId).value;
              var hidden := HiddenIds(CasesOf(db, db.submissions[submissionId].assignmentId));
              && r.submissionId == all.submissionId && r.status == all.status && (r.run.Some? <==> all.run.Some?)
              && (r.run.Some? ==>
                    && r.run.value.(ioResults := []) == all.run.value.(ioResults := [])
                    && (forall o :: o in r.run.value.ioResults ==> o.ioTestCaseId !in hidden && o in all.run.value.ioResults)
                    && (forall o :: o in all.run.value.ioResults && o.ioTestCaseId !in hidden ==> o in r.run.value.ioResults))
  {
  }

  /** The rows a graded run added: appended to the table, all attached to the new run. */
  lemma GradedRows(db: Db, sid: int, io: seq<Outcome>, unit: Outcome, variant: Variant) returns (rows: seq<TestCaseResult>)
    requires OutcomesFit(db, sid, io) && GradeWith(db, sid, io, unit, variant).outcome.Graded?
    ensures GradeWith(db, sid, io, unit, variant).db.results == db.results + rows
    ensures forall i :: 0 <= i < |rows| ==> rows[i].gradingRunId == |db.runs|
  {
    var sub := db.submissions[sid];
    var cases := CasesOf(db, sub.assignmentId);
    var grades := GradeAll(cases, io);
    var p := IoPassOf(|db.runs|, cases, grades, |cases|);
    assert p.error.None?;
    IoRowsFollowCases(|db.runs|, cases, grades, |cases|);
    rows := p.tally.rows;
  }

  /**
   * After a grading that returns a grade, the owner's result shows the
   * completed status and the new run: its total is IO plus unit, static is
   * 0, and the IO score is the sum of the points on the rows shown.
   */
  lemma GradedResultShown(db: Db, sid: int, io: seq<Outcome>, unit: Outcome, variant: Variant)
    requires Consistent(db) && OutcomesFit(db, sid, io)
    requires GradeWith(db, sid, io, unit, variant).outcome.Graded?
    requires Gradable(db, sid) ==> PointsNonNegative(CasesOf(db, db.submissions[sid].assignmentId))
    ensures var g := GradeWith(db, sid, io, unit, variant);
            && sid in g.db.submissions
            && ShowsCompletedRun(SubmissionResult(g.db, sid, g.db.submissions[sid].studentId), g.outcome)
  {
    var g := GradeWith(db, sid, io, unit, variant);
    GradedScores(db, sid, io, unit, variant);
    GradingKeepsConsistent(db, sid, io, unit, variant);
    var rows := GradedRows(db, sid, io, unit, variant);
    CompletedResult(db, sid, g, rows);
  }

  /** The result a student is shown for a completed grading with the given outcome. */
  predicate ShowsCompletedRun(r: Result<GradingResultOut, HttpError>, o: TaskOutcome) {
    && r.Ok? && o.Graded? && r.value.status == Completed && r.value.run.Some?
    && r.value.run.value.scoreTotal == o.totalScore == r.value.run.value.ioScore + r.value.run.value.unitScore
    && r.value.run.value.ioScore == o.ioScore && r.value.run.value.unitScore == o.unitScore
    && r.value.run.value.staticScore == 0
    && r.value.run.value.ioScore == SumShown(r.value.run.value.ioResults)
  }

  lemma CompletedResult(db: Db, sid: int, g: Grading, rows: seq<TestCaseResult>)
    requires RowsInRuns(db.results, |db.runs|) && GradedState(db, sid, g) && RunsIndexed(g.db.runs)
    requires g.db.results == db.results + rows
    requires forall i :: 0 <= i < |rows| ==> rows[i].gradingRunId == |db.runs|
    ensures ShowsCompletedRun(SubmissionResult(g.db, sid, g.db.submissions[sid].studentId), g.outcome)
  {
    var runId := |db.runs|;
    var sub := g.db.submissions[sid];
    var run := g.db.runs[runId];
    assert OwnedSubmission(g.db.submissions, sid, sub.studentId) == Ok(sub);
    assert GradingDone(sub) && sub.latestGradingRunId == Some(runId);
    IndexedRunFound(g.db.runs, runId);
    assert LatestRun(g.db.runs, sub.latestGradingRunId) == Some(run) && run.id == runId;
    RowsOfAppend(db.results, rows, runId);
    RowsOfUniform(db.results, runId, false);
    RowsOfUniform(rows, runId, true);
    assert RowsOf(g.db.results, runId) == rows;
    assert SubmissionResult(g.db, sid, sub.studentId) == Ok(GradingResultOut(sub.id, sub.status, Some(RunViewOf(run, rows))));
    assert g.db.results[|db.results|..] == rows;
    SumShownIsSumAwarded(rows);
  }
}
