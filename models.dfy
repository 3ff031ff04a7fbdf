/**
 * The database entities the grading engine reads and writes, with the
 * status enumerations and the table constraints as predicates.
 */
module Models {
  import opened Wrappers
  import opened Json

  /** `SubmissionStatus`. The column holds the name; its CHECK admits exactly these four. */
  datatype SubmissionStatus = Queued | Running | Completed | Failed

  function SubmissionStatusName(s: SubmissionStatus): string {
    match s
    case Queued => "queued"
    case Running => "running"
    case Completed => "completed"
    case Failed => "failed"
  }

  /** The CHECK constraint on `submissions.status`: the status a stored name stands for, if any. */
  function ParseSubmissionStatus(name: string): (r: Option<SubmissionStatus>)
    ensures r.Some? ==> SubmissionStatusName(r.value) == name
    ensures r.None? <==> name !in {"queued", "running", "completed", "failed"}
  {
    if name == "queued" then Some(Queued)
    else if name == "running" then Some(Running)
    else if name == "completed" then Some(Completed)
    else if name == "failed" then Some(Failed)
    else None
  }

  /** Every status is stored under a name the CHECK admits, and reads back as itself. */
  lemma SubmissionStatusRoundTrip(s: SubmissionStatus)
    ensures ParseSubmissionStatus(SubmissionStatusName(s)) == Some(s)
  {
  }

  /** `GradingRunStatus`: running, completed or failed. */
  datatype GradingRunStatus = RunRunning | RunCompleted | RunFailed

  function GradingRunStatusName(s: GradingRunStatus): string {
    match s
    case RunRunning => "running"
    case RunCompleted => "completed"
    case RunFailed => "failed"
  }

  /** The CHECK constraint on `grading_runs.status`. */
  function ParseGradingRunStatus(name: string): (r: Option<GradingRunStatus>)
    ensures r.Some? ==> GradingRunStatusName(r.value) == name
    ensures r.None? <==> name !in {"running", "completed", "failed"}
  {
    if name == "running" then Some(RunRunning)
    else if name == "completed" then Some(RunCompleted)
    else if name == "failed" then Some(RunFailed)
    else None
  }

  lemma GradingRunStatusRoundTrip(s: GradingRunStatus)
    ensures ParseGradingRunStatus(GradingRunStatusName(s)) == Some(s)
  {
  }

  datatype Assignment = Assignment(
    id: int, instructorId: int, title: string, description: string, instructions: Option<string>,
    language: string, isPublished: bool, weightIo: int, weightUnit: int, weightStatic: int,
    maxRuntimeMs: int, maxMemoryKb: int)

  /** The two CHECK constraints on `assignments`: non-negative weights that sum to 100. */
  predicate AssignmentConstraints(a: Assignment) {
    a.weightIo >= 0 && a.weightUnit >= 0 && a.weightStatic >= 0
    && a.weightIo + a.weightUnit + a.weightStatic == 100
  }

  datatype IOTestCase = IOTestCase(
    id: int, assignmentId: int, name: string, stdin: Option<string>, expectedStdout: string,
    points: int, isHidden: bool, orderIndex: int)

  /** A unit-test spec; `unit_test_specs.assignment_id` is UNIQUE. */
  datatype UnitTestSpec = UnitTestSpec(
    id: int, assignmentId: int, name: string, testCode: string, points: int, isHidden: bool)

  datatype Submission = Submission(
    id: int, assignmentId: int, studentId: int, filename: Option<string>, codeText: string,
    status: SubmissionStatus, latestGradingRunId: Option<int>)

  /** A visible test's entry in the feedback: never the stdin or the expected output. */
  datatype VisibleSummary = VisibleSummary(
    testCaseId: int, name: string, passed: bool, pointsAwarded: int, status: Json, timeMs: Json, memoryKb: Json)

  datatype UnitSummary = UnitSummary(
    passed: bool, pointsAwarded: int, pointsPossible: int, executionStatus: Json, failureSummary: Option<string>)

  /** `feedback_summary` of a completed run. */
  datatype Feedback = Feedback(
    ioScore: int, ioPointsPossible: int, totalTests: nat, visibleTests: nat, hiddenTests: nat,
    hiddenPassed: nat, hiddenPointsAwarded: int, visibleBreakdown: seq<VisibleSummary>,
    unit: Option<UnitSummary>, note: string)

  datatype GradingRun = GradingRun(
    id: int, submissionId: int, status: GradingRunStatus,
    ioScore: int, unitScore: int, staticScore: int, scoreTotal: int,
    feedback: Option<Feedback>)

  /** A freshly inserted run: the column defaults, status running and every score 0. */
  function NewGradingRun(id: int, submissionId: int): (r: GradingRun)
    ensures r.status == RunRunning && r.id == id && r.submissionId == submissionId
    ensures r.ioScore == 0 && r.unitScore == 0 && r.staticScore == 0 && r.scoreTotal == 0
    ensures r.feedback.None?
  {
    GradingRun(id, submissionId, RunRunning, 0, 0, 0, 0, None)
  }

  /**
   * One row of `test_case_results`. The stdout is the raw text Judge0
   * returned; the time is kept as Judge0 reported it.
   */
  datatype TestCaseResult = TestCaseResult(
    gradingRunId: int, ioTestCaseId: int, passed: bool, pointsAwarded: int,
    stdout: string, stderr: Json, status: Json, timeMs: Json, memoryKb: Json)

  /** The UNIQUE (grading_run_id, io_test_case_id) constraint on `test_case_results`. */
  ghost predicate ResultsUnique(rows: seq<TestCaseResult>) {
    forall i, j :: 0 <= i < j < |rows| ==>
      (rows[i].gradingRunId, rows[i].ioTestCaseId) != (rows[j].gradingRunId, rows[j].ioTestCaseId)
  }

  /** `unit_test_specs` keyed by assignment: the UNIQUE assignment_id gives at most one spec each. */
  ghost predicate UnitSpecsKeyed(specs: map<int, UnitTestSpec>) {
    forall aid :: aid in specs ==> specs[aid].assignmentId == aid
  }
}
