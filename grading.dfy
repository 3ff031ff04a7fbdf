/**
 * The grading task: every IO test case of the assignment is executed and
 * scored pass/fail, the unit-test harness is executed and scored from its
 * sentinel line, and the submission and its grading run move through their
 * statuses.
 *
 * Remote execution is an input: for each call of `submit_code` followed by
 * `poll_result` the task receives an `Outcome`, the result dictionary or
 * the text of the exception raised. The database is a snapshot `Db`, and the
 * `Store` class holds its tables as fields that the task updates in place.
 */
module Grading {
  import opened Wrappers
  import opened Json
  import opened PyStr
  import opened GradingText
  import opened Models
  import J = Judge0Client

  /** What one execution gave the task: the result, or the text of the exception raised. */
  type Outcome = Result<J.ExecResult, string>

  /** What the task asks Judge0 to run: the student's code, or the unit harness built around it. */
  datatype Program = StudentCode(code: string) | UnitHarness(code: string, testCode: string)

  /** The source text `submit_code` receives for a program. */
  function SourceText(p: Program): string {
    match p
    case StudentCode(code) => code
    case UnitHarness(code, testCode) => BuildUnitHarness(code, testCode)
  }

  /** One call of `submit_code`: the program sent and its stdin. */
  datatype Request = Request(program: Program, stdin: Option<string>)

  /** The result the task substitutes when executing a test case raised. */
  function ExecutionFailed(message: string): (r: J.ExecResult)
    ensures J.IsFailed(r) && r.stderr == JStr("Execution failed: " + message)
    ensures r.stdout == JStr("") && r.time == JNull && r.memory == JNull
  {
    J.ExecResult(JStr(""), JStr("Execution failed: " + message), JStr("failed"), JNull, JNull)
  }

  /** The result dictionary a test case is scored from. */
  function Received(outcome: Outcome): J.ExecResult {
    match outcome
    case Ok(r) => r
    case Err(message) => ExecutionFailed(message)
  }

  /**
   * `_normalize_output` applied to a value read from a result: a falsy value
   * gives "", a string is normalised, and any other value has no `replace`.
   */
  function NormalizeValue(v: Json): (r: Result<string, string>)
    ensures r.Err? <==> Truthy(v) && !v.JStr?
    ensures r.Err? ==> r.error == NoAttributeMessage(v, "replace")
    ensures Truthy(v) && v.JStr? ==> r == Ok(NormalizeOutput(Some(v.s)))
    ensures !Truthy(v) ==> r == Ok("")
  {
    if !Truthy(v) then Ok("")
    else if v.JStr? then Ok(NormalizeOutput(Some(v.s)))
    else Err(NoAttributeMessage(v, "replace"))
  }

  /** `(value or "").strip()`: a falsy value gives "", a string is stripped, any other value has no `strip`. */
  function StripValue(v: Json): (r: Result<string, string>)
    ensures r.Err? <==> Truthy(v) && !v.JStr?
    ensures v.JStr? ==> r == Ok(Strip(v.s))
    ensures !Truthy(v) ==> r == Ok("")
  {
    if !Truthy(v) then Ok("")
    else if v.JStr? then Ok(Strip(v.s))
    else Err(NoAttributeMessage(v, "strip"))
  }

  // ---------------------------------------------------------------------
  // One IO test case
  // ---------------------------------------------------------------------

  /** The values the task records for one IO test case. */
  datatype CaseGrade = CaseGrade(
    passed: bool, pointsAwarded: int, stdout: string, stderr: Json, status: Json, time: Json, memory: Json)

  /**
   * Scoring one IO test case: the case passes iff the execution status is
   * not "failed" and the normalised stdout equals the normalised expected
   * stdout, and it earns all of its points or none. An execution that raised
   * fails this case only. The one error that escapes is a stdout that is
   * neither falsy nor a string, whose normalisation raises.
   */
  function GradeCase(tc: IOTestCase, outcome: Outcome): (r: Result<CaseGrade, string>)
    ensures r.Err? <==> Truthy(Received(outcome).stdout) && !Received(outcome).stdout.JStr?
    ensures r.Err? ==> r.error == NoAttributeMessage(Received(outcome).stdout, "replace")
    ensures r.Ok? ==> r.value.pointsAwarded == (if r.value.passed then tc.points else 0)
    ensures r.Ok? ==> Truthy(r.value.status)
    ensures outcome.Err? ==>
              r.Ok? && !r.value.passed && r.value.pointsAwarded == 0 && r.value.stdout == ""
              && r.value.status == JStr("failed") && r.value.stderr == JStr("Execution failed: " + outcome.error)
  {
    var result := Received(outcome);
    var stdoutRaw := Or(result.stdout, JStr(""));
    var stderrRaw := Or(result.stderr, JStr(""));
    var execStatus := Or(result.status, JStr("Unknown"));
    match NormalizeValue(stdoutRaw)
    case Err(e) => Err(e)
    case Ok(stdoutNorm) =>
      var passed := execStatus != JStr("failed") && stdoutNorm == NormalizeOutput(Some(tc.expectedStdout));
      var stdoutText := if stdoutRaw.JStr? then stdoutRaw.s else "";
      Ok(CaseGrade(passed, if passed then tc.points else 0, stdoutText, stderrRaw, execStatus, result.time, result.memory))
  }

  /**
   * A case passes iff the recorded status is not "failed" and its recorded
   * stdout, normalised, equals its expected stdout, normalised.
   */
  lemma CasePassIff(tc: IOTestCase, outcome: Outcome)
    requires GradeCase(tc, outcome).Ok?
    ensures var g := GradeCase(tc, outcome).value;
            g.passed <==> g.status != JStr("failed")
                          && NormalizeOutput(Some(g.stdout)) == NormalizeOutput(Some(tc.expectedStdout))
  {
  }

  /** The grade of every case, in order: what the loop would compute for each if it reached it. */
  function GradeAll(cases: seq<IOTestCase>, outcomes: seq<Outcome>): (r: seq<Result<CaseGrade, string>>)
    requires |cases| == |outcomes|
    ensures |r| == |cases|
    ensures forall i {:trigger GradeCase(cases[i], outcomes[i])} :: 0 <= i < |r| ==> r[i] == GradeCase(cases[i], outcomes[i])
  {
    seq(|cases|, i requires 0 <= i < |cases| => GradeCase(cases[i], outcomes[i]))
  }

  /** The `test_case_results` row of one graded case. */
  function RowOf(runId: int, tc: IOTestCase, g: CaseGrade): TestCaseResult {
    TestCaseResult(runId, tc.id, g.passed, g.pointsAwarded, g.stdout, g.stderr, g.status, g.time, g.memory)
  }

  /** The feedback entry of a visible case. */
  function VisibleSummaryOf(tc: IOTestCase, g: CaseGrade): VisibleSummary {
    VisibleSummary(tc.id, tc.name, g.passed, g.pointsAwarded, g.status, g.time, g.memory)
  }

  /** A visible summary depends on the case only through its id and name: never its stdin or expected output. */
  lemma VisibleSummaryHidesTestData(tc1: IOTestCase, tc2: IOTestCase, g: CaseGrade)
    requires tc1.id == tc2.id && tc1.name == tc2.name
    ensures VisibleSummaryOf(tc1, g) == VisibleSummaryOf(tc2, g)
  {
  }

  // ---------------------------------------------------------------------
  // The IO loop
  // ---------------------------------------------------------------------

  /** The loop's accumulators: the rows added, the score, and the hidden and visible summaries. */
  datatype IoTally = IoTally(
    rows: seq<TestCaseResult>, ioScore: int, hiddenTotal: nat, hiddenPassed: nat,
    hiddenPointsAwarded: int, visible: seq<VisibleSummary>)

  /** One graded case added to the accumulators: hidden cases only touch the hidden counters. */
  function AddCase(t: IoTally, runId: int, tc: IOTestCase, g: CaseGrade): (r: IoTally)
    ensures r.rows == t.rows + [RowOf(runId, tc, g)] && r.ioScore == t.ioScore + g.pointsAwarded
  {
    var rows := t.rows + [RowOf(runId, tc, g)];
    if tc.isHidden then
      IoTally(rows, t.ioScore + g.pointsAwarded, t.hiddenTotal + 1,
              t.hiddenPassed + (if g.passed then 1 else 0), t.hiddenPointsAwarded + g.pointsAwarded, t.visible)
    else
      IoTally(rows, t.ioScore + g.pointsAwarded, t.hiddenTotal, t.hiddenPassed, t.hiddenPointsAwarded,
              t.visible + [VisibleSummaryOf(tc, g)])
  }

  /** The accumulators after the first cases, and the exception that stopped the loop, if any. */
  datatype IoPass = IoPass(tally: IoTally, error: Option<string>)

  /**
   * The IO loop over the first `n` cases, in query order, given the grade
   * of each case: the reference the task's loop is proved against. The loop
   * stops at the first case whose grading raised, keeping the rows already
   * added.
   */
  function IoPassOf(runId: int, cases: seq<IOTestCase>, grades: seq<Result<CaseGrade, string>>, n: nat): (p: IoPass)
    requires n <= |cases| == |grades|
    ensures Sent(p) <= n
    ensures p.error.None? ==> |p.tally.rows| == n
  {
    if n == 0 then IoPass(IoTally([], 0, 0, 0, 0, []), None)
    else
      var p := IoPassOf(runId, cases, grades, n - 1);
      if p.error.Some? then p
      else
        match grades[n - 1]
        case Err(e) => IoPass(p.tally, Some(e))
        case Ok(g) => IoPass(AddCase(p.tally, runId, cases[n - 1], g), None)
  }

  /** How many cases were submitted for execution: every row's case, and the case that raised. */
  function Sent(p: IoPass): nat {
    |p.tally.rows| + (if p.error.Some? then 1 else 0)
  }

  /** The `submit_code` calls of the IO loop: the student's code with each case's stdin, in order. */
  function CaseRequests(code: string, cases: seq<IOTestCase>, n: nat): (r: seq<Request>)
    requires n <= |cases|
    ensures |r| == n && forall i :: 0 <= i < n ==> r[i] == Request(StudentCode(code), cases[i].stdin)
  {
    if n == 0 then [] else CaseRequests(code, cases, n - 1) + [Request(StudentCode(code), cases[n - 1].stdin)]
  }

  /** The sum of `points_awarded` over result rows. */
  function SumAwarded(rows: seq<TestCaseResult>): int {
    if rows == [] then 0 else SumAwarded(rows[..|rows| - 1]) + rows[|rows| - 1].pointsAwarded
  }

  /** The sum of `points_awarded` over visible summaries. */
  function SumVisible(vs: seq<VisibleSummary>): int {
    if vs == [] then 0 else SumVisible(vs[..|vs| - 1]) + vs[|vs| - 1].pointsAwarded
  }

  /** `sum(tc.points for tc in test_cases)`. */
  function SumCasePoints(cases: seq<IOTestCase>): int {
    if cases == [] then 0 else SumCasePoints(cases[..|cases| - 1]) + cases[|cases| - 1].points
  }

  /** The number of hidden cases among the first `n`. */
  function CountHidden(cases: seq<IOTestCase>, n: nat): nat
    requires n <= |cases|
  {
    if n == 0 then 0 else CountHidden(cases, n - 1) + (if cases[n - 1].isHidden then 1 else 0)
  }

  /**
   * One row per case graded, in query order, each the grade of its own case
   * under the run; when the loop stopped, it stopped at the case whose
   * grading raised.
   */
  lemma {:induction false} IoRowsFollowCases(runId: int, cases: seq<IOTestCase>, grades: seq<Result<CaseGrade, string>>, n: nat)
    requires n <= |cases| == |grades|
    ensures var p := IoPassOf(runId, cases, grades, n);
            forall i :: 0 <= i < |p.tally.rows| ==> grades[i].Ok? && p.tally.rows[i] == RowOf(runId, cases[i], grades[i].value)
    ensures var p := IoPassOf(runId, cases, grades, n);
            p.error.Some? ==> grades[|p.tally.rows|] == Err(p.error.value)
  {
    if n > 0 {
      IoRowsFollowCases(runId, cases, grades, n - 1);
      var p := IoPassOf(runId, cases, grades, n - 1);
      if p.error.None? && grades[n - 1].Ok? {
        var q := IoPassOf(runId, cases, grades, n);
        assert q.tally.rows == p.tally.rows + [RowOf(runId, cases[n - 1], grades[n - 1].value)];
      }
    }
  }

  /** io_score is the sum of points_awarded over the rows added. */
  lemma {:induction false} IoScoreIsSum(runId: int, cases: seq<IOTestCase>, grades: seq<Result<CaseGrade, string>>, n: nat)
    requires n <= |cases| == |grades|
    ensures var t := IoPassOf(runId, cases, grades, n).tally;
            t.ioScore == SumAwarded(t.rows)
  {
    if n > 0 {
      IoScoreIsSum(runId, cases, grades, n - 1);
      var p := IoPassOf(runId, cases, grades, n - 1);
      if p.error.None? && grades[n - 1].Ok? {
        var g := grades[n - 1].value;
        var t := AddCase(p.tally, runId, cases[n - 1], g);
        assert IoPassOf(runId, cases, grades, n).tally == t;
        assert t.rows[..|t.rows| - 1] == p.tally.rows;
        assert t.rows[|t.rows| - 1].pointsAwarded == g.pointsAwarded;
      }
    }
  }

  /**
   * The hidden and visible tallies partition the cases graded: the hidden
   * counters count exactly the hidden cases, and the hidden points plus the
   * visible points make io_score.
   */
  lemma {:induction false} IoHiddenVisiblePartition(runId: int, cases: seq<IOTestCase>, grades: seq<Result<CaseGrade, string>>, n: nat)
    requires n <= |cases| == |grades|
    ensures var t := IoPassOf(runId, cases, grades, n).tally;
            && t.hiddenTotal + |t.visible| == |t.rows|
            && t.hiddenTotal == CountHidden(cases, |t.rows|)
            && t.hiddenPassed <= t.hiddenTotal
            && t.hiddenPointsAwarded + SumVisible(t.visible) == t.ioScore
  {
    if n > 0 {
      IoHiddenVisiblePartition(runId, cases, grades, n - 1);
      var p := IoPassOf(runId, cases, grades, n - 1);
      if p.error.None? && grades[n - 1].Ok? {
        var g := grades[n - 1].value;
        var t := AddCase(p.tally, runId, cases[n - 1], g);
        assert IoPassOf(runId, cases, grades, n).tally == t;
        assert |p.tally.rows| == n - 1;
        if !cases[n - 1].isHidden {
          assert t.visible[..|t.visible| - 1] == p.tally.visible;
        }
      }
    }
  }

  /** Each row earns its case's points when it passed and nothing otherwise. */
  lemma IoPointsAllOrNothing(runId: int, cases: seq<IOTestCase>, outcomes: seq<Outcome>, i: nat)
    requires |cases| == |outcomes|
    requires i < |IoPassOf(runId, cases, GradeAll(cases, outcomes), |cases|).tally.rows|
    ensures var row := IoPassOf(runId, cases, GradeAll(cases, outcomes), |cases|).tally.rows[i];
            row.pointsAwarded == (if row.passed then cases[i].points else 0)
            && row.ioTestCaseId == cases[i].id && row.gradingRunId == runId
  {
    IoRowsFollowCases(runId, cases, GradeAll(cases, outcomes), |cases|);
  }

  // ---------------------------------------------------------------------
  // Unit tests
  // ---------------------------------------------------------------------

  /** What unit grading contributes: its score, and its summary when the assignment has a spec. */
  datatype UnitOutcome = UnitOutcome(score: int, summary: Option<UnitSummary>)

  /**
   * Why the unit tests did not pass, in a fixed order of preference: an
   * AssertionError on stdout, a SyntaxError on stderr, the last line of
   * stderr, or a generic message. It is never empty for a stripped stderr.
   */
  function FailureSummary(stdout: string, stderr: string): (r: string)
    ensures IsStripped(stderr) ==> r != ""
  {
    if Contains(stdout, "AssertionError") then "Assertion failed"
    else if Contains(stderr, "SyntaxError") then "Syntax error"
    else if stderr != "" then
      LastLineOfStripped(stderr);
      SplitLines(stderr)[|SplitLines(stderr)| - 1]
    else "Unit tests failed"
  }

  lemma LastLineOfStripped(s: string)
    requires s != []
    ensures IsStripped(s) ==> SplitLines(s)[|SplitLines(s)| - 1] != []
  {
    if IsStripped(s) {
      LineBreakIsSpace(s[|s| - 1]);
      LastLineNonEmpty(s);
    }
  }

  /** The summary of a unit execution that raised, or whose output had no `strip`. */
  function ExecutionError(spec: UnitTestSpec): UnitOutcome {
    UnitOutcome(0, Some(UnitSummary(false, 0, spec.points, JStr("error"), Some("Execution error"))))
  }

  /**
   * Unit grading: no spec means no score and no summary; otherwise the
   * harness earns the spec's points iff its stripped stdout contains the
   * pass sentinel, and any exception gives 0 with "Execution error".
   */
  function GradeUnit(spec: Option<UnitTestSpec>, outcome: Outcome): (u: UnitOutcome)
    ensures spec.None? ==> u == UnitOutcome(0, None)
    ensures spec.Some? ==> u.summary.Some? && u.summary.value.pointsPossible == spec.value.points
                           && u.summary.value.pointsAwarded == u.score
    ensures spec.Some? ==> (u.summary.value.passed && u.score == spec.value.points)
                           || (!u.summary.value.passed && u.score == 0)
    ensures u.summary.Some? ==> (u.summary.value.failureSummary.None? <==> u.summary.value.passed)
    ensures u.summary.Some? && u.summary.value.failureSummary.Some? ==> u.summary.value.failureSummary.value != ""
    ensures spec.Some? && outcome.Err? ==> u == ExecutionError(spec.value)
  {
    match spec
    case None => UnitOutcome(0, None)
    case Some(s) =>
      match outcome
      case Err(_) => ExecutionError(s)
      case Ok(result) =>
        match StripValue(Or(result.stdout, JStr("")))
        case Err(_) => ExecutionError(s)
        case Ok(stdout) =>
          match StripValue(Or(result.stderr, JStr("")))
          case Err(_) => ExecutionError(s)
          case Ok(stderr) =>
            StrippedValue(Or(result.stderr, JStr("")));
            UnitOfStreams(s, stdout, stderr, ExecutionStatus(result.status))
  }

  /** `status.get("description") if isinstance(status, dict) else status`. */
  function ExecutionStatus(status: Json): Json {
    if status.JObj? then Get(status.fields, "description") else status
  }

  /** Unit grading once the harness's stripped stdout and stderr are known. */
  function UnitOfStreams(s: UnitTestSpec, stdout: string, stderr: string, executionStatus: Json): (u: UnitOutcome)
    ensures u.summary.Some? && u.summary.value.pointsPossible == s.points && u.summary.value.pointsAwarded == u.score
    ensures u.summary.value.passed <==> Contains(stdout, PassSentinel)
    ensures u.score == (if u.summary.value.passed then s.points else 0)
    ensures u.summary.value.failureSummary.None? <==> u.summary.value.passed
    ensures !u.summary.value.passed ==> u.summary.value.failureSummary == Some(FailureSummary(stdout, stderr))
  {
    if Contains(stdout, PassSentinel) then
      UnitOutcome(s.points, Some(UnitSummary(true, s.points, s.points, executionStatus, None)))
    else
      UnitOutcome(0, Some(UnitSummary(false, 0, s.points, executionStatus, Some(FailureSummary(stdout, stderr)))))
  }

  /** For string (or falsy) streams, unit grading is decided by their stripped texts. */
  lemma GradeUnitOfStrings(spec: UnitTestSpec, result: J.ExecResult)
    requires result.stdout.JStr? && (!Truthy(result.stderr) || result.stderr.JStr?)
    ensures GradeUnit(Some(spec), Ok(result))
            == UnitOfStreams(spec, Strip(result.stdout.s),
                             if Truthy(result.stderr) then Strip(result.stderr.s) else "",
                             ExecutionStatus(result.status))
  {
    assert Or(result.stdout, JStr("")) == result.stdout;
    assert StripValue(Or(result.stdout, JStr(""))) == Ok(Strip(result.stdout.s));
    assert StripValue(Or(result.stderr, JStr(""))) == Ok(if Truthy(result.stderr) then Strip(result.stderr.s) else "");
  }

  lemma StrippedValue(v: Json)
    ensures StripValue(v).Ok? ==> IsStripped(StripValue(v).value)
  {
  }

  /**
   * For a harness whose stdout and stderr are strings (or empty), the unit
   * tests pass, and earn the spec's points, exactly when the stripped stdout
   * contains "UNIT_TESTS_PASSED".
   */
  lemma UnitPassIffSentinel(spec: UnitTestSpec, result: J.ExecResult)
    requires result.stdout.JStr? && (!Truthy(result.stderr) || result.stderr.JStr?)
    ensures var u := GradeUnit(Some(spec), Ok(result));
            (u.summary.value.passed <==> Contains(Strip(result.stdout.s), PassSentinel))
            && u.score == (if u.summary.value.passed then spec.points else 0)
  {
    GradeUnitOfStrings(spec, result);
  }

  /** The order of preference of `FailureSummary`, case by case. */
  lemma FailureSummaryCases(stdout: string, stderr: string)
    ensures Contains(stdout, "AssertionError") ==> FailureSummary(stdout, stderr) == "Assertion failed"
    ensures !Contains(stdout, "AssertionError") && Contains(stderr, "SyntaxError")
            ==> FailureSummary(stdout, stderr) == "Syntax error"
    ensures !Contains(stdout, "AssertionError") && !Contains(stderr, "SyntaxError") && stderr != ""
            ==> FailureSummary(stdout, stderr) == SplitLines(stderr)[|SplitLines(stderr)| - 1]
    ensures !Contains(stdout, "AssertionError") && !Contains(stderr, "SyntaxError") && stderr == ""
            ==> FailureSummary(stdout, stderr) == "Unit tests failed"
  {
  }

  /**
   * When the sentinel is missing, the failure summary follows the order of
   * preference: an AssertionError on the stripped stdout, then a SyntaxError
   * on the stripped stderr, then the last line of a non-empty stripped
   * stderr, and otherwise the generic message.
   */
  lemma UnitFailureSummaryOrder(spec: UnitTestSpec, result: J.ExecResult)
    requires result.stdout.JStr? && (!Truthy(result.stderr) || result.stderr.JStr?)
    requires !Contains(Strip(result.stdout.s), PassSentinel)
    ensures var out := Strip(result.stdout.s);
            var err := if Truthy(result.stderr) then Strip(result.stderr.s) else "";
            var summary := GradeUnit(Some(spec), Ok(result)).summary.value.failureSummary;
            if Contains(out, "AssertionError") then summary == Some("Assertion failed")
            else if Contains(err, "SyntaxError") then summary == Some("Syntax error")
            else if err != "" then summary == Some(SplitLines(err)[|SplitLines(err)| - 1])
            else summary == Some("Unit tests failed")
  {
    var out := Strip(result.stdout.s);
    var err := if Truthy(result.stderr) then Strip(result.stderr.s) else "";
    GradeUnitOfStrings(spec, result);
    var u := UnitOfStreams(spec, out, err, ExecutionStatus(result.status));
    assert GradeUnit(Some(spec), Ok(result)) == u;
    assert u.summary.value.failureSummary == Some(FailureSummary(out, err));
    FailureSummaryCases(out, err);
  }


  // ---------------------------------------------------------------------
  // The database and the task
  // ---------------------------------------------------------------------

  /**
   * A snapshot of the tables the task touches. IO cases are kept per
   * assignment in the order of the task's query (order_index, then id);
   * unit-test specs are keyed by assignment; a run's id is its index.
   */
  datatype Db = Db(
    submissions: map<int, Submission>,
    assignments: map<int, Assignment>,
    cases: map<int, seq<IOTestCase>>,
    unitSpecs: map<int, UnitTestSpec>,
    runs: seq<GradingRun>,
    results: seq<TestCaseResult>)

  /** The IO cases of an assignment, in query order. */
  function CasesOf(db: Db, assignmentId: int): seq<IOTestCase> {
    if assignmentId in db.cases then db.cases[assignmentId] else []
  }

  /** The unit-test spec of an assignment, if it has one. */
  function UnitSpecOf(db: Db, assignmentId: int): Option<UnitTestSpec> {
    if assignmentId in db.unitSpecs then Some(db.unitSpecs[assignmentId]) else None
  }

  /** The submission exists and so does its assignment: grading will create a run. */
  predicate Gradable(db: Db, submissionId: int) {
    submissionId in db.submissions && db.submissions[submissionId].assignmentId in db.assignments
  }

  /** The number of outcomes the task needs: one per IO case of a gradable submission. */
  predicate OutcomesFit(db: Db, submissionId: int, io: seq<Outcome>) {
    Gradable(db, submissionId) ==> |io| == |CasesOf(db, db.submissions[submissionId].assignmentId)|
  }

  /** `(a, b)` comes strictly before `(c, d)` in the query's (order_index, id) order. */
  predicate QueryBefore(x: IOTestCase, y: IOTestCase) {
    x.orderIndex < y.orderIndex || (x.orderIndex == y.orderIndex && x.id < y.id)
  }

  /** An assignment's cases as its query returns them: its own, ordered, ids distinct. */
  ghost predicate CasesInQueryOrder(cases: seq<IOTestCase>, assignmentId: int) {
    && (forall i :: 0 <= i < |cases| ==> cases[i].assignmentId == assignmentId)
    && (forall i, j :: 0 <= i < j < |cases| ==> QueryBefore(cases[i], cases[j]))
  }

  /** The value the task returns. */
  datatype TaskOutcome =
    | Graded(submissionId: int, ioScore: int, ioPointsPossible: int, unitScore: int,
             unitPointsPossible: int, staticScore: int, totalScore: int, status: SubmissionStatus)
    | TaskFailed(error: string)

  /** The state the task leaves, what it returns, and the executions it requested. */
  datatype Grading = Grading(db: Db, outcome: TaskOutcome, requests: seq<Request>)

  const CompletionNote := "IO & UNIT grading complete. Static grading not enabled yet."

  /** A run the task completed: its scores, with static scoring fixed at 0, and its feedback. */
  function CompletedRun(runId: int, submissionId: int, t: IoTally, cases: seq<IOTestCase>, u: UnitOutcome): GradingRun {
    GradingRun(runId, submissionId, RunCompleted, t.ioScore, u.score, 0, t.ioScore + u.score + 0,
      Some(Feedback(t.ioScore, SumCasePoints(cases), |cases|, |t.visible|, t.hiddenTotal, t.hiddenPassed,
                    t.hiddenPointsAwarded, t.visible, u.summary, CompletionNote)))
  }

  /** The harness execution requested when the assignment has a unit-test spec: no stdin. */
  function UnitRequests(code: string, spec: Option<UnitTestSpec>): seq<Request> {
    if spec.Some? then [Request(UnitHarness(code, spec.value.testCode), None)] else []
  }

  const NoUnitSpecError := "'NoneType' object has no attribute 'points'"

  /** The points the unit tests could earn: `unit_spec.points` when there is a spec, else 0. */
  function UnitPointsPossible(spec: Option<UnitTestSpec>): int {
    if spec.Some? then spec.value.points else 0
  }

  /**
   * Which task is meant: the code as written, or the code with the two
   * defects below corrected (the return value reads the points of an absent
   * unit spec as 0, and the exception handler also marks the run failed).
   */
  datatype Variant = AsWritten | Corrected

  /**
   * `grade_submission`, from the state it starts in. A missing submission
   * changes nothing; a missing assignment fails the submission without a
   * run; otherwise a run is created and linked, every case is graded, the
   * unit tests are graded and the run and submission are completed.
   *
   * As written, an exception after the run was created marks only the
   * submission failed, leaving the run running; and the return value reads
   * `unit_spec.points` even when there is no spec, which raises after the
   * completion was committed, so a graded submission ends up failed.
   */
  function GradeWith(db: Db, submissionId: int, io: seq<Outcome>, unit: Outcome, variant: Variant): Grading
    requires OutcomesFit(db, submissionId, io)
  {
    if submissionId !in db.submissions then Grading(db, TaskFailed("Submission not found"), [])
    else
      var sub := db.submissions[submissionId];
      if sub.assignmentId !in db.assignments then
        Grading(db.(submissions := db.submissions[submissionId := sub.(status := Failed)]),
                TaskFailed("Assignment not found"), [])
      else
        var cases := CasesOf(db, sub.assignmentId);
        var p := IoPassOf(|db.runs|, cases, GradeAll(cases, io), |cases|);
        if p.error.Some? then Aborted(db, submissionId, cases, p, variant)
        else
          var spec := UnitSpecOf(db, sub.assignmentId);
          Finished(db, submissionId, cases, p, spec, GradeUnit(spec, unit), variant)
  }

  /**
   * The state after an exception in the IO loop: the run was created and
   * the rows before the failing case were added; the handler marks the
   * submission failed (and, corrected, the run too).
   */
  function Aborted(db: Db, submissionId: int, cases: seq<IOTestCase>, p: IoPass, variant: Variant): Grading
    requires submissionId in db.submissions && p.error.Some? && Sent(p) <= |cases|
  {
    var runId := |db.runs|;
    var sub := db.submissions[submissionId];
    var run := NewGradingRun(runId, submissionId);
    Grading(db.(submissions := db.submissions[submissionId := sub.(latestGradingRunId := Some(runId), status := Failed)],
                runs := db.runs + [if variant == Corrected then run.(status := RunFailed) else run],
                results := db.results + p.tally.rows),
            TaskFailed(p.error.value), CaseRequests(sub.codeText, cases, Sent(p)))
  }

  /**
   * The state after every IO case was graded, given the assignment's unit
   * spec and what grading the unit tests gave: the run and submission are
   * completed. As written, a missing unit spec
   * then fails the submission and the task.
   */
  function Finished(db: Db, submissionId: int, cases: seq<IOTestCase>, p: IoPass, spec: Option<UnitTestSpec>,
                    u: UnitOutcome, variant: Variant): Grading
    requires submissionId in db.submissions && p.error.None? && |p.tally.rows| == |cases|
  {
    var runId := |db.runs|;
    var sub := db.submissions[submissionId];
    var completed := db.(runs := db.runs + [CompletedRun(runId, submissionId, p.tally, cases, u)],
                         results := db.results + p.tally.rows);
    var requests := CaseRequests(sub.codeText, cases, |cases|) + UnitRequests(sub.codeText, spec);
    var linked := sub.(latestGradingRunId := Some(runId));
    if spec.None? && variant == AsWritten then
      Grading(completed.(submissions := db.submissions[submissionId := linked.(status := Failed)]),
              TaskFailed(NoUnitSpecError), requests)
    else
      Grading(completed.(submissions := db.submissions[submissionId := linked.(status := Completed)]),
              Graded(submissionId, p.tally.ioScore, SumCasePoints(cases), u.score, UnitPointsPossible(spec),
                     0, p.tally.ioScore + u.score + 0, Completed),
              requests)
  }

  /** `grade_submission` as written. */
  function GradeSpec(db: Db, submissionId: int, io: seq<Outcome>, unit: Outcome): Grading
    requires OutcomesFit(db, submissionId, io)
  {
    GradeWith(db, submissionId, io, unit, AsWritten)
  }
}
