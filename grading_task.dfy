/**
 * The grading task over a mutable store: the tables are fields, and
 * `GradeSubmission` updates them step by step as the task does, with its
 * effect proved equal to `Grading.GradeSpec`, so that every property
 * proved about `GradeSpec` holds of the state the task leaves.
 */
module GradingTask {
  import opened Wrappers
  import opened Json
  import opened Models
  import opened Grading

  /** The database the task works on. */
  class Store {
    var submissions: map<int, Submission>
    var assignments: map<int, Assignment>
    var cases: map<int, seq<IOTestCase>>
    var unitSpecs: map<int, UnitTestSpec>
    var runs: seq<GradingRun>
    var results: seq<TestCaseResult>

    constructor (db: Db)
      ensures State() == db
    {
      submissions := db.submissions;
      assignments := db.assignments;
      cases := db.cases;
      unitSpecs := db.unitSpecs;
      runs := db.runs;
      results := db.results;
    }

    /** The tables as a value. */
    function State(): Db
      reads this
    {
      Db(submissions, assignments, cases, unitSpecs, runs, results)
    }

    /**
     * `grade_submission`. `io[k]` is what executing the k-th IO case gave and
     * `unit` what executing the unit harness gave; `requests` lists the
     * executions asked for, in order.
     */
    method GradeSubmission(submissionId: int, io: seq<Outcome>, unit: Outcome) returns (outcome: TaskOutcome, requests: seq<Request>)
      requires OutcomesFit(State(), submissionId, io)
      modifies this
      ensures Grading(State(), outcome, requests) == GradeSpec(old(State()), submissionId, io, unit)
    {
      ghost var db := State();
      if submissionId !in submissions {
        return TaskFailed("Submission not found"), [];
      }
      var submission := submissions[submissionId];
      if submission.assignmentId !in assignments {
        MarkFailed(submissionId);
        return TaskFailed("Assignment not found"), [];
      }

      var runId := StartRun(submissionId);
      ghost var linked := submission.(latestGradingRunId := Some(runId));
      assert submissions == db.submissions[submissionId := linked.(status := Running)];
      var testCases := CasesOf(State(), submission.assignmentId);
      assert testCases == CasesOf(db, submission.assignmentId);
      GradeAllGrades(testCases, io);
      var tally, error;
      tally, error, requests := GradeIoCases(runId, submission.codeText, testCases, io, GradeAll(testCases, io));
      assert State() == Started(db, submissionId, tally.rows);
      outcome, requests := Conclude(db, runId, submissionId, submission.codeText, submission.assignmentId, testCases, tally, error, unit, requests);
    }

    /**
     * What follows the IO loop. An exception in the loop reaches the
     * handler, which marks the submission failed and leaves the run as it
     * is; otherwise the unit tests are graded and the run completed.
     */
    method Conclude(ghost db: Db, runId: int, submissionId: int, code: string, assignmentId: int, testCases: seq<IOTestCase>,
                    tally: IoTally, error: Option<string>, unit: Outcome, ioRequests: seq<Request>)
        returns (outcome: TaskOutcome, requests: seq<Request>)
      requires submissionId in db.submissions && runId == |db.runs|
      requires code == db.submissions[submissionId].codeText && assignmentId == db.submissions[submissionId].assignmentId
      requires error.None? ==> |tally.rows| == |testCases|
      requires Sent(IoPass(tally, error)) <= |testCases|
      requires State() == Started(db, submissionId, tally.rows)
      requires ioRequests == CaseRequests(code, testCases, Sent(IoPass(tally, error)))
      modifies this`runs, this`submissions
      ensures var p := IoPass(tally, error);
              var spec := UnitSpecOf(db, assignmentId);
              Grading(State(), outcome, requests)
              == if error.Some? then Aborted(db, submissionId, testCases, p, AsWritten)
                 else Finished(db, submissionId, testCases, p, spec, GradeUnit(spec, unit), AsWritten)
    {
      ghost var linked := db.submissions[submissionId].(latestGradingRunId := Some(runId));
      ghost var p := IoPass(tally, error);
      if error.Some? {
        MarkFailed(submissionId);
        outcome, requests := TaskFailed(error.value), ioRequests;
        Overwrite(db.submissions, submissionId, linked.(status := Running), linked.(status := Failed));
        assert submissions == db.submissions[submissionId := linked.(status := Failed)];
        assert Grading(State(), outcome, requests) == Aborted(db, submissionId, testCases, p, AsWritten);
        return;
      }
      ghost var spec := UnitSpecOf(db, assignmentId);
      assert UnitSpecOf(State(), assignmentId) == spec;
      var unitRequests;
      outcome, unitRequests := FinishGrading(runId, submissionId, code, assignmentId, testCases, tally, unit);
      requests := ioRequests + unitRequests;
      Overwrite(db.submissions, submissionId, linked.(status := Running), submissions[submissionId]);
      assert runs == db.runs + [CompletedRun(runId, submissionId, tally, testCases, GradeUnit(spec, unit))];
    }

    /**
     * After the IO loop: grades the unit tests when the assignment has a
     * spec, completes the run and the submission, and builds the value
     * returned. Without a spec, reading its points raises and the handler
     * marks the submission failed.
     */
    method FinishGrading(runId: int, submissionId: int, code: string, assignmentId: int, testCases: seq<IOTestCase>,
                         tally: IoTally, unit: Outcome)
        returns (outcome: TaskOutcome, unitRequests: seq<Request>)
      requires 0 <= runId < |runs| && runs[runId].id == runId && runs[runId].submissionId == submissionId
      requires submissionId in submissions
      modifies this`runs, this`submissions
      ensures var spec := UnitSpecOf(old(State()), assignmentId);
              var u := GradeUnit(spec, unit);
              && runs == old(runs)[runId := CompletedRun(runId, submissionId, tally, testCases, u)]
              && submissions == old(submissions)[submissionId :=
                   old(submissions)[submissionId].(status := if spec.None? then Failed else Completed)]
              && unitRequests == UnitRequests(code, spec)
              && outcome == (if spec.None? then TaskFailed(NoUnitSpecError)
                             else Graded(submissionId, tally.ioScore, SumCasePoints(testCases), u.score,
                                         UnitPointsPossible(spec), 0, tally.ioScore + u.score + 0, Completed))
    {
      var spec := UnitSpecOf(State(), assignmentId);
      var unitGrade := GradeUnit(spec, unit);
      unitRequests := [];
      if spec.Some? {
        unitRequests := [Request(UnitHarness(code, spec.value.testCode), None)];
      }
      CompleteRun(runId, submissionId, tally, testCases, unitGrade);
      if spec.None? {
        MarkFailed(submissionId);
        outcome := TaskFailed(NoUnitSpecError);
      } else {
        // `submission.status` was just set to completed.
        outcome := Graded(submissionId, tally.ioScore, SumCasePoints(testCases), unitGrade.score, spec.value.points,
                          0, tally.ioScore + unitGrade.score + 0, Completed);
      }
    }

    /** Creates the run, links the submission to it and marks the submission running. */
    method StartRun(submissionId: int) returns (runId: int)
      requires submissionId in submissions
      modifies this`runs, this`submissions
      ensures runId == |old(runs)| && runs == old(runs) + [NewGradingRun(runId, submissionId)]
      ensures submissions == old(submissions)[submissionId :=
                old(submissions)[submissionId].(latestGradingRunId := Some(runId), status := Running)]
    {
      runId := |runs|;
      runs := runs + [NewGradingRun(runId, submissionId)];
      var submission := submissions[submissionId];
      submission := submission.(latestGradingRunId := Some(runId));
      submission := submission.(status := Running);
      submissions := submissions[submissionId := submission];
    }

    /** Records the scores and the feedback, then completes the run and the submission. */
    method CompleteRun(runId: int, submissionId: int, tally: IoTally, testCases: seq<IOTestCase>, unitGrade: UnitOutcome)
      requires 0 <= runId < |runs| && runs[runId].id == runId && runs[runId].submissionId == submissionId
      requires submissionId in submissions
      modifies this`runs, this`submissions
      ensures runs == old(runs)[runId := CompletedRun(runId, submissionId, tally, testCases, unitGrade)]
      ensures submissions == old(submissions)[submissionId := old(submissions)[submissionId].(status := Completed)]
    {
      var run := runs[runId];
      run := run.(ioScore := tally.ioScore, unitScore := unitGrade.score, staticScore := 0);
      run := run.(scoreTotal := run.ioScore + run.unitScore + run.staticScore);
      run := run.(feedback := Some(Feedback(tally.ioScore, SumCasePoints(testCases), |testCases|, |tally.visible|,
                                            tally.hiddenTotal, tally.hiddenPassed, tally.hiddenPointsAwarded,
                                            tally.visible, unitGrade.summary, CompletionNote)));
      run := run.(status := RunCompleted);
      runs := runs[runId := run];
      submissions := submissions[submissionId := submissions[submissionId].(status := Completed)];
    }

    /** The exception handler: the submission, when it exists, is marked failed. */
    method MarkFailed(submissionId: int)
      modifies this`submissions
      ensures submissionId in old(submissions) ==>
                submissions == old(submissions)[submissionId := old(submissions)[submissionId].(status := Failed)]
      ensures submissionId !in old(submissions) ==> submissions == old(submissions)
    {
      if submissionId in submissions {
        submissions := submissions[submissionId := submissions[submissionId].(status := Failed)];
      }
    }

    /**
     * The task's loop over the IO cases, in query order: each case is
     * executed and graded, its row is added and the accumulators are
     * updated; an exception while grading a case stops the loop. `error` is
     * that exception's text.
     */
    method GradeIoCases(runId: int, code: string, testCases: seq<IOTestCase>, io: seq<Outcome>, ghost grades: seq<Result<CaseGrade, string>>)
        returns (tally: IoTally, error: Option<string>, requests: seq<Request>)
      requires GradesOf(testCases, io, grades)
      modifies this`results
      ensures IoPass(tally, error) == IoPassOf(runId, testCases, grades, |testCases|)
      ensures results == old(results) + tally.rows
      ensures requests == CaseRequests(code, testCases, Sent(IoPass(tally, error)))
    {
      // io_score, the hidden counters and the visible breakdown, kept together
      tally := IoTally([], 0, 0, 0, 0, []);
      requests := [];

      var k := 0;
      while k < |testCases|
        invariant k <= |testCases|
        invariant IoPassOf(runId, testCases, grades, k) == IoPass(tally, None)
        invariant results == old(results) + tally.rows
        invariant requests == CaseRequests(code, testCases, k)
      {
        var tc := testCases[k];
        requests := requests + [Request(StudentCode(code), tc.stdin)];
        assert requests == CaseRequests(code, testCases, k + 1);
        var graded := GradeAt(testCases, io, grades, k);
        if graded.Err? {
          error := Some(graded.error);
          IoStepRaises(runId, testCases, grades, k, tally, graded.error);
          return;
        }
        IoStepAdds(runId, testCases, grades, k, tally, graded.value);
        results := results + [RowOf(runId, tc, graded.value)];
        tally := AddCase(tally, runId, tc, graded.value);
        k := k + 1;
      }
      error := None;
    }
  }

  /** `grades` holds the grade of each case against its outcome. */
  ghost predicate GradesOf(cases: seq<IOTestCase>, io: seq<Outcome>, grades: seq<Result<CaseGrade, string>>) {
    |io| == |cases| == |grades|
    && forall i {:trigger GradeCase(cases[i], io[i])} :: 0 <= i < |grades| ==> grades[i] == GradeCase(cases[i], io[i])
  }

  /**
   * The tables once the run is created and linked and the IO loop has added
   * its rows: the submission points at the new run and is running.
   */
  function Started(db: Db, submissionId: int, rows: seq<TestCaseResult>): Db
    requires submissionId in db.submissions
  {
    var runId := |db.runs|;
    db.(submissions := db.submissions[submissionId :=
          db.submissions[submissionId].(latestGradingRunId := Some(runId), status := Running)],
        runs := db.runs + [NewGradingRun(runId, submissionId)],
        results := db.results + rows)
  }

  /** Writing a key twice keeps the second value. */
  lemma Overwrite<K, V>(m: map<K, V>, k: K, a: V, b: V)
    ensures m[k := a][k := b] == m[k := b]
  {
  }

  /** `GradeAll` holds the grade of each case. */
  lemma GradeAllGrades(cases: seq<IOTestCase>, io: seq<Outcome>)
    requires |cases| == |io|
    ensures GradesOf(cases, io, GradeAll(cases, io))
  {
  }

  /** Executes case `k` and grades its outcome. */
  method GradeAt(cases: seq<IOTestCase>, io: seq<Outcome>, ghost grades: seq<Result<CaseGrade, string>>, k: nat)
      returns (graded: Result<CaseGrade, string>)
    requires GradesOf(cases, io, grades) && k < |cases|
    ensures graded == grades[k]
  {
    graded := GradeCase(cases[k], io[k]);
  }

  /** A case graded without an exception adds its row to the accumulators. */
  lemma IoStepAdds(runId: int, cases: seq<IOTestCase>, grades: seq<Result<CaseGrade, string>>, k: nat, t: IoTally, g: CaseGrade)
    requires k < |cases| == |grades| && IoPassOf(runId, cases, grades, k) == IoPass(t, None) && grades[k] == Ok(g)
    ensures IoPassOf(runId, cases, grades, k + 1) == IoPass(AddCase(t, runId, cases[k], g), None)
  {
  }

  /** A case whose grading raises ends the loop with the accumulators as they were. */
  lemma IoStepRaises(runId: int, cases: seq<IOTestCase>, grades: seq<Result<CaseGrade, string>>, k: nat, t: IoTally, e: string)
    requires k < |cases| == |grades| && IoPassOf(runId, cases, grades, k) == IoPass(t, None) && grades[k] == Err(e)
    ensures IoPassOf(runId, cases, grades, |cases|) == IoPass(t, Some(e))
    ensures Sent(IoPass(t, Some(e))) == k + 1
  {
    IoPassStops(runId, cases, grades, k + 1, |cases|);
  }

  /** Once the loop has stopped on an exception, later cases change nothing. */
  lemma {:induction false} IoPassStops(runId: int, cases: seq<IOTestCase>, grades: seq<Result<CaseGrade, string>>, m: nat, n: nat)
    requires m <= n <= |cases| == |grades| && IoPassOf(runId, cases, grades, m).error.Some?
    ensures IoPassOf(runId, cases, grades, n) == IoPassOf(runId, cases, grades, m)
    decreases n - m
  {
    if m < n {
      IoPassStops(runId, cases, grades, m, n - 1);
    }
  }
}
