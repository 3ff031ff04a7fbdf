# Autograder grading engine — a Dafny model

This project models the core of an autograder for Python assignments:

- **Submission.** A student uploads a `.py` file. The upload endpoint checks the assignment and the file in a fixed order. These checks are: the assignment is published, the extension, the MIME type, the 1 MB size limit, and UTF-8. On success it stores a queued submission and enqueues a grading task.
- **Grading.** The task runs the student's program once per IO test case on Judge0, a remote code-execution service. It scores each case pass/fail on normalised output. It then wraps the program in a unit-test harness built around the instructor's assertion block and scores the harness from its sentinel line. It records a grading run with its result rows and moves the submission and the run through their statuses.
- **Results.** The student reads back the status and, once grading has finished, the latest run's scores and rows. Only the owner may read them.
- **Around the core.** The model also covers:
  - the Judge0 client: submitting code, and polling with backoff under a wall-clock deadline;
  - the database entities and their CHECK and UNIQUE constraints;
  - the request schemas that create assignments, IO cases and unit-test specs;
  - how the web session's role claim is normalised and routed to a dashboard.

Files, one module each:

| file | module | models |
|---|---|---|
| `wrappers.dfy` | `Wrappers` | `Option` and `Result` |
| `json.dfy` | `Json` | JSON values with Python truthiness, `dict.get`, `or` |
| `pystr.dfy` | `PyStr` | `str.strip`, `splitlines`, `lower`, `split(sep)[0]`, `join` |
| `utf8.dfy` | `Utf8` | strict UTF-8 encoding and decoding (Unicode Standard, Table 3-7) |
| `http.dfy` | `Http` | `HTTPException` as a status code and a detail |
| `models.dfy` | `Models` | `app/models/models.py` |
| `judge0_client.dfy` | `Judge0Client` | `app/services/judge0_client.py` |
| `grading_text.dfy` | `GradingText` | `_normalize_output`, `_indent_asserts`, `_build_unit_harness` |
| `grading.dfy` | `Grading` | scoring, the IO loop, unit grading, `grade_submission` as a function |
| `grading_task.dfy` | `GradingTask` | `grade_submission` as a method on a `Store` of tables, proved equal to the function |
| `grading_properties.dfy` | `GradingProperties` | consistency, score and status properties of grading |
| `student_submissions.dfy` | `StudentSubmissions` | `app/routers/student_submissions.py` |
| `student_results.dfy` | `StudentResults` | `app/routers/student_results.py` |
| `schemas.dfy` | `Schemas` | `app/schemas/assignment.py`, `io_test_case.py`, `unit_test_spec.py` |
| `web_auth.dfy` | `WebAuth` | `_normalize_role`, the role claim and `dashboard` in `app/routers/web_auth.py` |

The remote side of the system is an input to the model. What one execution returned is an `Outcome`: the result dictionary, or the text of the exception raised. The rest is also an input:

- the HTTP replies;
- the clock readings;
- the decoded JWT payload;
- the id the database gives a new submission.

The grading task runs on a `Store` class whose fields are the tables. Its method `GradeSubmission` is proved to have the effect given by the function `Grading.GradeSpec`. Every property proved about `GradeSpec` therefore holds of the state the task leaves.

## Model

| member | source | states |
|---|---|---|
| Models.ParseSubmissionStatus | app/models/models.py:33-37 | a stored submission status name is admitted exactly when it is one of queued, running, completed, failed, and then names its status |
| Models.SubmissionStatusRoundTrip | app/models/models.py:235 | every submission status is stored under a name the CHECK constraint admits and reads back as itself |
| Models.ParseGradingRunStatus | app/models/models.py:40-43 | a stored run status name is admitted exactly when it is running, completed or failed |
| Models.GradingRunStatusRoundTrip | app/models/models.py:278 | every run status is stored under an admitted name and reads back as itself |
| Models.NewGradingRun | app/models/models.py:251-256 | a new run is running, with scores 0 and no feedback |
| PyStr.TrimLeft | app/tasks/grading.py:34 | the longest suffix not starting with whitespace; everything cut off is whitespace |
| PyStr.TrimRight | app/tasks/grading.py:34 | the longest prefix not ending with whitespace; everything cut off is whitespace |
| PyStr.Strip | app/tasks/grading.py:34 | the result has no whitespace at either end |
| PyStr.StripInfix | app/tasks/grading.py:34 | `strip()` is an infix of the input with only whitespace before and after it, and is empty exactly when the input is all whitespace |
| PyStr.StripSlice | app/tasks/grading.py:34 | stripping right after stripping left gives that infix |
| PyStr.StripOfStripped | app/tasks/grading.py:34 | stripping a string with no whitespace at its ends changes nothing |
| PyStr.StripIdempotent | app/tasks/grading.py:34 | `strip()` is idempotent |
| PyStr.Lower | app/routers/student_submissions.py:79 | lower-casing keeps the length and maps each character by itself |
| PyStr.Before | app/routers/student_submissions.py:88 | `split(sep)[0]` is the longest prefix free of `sep`, and is followed by `sep` when shorter than the input |
| PyStr.LineEnd | app/tasks/grading.py:51 | the first line boundary, with no boundary before it |
| PyStr.NextLine | app/tasks/grading.py:51 | the next line starts after the boundary, with `\r\n` counted once |
| PyStr.SplitLines | app/tasks/grading.py:51 | `splitlines()` gives lines without boundaries, and none exactly for the empty string |
| PyStr.SplitLinesOfUnlines | app/tasks/grading.py:51 | reading back the lines of a text written line by line gives those lines |
| PyStr.UnlinesAppend | app/tasks/grading.py:55 | writing lines distributes over concatenation |
| PyStr.JoinNewline | app/tasks/grading.py:55 | a `"\n".join` followed by a newline is the text of the lines |
| PyStr.LineEndOfPlain | app/tasks/grading.py:51 | a prefix without boundaries shifts the first boundary by its length |
| PyStr.LastLineNonEmpty | app/tasks/grading.py:242 | a text not ending in a boundary has a non-empty last line |
| PyStr.DecimalString | app/schemas/assignment.py:26 | an integer renders as decimal digits whose value is the integer, with no leading zero except for 0 itself |
| Utf8.EncodeChar | app/routers/student_submissions.py:109 | a character encodes as 1 to 4 bytes, and as one byte exactly when it is ASCII |
| Utf8.Encode | app/routers/student_submissions.py:109 | a text encodes as between 1 and 4 bytes per character |
| Utf8.DecodeFirst | app/routers/student_submissions.py:108-114 | a decoded leading sequence has a length within the input |
| Utf8.DecodeFirstOfEncode | app/routers/student_submissions.py:108-114 | a character's bytes, followed by anything, decode first to that character with that length |
| Utf8.DecodeFirstIs | app/routers/student_submissions.py:108-114 | a sequence whose bytes lie in the Table 3-7 ranges decodes to the character its value names |
| Utf8.EncodeOfDecodeFirst | app/routers/student_submissions.py:108-114 | a well-formed leading sequence is exactly the encoding of the character it decodes to |
| Utf8.EncodeValue2 | app/routers/student_submissions.py:108-114 | a well-formed two-byte sequence is the encoding of its value |
| Utf8.EncodeValue3 | app/routers/student_submissions.py:108-114 | a well-formed three-byte sequence is the encoding of its value |
| Utf8.EncodeValue4 | app/routers/student_submissions.py:108-114 | a well-formed four-byte sequence is the encoding of its value |
| Utf8.DecodeEncode | app/routers/student_submissions.py:108-114 | decoding inverts encoding on every text |
| Utf8.EncodeDecode | app/routers/student_submissions.py:108-114 | encoding inverts decoding on every byte string that decodes |
| Utf8.AsciiDecodes | app/routers/student_submissions.py:108-114 | bytes below 0x80 always decode, one character per byte |
| Utf8.BadLeadRejected | app/routers/student_submissions.py:110-114 | a stray continuation byte or a C0, C1 or F5..FF lead makes the input fail to decode |
| Judge0Client.FailureResult | app/services/judge0_client.py:163-170 | a synthetic failure is marked failed, carries the message as stderr, with empty stdout and no time or memory |
| Judge0Client.ParseStatus | app/services/judge0_client.py:145-149 | the status is returned exactly when it is a dict holding "id", and is the response's own status |
| Judge0Client.StructuredResult | app/services/judge0_client.py:152-160 | a truthy stdout or stderr is passed through and a falsy one becomes ""; the status is the status dict's truthy description, or "Unknown" when there is none; time and memory are passed through |
| Judge0Client.StructuredFailedOnlyIfDescribed | app/services/judge0_client.py:152-160 | a finished response reads as failed exactly when Judge0 described it as "failed" |
| Judge0Client.SubmitPayload | app/services/judge0_client.py:57-62 | the payload holds the language id and the source, and "stdin" exactly when stdin was given |
| Judge0Client.SubmitCode | app/services/judge0_client.py:45-78 | an unconfigured base URL is an error; a token comes back exactly for a configured, successful, JSON reply, and it is the reply's "token"; a JSON reply without one is an error quoting the reply's text |
| Judge0Client.SubmitErrors | app/services/judge0_client.py:64-76 | a configured submit fails with "HTTP error submitting to Judge0: " and the transport or status error's text, with "Invalid JSON response from Judge0 (submit)" on a body that is not JSON, and with "Judge0 submit returned no token: " and the reply's text when the token is missing, empty or not a string |
| Judge0Client.PollResult | app/services/judge0_client.py:81-142 | the polling loop returns exactly `PollOutcome`, the reference loop over clock readings and replies |
| Judge0Client.IntervalBounds | app/services/judge0_client.py:131 | the backoff interval never exceeds max(initial, max_interval); from an initial value in 0..max it never decreases and stays within [initial, max_interval] |
| Judge0Client.PollFromDecision | app/services/judge0_client.py:108-134 | the loop from any processing iteration returns the decision of the iteration that ends it |
| Judge0Client.DeadlineAdvances | app/services/judge0_client.py:110-111 | an in-time reading leaves the deadline still reachable further on |
| Judge0Client.PollFromDecides | app/services/judge0_client.py:108-134 | an iteration that ends the loop returns its decision |
| Judge0Client.PollFromKeepsPolling | app/services/judge0_client.py:128-132 | an in-time "processing" reply hands the loop on to the next iteration, with the backed-off interval |
| Judge0Client.PollStopsAtFirstDecision | app/services/judge0_client.py:108-134 | the result is what the first deciding iteration gives: the timeout failure when the clock is past the deadline, else the classification of that reply |
| Judge0Client.DecisionFrom | app/services/judge0_client.py:108-134 | some iteration ends the loop, every earlier one having been an in-time processing reply |
| Judge0Client.PollFailsOrFinishes | app/services/judge0_client.py:106-142 | polling never raises: it gives a failure result, or the structured result of the first reply whose status id is not 1 or 2 |
| Judge0Client.DecisionFailsOrFinishes | app/services/judge0_client.py:110-134 | a deciding iteration gives a failure result or the structured result of a finished reply |
| Judge0Client.ClassifyStops | app/services/judge0_client.py:113-142 | a reply that stops the loop gives a failure result or a finished reply's structured result |
| Judge0Client.PolledRepliesWereProcessing | app/services/judge0_client.py:128-132 | every reply passed through while polling was in time and had status id 1 or 2 |
| Judge0Client.HttpErrorCodesFail | app/services/judge0_client.py:115-120 | HTTP errors fail in order: 404 first, then 500 and above, then the other 4xx codes, each with its own message |
| Judge0Client.MissingStatusFails | app/services/judge0_client.py:124-126 | a reply without a dict status holding "id" ends with the missing-status failure |
| GradingText.ReplaceCr | app/tasks/grading.py:33 | replacing `\r` keeps the length |
| GradingText.CanonicalEndings | app/tasks/grading.py:33 | canonical line endings contain no `\r` and are no longer than the input |
| GradingText.ReplaceChainCanonical | app/tasks/grading.py:33 | the two chained `replace` calls turn each `\r\n` and each lone `\r` into one `\n` |
| GradingText.ReplaceCrAppend | app/tasks/grading.py:33 | `replace` distributes over concatenation |
| GradingText.CanonicalPlainPrefix | app/tasks/grading.py:33 | canonicalising leaves a prefix without `\r` alone |
| GradingText.CanonicalOfPlain | app/tasks/grading.py:33 | text without `\r` is already canonical |
| GradingText.CanonicalKeepsLines | app/tasks/grading.py:33 | canonicalising line endings keeps the `splitlines()` lines |
| GradingText.CanonicalFirstLine | app/tasks/grading.py:33 | canonicalising keeps the first line in place and shortens its boundary to one character |
| GradingText.CanonicalTail | app/tasks/grading.py:33 | after a boundary, canonicalising gives one newline and the rest canonicalised |
| GradingText.NormalizeOutput | app/tasks/grading.py:24-34 | a missing or empty text normalises to ""; otherwise line endings are canonicalised and the result stripped, with no `\r` left |
| GradingText.NoCrInStrip | app/tasks/grading.py:33-34 | stripping text without `\r` introduces none |
| GradingText.NormalizeIdempotent | app/tasks/grading.py:24-34 | normalising twice is normalising once |
| GradingText.NormalizeCrLfExample | app/tasks/grading.py:24-34 | "a\r\nb\r" normalises to "a\nb" |
| GradingText.CanonicalCrLfExample | app/tasks/grading.py:33 | "a\r\nb\r" canonicalises to "a\nb\n" |
| GradingText.StripExample | app/tasks/grading.py:34 | "a\nb\n" strips to "a\nb" |
| GradingText.NormalizeTrailingBlankExample | app/tasks/grading.py:24-34 | a trailing blank line does not change the normalised output ("5\n\n" and "5\n" both give "5") |
| GradingText.StripTrailingNewline | app/tasks/grading.py:34 | "5" followed by newlines strips to "5" |
| GradingText.CleanLines | app/tasks/grading.py:52 | keeping the non-blank stripped lines gives no more lines than the input |
| GradingText.CleanLinesStripped | app/tasks/grading.py:52 | every line kept is non-blank and stripped |
| GradingText.CleanLinesNoLineBreak | app/tasks/grading.py:51-52 | lines without boundaries stay without boundaries |
| GradingText.StripKeepsNoLineBreak | app/tasks/grading.py:52 | stripping adds no line boundary |
| GradingText.Indent | app/tasks/grading.py:55 | indenting keeps the number of lines |
| GradingText.IndentAsserts | app/tasks/grading.py:50-55 | the indented block followed by a newline is the text of the runner body's lines |
| GradingText.LineBreakIsSpace | app/tasks/grading.py:51-52 | every line boundary is whitespace |
| GradingText.BlankBlockIsPass | app/tasks/grading.py:53-54 | an all-whitespace block becomes `    pass`; any other block keeps at least one assertion line |
| GradingText.RunnerBodyLines | app/tasks/grading.py:50-55 | every body line is four spaces and a non-blank stripped line with no boundary |
| GradingText.PassLine | app/tasks/grading.py:54 | "pass" is stripped and has no boundary |
| GradingText.IndentedLine | app/tasks/grading.py:55 | four spaces in front keep the line after them and add no boundary |
| GradingText.HarnessLayout | app/tasks/grading.py:57-75 | the harness is the header line, the student's code verbatim, then the runner definition, its body, and the try/except tail; the body reads back line by line as the cleaned assertions |
| GradingText.LayoutOf | app/tasks/grading.py:61-75 | the harness concatenation equals the header, the code and the tail lines written out |
| GradingText.RunnerLayout | app/tasks/grading.py:64-75 | the runner lines, a blank line and the tail written line by line give the template text |
| Grading.ExecutionFailed | app/tasks/grading.py:139-150 | the result substituted for an execution that raised is failed, with "Execution failed: " and the message as stderr |
| Grading.NormalizeValue | app/tasks/grading.py:24-34 | normalising a result value raises exactly for a truthy non-string, with Python's AttributeError text; a falsy value gives "" |
| Grading.StripValue | app/tasks/grading.py:221-222 | `(value or "").strip()` raises exactly for a truthy non-string; a string is stripped |
| Grading.GradeCase | app/tasks/grading.py:137-174 | a case earns its points or 0 by whether it passed; grading raises for a stdout that is neither falsy nor a string, with Python's AttributeError text; an execution that raised fails only this case (the OverflowError of an infinite time is admitted under Left out) |
| Grading.CasePassIff | app/tasks/grading.py:152-160 | a case passes iff its status is not "failed" and its normalised stdout equals its normalised expected output |
| Grading.GradeAll | app/tasks/grading.py:133-174 | one grade per case, each the grade of its own case and outcome |
| Grading.VisibleSummaryHidesTestData | app/tasks/grading.py:185-195 | a visible summary depends on the case only through its id and name, never its stdin or expected output |
| Grading.AddCase | app/tasks/grading.py:163-195 | adding a graded case appends its row and adds its points to io_score |
| Grading.IoPassOf | app/tasks/grading.py:133-195 | no more cases are sent than examined; without an exception, one row per case |
| Grading.CaseRequests | app/tasks/grading.py:137-138 | the i-th execution request is the student's code with the i-th case's stdin |
| Grading.IoRowsFollowCases | app/tasks/grading.py:133-174 | one row per graded case, in query order, each the grade of its own case; the loop stops at the case whose grading raised |
| Grading.IoScoreIsSum | app/tasks/grading.py:176 | io_score is the sum of points_awarded over the rows added |
| Grading.IoHiddenVisiblePartition | app/tasks/grading.py:179-195 | the hidden counters count exactly the hidden cases, and hidden plus visible points make io_score |
| Grading.IoPointsAllOrNothing | app/tasks/grading.py:152-160 | each row earns its case's points when it passed and nothing otherwise |
| Grading.FailureSummary | app/tasks/grading.py:237-244 | the failure summary is never empty for a stripped stderr |
| Grading.LastLineOfStripped | app/tasks/grading.py:242 | a non-empty stripped stderr has a non-empty last line |
| Grading.GradeUnit | app/tasks/grading.py:201-262 | without a spec, no score and no summary; with one, the harness earns the spec's points iff it passed, a failure always has a non-empty summary, and an exception gives "Execution error" with 0 points |
| Grading.FailureSummaryCases | app/tasks/grading.py:237-244 | the summary is "Assertion failed" when stdout has an AssertionError, else "Syntax error" when stderr has a SyntaxError, else the last line of a non-empty stderr, else "Unit tests failed" |
| Grading.UnitFailureSummaryOrder | app/tasks/grading.py:230-244 | when the stripped stdout lacks the sentinel, the summary is "Assertion failed" if stdout has an AssertionError, else "Syntax error" if the stripped stderr has a SyntaxError, else the last line of a non-empty stripped stderr, else "Unit tests failed" |
| Grading.UnitPassIffSentinel | app/tasks/grading.py:230-234 | the unit tests pass, and earn the spec's points, exactly when the stripped stdout contains "UNIT_TESTS_PASSED" |
| GradingTask.Store.constructor | app/tasks/grading.py:79-91 | the store holds the given tables |
| GradingTask.Store.GradeSubmission | app/tasks/grading.py:79-317 | the task's effect on the tables, its return value and the executions it requests are exactly `GradeSpec` of the state it started in |
| GradingTask.Store.Conclude | app/tasks/grading.py:196-317 | after the IO loop, an exception leads to the handler and otherwise unit grading and completion, matching `GradeSpec` |
| GradingTask.Store.FinishGrading | app/tasks/grading.py:198-306 | grades the unit tests, completes run and submission, and returns the grade, or fails the submission when the assignment has no spec |
| GradingTask.Store.StartRun | app/tasks/grading.py:103-114 | appends a new running run and links the submission to it as running |
| GradingTask.Store.CompleteRun | app/tasks/grading.py:265-293 | the run gets its scores and feedback and is completed; the submission is completed |
| GradingTask.Store.MarkFailed | app/tasks/grading.py:308-317 | an existing submission is marked failed; nothing else changes |
| GradingTask.Store.GradeIoCases | app/tasks/grading.py:133-195 | the loop's rows, scores, summaries and stopping exception are exactly `IoPassOf`, its rows are appended to the results table, and its requests are one per case sent |
| GradingTask.GradeAllGrades | app/tasks/grading.py:133-174 | `GradeAll` holds the grade of each case |
| GradingTask.GradeAt | app/tasks/grading.py:137-160 | executing and grading case k gives its grade |
| GradingTask.IoStepAdds | app/tasks/grading.py:163-195 | a case graded without exception adds its row to the accumulators |
| GradingTask.IoStepRaises | app/tasks/grading.py:308-317 | a case whose grading raises ends the loop with the accumulators as they were |
| GradingTask.IoPassStops | app/tasks/grading.py:133-195 | once the loop has stopped, later cases change nothing |
| GradingProperties.IoRowsFresh | app/models/models.py:308 | the rows the IO loop adds belong to the run and name distinct cases |
| GradingProperties.AppendFreshRows | app/models/models.py:308 | appending a new run's distinct rows keeps result rows unique per (run, case) and attached to runs |
| GradingProperties.NewRunConsistent | app/tasks/grading.py:103-114 | creating and linking a run and adding its rows keeps the tables consistent |
| GradingProperties.FailSubmissionConsistent | app/tasks/grading.py:308-314 | failing a submission keeps the tables consistent |
| GradingProperties.GradingKeepsConsistent | app/tasks/grading.py:79-317 | grading keeps the database consistent on every path, as written and corrected |
| GradingProperties.AbortedConsistent | app/tasks/grading.py:308-317 | an exception in the IO loop leaves consistent tables |
| GradingProperties.FinishedConsistent | app/tasks/grading.py:265-306 | completing a run leaves consistent tables |
| GradingProperties.IoScoreBounded | app/tasks/grading.py:176 | io_score lies between 0 and the points of the cases graded |
| GradingProperties.GradesAllOrNothing | app/tasks/grading.py:152-160 | every graded case earns 0 or all of its points |
| GradingProperties.GradedScores | app/tasks/grading.py:265-306 | a graded submission's run is the new one, completed, holding the returned scores; total is io + unit + 0; io_score is the row sum within 0 and the IO points possible; unit is all or nothing; the submission is completed and linked |
| GradingProperties.FinishedScores | app/tasks/grading.py:265-306 | the same, for the state after every IO case was graded |
| GradingProperties.CompletedState | app/tasks/grading.py:265-306 | a completed run written as the task writes it gives that graded state |
| GradingProperties.AsWrittenNoSpecFailsCompletedRun | app/tasks/grading.py:296-314 | as written, without a unit spec the submission ends failed while its latest run is completed and holds the scores |
| GradingProperties.AsWrittenIoErrorLeavesRunRunning | app/tasks/grading.py:308-314 | as written, an exception in the IO loop fails the submission but leaves its run running with no scores |
| GradingProperties.CorrectedStatusesAgree | app/tasks/grading.py:290-314 | corrected, the submission and its run end both completed or both failed, a grade is returned exactly when both are completed, and a missing spec grades with 0 unit points |
| GradingProperties.CorrectionKeepsGrades | app/tasks/grading.py:79-317 | when the task as written returns a grade, the corrected task returns the same grade and state |
| GradingProperties.MissingSubmissionChangesNothing | app/tasks/grading.py:92-94 | a missing submission changes nothing and requests no execution |
| GradingProperties.MissingAssignmentCreatesNoRun | app/tasks/grading.py:96-100 | a missing assignment fails the submission, creating no run and no row and requesting no execution |
| StudentSubmissions.OrEmpty | app/routers/student_submissions.py:77 | `value or ""` is the value when given, else "" |
| StudentSubmissions.LastIndex | app/routers/student_submissions.py:78 | the last index holding the character, or -1 |
| StudentSubmissions.SplitExt | app/routers/student_submissions.py:78 | root and extension concatenate to the name; the extension is empty or a dot followed by no dot and no slash |
| StudentSubmissions.PyExtensionIff | app/routers/student_submissions.py:77-83 | the extension check passes iff the name ends in ".py" in any case and its last segment has a stem that is not only dots |
| StudentSubmissions.PyExtensionAccepted | app/routers/student_submissions.py:77-83 | "a.py" passes the extension check |
| StudentSubmissions.BareDotPyRefused | app/routers/student_submissions.py:77-83 | ".py" has no extension and is refused |
| StudentSubmissions.MediaType | app/routers/student_submissions.py:88 | the compared media type contains no ';' |
| StudentSubmissions.MediaTypeIgnoresParameters | app/routers/student_submissions.py:88 | parameters after the first ';' never change the media type |
| StudentSubmissions.Read | app/routers/student_submissions.py:100 | `read(n)` is a prefix of at most n bytes, the whole content when it fits |
| StudentSubmissions.ReadDetectsOversize | app/routers/student_submissions.py:100-105 | reading one byte past the limit is over the limit iff the whole content is, and otherwise is the whole content |
| StudentSubmissions.CheckUpload | app/routers/student_submissions.py:60-114 | an accepted upload keeps the file name and its text encodes back to the uploaded bytes; every rejection is a 404, 413 or 422 |
| StudentSubmissions.ExtensionRejected | app/routers/student_submissions.py:77-83 | for a published assignment, a file name whose extension is not ".py" in any case is refused as not Python, whatever the content |
| StudentSubmissions.MediaTypeRejected | app/routers/student_submissions.py:88-93 | for a published assignment and a ".py" name, a media type outside the allowed set is a 422 that quotes the normalised media type |
| StudentSubmissions.AcceptedIff | app/routers/student_submissions.py:60-114 | an upload is accepted iff the assignment is published and the file passes every check, and the stored text is then the decoded content |
| StudentSubmissions.UnpublishedRejectedFirst | app/routers/student_submissions.py:60-72 | a missing or unpublished assignment is a 404 whatever the file |
| StudentSubmissions.SizeLimitBoundary | app/routers/student_submissions.py:100-105 | exactly 1 MB of valid text passes the size check; one byte more is a 413 |
| StudentSubmissions.InvalidUtf8Rejected | app/routers/student_submissions.py:108-114 | content within the limit that is not UTF-8 is a 422 |
| StudentSubmissions.QueuedSubmission | app/routers/student_submissions.py:119-125 | the inserted row is queued, unlinked, and holds the file name and decoded text |
| StudentSubmissions.GradingQueue.constructor | app/routers/student_submissions.py:140 | the queue starts empty |
| StudentSubmissions.GradingQueue.Delay | app/routers/student_submissions.py:140 | enqueueing appends the id |
| StudentSubmissions.SubmitCode | app/routers/student_submissions.py:60-144 | a rejected upload changes nothing; an accepted one adds exactly one queued submission, enqueues its id once and answers with the id and "queued" |
| StudentResults.OwnedSubmission | app/routers/student_results.py:20-41 | the submission is returned iff the student owns it; a 404 exactly when it is missing |
| StudentResults.OnlyOwnerReads | app/routers/student_results.py:35-39 | a submission is readable by at most one student |
| StudentResults.SubmissionStatusView | app/routers/student_results.py:44-64 | the owner, and only the owner, sees the submission's metadata and status |
| StudentResults.FirstRunIndex | app/routers/student_results.py:92-102 | the first run with that id, or -1 when none has it |
| StudentResults.IndexedRunFound | app/routers/student_results.py:92-102 | when run ids are positions, looking a run up by id finds the run at that position |
| StudentResults.LatestRun | app/routers/student_results.py:92-102 | a run found is the latest run named by the submission |
| StudentResults.RowsOf | app/routers/student_results.py:123 | a run's rows all belong to it |
| StudentResults.RowsOfAppend | app/routers/student_results.py:123 | a run's rows in appended tables are its rows in each, in order |
| StudentResults.RowsOfUniform | app/routers/student_results.py:123 | rows that all belong to the run are all its rows; rows that none do give none |
| StudentResults.RowsOut | app/routers/student_results.py:112-124 | one response row per stored row |
| StudentResults.SumShownIsSumAwarded | app/routers/student_results.py:112-124 | the points shown are the points stored |
| StudentResults.SubmissionResult | app/routers/student_results.py:67-148 | a result comes back iff the student owns the submission; otherwise the ownership error |
| StudentResults.ResultShowsRunIff | app/routers/student_results.py:85-148 | the owner gets a run breakdown iff the submission finished and its latest run exists, and it is that run's scores, feedback and rows in order |
| StudentResults.ResultIgnoresTestData | app/routers/student_results.py:111-124 | the result view never reads the IO-case or unit-spec tables, so editing them changes nothing a student is shown; this is no barrier for hidden cases, see Findings |
| StudentResults.RowOfRunRead | app/routers/student_results.py:123 | every stored row of a run is among the rows read for it |
| StudentResults.AsWrittenShowsHiddenRows | app/routers/student_results.py:112-124 | as written, the owner of a finished submission is shown every row of its latest run, including a hidden case's pass flag, points and stdout |
| StudentResults.VisibleOuts | app/routers/student_results.py:112-124 | a response row is kept iff its case is not hidden |
| StudentResults.VisibleResultHidesHiddenCases | app/routers/student_results.py:112-124 | the corrected view answers like the original except for the rows: it shows exactly the original's rows whose case is not hidden |
| StudentResults.GradedRows | app/tasks/grading.py:163-174 | a graded run's rows are appended to the table, all attached to the new run |
| StudentResults.GradedResultShown | app/routers/student_results.py:136-148 | after grading returns a grade, the owner sees completed, total = io + unit, static 0, and an IO score equal to the points on the rows shown |
| StudentResults.CompletedResult | app/routers/student_results.py:136-148 | a completed graded state shows the completed run to its owner |
| Schemas.ValidateAssignmentCreate | app/schemas/assignment.py:9-28 | a refused create always reports at least one error |
| Schemas.CreateFieldErrorsIff | app/schemas/assignment.py:10-19 | the field checks report nothing iff every field bound holds |
| Schemas.AssignmentCreateIff | app/schemas/assignment.py:9-28 | a create is accepted iff every field bound holds and the weights sum to 100; it keeps the fields, defaults language "python" and unpublished; with valid fields and a wrong sum the one error names the actual total |
| Schemas.CreateWeightsAreTableWeights | app/models/models.py:115-116 | with every other field valid, a create is accepted iff the assignment row it describes meets the table's constraints |
| Schemas.CreateMeetsTableConstraints | app/models/models.py:115-116 | a created assignment, stored, meets the table's weight constraints |
| Schemas.ValidateAssignmentUpdate | app/schemas/assignment.py:31-41 | a refused update always reports at least one error |
| Schemas.AssignmentUpdateIff | app/schemas/assignment.py:31-41 | an update is accepted iff each given field is within bounds, whatever the weights sum to, and then keeps each of the ten fields exactly as given |
| Schemas.UpdateSkipsSumCheck | app/schemas/assignment.py:21-41 | every body a create accepts an update accepts; weights 50/0/0 pass update and fail create |
| Schemas.ValidateIOTestCase | app/schemas/io_test_case.py:4-10 | a refused IO case always reports at least one error |
| Schemas.IOTestCaseIff | app/schemas/io_test_case.py:4-10 | an IO case is accepted iff its name is 1..255 characters, its expected output non-empty, and any points and order given in range; the case keeps the name, stdin and expected output as given; left-out fields default to points 1, hidden, order 0 |
| Schemas.StoredCasesNonNegative | app/schemas/io_test_case.py:8 | cases created through the schema have points in 0..100000 |
| Schemas.ValidateUnitTestSpec | app/schemas/unit_test_spec.py:5-9 | a refused unit spec always reports at least one error |
| Schemas.UnitTestSpecIff | app/schemas/unit_test_spec.py:5-9 | a unit spec is accepted iff its name is 1..255 characters, its test code non-empty and any points given in 0..100000; the spec keeps the name and test code as given; points default to 0 and hidden to true |
| WebAuth.NormalizeRole | app/routers/web_auth.py:133-153 | a role comes back iff the claim is a string or a non-empty list whose first item is a string; a string comes back unchanged, and a list gives its first item |
| WebAuth.Dashboard | app/routers/web_auth.py:181-197 | the instructor dashboard iff the role is "instructor", the student one iff "student", the login page otherwise |
| WebAuth.NoRoleCases | app/routers/web_auth.py:142-153 | null, an empty list and every non-string, non-list claim give no role |
| WebAuth.RoleClaimPrecedence | app/routers/web_auth.py:168-170 | the role comes from "role" when truthy, else "user_role" when truthy, else "roles" |
| WebAuth.EmptyRoleFallsThrough | app/routers/web_auth.py:168-170 | an empty "role" falls through to the next claim |
| WebAuth.DashboardOnlyForKnownRoles | app/routers/web_auth.py:156-197 | only a session whose role is exactly "instructor" or "student" reaches a dashboard |

## Left out

- `_seconds_to_ms` (app/tasks/grading.py:37-47) converts floating-point seconds. The model keeps `time_ms` as the raw value Judge0 returned and does not convert it.
- Grading.GradeCase: does not raise for an infinite or overflowing time. At app/tasks/grading.py:171, `_seconds_to_ms` calls `math.floor` on `float(t) * 1000`. For `"inf"`, a JSON number Python reads as infinity, or a value of about 1.8e305 or more, that raises OverflowError. Line 46 catches only ValueError and TypeError, so the error leaves the IO loop, and the handler at lines 308-314 fails the submission and leaves the run running. The model has no float infinities and does not parse Python float strings, so it grades such a case normally.
- Database sessions, commits, rollbacks and refreshes are not modelled. The tables are values or `Store` fields, and a commit is a point in the sequence of updates.
- Concurrency between workers and the Celery machinery are not modelled. The queue is a sequence of enqueued ids.
- HTTP transport (httpx), headers, URLs and the sleep are not modelled. Replies and clock readings are inputs.
- Verifying and decoding the JWT is not modelled. The decoded payload, or its absence, is an input.
- The logger calls are not modelled.
- Static analysis reports, AI feedback, `finished_at` and the timestamps are not modelled.
- The web routers other than `web_auth.py`'s role handling are not modelled.
- The API routers that store schemas are not modelled, only the schemas.
- PyStr.Lower: lower-cases ASCII letters only. The MIME check therefore accepts and refuses the same inputs as Python. The 422 message quoting a non-ASCII content type may differ from Python's.
- StudentSubmissions.SplitExt: models POSIX `os.path.splitext` only.
- StudentSubmissions.SubmitCode: takes the new row's id as an input. It requires that the id is not in use, which the database's key sequence guarantees.
- Pydantic coercion between types and explicit `null` values are not modelled. A schema field is either given with its declared type or left out.
- Judge0Client.SubmitCode: the reply's status-error text and its text as a Python value are inputs (`reason`, `dataText`). The model does not compute how httpx renders an `HTTPStatusError` or how Python renders a dict.
- JSON numbers are exact reals. Python's float rounding is not modelled: `1.0000000000000001` parses as `1.0` in Python, and `interval * 1.25` is rounded there.
- `GradingRun.test_case_results` (app/models/models.py:270) has no `order_by`. The model reads a run's rows in the order they were inserted; the database promises no order.
- Grading run ids are renamed to 0-based positions: the run the task creates gets the number of runs before it as its id. A real autoincrement column starts at 1 and may have gaps. Nothing the model covers depends on the id's value, only on which run it names.
- Judge0Client.PollResult: requires the clock readings to reach past the deadline. The real clock eventually does; the model needs a finite list of readings.
- Judge0Client.StructuredResult: requires that a truthy status is a dict. Otherwise `.get` would raise inside `_structured_result`, which polling never calls in that case.
- What the unit harness and the student's program do when executed is not modelled. The outcome of each execution is an input.

## Findings

| source | as written | input that shows it | evidently intended | confidence | as-written member | corrected member |
|---|---|---|---|---|---|---|
| app/tasks/grading.py:302 | the return value reads `unit_spec.points` even when the assignment has no unit-test spec; this raises after the completed run was committed, so the handler marks the submission failed | an assignment with IO cases and no unit-test spec, a submission whose cases all grade | the submission ends completed, graded with 0 unit points | not executed | GradingProperties.AsWrittenNoSpecFailsCompletedRun | GradingProperties.CorrectedStatusesAgree |
| app/tasks/grading.py:308-314 | the exception handler marks only the submission failed; the run it links to stays running with no scores | a case whose Judge0 stdout is a non-string truthy value, so normalising it raises | the run is marked failed together with the submission | not executed | GradingProperties.AsWrittenIoErrorLeavesRunRunning | GradingProperties.CorrectedStatusesAgree |
| app/routers/student_results.py:112-124 | the result view returns every row of the latest run, hidden cases included, with the pass flag, points and stdout | a finished submission whose latest run has a row for a hidden case, e.g. a program that prints its stdin | hidden cases count only in the totals; their rows are not shown | not executed | StudentResults.AsWrittenShowsHiddenRows | StudentResults.VisibleResultHidesHiddenCases |
