/**
 * The Judge0 execution client: submitting code for a token, polling the
 * token with gentle backoff under a wall-clock bound, and mapping every
 * response (or failure) to an execution result.
 *
 * The network and the clock are inputs: an `HttpReply` stands for what one
 * request produced, and the poll loop reads the successive values of the
 * clock from a sequence of readings.
 */
module Judge0Client {
  import opened Wrappers
  import opened Json
  import opened PyStr

  const DefaultLanguageId := 71
  const DefaultTimeoutSeconds: real := 10.0
  const DefaultPollIntervalSeconds: real := 0.8
  const DefaultMaxIntervalSeconds: real := 2.0

  /** The client's configuration, read from the application settings. */
  datatype Settings = Settings(
    baseUrl: Option<string>,
    languageId: int,
    pollTimeoutSeconds: real,
    pollIntervalSeconds: real,
    pollMaxIntervalSeconds: real)

  /** A base URL counts as configured when it is present and non-empty (`if not base_url`). */
  predicate Configured(s: Settings) {
    s.baseUrl.Some? && s.baseUrl.value != ""
  }

  /** The body of an HTTP response: JSON that could not be decoded, or the decoded value. */
  datatype Body = Unparsable | Parsed(value: Json)

  /**
   * What one HTTP request produced: a transport error (`httpx.HTTPError`,
   * with its text), or a response. A response's `reason` is the text of the
   * `HTTPStatusError` that `raise_for_status` raises for it when its code is
   * not a success.
   */
  datatype HttpReply =
    | TransportError(detail: string)
    | Response(code: int, reason: string, body: Body)

  /** The structured execution result shared by the client and the grading task. */
  datatype ExecResult = ExecResult(stdout: Json, stderr: Json, status: Json, time: Json, memory: Json)

  /** Results that callers read as "not passable". */
  predicate IsFailed(r: ExecResult) {
    r.status == JStr("failed")
  }

  /** `_failure_result`: a synthetic failed result carrying `message` in place of stderr. */
  function FailureResult(message: string): (r: ExecResult)
    ensures IsFailed(r) && r.stderr == JStr(message)
    ensures r.stdout == JStr("") && r.time == JNull && r.memory == JNull
  {
    ExecResult(JStr(""), JStr(message), JStr("failed"), JNull, JNull)
  }

  /** `_parse_status`: the response's status object, when it is a dict holding "id". */
  function ParseStatus(data: map<string, Json>): (r: Option<map<string, Json>>)
    ensures r.Some? <==> Get(data, "status").JObj? && "id" in Get(data, "status").fields
    ensures r.Some? ==> Get(data, "status") == JObj(r.value)
  {
    match Get(data, "status")
    case JObj(status) => if "id" in status then Some(status) else None
    case _ => None
  }

  /**
   * `_structured_result`. The status falls back to `{}` when it is falsy;
   * a truthy status that is not a dict would make `.get` raise, so callers
   * must not pass one.
   */
  function StructuredResult(data: map<string, Json>): (r: ExecResult)
    requires !Truthy(Get(data, "status")) || Get(data, "status").JObj?
    ensures Truthy(r.status) && Truthy(r.stdout) == Truthy(Get(data, "stdout"))
    ensures Truthy(Get(data, "stdout")) ==> r.stdout == Get(data, "stdout")
    ensures Truthy(Get(data, "stderr")) ==> r.stderr == Get(data, "stderr")
    ensures !Truthy(Get(data, "stdout")) ==> r.stdout == JStr("")
    ensures !Truthy(Get(data, "stderr")) ==> r.stderr == JStr("")
    ensures Get(data, "status").JObj? && Truthy(Get(Get(data, "status").fields, "description"))
            ==> r.status == Get(Get(data, "status").fields, "description")
    ensures !(Get(data, "status").JObj? && Truthy(Get(Get(data, "status").fields, "description")))
            ==> r.status == JStr("Unknown")
    ensures r.time == Get(data, "time") && r.memory == Get(data, "memory")
  {
    var status := Or(Get(data, "status"), JObj(map[]));
    ExecResult(
      Or(Get(data, "stdout"), JStr("")),
      Or(Get(data, "stderr"), JStr("")),
      Or(Get(status.fields, "description"), JStr("Unknown")),
      Get(data, "time"),
      Get(data, "memory"))
  }

  /** A finished response is reported as failed only when Judge0 itself described it as "failed". */
  lemma StructuredFailedOnlyIfDescribed(data: map<string, Json>, status: map<string, Json>)
    requires ParseStatus(data) == Some(status)
    ensures IsFailed(StructuredResult(data)) <==> Get(status, "description") == JStr("failed")
  {
  }

  // ---------------------------------------------------------------------
  // submit_code
  // ---------------------------------------------------------------------

  /** The JSON payload of the submission request. */
  function SubmitPayload(s: Settings, sourceCode: string, stdin: Option<string>): (p: map<string, Json>)
    ensures "stdin" in p <==> stdin.Some?
    ensures stdin.Some? ==> p["stdin"] == JStr(stdin.value)
    ensures p.Keys == {"language_id", "source_code"} + (if stdin.Some? then {"stdin"} else {})
    ensures p["source_code"] == JStr(sourceCode) && p["language_id"] == JInt(s.languageId)
  {
    var base := map["language_id" := JInt(s.languageId), "source_code" := JStr(sourceCode)];
    if stdin.Some? then base["stdin" := JStr(stdin.value)] else base
  }

  /** Whether an HTTP status code is a success (`raise_for_status` raises for every other code). */
  predicate IsSuccess(code: int) {
    200 <= code < 300
  }

  /**
   * `submit_code`: the token of a successful submission, or the text of the
   * error it raises (a `Judge0ClientError`, or the AttributeError of
   * `data.get` when the body is not a JSON object). `dataText` is the text
   * Python renders for the decoded body in the no-token message.
   */
  function SubmitCode(s: Settings, sourceCode: string, stdin: Option<string>, reply: HttpReply, dataText: string): (r: Result<string, string>)
    ensures !Configured(s) ==> r == Err("JUDGE0_BASE_URL is not configured")
    ensures r.Ok? <==> Configured(s) && reply.Response? && IsSuccess(reply.code) && reply.body.Parsed?
                       && reply.body.value.JObj? && Get(reply.body.value.fields, "token").JStr?
                       && Get(reply.body.value.fields, "token").s != ""
    ensures r.Ok? ==> r.value == Get(reply.body.value.fields, "token").s
  {
    if !Configured(s) then Err("JUDGE0_BASE_URL is not configured")
    else
      match reply
      case TransportError(detail) => Err("HTTP error submitting to Judge0: " + detail)
      case Response(code, reason, body) =>
        if !IsSuccess(code) then Err("HTTP error submitting to Judge0: " + reason)
        else
          match body
          case Unparsable => Err("Invalid JSON response from Judge0 (submit)")
          case Parsed(data) =>
            if !data.JObj? then Err(NoGetMessage(data))
            else
              var token := Get(data.fields, "token");
              if !Truthy(token) || !token.JStr? then Err("Judge0 submit returned no token: " + dataText)
              else Ok(token.s)
  }

  /**
   * Which error `submit_code` raises, by cause: a transport error or a
   * non-success code is wrapped as an HTTP error with its text, a body that
   * is not JSON is an invalid-JSON error, and an object without a non-empty
   * string token is the no-token error quoting the body.
   */
  lemma SubmitErrors(s: Settings, sourceCode: string, stdin: Option<string>, reply: HttpReply, dataText: string)
    requires Configured(s)
    ensures reply.TransportError? ==>
              SubmitCode(s, sourceCode, stdin, reply, dataText) == Err("HTTP error submitting to Judge0: " + reply.detail)
    ensures reply.Response? && !IsSuccess(reply.code) ==>
              SubmitCode(s, sourceCode, stdin, reply, dataText) == Err("HTTP error submitting to Judge0: " + reply.reason)
    ensures reply.Response? && IsSuccess(reply.code) && reply.body.Unparsable? ==>
              SubmitCode(s, sourceCode, stdin, reply, dataText) == Err("Invalid JSON response from Judge0 (submit)")
    ensures reply.Response? && IsSuccess(reply.code) && reply.body.Parsed? && reply.body.value.JObj?
            && !(Get(reply.body.value.fields, "token").JStr? && Get(reply.body.value.fields, "token").s != "") ==>
              SubmitCode(s, sourceCode, stdin, reply, dataText) == Err("Judge0 submit returned no token: " + dataText)
  {
  }

  // ---------------------------------------------------------------------
  // poll_result
  // ---------------------------------------------------------------------

  /** Judge0's "In Queue" and "Processing" ids; `True` equals 1 in Python, and so does `1.0`. */
  predicate IsProcessingId(id: Json) {
    id == JInt(1) || id == JInt(2) || id == JFloat(1.0) || id == JFloat(2.0) || id == JBool(true)
  }

  /** Ids that cannot be looked up in a set (`in` raises TypeError). */
  predicate IsUnhashable(id: Json) {
    id.JArr? || id.JObj?
  }

  /** `min(interval * 1.25, max_interval)`: the next sleep interval. */
  function NextInterval(interval: real, maxInterval: real): real {
    if maxInterval < interval * 1.25 then maxInterval else interval * 1.25
  }

  /** What one poll step decided: stop with a result, or sleep and poll again. */
  datatype Step = Stop(result: ExecResult) | KeepPolling

  /**
   * One poll response handled inside the try block of `poll_result`: HTTP
   * codes first (404, then 5xx, then other 4xx), then JSON decoding, the
   * status object and its id. Sleeping with a negative interval raises a
   * ValueError, which the same handler as a JSON error catches.
   */
  function Classify(reply: HttpReply, interval: real): Step {
    match reply
    case TransportError(detail) => Stop(FailureResult("HTTP error polling Judge0: " + detail))
    case Response(code, _, body) =>
      if code == 404 then Stop(FailureResult("Judge0 token not found (404)"))
      else if code >= 500 then Stop(FailureResult("Judge0 server error (" + DecimalString(code) + ")"))
      else if code >= 400 then Stop(FailureResult("Judge0 HTTP error (" + DecimalString(code) + ")"))
      else
        match body
        case Unparsable => Stop(FailureResult("Invalid JSON response from Judge0 (poll)"))
        case Parsed(data) =>
          if !data.JObj? then Stop(FailureResult("Unexpected error polling Judge0: " + NoGetMessage(data)))
          else
            match ParseStatus(data.fields)
            case None => Stop(FailureResult("Unexpected Judge0 response structure (missing status)"))
            case Some(status) =>
              var id := status["id"];
              if IsUnhashable(id) then
                Stop(FailureResult("Unexpected error polling Judge0: unhashable type: '" + TypeName(id) + "'"))
              else if IsProcessingId(id) then
                if interval < 0.0 then Stop(FailureResult("Invalid JSON response from Judge0 (poll)"))
                else KeepPolling
              else Stop(StructuredResult(data.fields))
  }

  /** A reply that says "still in the queue or processing", so the loop sleeps and polls again. */
  predicate StillProcessing(reply: HttpReply) {
    && reply.Response? && reply.code < 400 && reply.body.Parsed? && reply.body.value.JObj?
    && ParseStatus(reply.body.value.fields).Some?
    && IsProcessingId(ParseStatus(reply.body.value.fields).value["id"])
  }

  /** The sleep interval before the poll that follows `n` processing replies. */
  function IntervalAfter(s: Settings, n: nat): real {
    if n == 0 then s.pollIntervalSeconds
    else NextInterval(IntervalAfter(s, n - 1), s.pollMaxIntervalSeconds)
  }

  /** The clock readings reach past the deadline at or after index `k`. */
  ghost predicate DeadlineReached(s: Settings, start: real, times: seq<real>, k: nat) {
    exists j :: k <= j < |times| && times[j] - start > s.pollTimeoutSeconds
  }

  /**
   * The outcome of the poll loop from iteration `k` on, `interval` being the
   * current sleep interval: the reference the method below is proved against.
   */
  ghost function PollFrom(s: Settings, start: real, times: seq<real>, replies: seq<HttpReply>, k: nat, interval: real): ExecResult
    requires |replies| == |times| && DeadlineReached(s, start, times, k)
    decreases |times| - k
  {
    if times[k] - start > s.pollTimeoutSeconds then FailureResult("Judge0 polling timeout exceeded")
    else
      match Classify(replies[k], interval)
      case Stop(r) => r
      case KeepPolling => PollFrom(s, start, times, replies, k + 1, NextInterval(interval, s.pollMaxIntervalSeconds))
  }

  /** `poll_result` as a function of its inputs. */
  ghost function PollOutcome(s: Settings, start: real, times: seq<real>, replies: seq<HttpReply>): ExecResult
    requires |replies| == |times| && DeadlineReached(s, start, times, 0)
  {
    if !Configured(s) then FailureResult("JUDGE0_BASE_URL is not configured")
    else PollFrom(s, start, times, replies, 0, s.pollIntervalSeconds)
  }

  /**
   * `poll_result`. `start` is the clock when polling begins, `times[k]` the
   * clock at the k-th timeout check and `replies[k]` the reply to the k-th
   * request. The readings must reach past the deadline: the real clock
   * eventually does, and the loop only ends by a final reply or by the clock.
   */
  method PollResult(s: Settings, start: real, times: seq<real>, replies: seq<HttpReply>) returns (r: ExecResult)
    requires |replies| == |times| && DeadlineReached(s, start, times, 0)
    ensures r == PollOutcome(s, start, times, replies)
  {
    if !Configured(s) {
      return FailureResult("JUDGE0_BASE_URL is not configured");
    }
    var interval := s.pollIntervalSeconds;
    var k := 0;
    while true
      invariant 0 <= k < |times| && DeadlineReached(s, start, times, k)
      invariant PollFrom(s, start, times, replies, k, interval) == PollOutcome(s, start, times, replies)
      decreases |times| - k
    {
      if times[k] - start > s.pollTimeoutSeconds {
        return FailureResult("Judge0 polling timeout exceeded");
      }
      var step := Classify(replies[k], interval);
      if step.Stop? {
        return step.result;
      }
      interval := NextInterval(interval, s.pollMaxIntervalSeconds);
      k := k + 1;
    }
  }

  // ---------------------------------------------------------------------
  // Properties of the poll loop
  // ---------------------------------------------------------------------

  function Max(a: real, b: real): real {
    if a < b then b else a
  }

  /**
   * The backoff never exceeds max(initial, max_interval); when the initial
   * interval lies between 0 and the maximum, it never decreases and stays
   * within [initial, max_interval].
   */
  lemma {:induction false} IntervalBounds(s: Settings, n: nat)
    ensures IntervalAfter(s, n) <= Max(s.pollIntervalSeconds, s.pollMaxIntervalSeconds)
    ensures 0.0 <= s.pollIntervalSeconds <= s.pollMaxIntervalSeconds ==>
              s.pollIntervalSeconds <= IntervalAfter(s, n) <= IntervalAfter(s, n + 1) <= s.pollMaxIntervalSeconds
  {
    if n > 0 {
      IntervalBounds(s, n - 1);
    }
  }

  /** The first `k` polls were in time and each reply said "still processing". */
  ghost predicate PolledThrough(s: Settings, start: real, times: seq<real>, replies: seq<HttpReply>, k: nat)
    requires |replies| == |times| && k <= |times|
  {
    forall j :: 0 <= j < k ==>
      times[j] - start <= s.pollTimeoutSeconds && Classify(replies[j], IntervalAfter(s, j)) == KeepPolling
  }

  /** Iteration `k` ends the loop: by the clock, or by its reply. */
  ghost predicate DecidesAt(s: Settings, start: real, times: seq<real>, replies: seq<HttpReply>, k: nat)
    requires |replies| == |times| && k < |times|
  {
    times[k] - start > s.pollTimeoutSeconds || Classify(replies[k], IntervalAfter(s, k)).Stop?
  }

  /** What iteration `k` returns when it ends the loop. */
  ghost function Decision(s: Settings, start: real, times: seq<real>, replies: seq<HttpReply>, k: nat): ExecResult
    requires |replies| == |times| && k < |times| && DecidesAt(s, start, times, replies, k)
  {
    if times[k] - start > s.pollTimeoutSeconds then FailureResult("Judge0 polling timeout exceeded")
    else Classify(replies[k], IntervalAfter(s, k)).result
  }

  lemma {:induction false} PollFromDecision(s: Settings, start: real, times: seq<real>, replies: seq<HttpReply>, i: nat, k: nat)
    requires |replies| == |times| && i <= k < |times| && DeadlineReached(s, start, times, i)
    requires PolledThrough(s, start, times, replies, k) && DecidesAt(s, start, times, replies, k)
    ensures PollFrom(s, start, times, replies, i, IntervalAfter(s, i)) == Decision(s, start, times, replies, k)
    decreases k - i
  {
    if i < k {
      PollFromKeepsPolling(s, start, times, replies, i, k);
      PollFromDecision(s, start, times, replies, i + 1, k);
    } else {
      PollFromDecides(s, start, times, replies, k);
    }
  }

  /** A clock reading still within the deadline leaves the reading past it further on. */
  lemma DeadlineAdvances(s: Settings, start: real, times: seq<real>, i: nat)
    requires i < |times| && DeadlineReached(s, start, times, i) && times[i] - start <= s.pollTimeoutSeconds
    ensures DeadlineReached(s, start, times, i + 1)
  {
    var j :| i <= j < |times| && times[j] - start > s.pollTimeoutSeconds;
    assert j != i;
  }

  /** A deciding iteration returns its decision. */
  lemma PollFromDecides(s: Settings, start: real, times: seq<real>, replies: seq<HttpReply>, k: nat)
    requires |replies| == |times| && k < |times| && DeadlineReached(s, start, times, k)
    requires DecidesAt(s, start, times, replies, k)
    ensures PollFrom(s, start, times, replies, k, IntervalAfter(s, k)) == Decision(s, start, times, replies, k)
  {
  }

  /** An in-time "processing" reply at iteration `i` hands the loop on to iteration `i + 1`. */
  lemma PollFromKeepsPolling(s: Settings, start: real, times: seq<real>, replies: seq<HttpReply>, i: nat, k: nat)
    requires |replies| == |times| && i < k < |times| && DeadlineReached(s, start, times, i)
    requires PolledThrough(s, start, times, replies, k)
    ensures DeadlineReached(s, start, times, i + 1)
    ensures PollFrom(s, start, times, replies, i, IntervalAfter(s, i))
            == PollFrom(s, start, times, replies, i + 1, IntervalAfter(s, i + 1))
  {
    assert times[i] - start <= s.pollTimeoutSeconds && Classify(replies[i], IntervalAfter(s, i)) == KeepPolling;
    DeadlineAdvances(s, start, times, i);
  }

  /**
   * The loop returns exactly what its first deciding iteration returns:
   * the timeout failure, issuing no further request, when the clock is past
   * the deadline; otherwise the classification of that reply, slept for
   * with the backed-off interval.
   */
  lemma PollStopsAtFirstDecision(s: Settings, start: real, times: seq<real>, replies: seq<HttpReply>, k: nat)
    requires |replies| == |times| && DeadlineReached(s, start, times, 0) && Configured(s)
    requires k < |times| && PolledThrough(s, start, times, replies, k) && DecidesAt(s, start, times, replies, k)
    ensures PollOutcome(s, start, times, replies) == Decision(s, start, times, replies, k)
    ensures times[k] - start > s.pollTimeoutSeconds ==>
              PollOutcome(s, start, times, replies) == FailureResult("Judge0 polling timeout exceeded")
  {
    PollFromDecision(s, start, times, replies, 0, k);
  }

  lemma {:induction false} DecisionFrom(s: Settings, start: real, times: seq<real>, replies: seq<HttpReply>, i: nat)
    requires |replies| == |times| && i < |times| && DeadlineReached(s, start, times, i)
    requires PolledThrough(s, start, times, replies, i)
    ensures exists k :: i <= k < |times| && PolledThrough(s, start, times, replies, k) && DecidesAt(s, start, times, replies, k)
    decreases |times| - i
  {
    if !DecidesAt(s, start, times, replies, i) {
      DeadlineAdvances(s, start, times, i);
      DecisionFrom(s, start, times, replies, i + 1);
    }
  }

  /** A reply that ends polling with Judge0's own structured result. */
  predicate Finished(reply: HttpReply) {
    && reply.Response? && reply.code < 400 && reply.body.Parsed? && reply.body.value.JObj?
    && ParseStatus(reply.body.value.fields).Some?
    && !IsProcessingId(ParseStatus(reply.body.value.fields).value["id"])
    && !IsUnhashable(ParseStatus(reply.body.value.fields).value["id"])
  }

  /**
   * `poll_result` never raises and keeps polling only through "processing"
   * replies: its result is a failure result, or the structured result of the
   * first reply whose status id is not 1 or 2, every earlier reply having
   * been a processing one.
   */
  lemma PollFailsOrFinishes(s: Settings, start: real, times: seq<real>, replies: seq<HttpReply>)
    requires |replies| == |times| && DeadlineReached(s, start, times, 0)
    ensures var r := PollOutcome(s, start, times, replies);
            IsFailed(r) ||
            exists k :: 0 <= k < |times| && PolledThrough(s, start, times, replies, k) && Finished(replies[k])
                        && r == StructuredResult(replies[k].body.value.fields)
  {
    if Configured(s) {
      DecisionFrom(s, start, times, replies, 0);
      var k :| 0 <= k < |times| && PolledThrough(s, start, times, replies, k) && DecidesAt(s, start, times, replies, k);
      PollStopsAtFirstDecision(s, start, times, replies, k);
      DecisionFailsOrFinishes(s, start, times, replies, k);
    }
  }

  /** A deciding iteration returns a failure result, or the structured result of a finished reply. */
  lemma DecisionFailsOrFinishes(s: Settings, start: real, times: seq<real>, replies: seq<HttpReply>, k: nat)
    requires |replies| == |times| && k < |times| && DecidesAt(s, start, times, replies, k)
    ensures var r := Decision(s, start, times, replies, k);
            IsFailed(r) || (Finished(replies[k]) && r == StructuredResult(replies[k].body.value.fields))
  {
    if times[k] - start <= s.pollTimeoutSeconds {
      ClassifyStops(replies[k], IntervalAfter(s, k));
    }
  }

  /** A reply that stops the loop yields a failure result, or the structured result of a finished reply. */
  lemma ClassifyStops(reply: HttpReply, interval: real)
    requires Classify(reply, interval).Stop?
    ensures var r := Classify(reply, interval).result;
            IsFailed(r) || (Finished(reply) && r == StructuredResult(reply.body.value.fields))
  {
  }

  /** Every reply passed through while polling carried a status id of 1 or 2. */
  lemma PolledRepliesWereProcessing(s: Settings, start: real, times: seq<real>, replies: seq<HttpReply>, k: nat, j: nat)
    requires |replies| == |times| && k <= |times| && PolledThrough(s, start, times, replies, k) && j < k
    ensures StillProcessing(replies[j]) && times[j] - start <= s.pollTimeoutSeconds
  {
    assert Classify(replies[j], IntervalAfter(s, j)) == KeepPolling;
  }

  /**
   * HTTP error codes are classified in a fixed order: 404 first, then any
   * code of 500 or more, then the remaining 4xx codes; each gives a failure.
   */
  lemma HttpErrorCodesFail(code: int, reason: string, body: Body, interval: real)
    requires code >= 400
    ensures Classify(Response(code, reason, body), interval).Stop?
    ensures IsFailed(Classify(Response(code, reason, body), interval).result)
    ensures Classify(Response(code, reason, body), interval).result.stderr == JStr("Judge0 token not found (404)") <==> code == 404
    ensures code >= 500 ==>
              Classify(Response(code, reason, body), interval).result.stderr == JStr("Judge0 server error (" + DecimalString(code) + ")")
    ensures code < 500 && code != 404 ==>
              Classify(Response(code, reason, body), interval).result.stderr == JStr("Judge0 HTTP error (" + DecimalString(code) + ")")
  {
    var r := Classify(Response(code, reason, body), interval).result;
    if code != 404 {
      assert r.stderr.s[7] != "Judge0 token not found (404)"[7];
    }
  }

  /** A reply without a dict status holding "id" ends polling with the "missing status" failure. */
  lemma MissingStatusFails(code: int, reason: string, data: map<string, Json>, interval: real)
    requires code < 400 && ParseStatus(data).None?
    ensures Classify(Response(code, reason, Parsed(JObj(data))), interval)
            == Stop(FailureResult("Unexpected Judge0 response structure (missing status)"))
  {
  }
}
