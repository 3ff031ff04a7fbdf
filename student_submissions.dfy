/**
 * The upload endpoint `submit_code`: an ordered chain of checks on the
 * assignment and the uploaded file (published, `.py` extension, MIME type,
 * size, UTF-8), then one queued submission and one grading task enqueued.
 * The checks are a function; the insert and the enqueue are a method over
 * the same store the grading task works on.
 */
module StudentSubmissions {
  import opened Wrappers
  import opened Models
  import opened PyStr
  import opened Utf8
  import opened Http
  import GradingTask

  /** The 1 MB hard limit on an uploaded file. */
  const MaxFileSizeBytes := 1048576

  /** The content types accepted for Python source. */
  const AllowedMimeTypes: set<string> :=
    {"text/x-python", "text/x-python-script", "text/plain", "application/x-python-code", "application/octet-stream"}

  /** What the multipart upload carries: the client's file name and content type, if sent, and the bytes. */
  datatype Upload = Upload(filename: Option<string>, contentType: Option<string>, content: seq<byte>)

  /** What the checks let through: the file name as stored and the decoded source text. */
  datatype Accepted = Accepted(filename: string, codeText: string)

  datatype SubmissionResponse = SubmissionResponse(submissionId: int, status: SubmissionStatus)

  /** `value or ""` on an optional string. */
  function OrEmpty(s: Option<string>): (r: string)
    ensures s.Some? ==> r == s.value
    ensures s.None? ==> r == ""
  {
    if s.Some? then s.value else ""
  }

  /** `s.rfind(c)`: the last index holding `c`, or -1. */
  function LastIndex(s: string, c: char): (r: int)
    ensures -1 <= r < |s|
    ensures r >= 0 ==> s[r] == c
    ensures forall k :: r < k < |s| ==> s[k] != c
  {
    if s == [] then -1
    else if s[|s| - 1] == c then |s| - 1
    else LastIndex(s[..|s| - 1], c)
  }

  /**
   * `os.path.splitext` on a POSIX path: the extension runs from the last
   * dot of the last path segment, provided something other than dots
   * precedes that dot within the segment; otherwise it is empty.
   */
  function SplitExt(p: string): (r: (string, string))
    ensures r.0 + r.1 == p
    ensures r.1 == [] || (r.1[0] == '.' && '/' !in r.1 && '.' !in r.1[1..])
  {
    var sep := LastIndex(p, '/');
    var dot := LastIndex(p, '.');
    if dot > sep && exists k :: sep < k < dot && p[k] != '.' then (p[..dot], p[dot..]) else (p, "")
  }

  /** The extension check: `ext.lower() == ".py"`. */
  predicate HasPyExtension(filename: string) {
    Lower(SplitExt(filename).1) == ".py"
  }

  /** The name ends in ".py" in any letter case. */
  predicate EndsWithPy(name: string) {
    |name| >= 3 && Lower(name[|name| - 3..]) == ".py"
  }

  /** Some character other than a dot precedes the last three within the last path segment. */
  predicate StemHasNonDot(name: string) {
    exists k :: 0 <= k < |name| - 3 && name[k] != '.' && '/' !in name[k..]
  }

  /**
   * A file name passes the extension check exactly when it ends in ".py"
   * (any case) and its last segment has a stem that is not only dots:
   * "a.py" and "dir/A.PY" pass, ".py", "..py" and "dir/.py" do not.
   */
  lemma PyExtensionIff(name: string)
    ensures HasPyExtension(name) <==> EndsWithPy(name) && StemHasNonDot(name)
  {
    var sep := LastIndex(name, '/');
    var dot := LastIndex(name, '.');
    var ext := SplitExt(name).1;
    if HasPyExtension(name) {
      assert |ext| == 3 && ext != [];
      assert dot > sep && exists k :: sep < k < dot && name[k] != '.';
      assert ext == name[dot..] && dot == |name| - 3;
      var k :| sep < k < dot && name[k] != '.';
      assert '/' !in name[k..] by {
        forall j | 0 <= j < |name| - k ensures name[k..][j] != '/' {
          assert name[k..][j] == name[k + j];
        }
      }
    }
    if EndsWithPy(name) && StemHasNonDot(name) {
      var n := |name|;
      assert LowerChar(name[n - 3]) == '.' && LowerChar(name[n - 2]) == 'p' && LowerChar(name[n - 1]) == 'y';
      assert dot == n - 3;
      var k :| 0 <= k < n - 3 && name[k] != '.' && '/' !in name[k..];
      assert name[k..][n - 3 - k] == name[n - 3];
      assert sep < k;
      assert ext == name[n - 3..];
    }
  }

  /** "a.py" passes the extension check. */
  lemma PyExtensionAccepted()
    ensures HasPyExtension("a.py")
  {
    var n := "a.py";
    assert Lower(n[1..]) == ".py" by {
      assert n[1..] == ".py";
    }
    assert n[0] != '.' && '/' !in n[0..];
    PyExtensionIff(n);
  }

  /** A file named just ".py" has no extension, so it is refused. */
  lemma BareDotPyRefused()
    ensures !HasPyExtension(".py")
  {
    PyExtensionIff(".py");
  }

  /** The media type the check compares: the text before the first ';', stripped and lower-cased. */
  function MediaType(contentType: Option<string>): (r: string)
    ensures ';' !in r
  {
    Lower(Strip(Before(OrEmpty(contentType), ';')))
  }

  /** Parameters after the first ';' (a charset, say) never change the media type. */
  lemma MediaTypeIgnoresParameters(t: string, params: string)
    requires ';' !in t
    ensures MediaType(Some(t + ";" + params)) == MediaType(Some(t))
  {
    var s := t + ";" + params;
    assert s[|t|] == ';';
    assert Before(s, ';') == t;
    assert Before(t, ';') == t;
  }

  /** `file.read(n)`: at most the first `n` bytes. */
  function Read(content: seq<byte>, n: nat): (r: seq<byte>)
    ensures |r| <= n && |r| <= |content| && r == content[..|r|]
    ensures |content| <= n ==> r == content
  {
    if |content| <= n then content else content[..n]
  }

  /**
   * Reading one byte past the limit is enough: the read is over the limit
   * exactly when the whole content is, and otherwise it is the whole content.
   */
  lemma ReadDetectsOversize(content: seq<byte>)
    ensures |Read(content, MaxFileSizeBytes + 1)| > MaxFileSizeBytes <==> |content| > MaxFileSizeBytes
    ensures |content| <= MaxFileSizeBytes ==> Read(content, MaxFileSizeBytes + 1) == content
  {
  }

  /** The assignment query: the id names a published assignment. */
  predicate Published(assignments: map<int, Assignment>, assignmentId: int) {
    assignmentId in assignments && assignments[assignmentId].isPublished
  }

  const AssignmentNotFound := HttpError(404, "Assignment not found")
  const NotPython := HttpError(422, "Only .py files are accepted")
  const TooLarge := HttpError(413, "File too large. Maximum allowed size is 1 MB.")
  const NotUtf8 := HttpError(422, "File must be valid UTF-8 encoded text.")

  function InvalidType(mediaType: string): HttpError {
    HttpError(422, "Invalid file type '" + mediaType + "'. Only Python source files are accepted.")
  }

  /** The checks of `submit_code` in their order; the first that fails decides the error. */
  function CheckUpload(assignments: map<int, Assignment>, assignmentId: int, upload: Upload): (r: Result<Accepted, HttpError>)
    ensures r.Ok? ==> r.value.filename == OrEmpty(upload.filename) && Encode(r.value.codeText) == upload.content
    ensures r.Err? ==> r.error.statusCode in {404, 413, 422}
  {
    if !Published(assignments, assignmentId) then Err(AssignmentNotFound)
    else
      var filename := OrEmpty(upload.filename);
      if !HasPyExtension(filename) then Err(NotPython)
      else
        var mediaType := MediaType(upload.contentType);
        if mediaType !in AllowedMimeTypes then Err(InvalidType(mediaType))
        else
          var contents := Read(upload.content, MaxFileSizeBytes + 1);
          if |contents| > MaxFileSizeBytes then Err(TooLarge)
          else match Decode(contents)
            case None => Err(NotUtf8)
            case Some(text) =>
              ReadDetectsOversize(upload.content);
              assert contents == upload.content;
              EncodeDecode(contents);
              Ok(Accepted(filename, text))
  }

  /** Every file-level requirement on an upload, stated on the upload itself. */
  predicate FileAcceptable(upload: Upload) {
    && HasPyExtension(OrEmpty(upload.filename))
    && MediaType(upload.contentType) in AllowedMimeTypes
    && |upload.content| <= MaxFileSizeBytes
    && Decode(upload.content).Some?
  }

  /**
   * An upload is accepted exactly when the assignment is published and the
   * file meets every requirement, and then the stored text is the decoded
   * content.
   */
  lemma AcceptedIff(assignments: map<int, Assignment>, assignmentId: int, upload: Upload)
    ensures CheckUpload(assignments, assignmentId, upload).Ok?
            <==> Published(assignments, assignmentId) && FileAcceptable(upload)
    ensures CheckUpload(assignments, assignmentId, upload).Ok?
            ==> Some(CheckUpload(assignments, assignmentId, upload).value.codeText) == Decode(upload.content)
  {
    ReadDetectsOversize(upload.content);
  }

  /** A missing or unpublished assignment is reported before anything about the file is looked at. */
  lemma UnpublishedRejectedFirst(assignments: map<int, Assignment>, assignmentId: int, upload: Upload, other: Upload)
    requires !Published(assignments, assignmentId)
    ensures CheckUpload(assignments, assignmentId, upload) == CheckUpload(assignments, assignmentId, other) == Err(AssignmentNotFound)
  {
  }

  /** A name without a ".py" extension is a 422, whatever its content type and content. */
  lemma ExtensionRejected(assignments: map<int, Assignment>, assignmentId: int, upload: Upload)
    requires Published(assignments, assignmentId) && !HasPyExtension(OrEmpty(upload.filename))
    ensures CheckUpload(assignments, assignmentId, upload) == Err(NotPython)
  {
  }

  /** A ".py" file whose media type is not an allowed one is a 422 naming that media type, whatever its content. */
  lemma MediaTypeRejected(assignments: map<int, Assignment>, assignmentId: int, upload: Upload)
    requires Published(assignments, assignmentId) && HasPyExtension(OrEmpty(upload.filename))
    requires MediaType(upload.contentType) !in AllowedMimeTypes
    ensures CheckUpload(assignments, assignmentId, upload) == Err(InvalidType(MediaType(upload.contentType)))
    ensures CheckUpload(assignments, assignmentId, upload).error.statusCode == 422
  {
  }

  /** The size limit is inclusive: exactly 1 MB of valid text passes, one byte more is a 413. */
  lemma SizeLimitBoundary(assignments: map<int, Assignment>, assignmentId: int, upload: Upload)
    requires Published(assignments, assignmentId) && HasPyExtension(OrEmpty(upload.filename))
    requires MediaType(upload.contentType) in AllowedMimeTypes
    ensures |upload.content| == MaxFileSizeBytes && Decode(upload.content).Some?
            ==> CheckUpload(assignments, assignmentId, upload).Ok?
    ensures |upload.content| == MaxFileSizeBytes + 1 ==> CheckUpload(assignments, assignmentId, upload) == Err(TooLarge)
  {
    ReadDetectsOversize(upload.content);
  }

  /** Content within the limit that is not UTF-8 is a 422, whatever else holds. */
  lemma InvalidUtf8Rejected(assignments: map<int, Assignment>, assignmentId: int, upload: Upload)
    requires Published(assignments, assignmentId) && HasPyExtension(OrEmpty(upload.filename))
    requires MediaType(upload.contentType) in AllowedMimeTypes && |upload.content| <= MaxFileSizeBytes
    requires Decode(upload.content).None?
    ensures CheckUpload(assignments, assignmentId, upload) == Err(NotUtf8)
  {
    ReadDetectsOversize(upload.content);
  }

  /** The row `submit_code` inserts: queued, not yet linked to a run. */
  function QueuedSubmission(id: int, assignmentId: int, studentId: int, accepted: Accepted): (r: Submission)
    ensures r.status == Queued && r.latestGradingRunId.None?
    ensures r.id == id && r.assignmentId == assignmentId && r.studentId == studentId
    ensures r.filename == Some(accepted.filename) && r.codeText == accepted.codeText
  {
    Submission(id, assignmentId, studentId, Some(accepted.filename), accepted.codeText, Queued, None)
  }

  /** The grading queue: the submission ids handed to `grade_submission.delay`, in order. */
  class GradingQueue {
    var enqueued: seq<int>

    constructor ()
      ensures enqueued == []
    {
      enqueued := [];
    }

    method Delay(submissionId: int)
      modifies this
      ensures enqueued == old(enqueued) + [submissionId]
    {
      enqueued := enqueued + [submissionId];
    }
  }

  /**
   * `submit_code`. `newId` is the key the database assigns to the inserted
   * row. A rejected upload changes nothing; an accepted one adds exactly
   * one queued submission and enqueues its grading exactly once.
   */
  method SubmitCode(store: GradingTask.Store, queue: GradingQueue, assignmentId: int, studentId: int, upload: Upload, newId: int)
      returns (r: Result<SubmissionResponse, HttpError>)
    requires newId !in store.submissions
    modifies store`submissions, queue
    ensures match CheckUpload(store.assignments, assignmentId, upload)
      case Err(e) =>
        r == Err(e) && store.submissions == old(store.submissions) && queue.enqueued == old(queue.enqueued)
      case Ok(accepted) =>
        && r == Ok(SubmissionResponse(newId, Queued))
        && store.submissions == old(store.submissions)[newId := QueuedSubmission(newId, assignmentId, studentId, accepted)]
        && queue.enqueued == old(queue.enqueued) + [newId]
  {
    var checked := CheckUpload(store.assignments, assignmentId, upload);
    if checked.Err? {
      return Err(checked.error);
    }
    var submission := QueuedSubmission(newId, assignmentId, studentId, checked.value);
    store.submissions := store.submissions[newId := submission];
    queue.Delay(newId);
    r := Ok(SubmissionResponse(newId, submission.status));
  }
}
