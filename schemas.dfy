/**
 * The request bodies that create or change what grading reads: the field
 * bounds and defaults of `AssignmentCreate`, `AssignmentUpdate`,
 * `IOTestCaseCreate` and `UnitTestSpecUpsert`, and the weight-sum check
 * that runs after the fields of a create have validated.
 *
 * A field of an input is `None` when the body leaves it out. Every field
 * is checked and each failing field reports one error, in declaration
 * order; the model validator runs only when no field failed.
 */
module Schemas {
  import opened Wrappers
  import opened Models
  import opened PyStr
  import opened GradingProperties

  /** Why a field was refused. */
  datatype ErrorKind =
    | Missing
    | TooShort(minLength: nat)
    | TooLong(maxLength: nat)
    | BelowMin(ge: int)
    | NotAbove(gt: int)
    | AboveMax(le: int)
    | ValueError(message: string)

  datatype FieldError = FieldError(field: string, kind: ErrorKind)

  /** The errors of a string value under `min_length` and an optional `max_length`. */
  function StrErrors(field: string, s: string, minLength: nat, maxLength: Option<nat>): seq<FieldError> {
    if |s| < minLength then [FieldError(field, TooShort(minLength))]
    else if maxLength.Some? && |s| > maxLength.value then [FieldError(field, TooLong(maxLength.value))]
    else []
  }

  /** The errors of an integer under optional `ge`, `gt` and `le` bounds. */
  function IntErrors(field: string, n: int, ge: Option<int>, gt: Option<int>, le: Option<int>): seq<FieldError> {
    if ge.Some? && n < ge.value then [FieldError(field, BelowMin(ge.value))]
    else if gt.Some? && n <= gt.value then [FieldError(field, NotAbove(gt.value))]
    else if le.Some? && n > le.value then [FieldError(field, AboveMax(le.value))]
    else []
  }

  /** A field that must be given. */
  function RequiredStr(field: string, v: Option<string>, minLength: nat, maxLength: Option<nat>): seq<FieldError> {
    if v.None? then [FieldError(field, Missing)] else StrErrors(field, v.value, minLength, maxLength)
  }

  function RequiredInt(field: string, v: Option<int>, ge: Option<int>, gt: Option<int>): seq<FieldError> {
    if v.None? then [FieldError(field, Missing)] else IntErrors(field, v.value, ge, gt, None)
  }

  /** A field that may be left out; when given, its bounds apply. */
  function OptionalStr(field: string, v: Option<string>, minLength: nat, maxLength: Option<nat>): seq<FieldError> {
    if v.None? then [] else StrErrors(field, v.value, minLength, maxLength)
  }

  function OptionalInt(field: string, v: Option<int>, ge: Option<int>, gt: Option<int>, le: Option<int>): seq<FieldError> {
    if v.None? then [] else IntErrors(field, v.value, ge, gt, le)
  }

  function Default<T>(v: Option<T>, d: T): T {
    if v.Some? then v.value else d
  }

  // ---------------------------------------------------------------------
  // Assignments
  // ---------------------------------------------------------------------

  const MaxTitleLength := 255
  const MaxLanguageLength := 50
  const DefaultLanguage := "python"

  datatype AssignmentInput = AssignmentInput(
    title: Option<string>, description: Option<string>, instructions: Option<string>,
    language: Option<string>, isPublished: Option<bool>,
    weightIo: Option<int>, weightUnit: Option<int>, weightStatic: Option<int>,
    maxRuntimeMs: Option<int>, maxMemoryKb: Option<int>)

  /** A validated `AssignmentCreate`. */
  datatype AssignmentCreate = AssignmentCreate(
    title: string, description: string, instructions: Option<string>, language: string, isPublished: bool,
    weightIo: int, weightUnit: int, weightStatic: int, maxRuntimeMs: int, maxMemoryKb: int)

  /** The field errors of a create body, in field order. */
  function CreateFieldErrors(b: AssignmentInput): seq<FieldError> {
    RequiredStr("title", b.title, 1, Some(MaxTitleLength))
    + RequiredStr("description", b.description, 1, None)
    + OptionalStr("language", b.language, 0, Some(MaxLanguageLength))
    + RequiredInt("weight_io", b.weightIo, Some(0), None)
    + RequiredInt("weight_unit", b.weightUnit, Some(0), None)
    + RequiredInt("weight_static", b.weightStatic, Some(0), None)
    + RequiredInt("max_runtime_ms", b.maxRuntimeMs, None, Some(0))
    + RequiredInt("max_memory_kb", b.maxMemoryKb, None, Some(0))
  }

  /** The message `weights_sum_to_100` raises. */
  function WeightSumMessage(total: nat): string {
    "weight_io + weight_unit + weight_static must equal 100, got " + DecimalString(total)
  }

  /** `AssignmentCreate(**body)`: the fields with their defaults, then the weight-sum check. */
  function ValidateAssignmentCreate(b: AssignmentInput): (r: Result<AssignmentCreate, seq<FieldError>>)
    ensures r.Err? ==> r.error != []
  {
    var errors := CreateFieldErrors(b);
    if errors != [] then Err(errors)
    else
      var a := AssignmentCreate(b.title.value, b.description.value, b.instructions,
                                Default(b.language, DefaultLanguage), Default(b.isPublished, false),
                                b.weightIo.value, b.weightUnit.value, b.weightStatic.value,
                                b.maxRuntimeMs.value, b.maxMemoryKb.value);
      var total := a.weightIo + a.weightUnit + a.weightStatic;
      if total != 100 then Err([FieldError("", ValueError(WeightSumMessage(total)))])
      else Ok(a)
  }

  /** Every field bound of the create schema, on a given body. */
  predicate CreateFieldsValid(b: AssignmentInput) {
    && b.title.Some? && 1 <= |b.title.value| <= MaxTitleLength
    && b.description.Some? && |b.description.value| >= 1
    && (b.language.Some? ==> |b.language.value| <= MaxLanguageLength)
    && b.weightIo.Some? && b.weightIo.value >= 0
    && b.weightUnit.Some? && b.weightUnit.value >= 0
    && b.weightStatic.Some? && b.weightStatic.value >= 0
    && b.maxRuntimeMs.Some? && b.maxRuntimeMs.value > 0
    && b.maxMemoryKb.Some? && b.maxMemoryKb.value > 0
  }

  /** The bounds of a validated create, stated on the value. */
  predicate AssignmentCreateValid(a: AssignmentCreate) {
    && 1 <= |a.title| <= MaxTitleLength && |a.description| >= 1 && |a.language| <= MaxLanguageLength
    && a.weightIo >= 0 && a.weightUnit >= 0 && a.weightStatic >= 0
    && a.weightIo + a.weightUnit + a.weightStatic == 100
    && a.maxRuntimeMs > 0 && a.maxMemoryKb > 0
  }

  /** The field checks report nothing exactly when every bound holds. */
  lemma CreateFieldErrorsIff(b: AssignmentInput)
    ensures CreateFieldErrors(b) == [] <==> CreateFieldsValid(b)
  {
  }

  /**
   * A create body is accepted exactly when every field bound holds and the
   * three weights sum to 100; the value then keeps the given fields, with
   * language "python" and unpublished by default. When the fields are
   * valid but the sum is not, the one error is the sum message with the
   * actual total.
   */
  lemma AssignmentCreateIff(b: AssignmentInput)
    ensures ValidateAssignmentCreate(b).Ok?
            <==> CreateFieldsValid(b) && b.weightIo.value + b.weightUnit.value + b.weightStatic.value == 100
    ensures ValidateAssignmentCreate(b).Ok? ==>
              var a := ValidateAssignmentCreate(b).value;
              && AssignmentCreateValid(a)
              && Some(a.title) == b.title && Some(a.description) == b.description && a.instructions == b.instructions
              && a.language == (if b.language.Some? then b.language.value else "python")
              && a.isPublished == (b.isPublished == Some(true))
              && Some(a.weightIo) == b.weightIo && Some(a.weightUnit) == b.weightUnit && Some(a.weightStatic) == b.weightStatic
              && Some(a.maxRuntimeMs) == b.maxRuntimeMs && Some(a.maxMemoryKb) == b.maxMemoryKb
    ensures CreateFieldsValid(b) && b.weightIo.value + b.weightUnit.value + b.weightStatic.value != 100 ==>
              var total := b.weightIo.value + b.weightUnit.value + b.weightStatic.value;
              total >= 0 && ValidateAssignmentCreate(b) == Err([FieldError("", ValueError(WeightSumMessage(total)))])
  {
    CreateFieldErrorsIff(b);
  }

  /** A created assignment, once stored, meets the table's CHECK constraints. */
  function StoredAssignment(a: AssignmentCreate, id: int, instructorId: int): Assignment {
    Assignment(id, instructorId, a.title, a.description, a.instructions, a.language, a.isPublished,
               a.weightIo, a.weightUnit, a.weightStatic, a.maxRuntimeMs, a.maxMemoryKb)
  }

  lemma CreateMeetsTableConstraints(b: AssignmentInput, id: int, instructorId: int)
    requires ValidateAssignmentCreate(b).Ok?
    ensures AssignmentConstraints(StoredAssignment(ValidateAssignmentCreate(b).value, id, instructorId))
  {
    AssignmentCreateIff(b);
  }

  /**
   * The weights a create accepts are exactly those the `assignments` CHECK
   * constraints admit: with every other field valid, a create succeeds iff
   * the row it would store meets the constraints.
   */
  lemma CreateWeightsAreTableWeights(b: AssignmentInput, id: int, instructorId: int)
    requires b.title.Some? && 1 <= |b.title.value| <= MaxTitleLength
    requires b.description.Some? && |b.description.value| >= 1
    requires b.language.Some? ==> |b.language.value| <= MaxLanguageLength
    requires b.maxRuntimeMs.Some? && b.maxRuntimeMs.value > 0 && b.maxMemoryKb.Some? && b.maxMemoryKb.value > 0
    requires b.weightIo.Some? && b.weightUnit.Some? && b.weightStatic.Some?
    ensures ValidateAssignmentCreate(b).Ok?
            <==> AssignmentConstraints(Assignment(id, instructorId, b.title.value, b.description.value, b.instructions,
                                                  Default(b.language, DefaultLanguage), Default(b.isPublished, false),
                                                  b.weightIo.value, b.weightUnit.value, b.weightStatic.value,
                                                  b.maxRuntimeMs.value, b.maxMemoryKb.value))
  {
    AssignmentCreateIff(b);
  }

  /** A validated `AssignmentUpdate`: every field optional. */
  datatype AssignmentUpdate = AssignmentUpdate(
    title: Option<string>, description: Option<string>, instructions: Option<string>,
    language: Option<string>, isPublished: Option<bool>,
    weightIo: Option<int>, weightUnit: Option<int>, weightStatic: Option<int>,
    maxRuntimeMs: Option<int>, maxMemoryKb: Option<int>)

  function UpdateFieldErrors(b: AssignmentInput): seq<FieldError> {
    OptionalStr("title", b.title, 1, Some(MaxTitleLength))
    + OptionalStr("description", b.description, 1, None)
    + OptionalStr("language", b.language, 0, Some(MaxLanguageLength))
    + OptionalInt("weight_io", b.weightIo, Some(0), None, None)
    + OptionalInt("weight_unit", b.weightUnit, Some(0), None, None)
    + OptionalInt("weight_static", b.weightStatic, Some(0), None, None)
    + OptionalInt("max_runtime_ms", b.maxRuntimeMs, None, Some(0), None)
    + OptionalInt("max_memory_kb", b.maxMemoryKb, None, Some(0), None)
  }

  /** `AssignmentUpdate(**body)`: the same per-field bounds, no model validator. */
  function ValidateAssignmentUpdate(b: AssignmentInput): (r: Result<AssignmentUpdate, seq<FieldError>>)
    ensures r.Err? ==> r.error != []
  {
    var errors := UpdateFieldErrors(b);
    if errors != [] then Err(errors)
    else Ok(AssignmentUpdate(b.title, b.description, b.instructions, b.language, b.isPublished,
                             b.weightIo, b.weightUnit, b.weightStatic, b.maxRuntimeMs, b.maxMemoryKb))
  }

  /** The create bounds, each applying only to a field that is given. */
  predicate UpdateFieldsValid(b: AssignmentInput) {
    && (b.title.Some? ==> 1 <= |b.title.value| <= MaxTitleLength)
    && (b.description.Some? ==> |b.description.value| >= 1)
    && (b.language.Some? ==> |b.language.value| <= MaxLanguageLength)
    && (b.weightIo.Some? ==> b.weightIo.value >= 0)
    && (b.weightUnit.Some? ==> b.weightUnit.value >= 0)
    && (b.weightStatic.Some? ==> b.weightStatic.value >= 0)
    && (b.maxRuntimeMs.Some? ==> b.maxRuntimeMs.value > 0)
    && (b.maxMemoryKb.Some? ==> b.maxMemoryKb.value > 0)
  }

  /**
   * An update is accepted exactly when each given field is within the
   * create bounds, whatever the weights add up to, and keeps every field as
   * given.
   */
  lemma AssignmentUpdateIff(b: AssignmentInput)
    ensures ValidateAssignmentUpdate(b).Ok? <==> UpdateFieldsValid(b)
    ensures ValidateAssignmentUpdate(b).Ok? ==>
              var u := ValidateAssignmentUpdate(b).value;
              && u.title == b.title && u.description == b.description && u.instructions == b.instructions
              && u.language == b.language && u.isPublished == b.isPublished
              && u.weightIo == b.weightIo && u.weightUnit == b.weightUnit && u.weightStatic == b.weightStatic
              && u.maxRuntimeMs == b.maxRuntimeMs && u.maxMemoryKb == b.maxMemoryKb
  {
  }

  /** Every body a create accepts, an update accepts too; an update accepts weights a create refuses. */
  lemma UpdateSkipsSumCheck(b: AssignmentInput)
    ensures ValidateAssignmentCreate(b).Ok? ==> ValidateAssignmentUpdate(b).Ok?
    ensures var w := AssignmentInput(None, None, None, None, None, Some(50), Some(0), Some(0), None, None);
            ValidateAssignmentUpdate(w).Ok? && ValidateAssignmentCreate(w.(title := Some("t"), description := Some("d"),
              maxRuntimeMs := Some(1000), maxMemoryKb := Some(65536))).Err?
  {
    AssignmentCreateIff(b);
    AssignmentUpdateIff(b);
    var w := AssignmentInput(None, None, None, None, None, Some(50), Some(0), Some(0), None, None);
    AssignmentUpdateIff(w);
    AssignmentCreateIff(w.(title := Some("t"), description := Some("d"), maxRuntimeMs := Some(1000), maxMemoryKb := Some(65536)));
  }

  // ---------------------------------------------------------------------
  // IO test cases
  // ---------------------------------------------------------------------

  const MaxPoints := 100000
  const MaxNameLength := 255

  datatype IOTestCaseInput = IOTestCaseInput(
    name: Option<string>, stdin: Option<string>, expectedStdout: Option<string>,
    points: Option<int>, isHidden: Option<bool>, orderIndex: Option<int>)

  datatype IOTestCaseCreate = IOTestCaseCreate(
    name: string, stdin: Option<string>, expectedStdout: string, points: int, isHidden: bool, orderIndex: int)

  function IOTestCaseErrors(b: IOTestCaseInput): seq<FieldError> {
    RequiredStr("name", b.name, 1, Some(MaxNameLength))
    + RequiredStr("expected_stdout", b.expectedStdout, 1, None)
    + OptionalInt("points", b.points, Some(0), None, Some(MaxPoints))
    + OptionalInt("order_index", b.orderIndex, Some(0), None, None)
  }

  /** `IOTestCaseCreate(**body)`: points 1, hidden and order 0 by default. */
  function ValidateIOTestCase(b: IOTestCaseInput): (r: Result<IOTestCaseCreate, seq<FieldError>>)
    ensures r.Err? ==> r.error != []
  {
    var errors := IOTestCaseErrors(b);
    if errors != [] then Err(errors)
    else Ok(IOTestCaseCreate(b.name.value, b.stdin, b.expectedStdout.value,
                             Default(b.points, 1), Default(b.isHidden, true), Default(b.orderIndex, 0)))
  }

  predicate IOTestCaseValid(c: IOTestCaseCreate) {
    1 <= |c.name| <= MaxNameLength && |c.expectedStdout| >= 1 && 0 <= c.points <= MaxPoints && c.orderIndex >= 0
  }

  /**
   * An IO case body is accepted exactly when it names the case (1 to 255
   * characters) and a non-empty expected output and any points and order
   * given are in range; left-out fields take their defaults.
   */
  lemma IOTestCaseIff(b: IOTestCaseInput)
    ensures ValidateIOTestCase(b).Ok? <==>
              && b.name.Some? && 1 <= |b.name.value| <= MaxNameLength
              && b.expectedStdout.Some? && |b.expectedStdout.value| >= 1
              && (b.points.Some? ==> 0 <= b.points.value <= MaxPoints)
              && (b.orderIndex.Some? ==> b.orderIndex.value >= 0)
    ensures ValidateIOTestCase(b).Ok? ==>
              var c := ValidateIOTestCase(b).value;
              && IOTestCaseValid(c)
              && Some(c.name) == b.name && c.stdin == b.stdin && Some(c.expectedStdout) == b.expectedStdout
              && c.points == (if b.points.Some? then b.points.value else 1)
              && c.isHidden == (b.isHidden != Some(false))
              && c.orderIndex == (if b.orderIndex.Some? then b.orderIndex.value else 0)
  {
  }

  /** The row an accepted body becomes. */
  function StoredCase(c: IOTestCaseCreate, id: int, assignmentId: int): IOTestCase {
    IOTestCase(id, assignmentId, c.name, c.stdin, c.expectedStdout, c.points, c.isHidden, c.orderIndex)
  }

  /** Cases created through the schema carry no negative points, which the IO score bounds rely on. */
  lemma {:induction false} StoredCasesNonNegative(cs: seq<IOTestCaseCreate>, ids: seq<int>, assignmentId: int)
    requires |ids| == |cs| && forall i :: 0 <= i < |cs| ==> IOTestCaseValid(cs[i])
    ensures var stored := seq(|cs|, i requires 0 <= i < |cs| => StoredCase(cs[i], ids[i], assignmentId));
            PointsNonNegative(stored) && forall i :: 0 <= i < |stored| ==> stored[i].points <= MaxPoints
  {
  }

  // ---------------------------------------------------------------------
  // Unit-test specs
  // ---------------------------------------------------------------------

  datatype UnitTestSpecInput = UnitTestSpecInput(
    name: Option<string>, testCode: Option<string>, points: Option<int>, isHidden: Option<bool>)

  datatype UnitTestSpecUpsert = UnitTestSpecUpsert(name: string, testCode: string, points: int, isHidden: bool)

  function UnitTestSpecErrors(b: UnitTestSpecInput): seq<FieldError> {
    RequiredStr("name", b.name, 1, Some(MaxNameLength))
    + RequiredStr("test_code", b.testCode, 1, None)
    + OptionalInt("points", b.points, Some(0), None, Some(MaxPoints))
  }

  /** `UnitTestSpecUpsert(**body)`: points 0 and hidden by default. */
  function ValidateUnitTestSpec(b: UnitTestSpecInput): (r: Result<UnitTestSpecUpsert, seq<FieldError>>)
    ensures r.Err? ==> r.error != []
  {
    var errors := UnitTestSpecErrors(b);
    if errors != [] then Err(errors)
    else Ok(UnitTestSpecUpsert(b.name.value, b.testCode.value, Default(b.points, 0), Default(b.isHidden, true)))
  }

  /**
   * A unit spec body is accepted exactly when it has a name of 1 to 255
   * characters, non-empty test code and, if given, points in 0..100000;
   * the points default to 0, so an upsert without points grades for
   * nothing.
   */
  lemma UnitTestSpecIff(b: UnitTestSpecInput)
    ensures ValidateUnitTestSpec(b).Ok? <==>
              && b.name.Some? && 1 <= |b.name.value| <= MaxNameLength
              && b.testCode.Some? && |b.testCode.value| >= 1
              && (b.points.Some? ==> 0 <= b.points.value <= MaxPoints)
    ensures ValidateUnitTestSpec(b).Ok? ==>
              var u := ValidateUnitTestSpec(b).value;
              && 0 <= u.points <= MaxPoints
              && Some(u.name) == b.name && Some(u.testCode) == b.testCode
              && u.points == (if b.points.Some? then b.points.value else 0)
              && u.isHidden == (b.isHidden != Some(false))
  {
  }
}
