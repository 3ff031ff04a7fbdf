/**
 * The pure text helpers of the grading task: the output normaliser that
 * decides IO test equality, and the builder of the unit-test harness that
 * wraps a student's program around the instructor's assertion block.
 */
module GradingText {
  import opened Wrappers
  import opened PyStr

  // ---------------------------------------------------------------------
  // Output normaliser
  // ---------------------------------------------------------------------

  /** `s.replace("\r\n", "\n")`: pairs are matched left to right without overlap. */
  function ReplaceCrLf(s: string): string {
    if s == [] then []
    else if |s| >= 2 && s[0] == '\r' && s[1] == '\n' then "\n" + ReplaceCrLf(s[2..])
    else [s[0]] + ReplaceCrLf(s[1..])
  }

  /** `s.replace("\r", "\n")`. */
  function ReplaceCr(s: string): (r: string)
    ensures |r| == |s|
  {
    seq(|s|, i requires 0 <= i < |s| => if s[i] == '\r' then '\n' else s[i])
  }

  /**
   * Reference definition of line-ending canonicalisation, in one pass:
   * each "\r\n" and each lone "\r" becomes a single "\n", nothing else changes.
   */
  function CanonicalEndings(s: string): (r: string)
    ensures '\r' !in r
    ensures |r| <= |s|
  {
    if s == [] then []
    else if s[0] == '\r' then "\n" + CanonicalEndings(if |s| >= 2 && s[1] == '\n' then s[2..] else s[1..])
    else [s[0]] + CanonicalEndings(s[1..])
  }

  /** The two chained `replace` calls of the normaliser canonicalise line endings. */
  lemma {:induction false} ReplaceChainCanonical(s: string)
    ensures ReplaceCr(ReplaceCrLf(s)) == CanonicalEndings(s)
  {
    if s == [] {
    } else if |s| >= 2 && s[0] == '\r' && s[1] == '\n' {
      assert ReplaceCrLf(s) == "\n" + ReplaceCrLf(s[2..]);
      assert CanonicalEndings(s) == "\n" + CanonicalEndings(s[2..]);
      ReplaceChainCanonical(s[2..]);
      ReplaceCrAppend("\n", ReplaceCrLf(s[2..]));
      assert ReplaceCr("\n") == "\n";
    } else {
      assert ReplaceCrLf(s) == [s[0]] + ReplaceCrLf(s[1..]);
      ReplaceChainCanonical(s[1..]);
      ReplaceCrAppend([s[0]], ReplaceCrLf(s[1..]));
      if s[0] == '\r' {
        assert ReplaceCr([s[0]]) == "\n";
        assert CanonicalEndings(s) == "\n" + CanonicalEndings(s[1..]);
      } else {
        assert ReplaceCr([s[0]]) == [s[0]];
        assert CanonicalEndings(s) == [s[0]] + CanonicalEndings(s[1..]);
      }
    }
  }

  /** `replace` on a concatenation is the concatenation of the replaced parts. */
  lemma ReplaceCrAppend(a: string, b: string)
    ensures ReplaceCr(a + b) == ReplaceCr(a) + ReplaceCr(b)
  {
  }

  /** Canonicalisation leaves alone a prefix that holds no carriage return. */
  lemma {:induction false} CanonicalPlainPrefix(a: string, b: string)
    requires '\r' !in a
    ensures CanonicalEndings(a + b) == a + CanonicalEndings(b)
  {
    if a != [] {
      assert (a + b)[0] == a[0];
      assert (a + b)[1..] == a[1..] + b;
      CanonicalPlainPrefix(a[1..], b);
    } else {
      assert a + b == b;
    }
  }

  /** Text without carriage returns is already canonical. */
  lemma CanonicalOfPlain(s: string)
    requires '\r' !in s
    ensures CanonicalEndings(s) == s
  {
    CanonicalPlainPrefix(s, "");
    assert s + "" == s;
  }

  /**
   * Canonicalising line endings does not change the lines: `splitlines()`
   * reads the same lines before and after.
   */
  lemma {:induction false} CanonicalKeepsLines(s: string)
    ensures SplitLines(CanonicalEndings(s)) == SplitLines(s)
    decreases |s|
  {
    if s == [] {
      return;
    }
    var e := LineEnd(s);
    if e == |s| {
      LineIsPlain(s, e);
      CanonicalOfPlain(s);
      return;
    }
    var rest := s[NextLine(s)..];
    CanonicalFirstLine(s);
    CanonicalKeepsLines(rest);
  }

  /** The text before the first line boundary holds no carriage return. */
  lemma LineIsPlain(s: string, e: nat)
    requires e == LineEnd(s)
    ensures '\r' !in s[..e]
  {
    var head := s[..e];
    forall k | 0 <= k < |head| ensures head[k] != '\r' { assert !IsLineBreak(s[k]); }
  }

  /**
   * Canonicalising keeps the first line and its boundary where they were,
   * the boundary now one character long, and canonicalises what follows.
   */
  lemma CanonicalFirstLine(s: string)
    requires s != [] && LineEnd(s) < |s|
    ensures var c := CanonicalEndings(s); var e := LineEnd(s);
            c != [] && LineEnd(c) == e && e < |c| && NextLine(c) == e + 1
            && c[..e] == s[..e] && c[e + 1..] == CanonicalEndings(s[NextLine(s)..])
  {
    var e := LineEnd(s);
    var head := s[..e];
    LineIsPlain(s, e);
    var tail := s[e..];
    assert s == head + tail;
    CanonicalPlainPrefix(head, tail);
    var rest := s[NextLine(s)..];
    CanonicalTail(s, e, tail, rest);
    var ct := CanonicalEndings(tail);
    var c := CanonicalEndings(s);
    assert c == head + ct;
    LineEndOfPlain(head, ct);
    assert c[e] != '\r';
    assert c[..e] == head;
  }

  /** After the boundary at `e`, canonicalising gives one newline, or the boundary itself, and the rest canonicalised. */
  lemma CanonicalTail(s: string, e: nat, tail: string, rest: string)
    requires e == LineEnd(s) < |s| && tail == s[e..] && rest == s[NextLine(s)..]
    ensures var ct := CanonicalEndings(tail);
            |ct| >= 1 && ct[0] != '\r' && IsLineBreak(ct[0]) && ct[1..] == CanonicalEndings(rest)
  {
    assert tail[0] == s[e];
    var ct := CanonicalEndings(tail);
    if s[e] == '\r' {
      assert tail[1..] == s[e + 1..];
      assert ct == "\n" + CanonicalEndings(rest);
    } else {
      assert tail[1..] == rest;
      assert ct == [s[e]] + CanonicalEndings(rest);
    }
  }

  /**
   * `_normalize_output`: a missing or empty text is "", otherwise line
   * endings are canonicalised and surrounding whitespace is stripped.
   */
  function NormalizeOutput(s: Option<string>): (r: string)
    ensures s == None || s == Some("") ==> r == ""
    ensures s.Some? ==> r == Strip(CanonicalEndings(s.value))
    ensures '\r' !in r
    ensures IsStripped(r)
  {
    match s
    case None => ""
    case Some(t) =>
      if t == "" then ""
      else
        ReplaceChainCanonical(t);
        NoCrInStrip(ReplaceCr(ReplaceCrLf(t)));
        Strip(ReplaceCr(ReplaceCrLf(t)))
  }

  lemma NoCrInStrip(s: string)
    requires '\r' !in s
    ensures '\r' !in Strip(s)
  {
    StripInfix(s);
    var i :| StrippedAt(s, Strip(s), i);
    InfixHasNoCr(s, Strip(s), i);
  }

  /** Normalising twice is the same as normalising once. */
  lemma NormalizeIdempotent(s: Option<string>)
    ensures NormalizeOutput(Some(NormalizeOutput(s))) == NormalizeOutput(s)
  {
    var r := NormalizeOutput(s);
    if r != "" {
      CanonicalOfPlain(r);
      StripOfStripped(r);
    }
  }

  /** Worked example: "a\r\nb\r" normalises to "a\nb". */
  lemma NormalizeCrLfExample()
    ensures NormalizeOutput(Some("a\r\nb\r")) == "a\nb"
  {
    CanonicalCrLfExample();
    StripExample();
  }

  lemma CanonicalCrLfExample()
    ensures CanonicalEndings("a\r\nb\r") == "a\nb\n"
  {
    assert CanonicalEndings("\r") == "\n";
    assert CanonicalEndings("b\r") == "b\n";
    assert CanonicalEndings("\r\nb\r") == "\nb\n";
  }

  lemma StripExample()
    ensures Strip("a\nb\n") == "a\nb"
  {
    var s := "a\nb\n";
    assert !IsSpace(s[0]);
    assert TrimLeft(s) == s;
    assert IsSpace(s[3]) && s[..3] == "a\nb";
    assert TrimRight(s) == TrimRight("a\nb");
    assert !IsSpace("a\nb"[2]);
  }

  /** Worked example: a trailing blank line does not change the normalised output. */
  lemma NormalizeTrailingBlankExample()
    ensures NormalizeOutput(Some("5\n\n")) == NormalizeOutput(Some("5\n")) == "5"
  {
    var s2, s1 := "5\n\n", "5\n";
    assert '\r' !in s2 by { assert forall k :: 0 <= k < |s2| ==> s2[k] != '\r'; }
    CanonicalOfPlain(s2);
    CanonicalOfPlain(s1);
    assert Strip(s2) == Strip(s1) by { StripTrailingNewline(s2); }
    StripTrailingNewline(s1);
  }

  lemma StripTrailingNewline(s: string)
    requires s == "5\n\n" || s == "5\n"
    ensures Strip(s) == "5"
  {
    assert !IsSpace(s[0]) && TrimLeft(s) == s;
    if s == "5\n\n" {
      assert IsSpace(s[2]) && s[..2] == "5\n";
      assert TrimRight(s) == TrimRight("5\n");
    }
    assert IsSpace("5\n"[1]) && "5\n"[..1] == "5";
    assert !IsSpace("5"[0]) && TrimRight("5") == "5";
  }

  // ---------------------------------------------------------------------
  // Unit-test harness
  // ---------------------------------------------------------------------

  /** `[ln.strip() for ln in lines if ln.strip()]`: the non-blank lines, stripped, in order. */
  function CleanLines(lines: seq<string>): (r: seq<string>)
    ensures |r| <= |lines|
  {
    if lines == [] then []
    else
      var t := Strip(lines[0]);
      (if t == [] then [] else [t]) + CleanLines(lines[1..])
  }

  /** Each line is non-blank and has no whitespace at its ends. */
  ghost predicate AllStripped(lines: seq<string>) {
    forall k :: 0 <= k < |lines| ==> lines[k] != [] && IsStripped(lines[k])
  }

  ghost predicate AllNoLineBreak(lines: seq<string>) {
    forall k :: 0 <= k < |lines| ==> NoLineBreak(lines[k])
  }

  /** Every line `CleanLines` keeps is non-blank and stripped. */
  lemma {:induction false} CleanLinesStripped(lines: seq<string>)
    ensures AllStripped(CleanLines(lines))
  {
    if lines != [] {
      var t := Strip(lines[0]);
      var rest := CleanLines(lines[1..]);
      CleanLinesStripped(lines[1..]);
      if t != [] {
        var r := [t] + rest;
        assert CleanLines(lines) == r;
        forall k | 0 <= k < |r| ensures r[k] != [] && IsStripped(r[k]) {
          if k > 0 {
            assert r[k] == rest[k - 1];
          }
        }
      } else {
        assert CleanLines(lines) == rest;
      }
    }
  }

  /** `CleanLines` keeps no line boundary when none of the input lines had one. */
  lemma {:induction false} CleanLinesNoLineBreak(lines: seq<string>)
    requires AllNoLineBreak(lines)
    ensures AllNoLineBreak(CleanLines(lines))
  {
    if lines != [] {
      var t := Strip(lines[0]);
      var rest := CleanLines(lines[1..]);
      assert AllNoLineBreak(lines[1..]) by {
        forall k | 0 <= k < |lines[1..]| ensures NoLineBreak(lines[1..][k]) {
          assert lines[1..][k] == lines[k + 1];
        }
      }
      CleanLinesNoLineBreak(lines[1..]);
      assert NoLineBreak(lines[0]);
      StripKeepsNoLineBreak(lines[0]);
      if t != [] {
        var r := [t] + rest;
        assert CleanLines(lines) == r;
        forall k | 0 <= k < |r| ensures NoLineBreak(r[k]) {
          if k > 0 {
            assert r[k] == rest[k - 1];
          }
        }
      } else {
        assert CleanLines(lines) == rest;
      }
    }
  }

  lemma StripKeepsNoLineBreak(s: string)
    ensures NoLineBreak(s) ==> NoLineBreak(Strip(s))
  {
    if NoLineBreak(s) {
      StripInfix(s);
      var i :| StrippedAt(s, Strip(s), i);
      InfixHasNoLineBreak(s, Strip(s), i);
    }
  }

  lemma InfixHasNoLineBreak(s: string, r: string, i: int)
    requires OccursAt(s, r, i) && NoLineBreak(s)
    ensures NoLineBreak(r)
  {
    forall k | 0 <= k < |r| ensures !IsLineBreak(r[k]) { assert r[k] == s[i + k]; }
  }

  lemma InfixHasNoCr(s: string, r: string, i: int)
    requires OccursAt(s, r, i) && '\r' !in s
    ensures '\r' !in r
  {
    forall k | 0 <= k < |r| ensures r[k] != '\r' { assert r[k] == s[i + k]; }
  }

  /** The assertion lines the runner function will hold: the non-blank lines of the block, stripped. */
  function AssertLines(block: string): seq<string> {
    CleanLines(SplitLines(Strip(block)))
  }

  /** Each line prefixed with four spaces. */
  function Indent(lines: seq<string>): (r: seq<string>)
    ensures |r| == |lines|
  {
    seq(|lines|, k requires 0 <= k < |lines| => "    " + lines[k])
  }

  /** The lines of the runner function's body, as `_indent_asserts` lays them out. */
  function RunnerBody(block: string): seq<string> {
    if AssertLines(block) == [] then ["    pass"] else Indent(AssertLines(block))
  }

  /** `_indent_asserts`: the assertion block as an indented function body. */
  function IndentAsserts(block: string): (r: string)
    ensures r + "\n" == Unlines(RunnerBody(block))
  {
    var cleaned := CleanLines(SplitLines(Strip(block)));
    JoinNewline(RunnerBody(block));
    if cleaned == [] then "    pass" else Join(Indent(cleaned), "\n")
  }

  /** A line boundary is whitespace. */
  lemma LineBreakIsSpace(c: char)
    ensures IsLineBreak(c) ==> IsSpace(c)
  {
  }

  /**
   * A block holding only whitespace becomes the body `pass`; any other
   * block keeps at least one assertion line.
   */
  lemma {:induction false} BlankBlockIsPass(block: string)
    ensures AllSpace(block) ==> IndentAsserts(block) == "    pass"
    ensures !AllSpace(block) ==> AssertLines(block) != []
  {
    var t := Strip(block);
    if !AllSpace(block) {
      assert t != [] && !IsSpace(t[0]);
      LineBreakIsSpace(t[0]);
      var e := LineEnd(t);
      assert e >= 1;
      var first := SplitLines(t)[0];
      assert first == t[..e];
      assert first[0] == t[0];
      assert Strip(first) != [];
    }
  }

  /** Every line of the runner body is four spaces and a non-blank stripped line with no line boundary. */
  lemma RunnerBodyLines(block: string)
    ensures forall k :: 0 <= k < |RunnerBody(block)| ==>
              var line := RunnerBody(block)[k];
              |line| > 4 && line[..4] == "    " && IsStripped(line[4..]) && NoLineBreak(line)
  {
    var body := RunnerBody(block);
    var lines := AssertLines(block);
    var split := SplitLines(Strip(block));
    assert AllNoLineBreak(split);
    CleanLinesNoLineBreak(split);
    CleanLinesStripped(split);
    forall k | 0 <= k < |body|
      ensures |body[k]| > 4 && body[k][..4] == "    " && IsStripped(body[k][4..]) && NoLineBreak(body[k])
    {
      if lines == [] {
        assert body[k] == "    " + "pass";
        PassLine();
        IndentedLine("pass");
      } else {
        assert body[k] == "    " + lines[k];
        IndentedLine(lines[k]);
      }
    }
  }

  lemma PassLine()
    ensures NoLineBreak("pass") && IsStripped("pass")
  {
    var p := "pass";
    forall i | 0 <= i < 4 ensures !IsLineBreak(p[i]) {
      assert 'a' <= p[i] <= 's';
    }
  }

  /** Four spaces in front of a line keep its content after them and add no line boundary. */
  lemma IndentedLine(line: string)
    ensures ("    " + line)[4..] == line && ("    " + line)[..4] == "    "
    ensures NoLineBreak(line) ==> NoLineBreak("    " + line)
  {
    var s := "    " + line;
    assert s[4..] == line;
    if NoLineBreak(line) {
      forall i | 0 <= i < |s| ensures !IsLineBreak(s[i]) {
        if i >= 4 {
          assert s[i] == line[i - 4];
        }
      }
    }
  }

  /** The marker the harness prints when every assertion held. */
  const PassSentinel := "UNIT_TESTS_PASSED"

  /** The first line of the harness, which hides the student's `__main__` block. */
  const HarnessHeader := "globals()['__name__'] = '__unit_test__'"

  /** The lines after the runner body: call it, then print the outcome marker. */
  const TryLines: seq<string> := [
    "try:",
    "    __run_unit_tests()",
    "    print('UNIT_TESTS_PASSED')",
    "except AssertionError:",
    "    print('UNIT_TESTS_FAILED: AssertionError')",
    "except Exception as e:",
    "    print('UNIT_TESTS_FAILED: ' + type(e).__name__)"
  ]

  /** The lines of the harness that follow the student's code. */
  function TailLines(block: string): seq<string> {
    ["", RunnerDef] + RunnerBody(block) + [""] + TryLines
  }

  /** The line that opens the runner function. */
  const RunnerDef := "def __run_unit_tests():"

  /**
   * `_build_unit_harness`: the header line, the student's code, a blank
   * line, the runner function holding the indented assertions, a blank line
   * and the try/except tail (written here as its lines, `TryLines`).
   */
  function BuildUnitHarness(studentCode: string, instructorAsserts: string): string {
    var indented := IndentAsserts(instructorAsserts);
    HarnessHeader + "\n"
    + studentCode
    + "\n\n"
    + RunnerDef + "\n"
    + indented
    + "\n\n"
    + Unlines(TryLines)
  }

  /**
   * The harness is the header line, the student's code verbatim, and then
   * the lines `TailLines`: a blank line, the runner definition, the
   * indented assertion body, a blank line and the fixed try/except tail
   * that prints `UNIT_TESTS_PASSED` or `UNIT_TESTS_FAILED: <type name>`.
   * The runner body reads back, line by line, as `RunnerBody`.
   */
  lemma HarnessLayout(studentCode: string, instructorAsserts: string)
    ensures BuildUnitHarness(studentCode, instructorAsserts)
            == HarnessHeader + "\n" + studentCode + "\n" + Unlines(TailLines(instructorAsserts))
    ensures SplitLines(IndentAsserts(instructorAsserts) + "\n") == RunnerBody(instructorAsserts)
  {
    var body := RunnerBody(instructorAsserts);
    LayoutOf(HarnessHeader, studentCode, RunnerDef, body, IndentAsserts(instructorAsserts), TryLines);
    RunnerBodyLines(instructorAsserts);
    SplitLinesOfUnlines(body);
  }

  lemma LayoutOf(header: string, code: string, def: string, body: seq<string>, indented: string, tail: seq<string>)
    requires indented + "\n" == Unlines(body)
    ensures header + "\n" + code + "\n\n" + def + "\n" + indented + "\n\n" + Unlines(tail)
            == header + "\n" + code + "\n" + Unlines(["", def] + body + [""] + tail)
  {
    RunnerLayout(def, body, indented, tail);
    var t := Unlines(tail);
    assert header + "\n" + code + "\n\n" + def + "\n" + indented + "\n\n" + t
        == (header + "\n" + code + "\n") + ("\n" + def + "\n" + indented + "\n\n" + t);
  }

  /** The runner's lines, a blank line and the tail, joined line by line. */
  lemma RunnerLayout(def: string, body: seq<string>, indented: string, tail: seq<string>)
    requires indented + "\n" == Unlines(body)
    ensures Unlines(["", def] + body + [""] + tail) == "\n" + def + "\n" + indented + "\n\n" + Unlines(tail)
  {
    var pre: seq<string> := ["", def];
    UnlinesAppend(pre, body);
    UnlinesAppend(pre + body, [""] + tail);
    UnlinesAppend([""], tail);
    assert ["", def] + body + [""] + tail == pre + body + ([""] + tail);
    assert Unlines(pre) == "\n" + def + "\n" by {
      assert pre[1..] == [def];
      assert Unlines(pre[1..]) == def + "\n" + Unlines(pre[2..]);
    }
    assert Unlines([""]) == "\n" by {
      assert [""][1..] == [];
    }
    var t := Unlines(tail);
    assert (("\n" + def + "\n") + Unlines(body)) + ("\n" + t)
        == "\n" + def + "\n" + indented + "\n\n" + t;
  }
}
