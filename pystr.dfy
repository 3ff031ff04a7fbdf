/**
 * The Python `str` operations the grading engine and the routers rely on,
 * each with a contract that characterises it independently of its body.
 */
module PyStr {

  /** Python's `str.isspace()` for one character. */
  predicate IsSpace(c: char) {
    ('\t' <= c <= '\r') || ('\U{1C}' <= c <= '\U{1F}') || c == ' '
    || c == '\U{85}' || c == '\U{A0}' || c == '\U{1680}'
    || ('\U{2000}' <= c <= '\U{200A}') || c == '\U{2028}' || c == '\U{2029}'
    || c == '\U{202F}' || c == '\U{205F}' || c == '\U{3000}'
  }

  /** The line boundaries of Python's `str.splitlines()`. */
  predicate IsLineBreak(c: char) {
    c == '\n' || c == '\r' || c == '\U{0B}' || c == '\U{0C}'
    || c == '\U{1C}' || c == '\U{1D}' || c == '\U{1E}' || c == '\U{85}'
    || c == '\U{2028}' || c == '\U{2029}'
  }

  /** Every character of `s` from index `lo` up to `hi` is whitespace. */
  ghost predicate SpaceBetween(s: string, lo: int, hi: int) {
    forall k :: lo <= k < hi && 0 <= k < |s| ==> IsSpace(s[k])
  }

  ghost predicate AllSpace(s: string) {
    SpaceBetween(s, 0, |s|)
  }

  ghost predicate NoLineBreak(s: string) {
    forall i :: 0 <= i < |s| ==> !IsLineBreak(s[i])
  }

  /** A string with no whitespace at either end: what `strip()` returns. */
  ghost predicate IsStripped(s: string) {
    s == [] || (!IsSpace(s[0]) && !IsSpace(s[|s| - 1]))
  }

  /** `s.lstrip()`: the longest suffix of `s` that does not start with whitespace. */
  function TrimLeft(s: string): (r: string)
    ensures |r| <= |s| && r == s[|s| - |r|..]
    ensures forall i :: 0 <= i < |s| - |r| ==> IsSpace(s[i])
    ensures r == [] || !IsSpace(r[0])
  {
    if s != [] && IsSpace(s[0]) then TrimLeft(s[1..]) else s
  }

  /** `s.rstrip()`: the longest prefix of `s` that does not end with whitespace. */
  function TrimRight(s: string): (r: string)
    ensures |r| <= |s| && r == s[..|r|]
    ensures forall i :: |r| <= i < |s| ==> IsSpace(s[i])
    ensures r == [] || !IsSpace(r[|r| - 1])
  {
    if s != [] && IsSpace(s[|s| - 1]) then TrimRight(s[..|s| - 1]) else s
  }

  /** `s.strip()`: a string with no whitespace at its ends, empty exactly when `s` is all whitespace. */
  function Strip(s: string): (r: string)
    ensures IsStripped(r)
  {
    TrimRight(TrimLeft(s))
  }

  /** `s.strip()` is the infix of `s` that has only whitespace before and after it in `s`. */
  lemma StripInfix(s: string)
    ensures exists i :: StrippedAt(s, Strip(s), i)
  {
    var l := TrimLeft(s);
    StripSlice(s);
    assert StrippedAt(s, Strip(s), |s| - |l|);
  }

  /** `r` sits in `s` at `i` with only whitespace around it, and is empty exactly when `s` is all whitespace. */
  ghost predicate StrippedAt(s: string, r: string, i: int) {
    && OccursAt(s, r, i) && SpaceBetween(s, 0, i) && SpaceBetween(s, i + |r|, |s|)
    && (r == [] <==> AllSpace(s))
  }

  lemma StripSlice(s: string)
    ensures var l := TrimLeft(s); StrippedAt(s, TrimRight(l), |s| - |l|)
  {
    var l := TrimLeft(s);
    var r := TrimRight(l);
    assert SpaceBetween(s, 0, |s| - |l|);
    assert SpaceBetween(l, |r|, |l|);
    TrimmedInfix(s, l, r);
  }

  /** A prefix `r` of a suffix `l` of `s`, with whitespace cut off both sides, sits in `s` at `|s| - |l|`. */
  lemma TrimmedInfix(s: string, l: string, r: string)
    requires |l| <= |s| && l == s[|s| - |l|..] && SpaceBetween(s, 0, |s| - |l|)
    requires |r| <= |l| && r == l[..|r|] && SpaceBetween(l, |r|, |l|)
    requires r == [] || !IsSpace(r[0])
    ensures StrippedAt(s, r, |s| - |l|)
  {
    var i := |s| - |l|;
    assert OccursAt(s, r, i) by {
      assert s[i..i + |r|] == l[..|r|];
    }
    assert SpaceBetween(s, i + |r|, |s|) by {
      forall k | i + |r| <= k < |s| ensures IsSpace(s[k]) {
        assert s[k] == l[k - i];
      }
    }
    if r != [] {
      assert s[i] == l[0];
    }
  }

  /** Stripping a string that has no whitespace at its ends changes nothing. */
  lemma {:induction false} StripOfStripped(s: string)
    requires IsStripped(s)
    ensures Strip(s) == s
  {
  }

  /** `strip()` is idempotent. */
  lemma StripIdempotent(s: string)
    ensures Strip(Strip(s)) == Strip(s)
  {
    StripOfStripped(Strip(s));
  }

  /** `t in s` for strings: `t` occurs in `s` at some position. */
  predicate Contains(s: string, t: string) {
    exists i :: 0 <= i <= |s| - |t| && OccursAt(s, t, i)
  }

  /** `t` occurs in `s` starting at index `i`. */
  predicate OccursAt(s: string, t: string, i: int) {
    0 <= i <= |s| - |t| && s[i..i + |t|] == t
  }

  /** `s.lower()` on the ASCII letters. */
  function Lower(s: string): (r: string)
    ensures |r| == |s|
    ensures forall i :: 0 <= i < |s| ==> r[i] == LowerChar(s[i])
  {
    seq(|s|, i requires 0 <= i < |s| => LowerChar(s[i]))
  }

  function LowerChar(c: char): char {
    if 'A' <= c <= 'Z' then (c as int + 32) as char else c
  }

  /** `s.split(sep)[0]`: the text before the first `sep`, or all of `s`. */
  function Before(s: string, sep: char): (r: string)
    ensures |r| <= |s| && r == s[..|r|] && sep !in r
    ensures |r| < |s| ==> s[|r|] == sep
  {
    if s == [] || s[0] == sep then [] else [s[0]] + Before(s[1..], sep)
  }

  /** Index of the first line boundary in `s`, or `|s|` when there is none. */
  function LineEnd(s: string): (k: nat)
    ensures k <= |s|
    ensures forall i :: 0 <= i < k ==> !IsLineBreak(s[i])
    ensures k < |s| ==> IsLineBreak(s[k])
  {
    if s == [] || IsLineBreak(s[0]) then 0 else 1 + LineEnd(s[1..])
  }

  /** Where the next line starts after the boundary at `LineEnd(s)`: `\r\n` counts as one boundary. */
  function NextLine(s: string): (k: nat)
    requires LineEnd(s) < |s|
    ensures LineEnd(s) < k <= |s|
  {
    var e := LineEnd(s);
    if s[e] == '\r' && e + 1 < |s| && s[e + 1] == '\n' then e + 2 else e + 1
  }

  /** Python's `s.splitlines()`: the lines of `s` without their terminators. */
  function SplitLines(s: string): (r: seq<string>)
    ensures forall k :: 0 <= k < |r| ==> NoLineBreak(r[k])
    ensures r == [] <==> s == []
    decreases |s|
  {
    if s == [] then []
    else if LineEnd(s) == |s| then [s]
    else [s[..LineEnd(s)]] + SplitLines(s[NextLine(s)..])
  }

  /** `sep.join(parts)`. */
  function Join(parts: seq<string>, sep: string): string {
    if parts == [] then ""
    else if |parts| == 1 then parts[0]
    else parts[0] + sep + Join(parts[1..], sep)
  }

  /** Each line followed by "\n": the text of a file holding exactly these lines. */
  function Unlines(lines: seq<string>): string {
    if lines == [] then "" else lines[0] + "\n" + Unlines(lines[1..])
  }

  /** Reading back the lines of `Unlines(lines)` with `splitlines()` gives `lines`. */
  lemma {:induction false} SplitLinesOfUnlines(lines: seq<string>)
    requires forall k :: 0 <= k < |lines| ==> NoLineBreak(lines[k])
    ensures SplitLines(Unlines(lines)) == lines
  {
    if lines != [] {
      var rest := Unlines(lines[1..]);
      var s := lines[0] + "\n" + rest;
      LineEndOfPlain(lines[0], "\n" + rest);
      assert lines[0] + ("\n" + rest) == s;
      assert LineEnd(s) == |lines[0]|;
      assert s[..|lines[0]|] == lines[0];
      assert s[|lines[0]| + 1..] == rest;
      SplitLinesOfUnlines(lines[1..]);
    }
  }

  lemma {:induction false} UnlinesAppend(a: seq<string>, b: seq<string>)
    ensures Unlines(a + b) == Unlines(a) + Unlines(b)
  {
    if a == [] {
      assert a + b == b;
    } else {
      assert (a + b)[0] == a[0];
      assert (a + b)[1..] == a[1..] + b;
      UnlinesAppend(a[1..], b);
    }
  }

  /** A "\n"-joined text followed by one more "\n" is the text of its lines. */
  lemma {:induction false} JoinNewline(lines: seq<string>)
    requires lines != []
    ensures Join(lines, "\n") + "\n" == Unlines(lines)
  {
    if |lines| > 1 {
      JoinNewline(lines[1..]);
    }
  }

  /** The first line boundary of `a + b`, when `a` holds none, is the first boundary of `b`. */
  lemma {:induction false} LineEndOfPlain(a: string, b: string)
    requires NoLineBreak(a)
    ensures LineEnd(a + b) == |a| + LineEnd(b)
  {
    if a != [] {
      assert (a + b)[1..] == a[1..] + b;
      LineEndOfPlain(a[1..], b);
    } else {
      assert a + b == b;
    }
  }

  /** When `s` does not end in a line boundary, the last line `splitlines()` gives is not empty. */
  lemma {:induction false} LastLineNonEmpty(s: string)
    requires s != [] && !IsLineBreak(s[|s| - 1])
    ensures SplitLines(s)[|SplitLines(s)| - 1] != []
    decreases |s|
  {
    var e := LineEnd(s);
    if e < |s| {
      var n := NextLine(s);
      var rest := s[n..];
      assert rest[|rest| - 1] == s[|s| - 1];
      LastLineNonEmpty(rest);
      assert SplitLines(s) == [s[..e]] + SplitLines(rest);
    }
  }

  /** The number a string of decimal digits spells, most significant digit first. */
  function DigitsValue(s: string): nat
    requires forall i :: 0 <= i < |s| ==> '0' <= s[i] <= '9'
  {
    if s == [] then 0 else DigitsValue(s[..|s| - 1]) * 10 + (s[|s| - 1] as int - '0' as int)
  }

  /**
   * Decimal digits of a natural number, as an f-string renders an int: the
   * digits spell the number, with no leading zero except for 0 itself.
   */
  function DecimalString(n: nat): (r: string)
    ensures |r| >= 1 && forall i :: 0 <= i < |r| ==> '0' <= r[i] <= '9'
    ensures DigitsValue(r) == n
    ensures r[0] == '0' ==> r == "0"
  {
    if n < 10 then [(n + '0' as int) as char]
    else DecimalString(n / 10) + [((n % 10) + '0' as int) as char]
  }
}
