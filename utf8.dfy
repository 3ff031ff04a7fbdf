/**
 * UTF-8 as Python's strict `bytes.decode("utf-8")` reads it: a byte
 * sequence decodes exactly when it is a concatenation of the well-formed
 * sequences of the Unicode Standard, Table 3-7 (no overlong forms, no
 * encoded surrogates, nothing above U+10FFFF). The encoder is the inverse.
 */
module Utf8 {
  import opened Wrappers

  type byte = b: int | 0 <= b < 256

  /** A continuation byte, 80..BF. */
  predicate IsCont(b: byte) {
    0x80 <= b <= 0xBF
  }

  /** The allowed range of the second byte after a three-byte lead, per Table 3-7. */
  function Lo3(lead: byte): byte {
    if lead == 0xE0 then 0xA0 else 0x80
  }

  function Hi3(lead: byte): byte {
    if lead == 0xED then 0x9F else 0xBF
  }

  /** The allowed range of the second byte after a four-byte lead, per Table 3-7. */
  function Lo4(lead: byte): byte {
    if lead == 0xF0 then 0x90 else 0x80
  }

  function Hi4(lead: byte): byte {
    if lead == 0xF4 then 0x8F else 0xBF
  }

  /** A Unicode scalar value: the code points a `char` can hold. */
  predicate IsScalar(n: int) {
    0 <= n < 0xD800 || 0xE000 <= n < 0x110000
  }

  /** The encoding of one character: one to four bytes by the size of its code point. */
  function EncodeChar(c: char): (r: seq<byte>)
    ensures 1 <= |r| <= 4
    ensures |r| == 1 <==> c as int < 0x80
  {
    var n := c as int;
    if n < 0x80 then [n]
    else if n < 0x800 then [0xC0 + n / 64, 0x80 + n % 64]
    else if n < 0x10000 then [0xE0 + n / 4096, 0x80 + n / 64 % 64, 0x80 + n % 64]
    else [0xF0 + n / 262144, 0x80 + n / 4096 % 64, 0x80 + n / 64 % 64, 0x80 + n % 64]
  }

  /** `str.encode("utf-8")`. */
  function Encode(s: string): (r: seq<byte>)
    ensures |s| <= |r| <= 4 * |s|
  {
    if s == [] then [] else EncodeChar(s[0]) + Encode(s[1..])
  }

  /** The code point of a two-, three- or four-byte sequence: the lead's payload bits, then six bits from each continuation byte. */
  function Value2(b0: int, b1: int): int {
    (b0 - 0xC0) * 64 + (b1 - 0x80)
  }

  function Value3(b0: int, b1: int, b2: int): int {
    (b0 - 0xE0) * 4096 + (b1 - 0x80) * 64 + (b2 - 0x80)
  }

  function Value4(b0: int, b1: int, b2: int, b3: int): int {
    (b0 - 0xF0) * 262144 + (b1 - 0x80) * 4096 + (b2 - 0x80) * 64 + (b3 - 0x80)
  }

  /** The character the well-formed sequence at the front of `bs` stands for, with its length; None when no well-formed sequence starts there. */
  function DecodeFirst(bs: seq<byte>): (r: Option<(char, nat)>)
    ensures r.Some? ==> 1 <= r.value.1 <= |bs|
  {
    if bs == [] then None
    else
      var b0 := bs[0] as int;
      if b0 < 0x80 then Some((b0 as char, 1))
      else if 0xC2 <= b0 <= 0xDF then
        if |bs| >= 2 && IsCont(bs[1])
        then Some((Value2(b0, bs[1]) as char, 2))
        else None
      else if 0xE0 <= b0 <= 0xEF then
        if |bs| >= 3 && Lo3(b0) <= bs[1] <= Hi3(b0) && IsCont(bs[2])
        then Some((Value3(b0, bs[1], bs[2]) as char, 3))
        else None
      else if 0xF0 <= b0 <= 0xF4 then
        if |bs| >= 4 && Lo4(b0) <= bs[1] <= Hi4(b0) && IsCont(bs[2]) && IsCont(bs[3])
        then Some((Value4(b0, bs[1], bs[2], bs[3]) as char, 4))
        else None
      else None
  }

  /** `bytes.decode("utf-8")`: the text, or None where Python raises UnicodeDecodeError. */
  function Decode(bs: seq<byte>): (r: Option<string>)
    decreases |bs|
  {
    if bs == [] then Some([])
    else match DecodeFirst(bs)
      case None => None
      case Some((c, n)) =>
        match Decode(bs[n..])
        case None => None
        case Some(rest) => Some([c] + rest)
  }

  /** The bytes of one character, followed by anything, decode back to that character first. */
  lemma DecodeFirstOfEncode(c: char, rest: seq<byte>)
    ensures DecodeFirst(EncodeChar(c) + rest) == Some((c, |EncodeChar(c)|))
  {
    var n := c as int;
    var bs := EncodeChar(c) + rest;
    if n < 0x80 {
    } else if n < 0x800 {
      var q, r := n / 64, n % 64;
      assert n == Value2(0xC0 + q, 0x80 + r);
      assert bs[0] == 0xC0 + q && bs[1] == 0x80 + r;
      DecodeFirstIs(bs, 2, c);
    } else if n < 0x10000 {
      var q, r := n / 64, n % 64;
      var q2, r2 := q / 64, q % 64;
      assert n == Value3(0xE0 + q2, 0x80 + r2, 0x80 + r);
      assert n / 4096 == q2;
      assert bs[0] == 0xE0 + q2 && bs[1] == 0x80 + r2 && bs[2] == 0x80 + r;
      DecodeFirstIs(bs, 3, c);
    } else {
      var q, r := n / 64, n % 64;
      var q2, r2 := q / 64, q % 64;
      var q3, r3 := q2 / 64, q2 % 64;
      assert n == Value4(0xF0 + q3, 0x80 + r3, 0x80 + r2, 0x80 + r);
      assert n / 4096 == q2 && n / 262144 == q3;
      assert bs[0] == 0xF0 + q3 && bs[1] == 0x80 + r3 && bs[2] == 0x80 + r2 && bs[3] == 0x80 + r;
      DecodeFirstIs(bs, 4, c);
    }
  }

  /** A sequence of the right length whose bytes are in the ranges of Table 3-7 decodes to the character its value names. */
  lemma DecodeFirstIs(bs: seq<byte>, k: nat, c: char)
    requires 2 <= k <= 4 && |bs| >= k
    requires k == 2 ==> 0xC2 <= bs[0] <= 0xDF && IsCont(bs[1]) && Value2(bs[0], bs[1]) == c as int
    requires k == 3 ==> 0xE0 <= bs[0] <= 0xEF && Lo3(bs[0]) <= bs[1] <= Hi3(bs[0]) && IsCont(bs[2])
                        && Value3(bs[0], bs[1], bs[2]) == c as int
    requires k == 4 ==> 0xF0 <= bs[0] <= 0xF4 && Lo4(bs[0]) <= bs[1] <= Hi4(bs[0]) && IsCont(bs[2]) && IsCont(bs[3])
                        && Value4(bs[0], bs[1], bs[2], bs[3]) == c as int
    ensures DecodeFirst(bs) == Some((c, k))
  {
  }

  /** A well-formed sequence at the front of `bs` is exactly the encoding of the character it decodes to. */
  lemma EncodeOfDecodeFirst(bs: seq<byte>)
    requires DecodeFirst(bs).Some?
    ensures EncodeChar(DecodeFirst(bs).value.0) == bs[..DecodeFirst(bs).value.1]
  {
    var b0 := bs[0];
    if 0xC2 <= b0 <= 0xDF {
      EncodeValue2(b0, bs[1]);
    } else if 0xE0 <= b0 <= 0xEF {
      EncodeValue3(b0, bs[1], bs[2]);
    } else if 0xF0 <= b0 <= 0xF4 {
      EncodeValue4(b0, bs[1], bs[2], bs[3]);
    }
  }

  /** Division by the three place values of the encoding recovers quotient and remainder. */
  lemma DivMod(q: int, r: int, d: int)
    requires d == 64 || d == 4096 || d == 262144
    requires 0 <= r < d
    ensures (q * d + r) / d == q && (q * d + r) % d == r
  {
    if d == 64 {
      assert q * d + r == q * 64 + r;
    } else if d == 4096 {
      assert q * d + r == q * 4096 + r;
    } else {
      assert q * d + r == q * 262144 + r;
    }
  }

  lemma EncodeValue2(b0: byte, b1: byte)
    requires 0xC2 <= b0 <= 0xDF && IsCont(b1)
    ensures IsScalar(Value2(b0, b1)) && EncodeChar(Value2(b0, b1) as char) == [b0, b1]
  {
    DivMod(b0 - 0xC0, b1 - 0x80, 64);
  }

  lemma EncodeValue3(b0: byte, b1: byte, b2: byte)
    requires 0xE0 <= b0 <= 0xEF && Lo3(b0) <= b1 <= Hi3(b0) && IsCont(b2)
    ensures IsScalar(Value3(b0, b1, b2)) && EncodeChar(Value3(b0, b1, b2) as char) == [b0, b1, b2]
  {
    var n := Value3(b0, b1, b2);
    var m := (b0 - 0xE0) * 64 + (b1 - 0x80);
    assert n == m * 64 + (b2 - 0x80);
    DivMod(m, b2 - 0x80, 64);
    DivMod(b0 - 0xE0, b1 - 0x80, 64);
    DivMod(b0 - 0xE0, (b1 - 0x80) * 64 + (b2 - 0x80), 4096);
  }

  lemma EncodeValue4(b0: byte, b1: byte, b2: byte, b3: byte)
    requires 0xF0 <= b0 <= 0xF4 && Lo4(b0) <= b1 <= Hi4(b0) && IsCont(b2) && IsCont(b3)
    ensures IsScalar(Value4(b0, b1, b2, b3)) && EncodeChar(Value4(b0, b1, b2, b3) as char) == [b0, b1, b2, b3]
  {
    var n := Value4(b0, b1, b2, b3);
    var m1 := (b0 - 0xF0) * 64 + (b1 - 0x80);
    var m2 := m1 * 64 + (b2 - 0x80);
    assert n == m2 * 64 + (b3 - 0x80);
    DivMod(m2, b3 - 0x80, 64);
    DivMod(m1, b2 - 0x80, 64);
    DivMod(b0 - 0xF0, b1 - 0x80, 64);
    assert n == m1 * 4096 + ((b2 - 0x80) * 64 + (b3 - 0x80));
    DivMod(m1, (b2 - 0x80) * 64 + (b3 - 0x80), 4096);
    assert n == (b0 - 0xF0) * 262144 + ((b1 - 0x80) * 4096 + (b2 - 0x80) * 64 + (b3 - 0x80));
    DivMod(b0 - 0xF0, (b1 - 0x80) * 4096 + (b2 - 0x80) * 64 + (b3 - 0x80), 262144);
  }

  /** Decoding inverts encoding: every string survives the round trip. */
  lemma {:induction false} DecodeEncode(s: string)
    ensures Decode(Encode(s)) == Some(s)
  {
    if s != [] {
      var e := EncodeChar(s[0]);
      DecodeFirstOfEncode(s[0], Encode(s[1..]));
      assert (e + Encode(s[1..]))[|e|..] == Encode(s[1..]);
      DecodeEncode(s[1..]);
      assert [s[0]] + s[1..] == s;
    }
  }

  /** Encoding inverts decoding: the bytes that decode are the encoding of their text. */
  lemma {:induction false} EncodeDecode(bs: seq<byte>)
    requires Decode(bs).Some?
    ensures Encode(Decode(bs).value) == bs
  {
    if bs != [] {
      var c, n, t := DecodeCons(bs);
      calc {
        Encode(Decode(bs).value);
        Encode([c] + t);
        { EncodeCons(c, t); }
        EncodeChar(c) + Encode(t);
        { EncodeOfDecodeFirst(bs); EncodeDecode(bs[n..]); }
        bs[..n] + bs[n..];
        bs;
      }
    }
  }

  /** A non-empty input that decodes is a first character followed by the decoding of the rest. */
  lemma DecodeCons(bs: seq<byte>) returns (c: char, n: nat, t: string)
    requires bs != [] && Decode(bs).Some?
    ensures DecodeFirst(bs) == Some((c, n)) && 1 <= n <= |bs|
    ensures Decode(bs[n..]) == Some(t) && Decode(bs).value == [c] + t
  {
    c, n := DecodeFirst(bs).value.0, DecodeFirst(bs).value.1;
    t := Decode(bs[n..]).value;
  }

  lemma EncodeCons(c: char, t: string)
    ensures Encode([c] + t) == EncodeChar(c) + Encode(t)
  {
    assert ([c] + t)[1..] == t;
  }

  /** Bytes below 80 are ASCII text: they always decode, one character per byte. */
  lemma {:induction false} AsciiDecodes(bs: seq<byte>)
    requires forall i :: 0 <= i < |bs| ==> bs[i] < 0x80
    ensures Decode(bs).Some? && |Decode(bs).value| == |bs|
  {
    if bs != [] {
      AsciiDecodes(bs[1..]);
    }
  }

  /** A lone continuation byte, or a lead byte C0, C1 or F5..FF, makes the whole input undecodable. */
  lemma BadLeadRejected(bs: seq<byte>)
    requires bs != [] && (IsCont(bs[0]) || bs[0] in {0xC0, 0xC1} || bs[0] >= 0xF5)
    ensures Decode(bs).None?
  {
  }
}
