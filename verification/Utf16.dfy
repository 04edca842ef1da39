/**
 JavaScript strings as UTF-16 code units, and the UTF-8 bytes the source's text encoder and fatal text decoder
 exchange for them.
*/
module Utf16 {
  import opened Options

  type Unit = u: nat | u < 0x10000
  type Text = seq<Unit>
  type Byte = b: nat | b < 0x100

  /** The text of a literal; every literal of this project is ASCII. */
  function Ascii(s: string): (t: Text)
    ensures |t| == |s|
    ensures forall i :: 0 <= i < |t| ==> !IsHigh(t[i]) && !IsLow(t[i])
  {
    seq(|s|, i requires 0 <= i < |s| => if s[i] as int < 0x80 then s[i] as int else 0xFFFD)
  }

  predicate IsHigh(u: Unit) { 0xD800 <= u <= 0xDBFF }

  predicate IsLow(u: Unit) { 0xDC00 <= u <= 0xDFFF }

  /** The unit is not half of a surrogate pair whose other half is missing. */
  predicate PairedAt(s: Text, i: nat)
    requires i < |s|
  {
    && (IsHigh(s[i]) ==> i + 1 < |s| && IsLow(s[i + 1]))
    && (IsLow(s[i]) ==> 0 < i && IsHigh(s[i - 1]))
  }

  predicate WellFormed(s: Text) {
    forall i :: 0 <= i < |s| ==> PairedAt(s, i)
  }

  predicate IsDigitUnit(u: Unit) { 0x30 <= u <= 0x39 }

  predicate IsAscii(s: Text) {
    forall i :: 0 <= i < |s| ==> s[i] < 0x80
  }

  lemma {:induction false} PairedInTail(a: Text, b: Text, i: nat)
    requires WellFormed(a) && i < |b|
    ensures PairedAt(a + b, |a| + i) <==> PairedAt(b, i)
  {
    if i == 0 && a != [] {
      assert PairedAt(a, |a| - 1);
    }
  }

  /** A well-formed text ends between code points, so nothing put after it can change how it reads. */
  lemma {:induction false} WellFormedConcat(a: Text, b: Text)
    requires WellFormed(a)
    ensures WellFormed(a + b) <==> WellFormed(b)
  {
    forall i | 0 <= i < |a| ensures PairedAt(a + b, i) {
      assert PairedAt(a, i);
    }
    forall i | 0 <= i < |b| ensures PairedAt(a + b, |a| + i) <==> PairedAt(b, i) {
      PairedInTail(a, b, i);
    }
    if WellFormed(b) {
      forall j | |a| <= j < |a + b| ensures PairedAt(a + b, j) {
        assert PairedAt(b, j - |a|) && PairedAt(a + b, |a| + (j - |a|));
      }
    }
  }

  /** How many code units the first code point takes. */
  function Width(s: Text): (w: nat)
    requires s != []
    ensures 1 <= w <= |s|
  {
    if IsHigh(s[0]) && |s| > 1 && IsLow(s[1]) then 2 else 1
  }

  lemma {:induction false} FirstCodePoint(s: Text)
    requires WellFormed(s) && s != []
    ensures WellFormed(s[..Width(s)]) && WellFormed(s[Width(s)..])
    ensures Width(s) == 1 ==> !IsHigh(s[0]) && !IsLow(s[0])
  {
    assert PairedAt(s, 0);
    var a, b := s[..Width(s)], s[Width(s)..];
    assert s == a + b;
    WellFormedConcat(a, b);
  }

  /** The number of the first code point; a surrogate that stands alone becomes U+FFFD. */
  function CodePoint(s: Text): (p: nat)
    requires s != []
    ensures p < 0x110000
  {
    var h: int := s[0];
    if Width(s) == 2 then
      var l: int := s[1];
      0x10000 + (h - 0xD800) * 0x400 + (l - 0xDC00)
    else if IsHigh(s[0]) || IsLow(s[0]) then 0xFFFD
    else h
  }

  function PointBytes(p: nat): (b: seq<Byte>)
    requires p < 0x110000
    ensures b != [] && (p < 0x80 ==> b == [p])
  {
    if p < 0x80 then [p]
    else if p < 0x800 then [0xC0 + p / 0x40, 0x80 + p % 0x40]
    else if p < 0x10000 then [0xE0 + p / 0x1000, 0x80 + p / 0x40 % 0x40, 0x80 + p % 0x40]
    else [0xF0 + p / 0x40000, 0x80 + p / 0x1000 % 0x40, 0x80 + p / 0x40 % 0x40, 0x80 + p % 0x40]
  }

  function Utf8(s: Text): (b: seq<Byte>) {
    if s == [] then [] else PointBytes(CodePoint(s)) + Utf8(s[Width(s)..])
  }

  predicate IsTail(b: Byte) { 0x80 <= b < 0xC0 }

  /** The code units of a code point. */
  function Units(p: nat): (t: Text)
    requires p < 0x110000
    ensures t != []
  {
    if p < 0x10000 then [p] else [0xD800 + (p - 0x10000) / 0x400, 0xDC00 + (p - 0x10000) % 0x400]
  }

  /** The value of UTF-8 bytes of the given count, before the checks on its range. */
  function Joined(b: seq<Byte>, n: nat): (p: int)
    requires 2 <= n <= 4 && n <= |b|
  {
    var c, d: int := b[0], b[1];
    if n == 2 then (c - 0xC0) * 0x40 + (d - 0x80) else
    var e: int := b[2];
    if n == 3 then (c - 0xE0) * 0x1000 + (d - 0x80) * 0x40 + (e - 0x80) else
    var f: int := b[3];
    (c - 0xF0) * 0x40000 + (d - 0x80) * 0x1000 + (e - 0x80) * 0x40 + (f - 0x80)
  }

  /** One code point read from valid UTF-8, with the count of bytes it used. */
  function ReadPoint(b: seq<Byte>): (r: Option<(nat, nat)>)
    requires b != []
    ensures r.Some? ==> r.value.0 < 0x110000 && 1 <= r.value.1 <= |b|
  {
    var c := b[0];
    if c < 0x80 then Some((c, 1))
    else if 0xC2 <= c < 0xE0 && |b| >= 2 && IsTail(b[1]) then Some((Joined(b, 2), 2))
    else if 0xE0 <= c < 0xF0 && |b| >= 3 && IsTail(b[1]) && IsTail(b[2]) then
      var p := Joined(b, 3);
      if p < 0x800 || 0xD800 <= p <= 0xDFFF then None else Some((p, 3))
    else if 0xF0 <= c < 0xF5 && |b| >= 4 && IsTail(b[1]) && IsTail(b[2]) && IsTail(b[3]) then
      var p := Joined(b, 4);
      if p < 0x10000 || p >= 0x110000 then None else Some((p, 4))
    else None
  }

  function ReadPoints(b: seq<Byte>): Option<Text> {
    if b == [] then Some([]) else
    match ReadPoint(b)
    case None => None
    case Some((p, used)) =>
      match ReadPoints(b[used..])
      case None => None
      case Some(rest) => Some(Units(p) + rest)
  }

  const MARK: Unit := 0xFEFF
  const BYTE_ORDER_MARK: seq<Byte> := [0xEF, 0xBB, 0xBF]

  /** The fatal decoder: it drops one leading byte order mark and refuses anything that is not UTF-8. */
  function FromUtf8(b: seq<Byte>): Option<Text> {
    ReadPoints(if BYTE_ORDER_MARK <= b then b[3..] else b)
  }

  lemma {:induction false} Base64Digits(p: nat)
    requires p < 0x110000
    ensures p == p / 0x40 * 0x40 + p % 0x40
    ensures p == p / 0x1000 * 0x1000 + p / 0x40 % 0x40 * 0x40 + p % 0x40
    ensures p == p / 0x40000 * 0x40000 + p / 0x1000 % 0x40 * 0x1000 + p / 0x40 % 0x40 * 0x40 + p % 0x40
  {
  }

  lemma {:induction false} PointReadsBack(p: nat, rest: seq<Byte>)
    requires p < 0x110000 && !(0xD800 <= p <= 0xDFFF)
    ensures ReadPoint(PointBytes(p) + rest) == Some((p, |PointBytes(p)|))
  {
    Base64Digits(p);
  }

  lemma {:induction false} UnitsOfCodePoint(s: Text)
    requires WellFormed(s) && s != []
    ensures !(0xD800 <= CodePoint(s) <= 0xDFFF)
    ensures Units(CodePoint(s)) == s[..Width(s)]
  {
    FirstCodePoint(s);
    if Width(s) == 2 {
      assert (CodePoint(s) - 0x10000) / 0x400 == s[0] - 0xD800;
    }
  }

  lemma {:induction false} ReadPointsStep(p: nat, rest: seq<Byte>)
    requires p < 0x110000 && !(0xD800 <= p <= 0xDFFF)
    requires ReadPoints(rest).Some?
    ensures ReadPoints(PointBytes(p) + rest) == Some(Units(p) + ReadPoints(rest).value)
  {
    PointReadsBack(p, rest);
    assert (PointBytes(p) + rest)[|PointBytes(p)|..] == rest;
  }

  lemma {:induction false} PointsReadBack(s: Text)
    requires WellFormed(s)
    ensures ReadPoints(Utf8(s)) == Some(s)
  {
    if s != [] {
      var w := Width(s);
      FirstCodePoint(s);
      UnitsOfCodePoint(s);
      PointsReadBack(s[w..]);
      ReadPointsStep(CodePoint(s), Utf8(s[w..]));
      assert s == s[..w] + s[w..];
    }
  }

  /** The bytes of a byte order mark at the front are the bytes of that one code point. */
  lemma {:induction false} MarkAtFront(p: nat, rest: seq<Byte>)
    requires p < 0x110000
    ensures BYTE_ORDER_MARK <= PointBytes(p) + rest <==> p == MARK
  {
    Base64Digits(p);
    var b := PointBytes(p) + rest;
    assert b[0] == PointBytes(p)[0];
    if 0x800 <= p < 0x10000 {
      assert b[1] == PointBytes(p)[1] && b[2] == PointBytes(p)[2];
    }
  }

  /** A well-formed text survives the trip through UTF-8 exactly if it does not begin with a byte order mark. */
  lemma {:induction false} Utf8RoundTrip(s: Text)
    requires WellFormed(s)
    ensures FromUtf8(Utf8(s)) == Some(s) <==> s == [] || s[0] != MARK
  {
    PointsReadBack(s);
    if s != [] {
      var rest := s[Width(s)..];
      FirstCodePoint(s);
      MarkAtFront(CodePoint(s), Utf8(rest));
      if s[0] == MARK {
        PointsReadBack(rest);
        assert Utf8(s)[3..] == Utf8(rest);
      }
    }
  }

  lemma {:induction false} Utf8Concat(a: Text, b: Text)
    requires WellFormed(a)
    ensures Utf8(a + b) == Utf8(a) + Utf8(b)
  {
    if a == [] {
      assert a + b == b;
    } else {
      var w := Width(a);
      FirstCodePoint(a);
      Utf8Concat(a[w..], b);
      FirstOfConcat(a, b);
    }
  }

  lemma {:induction false} FirstOfConcat(a: Text, b: Text)
    requires WellFormed(a) && a != []
    ensures Width(a + b) == Width(a)
    ensures (a + b)[Width(a)..] == a[Width(a)..] + b
    ensures CodePoint(a + b) == CodePoint(a)
  {
    assert PairedAt(a, 0);
  }
}
