/**
 JSON string literals: the two escapers of the repository, one specification for both, and the reader of section 7 of
 RFC 8259 that turns an escaped string back into its text.
*/
module JsonStrings {
  import opened Options
  import opened Utf16

  const QUOTE: Unit := 0x22
  const BACKSLASH: Unit := 0x5C

  function HexDigit(d: nat): (u: Unit)
    requires d < 16
  {
    if d < 10 then 0x30 + d else 0x57 + d
  }

  /** How one code unit is printed between the quotes. */
  function EscapeUnit(u: Unit): (t: Text)
    ensures t != []
  {
    if u == QUOTE || u == BACKSLASH then [BACKSLASH, u]
    else if u == 0x08 then [BACKSLASH, 'b' as int]
    else if u == 0x09 then [BACKSLASH, 't' as int]
    else if u == 0x0A then [BACKSLASH, 'n' as int]
    else if u == 0x0C then [BACKSLASH, 'f' as int]
    else if u == 0x0D then [BACKSLASH, 'r' as int]
    else if u < 0x20 then [BACKSLASH, 'u' as int, 0x30, 0x30, HexDigit(u / 16), HexDigit(u % 16)]
    else [u]
  }

  /** A control character without an escape of its own is written as its number, in lower-case hex. */
  lemma {:induction false} ControlEscape(u: Unit)
    requires u < 0x20 && u !in [0x08, 0x09, 0x0A, 0x0C, 0x0D]
    ensures var t := EscapeUnit(u);
      && |t| == 6 && t[..4] == Ascii("\\u00")
      && (t[4] == '0' as int || t[4] == '1' as int)
      && (if u % 16 < 10 then t[5] == '0' as int + u % 16 else t[5] == 'a' as int + (u % 16 - 10))
      && t[4] == '0' as int + u / 16
  {
    assert Ascii("\\u00") == [BACKSLASH, 'u' as int, 0x30, 0x30];
  }

  /** Replaces every unit by a text. */
  function Flat(f: Unit -> Text, s: Text): Text {
    if s == [] then [] else Flat(f, s[..|s| - 1]) + f(s[|s| - 1])
  }

  lemma {:induction false} FlatConcat(f: Unit -> Text, a: Text, b: Text)
    ensures Flat(f, a + b) == Flat(f, a) + Flat(f, b)
  {
    if b == [] {
      assert a + b == a;
    } else {
      var front, last := b[..|b| - 1], b[|b| - 1];
      FlatConcat(f, a, front);
      assert (a + b)[..|a + b| - 1] == a + front && (a + b)[|a + b| - 1] == last;
      assert (Flat(f, a) + Flat(f, front)) + f(last) == Flat(f, a) + (Flat(f, front) + f(last));
    }
  }

  lemma {:induction false} FlatUnit(f: Unit -> Text, u: Unit)
    ensures Flat(f, [u]) == f(u)
  {
    assert [u][..0] == [];
    assert Flat(f, [u]) == [] + f(u);
  }

  function Escaped(s: Text): Text {
    Flat(EscapeUnit, s)
  }

  /** What both escapers compute: nothing for a text with an unpaired surrogate, else every unit escaped. */
  function EscapeSpec(s: Text): Option<Text> {
    if WellFormed(s) then Some(Escaped(s)) else None
  }

  lemma {:induction false} EscapedConcat(a: Text, b: Text)
    ensures Escaped(a + b) == Escaped(a) + Escaped(b)
  {
    FlatConcat(EscapeUnit, a, b);
  }

  lemma {:induction false} EscapedUnit(u: Unit)
    ensures Escaped([u]) == EscapeUnit(u)
  {
    FlatUnit(EscapeUnit, u);
  }

  lemma {:induction false} EscapedFirst(s: Text)
    requires s != []
    ensures Escaped(s) == EscapeUnit(s[0]) + Escaped(s[1..])
  {
    assert s == [s[0]] + s[1..];
    EscapedConcat([s[0]], s[1..]);
    EscapedUnit(s[0]);
  }

  lemma {:induction false} EscapedPair(h: Unit, l: Unit)
    requires IsHigh(h) && IsLow(l)
    ensures Escaped([h, l]) == [h, l]
  {
    EscapedFirst([h, l]);
    EscapedUnit(l);
    assert [h, l][1..] == [l];
  }

  lemma {:induction false} EscapedPoint(s: Text)
    requires WellFormed(s) && s != [] && Width(s) == |s|
    ensures WellFormed(Escaped(s))
    ensures |s| == 2 ==> Escaped(s) == s
  {
    FirstCodePoint(s);
    if |s| == 2 {
      assert s == [s[0], s[1]];
      EscapedPair(s[0], s[1]);
    } else {
      assert s == [s[0]];
      EscapedUnit(s[0]);
    }
  }

  /** An escaped text is itself well-formed, so that it has a faithful UTF-8 form. */
  lemma {:induction false} EscapedWellFormed(s: Text)
    requires WellFormed(s)
    ensures WellFormed(Escaped(s))
  {
    if s != [] {
      var a, b := s[..Width(s)], s[Width(s)..];
      FirstCodePoint(s);
      EscapedWellFormed(b);
      assert s == a + b;
      EscapedConcat(a, b);
      EscapedPoint(a);
      WellFormedConcat(Escaped(a), Escaped(b));
    }
  }

  /** The branches of the claim printer for a unit outside any surrogate pair. */
  method EscapeCharacter(unit: Unit) returns (t: Text)
    ensures t == EscapeUnit(unit)
  {
    if unit == QUOTE {
      t := [BACKSLASH, QUOTE];
    } else if unit == BACKSLASH {
      t := [BACKSLASH, BACKSLASH];
    } else if unit == 0x08 {
      t := [BACKSLASH, 'b' as int];
    } else if unit == 0x09 {
      t := [BACKSLASH, 't' as int];
    } else if unit == 0x0A {
      t := [BACKSLASH, 'n' as int];
    } else if unit == 0x0C {
      t := [BACKSLASH, 'f' as int];
    } else if unit == 0x0D {
      t := [BACKSLASH, 'r' as int];
    } else if unit < 0x20 {
      t := [BACKSLASH, 'u' as int, 0x30, 0x30, HexDigit(unit / 16), HexDigit(unit % 16)];
    } else {
      t := [unit];
    }
  }

  /** The claim printer's escaper: one pass that copies pairs, rejects lone surrogates and adds the quotes. */
  method EscapeString(value: Text) returns (r: Option<Text>)
    ensures r == (if WellFormed(value) then Some([QUOTE] + Escaped(value) + [QUOTE]) else None)
  {
    var output: Text := [QUOTE];
    var index := 0;
    while index < |value|
      invariant 0 <= index <= |value|
      invariant WellFormed(value[..index])
      invariant output == [QUOTE] + Escaped(value[..index])
    {
      var unit := value[index];
      if IsHigh(unit) {
        if !(index + 1 < |value| && IsLow(value[index + 1])) {
          Lone(value, index);
          return None;
        }
        Advance(value, index, 2);
        output := output + [value[index], value[index + 1]];
        index := index + 2;
      } else {
        if IsLow(unit) {
          Lone(value, index);
          return None;
        }
        Advance(value, index, 1);
        var escaped := EscapeCharacter(unit);
        output := output + escaped;
        index := index + 1;
      }
    }
    assert value[..index] == value;
    return Some(output + [QUOTE]);
  }

  lemma {:induction false} Lone(value: Text, index: nat)
    requires index < |value| && WellFormed(value[..index])
    requires IsLow(value[index]) || (IsHigh(value[index]) && !(index + 1 < |value| && IsLow(value[index + 1])))
    ensures !WellFormed(value)
  {
    assert index > 0 ==> PairedAt(value[..index], index - 1);
    assert !PairedAt(value, index);
  }

  /** Moving one code point further keeps what is behind well-formed and extends what is escaped. */
  lemma {:induction false} Advance(value: Text, index: nat, width: nat)
    requires index + width <= |value| && 1 <= width <= 2
    requires WellFormed(value[..index])
    requires width == 2 ==> IsHigh(value[index]) && IsLow(value[index + 1])
    requires width == 1 ==> !IsHigh(value[index]) && !IsLow(value[index])
    ensures WellFormed(value[..index + width])
    ensures Escaped(value[..index + width])
         == Escaped(value[..index]) + if width == 2 then [value[index], value[index + 1]] else EscapeUnit(value[index])
  {
    var point := value[index..index + width];
    assert value[..index + width] == value[..index] + point;
    WellFormedConcat(value[..index], point);
    EscapedConcat(value[..index], point);
    if width == 2 {
      EscapedPair(value[index], value[index + 1]);
      assert point == [value[index], value[index + 1]];
    } else {
      EscapedUnit(value[index]);
      assert point == [value[index]];
    }
  }

  /** The record printer's first pass: true exactly when no surrogate stands alone. */
  method AssertWellFormedUtf16(value: Text) returns (ok: bool)
    ensures ok == WellFormed(value)
  {
    var index := 0;
    while index < |value|
      invariant 0 <= index <= |value|
      invariant WellFormed(value[..index])
    {
      var unit := value[index];
      if IsHigh(unit) {
        if index + 1 >= |value| || value[index + 1] < 0xDC00 || value[index + 1] > 0xDFFF {
          Lone(value, index);
          return false;
        }
        Advance(value, index, 2);
        index := index + 2;
      } else {
        if IsLow(unit) {
          Lone(value, index);
          return false;
        }
        Advance(value, index, 1);
        index := index + 1;
      }
    }
    assert value[..index] == value;
    return true;
  }

  /** The record printer's escaper: it walks code points and decides each by its number. */
  method EscapeCanonicalJsonString(value: Text) returns (r: Option<Text>)
    ensures r == EscapeSpec(value)
  {
    var wellFormed := AssertWellFormedUtf16(value);
    if !wellFormed {
      return None;
    }
    var result: Text := [];
    var index := 0;
    assert value[..0] == [] && Escaped([]) == [] && value[..|value|] == value;
    hide Escaped;
    while index < |value|
      invariant 0 <= index <= |value|
      invariant WellFormed(value[..index])
      invariant result == Escaped(value[..index])
    {
      var character, codePoint := value[index..index + Width(value[index..])], CodePoint(value[index..]);
      NextCodePoint(value, index);
      ghost var before := result;
      match codePoint {
        case 0x22 => result := result + [BACKSLASH, QUOTE];
        case 0x5C => result := result + [BACKSLASH, BACKSLASH];
        case 0x08 => result := result + [BACKSLASH, 'b' as int];
        case 0x09 => result := result + [BACKSLASH, 't' as int];
        case 0x0A => result := result + [BACKSLASH, 'n' as int];
        case 0x0C => result := result + [BACKSLASH, 'f' as int];
        case 0x0D => result := result + [BACKSLASH, 'r' as int];
        case _ =>
          if codePoint <= 0x1F {
            result := result + [BACKSLASH, 'u' as int, 0x30, 0x30, HexDigit(codePoint / 16), HexDigit(codePoint % 16)];
          } else {
            result := result + character;
          }
      }
      assert result == before + if |character| == 2 then character else EscapeUnit(value[index]);
      assert character == value[index..index + |character|];
      Advance(value, index, |character|);
      index := index + |character|;
    }
    return Some(result);
  }

  /** In a well-formed text, a position between code points sees a pair or a unit that is its own code point. */
  lemma {:induction false} NextCodePoint(value: Text, index: nat)
    requires WellFormed(value) && index < |value| && WellFormed(value[..index])
    ensures var rest := value[index..]; var w := Width(rest);
      && (w == 2 ==> index + 1 < |value| && IsHigh(value[index]) && IsLow(value[index + 1])
                     && CodePoint(rest) >= 0x10000)
      && (w == 1 ==> !IsHigh(value[index]) && !IsLow(value[index]) && CodePoint(rest) == value[index])
      && 1 <= w <= 2
  {
    assert value == value[..index] + value[index..];
    WellFormedConcat(value[..index], value[index..]);
    FirstCodePoint(value[index..]);
  }

  function HexValue(u: Unit): (r: Option<nat>)
    ensures r.Some? ==> r.value < 16
  {
    if 0x30 <= u <= 0x39 then Some(u - 0x30)
    else if 0x41 <= u <= 0x46 then Some(u - 0x37)
    else if 0x61 <= u <= 0x66 then Some(u - 0x57)
    else None
  }

  function ReadHex4(s: Text): Option<Unit>
    requires |s| == 4
  {
    var a, b, c, d := HexValue(s[0]), HexValue(s[1]), HexValue(s[2]), HexValue(s[3]);
    if a.Some? && b.Some? && c.Some? && d.Some? then
      Some(a.value * 0x1000 + b.value * 0x100 + c.value * 0x10 + d.value)
    else None
  }

  /** What follows a backslash: the code unit meant, and how many units the escape takes after the backslash. */
  function ReadEscape(s: Text): (r: Option<(Unit, nat)>)
    ensures r.Some? ==> 1 <= r.value.1 <= |s|
  {
    if s == [] then None
    else if s[0] == QUOTE || s[0] == BACKSLASH || s[0] == '/' as int then Some((s[0], 1))
    else if s[0] == 'b' as int then Some((0x08, 1))
    else if s[0] == 'f' as int then Some((0x0C, 1))
    else if s[0] == 'n' as int then Some((0x0A, 1))
    else if s[0] == 'r' as int then Some((0x0D, 1))
    else if s[0] == 't' as int then Some((0x09, 1))
    else if s[0] == 'u' as int && |s| >= 5 then
      match ReadHex4(s[1..5])
      case None => None
      case Some(unit) => Some((unit, 5))
    else None
  }

  /** Reads the inside of a string literal and its closing quote; the result is the text and what follows. */
  function ReadString(s: Text): (r: Option<(Text, Text)>)
    ensures r.Some? ==> |r.value.1| < |s|
  {
    if s == [] then None
    else if s[0] == QUOTE then Some(([], s[1..]))
    else if s[0] == BACKSLASH then
      match ReadEscape(s[1..])
      case None => None
      case Some((unit, used)) =>
        match ReadString(s[1 + used..])
        case None => None
        case Some((text, rest)) => Some(([unit] + text, rest))
    else if s[0] < 0x20 then None
    else
      match ReadString(s[1..])
      case None => None
      case Some((text, rest)) => Some(([s[0]] + text, rest))
  }

  lemma {:induction false} ControlReadsBack(u: Unit, more: Text)
    requires u < 0x20
    ensures ReadEscape(['u' as int, 0x30, 0x30, HexDigit(u / 16), HexDigit(u % 16)] + more) == Some((u, 5))
  {
    var digits: Text := [0x30, 0x30, HexDigit(u / 16), HexDigit(u % 16)];
    assert HexValue(HexDigit(u / 16)) == Some(u / 16) && HexValue(HexDigit(u % 16)) == Some(u % 16);
    assert ReadHex4(digits) == Some(u);
    assert (['u' as int, 0x30, 0x30, HexDigit(u / 16), HexDigit(u % 16)] + more)[1..5] == digits;
  }

  lemma {:induction false} EscapeStep(s: Text, u: Unit, used: nat)
    requires s != [] && s[0] == BACKSLASH && ReadEscape(s[1..]) == Some((u, used))
    requires ReadString(s[1 + used..]).Some?
    ensures var more := ReadString(s[1 + used..]).value; ReadString(s) == Some(([u] + more.0, more.1))
  {
  }

  lemma {:induction false} EscapeReadsBack(e: Text, u: Unit, more: Text)
    requires ReadEscape(e + more) == Some((u, |e|))
    requires ReadString(more).Some?
    ensures ReadString([BACKSLASH] + e + more) == Some(([u] + ReadString(more).value.0, ReadString(more).value.1))
  {
    var s := [BACKSLASH] + e + more;
    assert s[1..] == e + more && s[1 + |e|..] == more;
    EscapeStep(s, u, |e|);
  }

  lemma {:induction false} PlainReadsBack(u: Unit, more: Text)
    requires u >= 0x20 && u != QUOTE && u != BACKSLASH
    requires ReadString(more).Some?
    ensures ReadString([u] + more) == Some(([u] + ReadString(more).value.0, ReadString(more).value.1))
  {
    assert ([u] + more)[1..] == more;
  }

  /** Every escaped unit is read back as that unit, whatever follows. */
  lemma {:induction false} UnitReadsBack(u: Unit, more: Text)
    requires ReadString(more).Some?
    ensures ReadString(EscapeUnit(u) + more) == Some(([u] + ReadString(more).value.0, ReadString(more).value.1))
  {
    var e := EscapeUnit(u);
    if |e| == 1 {
      PlainReadsBack(u, more);
    } else {
      assert e == [BACKSLASH] + e[1..];
      assert ReadEscape(e[1..] + more) == Some((u, |e[1..]|)) by {
        if |e| == 6 {
          ControlReadsBack(u, more);
          assert e[1..] == ['u' as int, 0x30, 0x30, HexDigit(u / 16), HexDigit(u % 16)];
        } else {
          assert (e[1..] + more)[0] == e[1];
        }
      }
      EscapeReadsBack(e[1..], u, more);
    }
  }

  /** Section 7 of RFC 8259: reading the escaped text up to the closing quote gives back the text. */
  lemma {:induction false} StringReadsBack(s: Text, rest: Text)
    ensures ReadString(Escaped(s) + [QUOTE] + rest) == Some((s, rest))
  {
    hide EscapeUnit;
    if s == [] {
      assert Escaped(s) + [QUOTE] + rest == [QUOTE] + rest;
      assert ([QUOTE] + rest)[1..] == rest;
    } else {
      var more := Escaped(s[1..]) + [QUOTE] + rest;
      StringReadsBack(s[1..], rest);
      EscapedFirst(s);
      assert Escaped(s) + [QUOTE] + rest == EscapeUnit(s[0]) + more;
      UnitReadsBack(s[0], more);
      assert [s[0]] + s[1..] == s;
    }
  }

  /** Equal escaped texts come from equal texts. */
  lemma {:induction false} EscapedInjective(s: Text, t: Text)
    requires Escaped(s) == Escaped(t)
    ensures s == t
  {
    StringReadsBack(s, []);
    StringReadsBack(t, []);
  }
}
