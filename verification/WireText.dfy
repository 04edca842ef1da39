/**
 The text between the two sides: what the x402 client prints is JSON, and parsing it gives the value that `Trip` stands
 for, so the conversion theorems hold of the text that is sent.
*/
module WireText {
  import opened Options
  import opened DecimalText
  import Decimals
  import opened Utf16
  import opened JsonStrings
  import opened JsonDocuments
  import opened Records
  import opened WireFormat

  // ----- strings -----

  function Hex4(u: Unit): Text {
    [HexDigit(u / 16 / 16 / 16), HexDigit(u / 16 / 16 % 16), HexDigit(u / 16 % 16), HexDigit(u % 16)]
  }

  /** How a unit is printed: as the canonical printers do, but a lone surrogate as a hex escape. */
  function UnitText(s: Text, i: nat): Text
    requires i < |s|
  {
    if PairedAt(s, i) then EscapeUnit(s[i]) else [BACKSLASH, 'u' as int] + Hex4(s[i])
  }

  function StringText(s: Text, i: nat): Text
    requires i <= |s|
    decreases |s| - i
  {
    if i == |s| then [] else UnitText(s, i) + StringText(s, i + 1)
  }

  function Stringify(s: Text): Text { [QUOTE] + StringText(s, 0) + [QUOTE] }

  lemma {:induction false} DigitReadsBack(d: nat)
    requires d < 16
    ensures HexValue(HexDigit(d)) == Some(d)
  {
  }

  lemma {:induction false} HexPlaces(u: nat)
    requires u < 0x10000
    ensures u == u / 16 / 16 / 16 * 0x1000 + u / 16 / 16 % 16 * 0x100 + u / 16 % 16 * 0x10 + u % 16
  {
    var a := u / 16;
    var b := a / 16;
    assert u == 16 * a + u % 16 && a == 16 * b + a % 16 && b == 16 * (b / 16) + b % 16;
  }

  lemma {:induction false} HexReadsBack(u: Unit)
    ensures ReadHex4(Hex4(u)) == Some(u)
  {
    DigitReadsBack(u / 16 / 16 / 16);
    DigitReadsBack(u / 16 / 16 % 16);
    DigitReadsBack(u / 16 % 16);
    DigitReadsBack(u % 16);
    HexPlaces(u);
  }

  lemma {:induction false} UnitTextReadsBack(s: Text, i: nat, more: Text)
    requires i < |s| && JsonStrings.ReadString(more).Some?
    ensures var r := JsonStrings.ReadString(more).value;
      JsonStrings.ReadString(UnitText(s, i) + more) == Some(([s[i]] + r.0, r.1))
  {
    if PairedAt(s, i) {
      UnitReadsBack(s[i], more);
    } else {
      var e := ['u' as int] + Hex4(s[i]);
      HexReadsBack(s[i]);
      assert (e + more)[1..5] == Hex4(s[i]);
      assert ReadEscape(e + more) == Some((s[i], |e|));
      EscapeReadsBack(e, s[i], more);
      assert UnitText(s, i) + more == [BACKSLASH] + e + more;
    }
  }

  lemma {:induction false} StringTextReadsBack(s: Text, i: nat, rest: Text)
    requires i <= |s|
    ensures JsonStrings.ReadString(StringText(s, i) + ([QUOTE] + rest)) == Some((s[i..], rest))
    decreases |s| - i
  {
    if i == |s| {
      EndOfString(rest);
      assert [] + ([QUOTE] + rest) == [QUOTE] + rest && s[i..] == [];
    } else {
      var more := StringText(s, i + 1) + ([QUOTE] + rest);
      StringTextReadsBack(s, i + 1, rest);
      UnitTextReadsBack(s, i, more);
      StringTextStep(s, i, [QUOTE] + rest);
      assert JsonStrings.ReadString(UnitText(s, i) + more) == Some(([s[i]] + s[i + 1..], rest));
    }
  }

  lemma {:induction false} StringTextStep(s: Text, i: nat, more: Text)
    requires i < |s|
    ensures StringText(s, i) + more == UnitText(s, i) + (StringText(s, i + 1) + more)
    ensures s[i..] == [s[i]] + s[i + 1..]
  {
    Associate(UnitText(s, i), StringText(s, i + 1), more);
  }

  lemma {:induction false} EndOfString(rest: Text)
    ensures JsonStrings.ReadString([QUOTE] + rest) == Some(([], rest))
  {
    assert ([QUOTE] + rest)[1..] == rest;
  }

  lemma {:induction false} Associate(a: Text, b: Text, c: Text)
    ensures (a + b) + c == a + (b + c)
  {
  }

  lemma {:induction false} QuotedTail(text: Text, rest: Text)
    ensures var t := ([QUOTE] + text + [QUOTE]) + rest;
      t != [] && t[0] == QUOTE && t[1..] == text + ([QUOTE] + rest)
  {
  }

  lemma {:induction false} StringifyReadsBack(s: Text, rest: Text)
    ensures var t := Stringify(s) + rest;
      SkipSpace(t) == t && t[0] == QUOTE && JsonStrings.ReadString(t[1..]) == Some((s, rest))
  {
    StringTextReadsBack(s, 0, rest);
    QuotedTail(StringText(s, 0), rest);
    assert s[0..] == s;
  }

  // ----- numbers -----

  /** What can follow a value inside a printed payload. */
  predicate Delimited(rest: Text) {
    rest == [] || rest[0] == COMMA || rest[0] == CLOSE_ARRAY || rest[0] == CLOSE_OBJECT
  }

  predicate IsNumber(literal: Text) { NumberLength(literal) == Some(|literal|) }

  lemma {:induction false} DigitRunStops(a: Text, rest: Text)
    requires Delimited(rest)
    ensures DigitRun(a + rest) == DigitRun(a)
  {
    if a == [] {
      assert a + rest == rest;
    } else {
      DigitRunStops(a[1..], rest);
      assert (a + rest)[1..] == a[1..] + rest;
    }
  }

  lemma {:induction false} WholeStops(a: Text, rest: Text)
    requires Delimited(rest) && a != []
    ensures WholeLength(a + rest) == WholeLength(a)
  {
    DigitRunStops(a, rest);
  }

  lemma {:induction false} FractionStops(a: Text, rest: Text)
    requires Delimited(rest)
    ensures FractionLength(a + rest) == FractionLength(a)
  {
    if a != [] {
      assert (a + rest)[1..] == a[1..] + rest;
      DigitRunStops(a[1..], rest);
    }
  }

  lemma {:induction false} ExponentStops(a: Text, rest: Text)
    requires Delimited(rest)
    ensures ExponentLength(a + rest) == ExponentLength(a)
  {
    if a != [] {
      assert (a + rest)[1..] == a[1..] + rest;
      DigitRunStops(a[1..], rest);
      if |a| > 1 {
        assert (a + rest)[2..] == a[2..] + rest;
        DigitRunStops(a[2..], rest);
      }
    }
  }

  lemma {:induction false} SuffixStops(literal: Text, k: nat, rest: Text)
    requires k <= |literal| && Delimited(rest)
    ensures k < |literal| ==> WholeLength((literal + rest)[k..]) == WholeLength(literal[k..])
    ensures FractionLength((literal + rest)[k..]) == FractionLength(literal[k..])
    ensures ExponentLength((literal + rest)[k..]) == ExponentLength(literal[k..])
  {
    assert (literal + rest)[k..] == literal[k..] + rest;
    if k < |literal| { WholeStops(literal[k..], rest); }
    FractionStops(literal[k..], rest);
    ExponentStops(literal[k..], rest);
  }

  lemma {:induction false} UnsignedStops(a: Text, rest: Text)
    requires UnsignedLength(a) == Some(|a|) && Delimited(rest)
    ensures UnsignedLength(a + rest) == Some(|a|)
  {
    var w, f, e := UnsignedParts(a);
    WholeStops(a, rest);
    SuffixStops(a, w, rest);
    SuffixStops(a, w + f, rest);
    UnsignedIs(a + rest, w, f, e);
  }

  lemma {:induction false} UnsignedParts(s: Text) returns (w: nat, f: nat, e: nat)
    requires UnsignedLength(s).Some?
    ensures s != [] && w + f <= |s|
    ensures WholeLength(s) == Some(w) && FractionLength(s[w..]) == Some(f) && ExponentLength(s[w + f..]) == Some(e)
    ensures UnsignedLength(s) == Some(w + f + e)
  {
    w := WholeLength(s).value;
    f := FractionLength(s[w..]).value;
    e := ExponentLength(s[w + f..]).value;
  }

  lemma {:induction false} UnsignedIs(s: Text, w: nat, f: nat, e: nat)
    requires w + f <= |s|
    requires WholeLength(s) == Some(w) && FractionLength(s[w..]) == Some(f) && ExponentLength(s[w + f..]) == Some(e)
    ensures UnsignedLength(s) == Some(w + f + e)
  {
  }

  lemma {:induction false} SignedLength(s: Text, n: nat)
    requires s != [] && s[0] == '-' as int
    ensures NumberLength(s) == Some(1 + n) <==> UnsignedLength(s[1..]) == Some(n)
    ensures NumberLength(s).Some? ==> NumberLength(s).value >= 1
  {
  }

  lemma {:induction false} PlainLength(s: Text)
    requires s != [] && s[0] != '-' as int
    ensures NumberLength(s) == UnsignedLength(s)
  {
  }

  lemma {:induction false} NegativeStops(tail: Text, rest: Text)
    requires UnsignedLength(tail) == Some(|tail|) && Delimited(rest)
    ensures NumberLength(['-' as int] + tail + rest) == Some(1 + |tail|)
  {
    hide UnsignedLength, NumberLength;
    var s := ['-' as int] + tail + rest;
    UnsignedStops(tail, rest);
    assert s[1..] == tail + rest;
    SignedLength(s, |tail|);
  }

  lemma {:induction false} NumberStops(literal: Text, rest: Text)
    requires IsNumber(literal) && Delimited(rest)
    ensures NumberLength(literal + rest) == Some(|literal|)
  {
    hide UnsignedLength, NumberLength;
    if literal[0] == '-' as int {
      SignedLength(literal, |literal| - 1);
      NegativeStops(literal[1..], rest);
      assert literal == ['-' as int] + literal[1..];
    } else {
      PlainLength(literal);
      UnsignedStops(literal, rest);
      PlainLength(literal + rest);
    }
  }

  lemma {:induction false} NotALiteral(s: Text)
    requires s != [] && (s[0] == '-' as int || IsDigitUnit(s[0]))
    ensures !(Ascii("true") <= s) && !(Ascii("false") <= s) && !(Ascii("null") <= s)
  {
    assert Ascii("true")[0] == 't' as int && Ascii("false")[0] == 'f' as int && Ascii("null")[0] == 'n' as int;
  }

  lemma {:induction false} NumberStart(literal: Text)
    requires IsNumber(literal)
    ensures literal != [] && (literal[0] == '-' as int || IsDigitUnit(literal[0]))
  {
  }

  lemma {:induction false} ScalarReads(literal: Text, rest: Text)
    requires IsNumber(literal) && Delimited(rest)
    ensures ReadScalar(literal + rest) == Some((JNumber(literal), rest))
  {
    var s := literal + rest;
    NumberStops(literal, rest);
    NumberStart(literal);
    NotALiteral(s);
    assert s[..|literal|] == literal && s[|literal|..] == rest;
  }

  lemma {:induction false} NumberReads(literal: Text, rest: Text)
    requires IsNumber(literal) && Delimited(rest)
    ensures ReadValue(literal + rest) == Some((JNumber(literal), rest))
  {
    var s := literal + rest;
    ScalarReads(literal, rest);
    NumberStart(literal);
    assert s[0] == literal[0];
    assert SkipSpace(s) == s;
  }

  lemma {:induction false} DigitRunAll(t: Text)
    requires forall i :: 0 <= i < |t| ==> IsDigitUnit(t[i])
    ensures DigitRun(t) == |t|
  {
    if t != [] {
      DigitRunAll(t[1..]);
    }
  }

  lemma {:induction false} PrintedUintIsNumber(n: nat)
    ensures IsNumber(PrintUint(n))
  {
    var t := PrintUint(n);
    var d := Decimals.ToDecimal(n);
    forall i | 0 <= i < |t| ensures IsDigitUnit(t[i]) {
      assert Decimals.IsDigit(d[i]);
    }
    DigitRunAll(t);
    assert |t| > 1 ==> d[0] != '0' && t[0] != 0x30;
    assert t[|t|..] == [];
    assert t[0..] == t;
  }

  // ----- values -----

  function ByteItems(bytes: seq<Byte>): (r: seq<Json>)
    ensures |r| == |bytes|
  {
    seq(|bytes|, i requires 0 <= i < |bytes| => JNumber(PrintUint(bytes[i])))
  }

  /** The JSON value that the client prints for a value. */
  function JsonOf(v: Value): Json
    decreases v, 1
  {
    match v
    case Null => JNull
    case Bool(b) => JBool(b)
    case Number(literal) => JNumber(literal)
    case Big(n) => JString(PrintUint(n))
    case Str(text) => JString(text)
    case Bytes(bytes) => JArray(ByteItems(bytes))
    case List(items) => JArray(JsonItems(v))
    case Record(fields) => JObject(JsonFields(v))
  }

  function JsonItems(v: Value): (r: seq<Json>)
    requires v.List?
    ensures |r| == |v.items|
    decreases v, 0
  {
    seq(|v.items|, i requires 0 <= i < |v.items| => JsonOf(v.items[i]))
  }

  function JsonFields(v: Value): (r: seq<Field<Json>>)
    requires v.Record?
    ensures |r| == |v.fields| && forall i :: 0 <= i < |r| ==> r[i].key == v.fields[i].key
    decreases v, 0
  {
    seq(|v.fields|, i requires 0 <= i < |v.fields| => Field(v.fields[i].key, JsonOf(v.fields[i].value)))
  }

  /** A parsed JSON value as the facilitator holds it. */
  function OfJson(j: Json): Value {
    match j
    case JNull => Null
    case JBool(b) => Bool(b)
    case JNumber(literal) => Number(literal)
    case JString(text) => Str(text)
    case JArray(items) => List(seq(|items|, i requires 0 <= i < |items| => OfJson(items[i])))
    case JObject(fields) =>
      Record(seq(|fields|, i requires 0 <= i < |fields| => Field(fields[i].key, OfJson(fields[i].value))))
  }

  lemma {:induction false} TripIsJson(v: Value)
    ensures OfJson(JsonOf(v)) == Trip(v)
  {
    match v {
      case Bytes(bytes) =>
        assert OfJson(JsonOf(v)).items == ByteNumbers(bytes);
      case List(items) =>
        forall i | 0 <= i < |items| ensures OfJson(JsonItems(v)[i]) == Trip(items[i]) { TripIsJson(items[i]); }
        assert OfJson(JsonOf(v)).items == Trip(v).items;
      case Record(fields) =>
        forall i | 0 <= i < |fields| ensures OfJson(JsonFields(v)[i].value) == Trip(fields[i].value) {
          TripIsJson(fields[i].value);
        }
        assert OfJson(JsonOf(v)).fields == TripFields(v);
      case _ =>
    }
  }

  // ----- printing -----

  /** The text of a JSON value without any space, as `JSON.stringify` lays it out. */
  function Compact(j: Json): Text
    decreases j, 2, 0
  {
    match j
    case JNull => Ascii("null")
    case JBool(b) => if b then Ascii("true") else Ascii("false")
    case JNumber(literal) => literal
    case JString(text) => Stringify(text)
    case JArray(items) => CompactArray(j)
    case JObject(fields) => CompactObject(j)
  }

  function CompactArray(j: Json): Text
    requires j.JArray?
    decreases j, 1, 0
  {
    if j.items == [] then [OPEN_ARRAY, CLOSE_ARRAY] else [OPEN_ARRAY] + CompactItems(j, 0)
  }

  function CompactItems(j: Json, i: nat): Text
    requires j.JArray? && i < |j.items|
    decreases j, 0, |j.items| - i
  {
    Compact(j.items[i]) + if i + 1 == |j.items| then [CLOSE_ARRAY] else [COMMA] + CompactItems(j, i + 1)
  }

  function CompactObject(j: Json): Text
    requires j.JObject?
    decreases j, 1, 0
  {
    if j.fields == [] then [OPEN_OBJECT, CLOSE_OBJECT] else [OPEN_OBJECT] + CompactFields(j, 0)
  }

  function CompactFields(j: Json, i: nat): Text
    requires j.JObject? && i < |j.fields|
    decreases j, 0, |j.fields| - i
  {
    (Stringify(j.fields[i].key) + [COLON] + Compact(j.fields[i].value))
      + if i + 1 == |j.fields| then [CLOSE_OBJECT] else [COMMA] + CompactFields(j, i + 1)
  }

  predicate Numeric(j: Json) {
    match j
    case JNumber(literal) => IsNumber(literal)
    case JArray(items) => forall i :: 0 <= i < |items| ==> Numeric(items[i])
    case JObject(fields) => forall i :: 0 <= i < |fields| ==> Numeric(fields[i].value)
    case _ => true
  }

  // ----- reading the text back -----

  lemma {:induction false} LiteralsRead(rest: Text)
    ensures ReadValue(Ascii("null") + rest) == Some((JNull, rest))
    ensures ReadValue(Ascii("true") + rest) == Some((JBool(true), rest))
    ensures ReadValue(Ascii("false") + rest) == Some((JBool(false), rest))
  {
    var n, t, f := Ascii("null") + rest, Ascii("true") + rest, Ascii("false") + rest;
    assert n[0] == 'n' as int && t[0] == 't' as int && f[0] == 'f' as int;
    assert Ascii("true")[0] == 't' as int && Ascii("false")[0] == 'f' as int && Ascii("null")[0] == 'n' as int;
    assert SkipSpace(n) == n && SkipSpace(t) == t && SkipSpace(f) == f;
    assert n[4..] == rest && t[4..] == rest && f[5..] == rest;
    assert Ascii("null") <= n && Ascii("true") <= t && Ascii("false") <= f;
  }

  lemma {:induction false} StringReadsAsValue(s: Text, rest: Text)
    ensures ReadValue(Stringify(s) + rest) == Some((JString(s), rest))
  {
    StringifyReadsBack(s, rest);
  }

  lemma {:induction false} KeyReadsBack(key: Text, after: Text)
    ensures ReadKey(Stringify(key) + ([COLON] + after)) == Some((key, after))
  {
    var colon := [COLON] + after;
    StringifyReadsBack(key, colon);
    assert SkipSpace(colon) == colon && colon[1..] == after;
  }

  lemma {:induction false} CompactStart(j: Json)
    requires Numeric(j)
    ensures var t := Compact(j); t != [] && !IsSpace(t[0]) && t[0] != CLOSE_ARRAY
  {
    match j {
      case JNumber(literal) => NumberStart(literal);
      case JNull => assert Ascii("null")[0] == 'n' as int;
      case JBool(_) => assert Ascii("true")[0] == 't' as int && Ascii("false")[0] == 'f' as int;
      case _ =>
    }
  }

  lemma {:induction false} LastItem(s: Text, item: Json, rest: Text)
    requires ReadValue(s) == Some((item, [CLOSE_ARRAY] + rest))
    ensures ReadItems(s) == Some(([item], rest))
  {
    assert SkipSpace([CLOSE_ARRAY] + rest) == [CLOSE_ARRAY] + rest;
    LastItemReads([], s, item, [CLOSE_ARRAY] + rest, rest);
    assert [] + s == s;
  }

  lemma {:induction false} NextItem(s: Text, item: Json, more: Text, items: seq<Json>, rest: Text)
    requires ReadValue(s) == Some((item, [COMMA] + more)) && ReadItems(more) == Some((items, rest))
    ensures ReadItems(s) == Some(([item] + items, rest))
  {
    assert SkipSpace([COMMA] + more) == [COMMA] + more;
    assert ([COMMA] + more)[1..] == more;
  }

  lemma {:induction false} ArrayOpens(t: Text, items: seq<Json>, rest: Text)
    requires t != [] && !IsSpace(t[0]) && t[0] != CLOSE_ARRAY && ReadItems(t) == Some((items, rest))
    ensures ReadValue([OPEN_ARRAY] + t) == Some((JArray(items), rest))
  {
    var s := [OPEN_ARRAY] + t;
    assert SkipSpace(s) == s && SkipSpace(t) == t && s[1..] == t;
  }

  lemma {:induction false} ObjectOpens(t: Text, fields: seq<Field<Json>>, rest: Text)
    requires t != [] && t[0] == QUOTE && ReadFields(t, []) == Some((fields, rest))
    ensures ReadValue([OPEN_OBJECT] + t) == Some((JObject(fields), rest))
  {
    var s := [OPEN_OBJECT] + t;
    assert SkipSpace(s) == s && SkipSpace(t) == t && s[1..] == t;
  }

  lemma {:induction false} NextField(s: Text, key: Text, afterKey: Text, value: Json, more: Text,
                                     before: seq<Field<Json>>)
    requires ReadKey(s) == Some((key, afterKey)) && ReadValue(afterKey) == Some((value, [COMMA] + more))
    requires DistinctKeys(before)
    ensures ReadFields(s, before) == ReadFields(more, Put(before, key, value))
  {
    assert SkipSpace([COMMA] + more) == [COMMA] + more;
    assert ([COMMA] + more)[1..] == more;
  }

  /** Reading compact text gives back the value it was printed from, whatever delimiter follows. */
  lemma {:induction false} CompactReadsBack(j: Json, rest: Text)
    requires JsonDocuments.Sound(j) && Numeric(j) && Delimited(rest)
    ensures ReadValue(Compact(j) + rest) == Some((j, rest))
    decreases j, 2, 0
  {
    match j {
      case JNull => LiteralsRead(rest);
      case JBool(_) => LiteralsRead(rest);
      case JNumber(literal) => NumberReads(literal, rest);
      case JString(text) => StringReadsAsValue(text, rest);
      case JArray(items) => ArrayReadsBack(j, rest);
      case JObject(fields) => ObjectReadsBack(j, rest);
    }
  }

  lemma {:induction false} ArrayReadsBack(j: Json, rest: Text)
    requires j.JArray? && JsonDocuments.Sound(j) && Numeric(j) && Delimited(rest)
    ensures ReadValue(CompactArray(j) + rest) == Some((j, rest))
    decreases j, 1, 0
  {
    if j.items == [] {
      EmptyReadsBack(rest);
    } else {
      ItemsReadBack(j, 0, rest);
      CompactStart(j.items[0]);
      var t := CompactItems(j, 0) + rest;
      assert t[0] == Compact(j.items[0])[0];
      assert CompactArray(j) + rest == [OPEN_ARRAY] + t;
      assert j.items[0..] == j.items;
      ArrayOpens(t, j.items, rest);
    }
  }

  lemma {:induction false} LastItemShape(j: Json, i: nat, rest: Text)
    requires j.JArray? && i + 1 == |j.items|
    ensures CompactItems(j, i) + rest == Compact(j.items[i]) + ([CLOSE_ARRAY] + rest)
    ensures j.items[i..] == [j.items[i]]
  {
    Associate(Compact(j.items[i]), [CLOSE_ARRAY], rest);
  }

  lemma {:induction false} NextItemShape(j: Json, i: nat, rest: Text)
    requires j.JArray? && i + 1 < |j.items|
    ensures CompactItems(j, i) + rest == Compact(j.items[i]) + ([COMMA] + (CompactItems(j, i + 1) + rest))
    ensures j.items[i..] == [j.items[i]] + j.items[i + 1..]
  {
    Associate(Compact(j.items[i]), [COMMA] + CompactItems(j, i + 1), rest);
    Associate([COMMA], CompactItems(j, i + 1), rest);
  }

  lemma {:induction false} ItemsReadBack(j: Json, i: nat, rest: Text)
    requires j.JArray? && i < |j.items| && JsonDocuments.Sound(j) && Numeric(j)
    ensures ReadItems(CompactItems(j, i) + rest) == Some((j.items[i..], rest))
    decreases j, 0, |j.items| - i
  {
    if i + 1 == |j.items| {
      LastItemShape(j, i, rest);
      CompactReadsBack(j.items[i], [CLOSE_ARRAY] + rest);
      LastItem(Compact(j.items[i]) + ([CLOSE_ARRAY] + rest), j.items[i], rest);
    } else {
      NextItemShape(j, i, rest);
      ItemsReadBack(j, i + 1, rest);
      NextAfter(j, i, CompactItems(j, i + 1) + rest, rest);
    }
  }

  lemma {:induction false} NextAfter(j: Json, i: nat, more: Text, rest: Text)
    requires j.JArray? && i + 1 < |j.items| && JsonDocuments.Sound(j) && Numeric(j)
    requires ReadItems(more) == Some((j.items[i + 1..], rest))
    ensures ReadItems(Compact(j.items[i]) + ([COMMA] + more)) == Some(([j.items[i]] + j.items[i + 1..], rest))
    decreases j, 0, 0
  {
    CompactReadsBack(j.items[i], [COMMA] + more);
    NextItem(Compact(j.items[i]) + ([COMMA] + more), j.items[i], more, j.items[i + 1..], rest);
  }

  lemma {:induction false} ObjectReadsBack(j: Json, rest: Text)
    requires j.JObject? && JsonDocuments.Sound(j) && Numeric(j) && Delimited(rest)
    ensures ReadValue(CompactObject(j) + rest) == Some((j, rest))
    decreases j, 1, 0
  {
    if j.fields == [] {
      EmptyReadsBack(rest);
    } else {
      FieldsReadBack(j, 0, [], rest);
      var t := CompactFields(j, 0) + rest;
      assert t[0] == QUOTE;
      assert CompactObject(j) + rest == [OPEN_OBJECT] + t;
      assert j.fields[..0] == [];
      ObjectOpens(t, j.fields, rest);
    }
  }

  lemma {:induction false} FieldReads(j: Json, i: nat, after: Text) returns (afterKey: Text)
    requires j.JObject? && i < |j.fields| && JsonDocuments.Sound(j) && Numeric(j) && Delimited(after)
    ensures ReadKey((Stringify(j.fields[i].key) + [COLON] + Compact(j.fields[i].value)) + after)
         == Some((j.fields[i].key, afterKey))
    ensures ReadValue(afterKey) == Some((j.fields[i].value, after))
    decreases j, 0, 0, 0
  {
    var key, text := j.fields[i].key, Compact(j.fields[i].value);
    afterKey := text + after;
    CompactReadsBack(j.fields[i].value, after);
    KeyReadsBack(key, afterKey);
    FieldTextShape(Stringify(key), text, after);
  }

  lemma {:induction false} FieldTextShape(key: Text, text: Text, after: Text)
    ensures (key + [COLON] + text) + after == key + ([COLON] + (text + after))
  {
  }

  lemma {:induction false} PutAppends(fields: seq<Field<Json>>, i: nat)
    requires i < |fields| && DistinctKeys(fields)
    ensures Put(fields[..i], fields[i].key, fields[i].value) == fields[..i + 1]
  {
    assert !HasKey(fields[..i], fields[i].key);
    assert fields[..i] + [fields[i]] == fields[..i + 1];
  }

  function FieldText(f: Field<Json>): Text { Stringify(f.key) + [COLON] + Compact(f.value) }

  lemma {:induction false} LastFieldShape(j: Json, i: nat, rest: Text)
    requires j.JObject? && i + 1 == |j.fields|
    ensures CompactFields(j, i) + rest == FieldText(j.fields[i]) + ([CLOSE_OBJECT] + rest)
  {
  }

  lemma {:induction false} NextFieldShape(j: Json, i: nat, rest: Text)
    requires j.JObject? && i + 1 < |j.fields|
    ensures CompactFields(j, i) + rest == FieldText(j.fields[i]) + ([COMMA] + (CompactFields(j, i + 1) + rest))
  {
  }

  lemma {:induction false} FieldsReadBack(j: Json, i: nat, before: seq<Field<Json>>, rest: Text)
    requires j.JObject? && i < |j.fields| && JsonDocuments.Sound(j) && Numeric(j)
    requires before == j.fields[..i]
    ensures ReadFields(CompactFields(j, i) + rest, before) == Some((j.fields, rest))
    decreases j, 0, |j.fields| - i
  {
    var field, text := j.fields[i], FieldText(j.fields[i]);
    PutAppends(j.fields, i);
    if i + 1 == |j.fields| {
      var after := [CLOSE_OBJECT] + rest;
      var afterKey := FieldReads(j, i, after);
      LastFieldReads(text + after, field.key, afterKey, field.value, after, before, rest);
      LastFieldShape(j, i, rest);
      assert j.fields[..i + 1] == j.fields;
    } else {
      var more := CompactFields(j, i + 1) + rest;
      var afterKey := FieldReads(j, i, [COMMA] + more);
      NextField(text + ([COMMA] + more), field.key, afterKey, field.value, more, before);
      FieldsReadBack(j, i + 1, j.fields[..i + 1], rest);
      NextFieldShape(j, i, rest);
    }
  }

  // ----- the theorem -----

  /** What JavaScript guarantees of a value: keys of an object are distinct, and numbers are finite. */
  predicate Representable(v: Value) {
    match v
    case Number(literal) => IsNumber(literal)
    case List(items) => forall i :: 0 <= i < |items| ==> Representable(items[i])
    case Record(fields) =>
      DistinctKeys(fields) && forall i :: 0 <= i < |fields| ==> Representable(fields[i].value)
    case _ => true
  }

  lemma {:induction false} JsonOfSound(v: Value)
    requires Representable(v)
    ensures JsonDocuments.Sound(JsonOf(v)) && Numeric(JsonOf(v))
  {
    match v {
      case Bytes(bytes) =>
        forall i | 0 <= i < |bytes| ensures Numeric(ByteItems(bytes)[i]) { PrintedUintIsNumber(bytes[i]); }
      case List(items) =>
        forall i | 0 <= i < |items| ensures JsonDocuments.Sound(JsonItems(v)[i]) && Numeric(JsonItems(v)[i]) {
          JsonOfSound(items[i]);
        }
      case Record(fields) =>
        forall i | 0 <= i < |fields|
          ensures JsonDocuments.Sound(JsonFields(v)[i].value) && Numeric(JsonFields(v)[i].value)
        {
          JsonOfSound(fields[i].value);
        }
      case _ =>
    }
  }

  /** Parsing what the client prints gives the value that the facilitator converts. */
  lemma {:induction false} PayloadArrives(v: Value)
    requires Representable(v)
    ensures Parse(Compact(JsonOf(v))) == Some(JsonOf(v)) && OfJson(JsonOf(v)) == Trip(v)
  {
    JsonOfSound(v);
    TripIsJson(v);
    CompactReadsBack(JsonOf(v), []);
    assert Compact(JsonOf(v)) + [] == Compact(JsonOf(v));
  }
}
