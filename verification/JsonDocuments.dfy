/**
 JSON documents: a reader for the whole of RFC 8259, and the canonical printer of the claim format. The main theorem,
 `DocumentReadsBack`, says that a printed document is JSON for exactly the value that was printed, its fields in
 layout order.
*/
module JsonDocuments {
  import opened Options
  import opened Utf16
  import opened JsonStrings
  import opened Records

  /** The fields of an object are in the order they were added; reading never repeats a key. */
  datatype Json =
    | JString(text: Text)
    | JArray(items: seq<Json>)
    | JObject(fields: seq<Field<Json>>)
    | JNumber(literal: Text)
    | JBool(value: bool)
    | JNull

  // ----- reading -----

  predicate IsSpace(u: Unit) { u == 0x20 || u == 0x09 || u == 0x0A || u == 0x0D }

  function SkipSpace(s: Text): (r: Text)
    ensures |r| <= |s|
    ensures r != [] ==> !IsSpace(r[0])
  {
    if s != [] && IsSpace(s[0]) then SkipSpace(s[1..]) else s
  }

  const COMMA: Unit := ',' as int
  const COLON: Unit := ':' as int
  const OPEN_ARRAY: Unit := '[' as int
  const CLOSE_ARRAY: Unit := ']' as int
  const OPEN_OBJECT: Unit := '{' as int
  const CLOSE_OBJECT: Unit := '}' as int
  const LF: Unit := 0x0A

  function DigitRun(s: Text): (n: nat)
    ensures n <= |s|
  {
    if s != [] && IsDigitUnit(s[0]) then 1 + DigitRun(s[1..]) else 0
  }

  /** The length of the whole part, the fraction and the exponent at the start of a text; a fault is `None`. */
  function WholeLength(s: Text): (n: Option<nat>)
    ensures n.Some? ==> 1 <= n.value <= |s|
  {
    if s == [] || !IsDigitUnit(s[0]) then None
    else if s[0] == 0x30 then Some(1)
    else Some(DigitRun(s))
  }

  function FractionLength(s: Text): (n: Option<nat>)
    ensures n.Some? ==> n.value <= |s|
  {
    if s == [] || s[0] != '.' as int then Some(0)
    else if DigitRun(s[1..]) == 0 then None
    else Some(1 + DigitRun(s[1..]))
  }

  function ExponentLength(s: Text): (n: Option<nat>)
    ensures n.Some? ==> n.value <= |s|
  {
    if s == [] || (s[0] != 'e' as int && s[0] != 'E' as int) then Some(0)
    else
      var sign := if |s| > 1 && (s[1] == '+' as int || s[1] == '-' as int) then 2 else 1;
      if DigitRun(s[sign..]) == 0 then None else Some(sign + DigitRun(s[sign..]))
  }

  function UnsignedLength(s: Text): (n: Option<nat>)
    ensures n.Some? ==> 1 <= n.value <= |s|
  {
    var w :- WholeLength(s);
    var f :- FractionLength(s[w..]);
    var e :- ExponentLength(s[w + f..]);
    Some(w + f + e)
  }

  function NumberLength(s: Text): (n: Option<nat>)
    ensures n.Some? ==> 1 <= n.value <= |s|
  {
    if s != [] && s[0] == '-' as int then
      var n :- UnsignedLength(s[1..]);
      Some(1 + n)
    else UnsignedLength(s)
  }

  function ReadScalar(s: Text): (r: Option<(Json, Text)>)
    ensures r.Some? ==> |r.value.1| < |s|
  {
    if Ascii("true") <= s then Some((JBool(true), s[4..]))
    else if Ascii("false") <= s then Some((JBool(false), s[5..]))
    else if Ascii("null") <= s then Some((JNull, s[4..]))
    else
      match NumberLength(s)
      case None => None
      case Some(n) => Some((JNumber(s[..n]), s[n..]))
  }

  function ReadValue(s: Text): (r: Option<(Json, Text)>)
    ensures r.Some? ==> |r.value.1| < |s|
    decreases |s|, 2
  {
    var t := SkipSpace(s);
    if t == [] then None
    else if t[0] == QUOTE then ReadText(t[1..])
    else if t[0] == OPEN_ARRAY then ReadArray(t[1..])
    else if t[0] == OPEN_OBJECT then ReadObject(t[1..])
    else ReadScalar(t)
  }

  function ReadText(s: Text): (r: Option<(Json, Text)>)
    ensures r.Some? ==> |r.value.1| < |s|
  {
    match ReadString(s)
    case None => None
    case Some((text, rest)) => Some((JString(text), rest))
  }

  /** What follows an opening bracket. */
  function ReadArray(s: Text): (r: Option<(Json, Text)>)
    ensures r.Some? ==> |r.value.1| < |s|
    decreases |s|, 4
  {
    var u := SkipSpace(s);
    if u != [] && u[0] == CLOSE_ARRAY then Some((JArray([]), u[1..])) else
    match ReadItems(s)
    case None => None
    case Some((items, rest)) => Some((JArray(items), rest))
  }

  function ReadItems(s: Text): (r: Option<(seq<Json>, Text)>)
    ensures r.Some? ==> |r.value.1| < |s|
    decreases |s|, 3
  {
    match ReadValue(s)
    case None => None
    case Some((item, rest)) => ReadMoreItems(item, SkipSpace(rest))
  }

  /** What follows an item: the end of the array, or a comma and more items. */
  function ReadMoreItems(item: Json, u: Text): (r: Option<(seq<Json>, Text)>)
    ensures r.Some? ==> |r.value.1| < |u|
    decreases |u|, 0
  {
    if u == [] then None
    else if u[0] == CLOSE_ARRAY then Some(([item], u[1..]))
    else if u[0] == COMMA then
      match ReadItems(u[1..])
      case None => None
      case Some((items, more)) => Some(([item] + items, more))
    else None
  }

  /** What follows an opening brace. */
  function ReadObject(s: Text): (r: Option<(Json, Text)>)
    ensures r.Some? ==> |r.value.1| < |s|
    decreases |s|, 4
  {
    var u := SkipSpace(s);
    if u != [] && u[0] == CLOSE_OBJECT then Some((JObject([]), u[1..])) else
    match ReadFields(s, [])
    case None => None
    case Some((fields, rest)) => Some((JObject(fields), rest))
  }

  /** Reads a key and its colon. */
  function ReadKey(s: Text): (r: Option<(Text, Text)>)
    ensures r.Some? ==> |r.value.1| < |s|
  {
    var t := SkipSpace(s);
    if t == [] || t[0] != QUOTE then None else
    match ReadString(t[1..])
    case None => None
    case Some((key, rest)) =>
      var u := SkipSpace(rest);
      if u == [] || u[0] != COLON then None else Some((key, u[1..]))
  }

  function ReadFields(s: Text, before: seq<Field<Json>>): (r: Option<(seq<Field<Json>>, Text)>)
    requires DistinctKeys(before)
    ensures r.Some? ==> DistinctKeys(r.value.0) && |r.value.1| < |s|
    decreases |s|, 3
  {
    match ReadKey(s)
    case None => None
    case Some((key, afterKey)) =>
      match ReadValue(afterKey)
      case None => None
      case Some((value, rest)) => ReadMoreFields(Put(before, key, value), SkipSpace(rest))
  }

  /** What follows a field: the end of the object, or a comma and more fields. */
  function ReadMoreFields(fields: seq<Field<Json>>, u: Text): (r: Option<(seq<Field<Json>>, Text)>)
    requires DistinctKeys(fields)
    ensures r.Some? ==> DistinctKeys(r.value.0) && |r.value.1| < |u|
    decreases |u|, 0
  {
    if u == [] then None
    else if u[0] == CLOSE_OBJECT then Some((fields, u[1..]))
    else if u[0] == COMMA then ReadFields(u[1..], fields)
    else None
  }

  /** A whole document: one value and nothing but space around it. */
  function Parse(s: Text): Option<Json> {
    match ReadValue(s)
    case None => None
    case Some((value, rest)) => if SkipSpace(rest) == [] then Some(value) else None
  }

  // ----- printing -----

  /** Where keys stand: no rule, a list of names, or names that each carry the rule for what is below them. */
  datatype Layout = Unordered | Names(names: seq<Text>) | Tree(children: seq<Child>)
  datatype Child = Child(name: Text, layout: Layout)

  const STAR: Text := Ascii("*")

  function ChildNames(children: seq<Child>): (r: seq<Text>)
  {
    if children == [] then [] else
    (if children[0].name == STAR then [] else [children[0].name]) + ChildNames(children[1..])
  }

  function ChildLayout(children: seq<Child>, name: Text): Layout {
    if children == [] then Unordered
    else if children[0].name == name then children[0].layout
    else ChildLayout(children[1..], name)
  }

  function Below(order: Layout, name: Text): Layout {
    if order.Tree? then ChildLayout(order.children, name) else Unordered
  }

  function KeysOf(fields: seq<Field<Json>>): (r: seq<Text>)
    ensures |r| == |fields| && forall i :: 0 <= i < |r| ==> r[i] == fields[i].key
  {
    seq(|fields|, i requires 0 <= i < |fields| => fields[i].key)
  }

  function KeyOrder(fields: seq<Field<Json>>, order: Layout): seq<Text> {
    match order
    case Unordered => KeysOf(fields)
    case Names(names) => names
    case Tree(children) => ChildNames(children)
  }

  /** The names that the object has, in the order given. */
  function Present(names: seq<Text>, fields: seq<Field<Json>>): (r: seq<Text>)
    ensures forall k :: k in r <==> k in names && HasKey(fields, k)
  {
    if names == [] then [] else
    (if HasKey(fields, names[0]) then [names[0]] else []) + Present(names[1..], fields)
  }

  function Spaces(depth: nat): (t: Text)
    ensures |t| == 2 * depth
  {
    seq(2 * depth, i => 0x20)
  }

  function Quoted(s: Text): Text { [QUOTE] + Escaped(s) + [QUOTE] }

  /** A string, if it can be printed. */
  function WriteString(s: Text): Option<Text> {
    if WellFormed(s) then Some(Quoted(s)) else None
  }

  function After(start: Text, rest: Option<Text>): Option<Text> {
    if rest.Some? then Some(start + rest.value) else None
  }

  /** Prints a value; nothing for numbers, literals, keys without a place and texts with a lone surrogate. */
  function Write(v: Json, order: Layout, depth: nat): Option<Text>
    decreases v, 3, 0
  {
    match v
    case JString(text) => WriteString(text)
    case JArray(items) => WriteArray(v, Below(order, STAR), depth)
    case JObject(fields) => WriteObject(v, order, depth)
    case _ => None
  }

  function WriteArray(v: Json, order: Layout, depth: nat): Option<Text>
    requires v.JArray?
    decreases v, 2, 0
  {
    if v.items == [] then Some([OPEN_ARRAY, CLOSE_ARRAY])
    else After([OPEN_ARRAY, LF], WriteItems(v, 0, order, depth))
  }

  /** Every key has a place in the order. */
  predicate Placed(fields: seq<Field<Json>>, names: seq<Text>) {
    forall i :: 0 <= i < |fields| ==> fields[i].key in names
  }

  function PresentKeys(v: Json, order: Layout): (r: seq<Text>)
    requires v.JObject?
    ensures forall k :: k in r ==> HasKey(v.fields, k)
  {
    Present(KeyOrder(v.fields, order), v.fields)
  }

  function WriteObject(v: Json, order: Layout, depth: nat): Option<Text>
    requires v.JObject?
    decreases v, 2, 0
  {
    if !Placed(v.fields, KeyOrder(v.fields, order)) then None else
    var present := PresentKeys(v, order);
    if present == [] then Some([OPEN_OBJECT, CLOSE_OBJECT])
    else After([OPEN_OBJECT, LF], WriteFields(v, present, order, depth))
  }

  /** What stands after an item or a field: a comma and the next one, or the closing bracket or brace. */
  function End(depth: nat, close: Unit): Text { [LF] + Spaces(depth) + [close] }

  /** The items from the `i`th on, the commas between them, and the closing bracket. */
  function WriteItems(v: Json, i: nat, order: Layout, depth: nat): Option<Text>
    requires v.JArray? && i < |v.items|
    decreases v, 1, |v.items| - i
  {
    match Write(v.items[i], order, depth + 1)
    case None => None
    case Some(item) =>
      var start := Spaces(depth + 1) + item;
      if i + 1 == |v.items| then Some(start + End(depth, CLOSE_ARRAY))
      else After(start + [COMMA, LF], WriteItems(v, i + 1, order, depth))
  }

  function WriteField(v: Json, key: Text, order: Layout, depth: nat): Option<Text>
    requires v.JObject? && HasKey(v.fields, key)
    decreases v, 0, 0
  {
    match WriteString(key)
    case None => None
    case Some(name) =>
      After(Spaces(depth + 1) + name + [COLON, 0x20],
            Write(v.fields[IndexOf(v.fields, key)].value, Below(order, key), depth + 1))
  }

  /** The fields with the given keys, the commas between them, and the closing brace. */
  function WriteFields(v: Json, keys: seq<Text>, order: Layout, depth: nat): Option<Text>
    requires v.JObject? && keys != [] && forall k :: k in keys ==> HasKey(v.fields, k)
    decreases v, 1, |keys|
  {
    match WriteField(v, keys[0], order, depth)
    case None => None
    case Some(field) =>
      if |keys| == 1 then Some(field + End(depth, CLOSE_OBJECT))
      else After(field + [COMMA, LF], WriteFields(v, keys[1..], order, depth))
  }

  // ----- reading back what was printed -----

  /** Every object in the value has one field per key, as JavaScript objects do. */
  predicate Sound(v: Json) {
    match v
    case JArray(items) => forall i :: 0 <= i < |items| ==> Sound(items[i])
    case JObject(fields) => DistinctKeys(fields) && forall i :: 0 <= i < |fields| ==> Sound(fields[i].value)
    case _ => true
  }

  predicate Distinct(names: seq<Text>) {
    forall i, j :: 0 <= i < j < |names| ==> names[i] != names[j]
  }

  /** The layout gives no key two places. */
  predicate Proper(order: Layout) {
    match order
    case Unordered => true
    case Names(names) => Distinct(names)
    case Tree(children) => Distinct(ChildNames(children)) && forall i :: 0 <= i < |children|
                                                                 ==> Proper(children[i].layout)
  }

  /** The value with the fields of its objects in layout order. */
  function Arranged(v: Json, order: Layout): Json
    decreases v, 1
  {
    match v
    case JArray(items) => JArray(ArrangedItems(v, 0, Below(order, STAR)))
    case JObject(fields) => JObject(ArrangedFields(v, PresentKeys(v, order), order))
    case _ => v
  }

  function ArrangedItems(v: Json, i: nat, order: Layout): (r: seq<Json>)
    requires v.JArray? && i <= |v.items|
    ensures |r| == |v.items| - i
    decreases v, 0
  {
    seq(|v.items| - i, k requires 0 <= k < |v.items| - i => Arranged(v.items[i + k], order))
  }

  function ArrangedFields(v: Json, keys: seq<Text>, order: Layout): (r: seq<Field<Json>>)
    requires v.JObject? && forall k :: k in keys ==> HasKey(v.fields, k)
    ensures |r| == |keys| && forall i :: 0 <= i < |r| ==> r[i].key == keys[i]
    decreases v, 0
  {
    seq(|keys|, i requires 0 <= i < |keys| =>
      Field(keys[i], Arranged(v.fields[IndexOf(v.fields, keys[i])].value, Below(order, keys[i]))))
  }

  predicate AllSpace(s: Text) { forall i :: 0 <= i < |s| ==> IsSpace(s[i]) }

  lemma {:induction false} SkipSpaceOver(ws: Text, s: Text)
    requires AllSpace(ws)
    ensures SkipSpace(ws + s) == SkipSpace(s)
  {
    if ws == [] {
      assert ws + s == s;
    } else {
      assert (ws + s)[1..] == ws[1..] + s;
      SkipSpaceOver(ws[1..], s);
    }
  }

  lemma {:induction false} SpaceBeforeValue(ws: Text, s: Text)
    requires AllSpace(ws)
    ensures ReadValue(ws + s) == ReadValue(s)
    ensures ReadItems(ws + s) == ReadItems(s)
  {
    SkipSpaceOver(ws, s);
  }

  lemma {:induction false} SpaceBeforeFields(ws: Text, s: Text, before: seq<Field<Json>>)
    requires AllSpace(ws) && DistinctKeys(before)
    ensures ReadKey(ws + s) == ReadKey(s)
    ensures ReadFields(ws + s, before) == ReadFields(s, before)
  {
    SkipSpaceOver(ws, s);
  }

  lemma {:induction false} EndReadsBack(depth: nat, close: Unit, rest: Text)
    requires !IsSpace(close)
    ensures SkipSpace(End(depth, close) + rest) == [close] + rest
  {
    var ws := [LF] + Spaces(depth);
    assert End(depth, close) + rest == ws + ([close] + rest);
    SkipSpaceOver(ws, [close] + rest);
  }

  /** Printed values begin with a quote, a bracket or a brace. */
  lemma {:induction false} WrittenStart(v: Json, order: Layout, depth: nat)
    requires Write(v, order, depth).Some?
    ensures var t := Write(v, order, depth).value; t != []
                                                   && (t[0] == QUOTE || t[0] == OPEN_ARRAY || t[0] == OPEN_OBJECT)
  {
  }

  lemma {:induction false} PresentDistinct(names: seq<Text>, fields: seq<Field<Json>>)
    requires Distinct(names)
    ensures Distinct(Present(names, fields))
  {
    if names != [] {
      PresentDistinct(names[1..], fields);
      var tail := Present(names[1..], fields);
      assert names[0] !in names[1..];
      assert names[0] !in tail;
    }
  }

  lemma {:induction false} BelowProper(order: Layout, name: Text)
    requires Proper(order)
    ensures Proper(Below(order, name))
  {
    if order.Tree? {
      ChildProper(order.children, name);
    }
  }

  lemma {:induction false} ChildProper(children: seq<Child>, name: Text)
    requires forall i :: 0 <= i < |children| ==> Proper(children[i].layout)
    ensures Proper(ChildLayout(children, name))
  {
    if children != [] {
      ChildProper(children[1..], name);
    }
  }

  lemma {:induction false} OrderDistinct(v: Json, order: Layout)
    requires v.JObject? && Sound(v) && Proper(order)
    ensures Distinct(PresentKeys(v, order))
  {
    PresentDistinct(KeyOrder(v.fields, order), v.fields);
  }

  /** A quoted string at the start of a text is read as its text. */
  lemma {:induction false} QuotedReadsBack(s: Text, rest: Text)
    ensures var t := Quoted(s) + rest; SkipSpace(t) == t && ReadString(t[1..]) == Some((s, rest))
  {
    var t := Quoted(s) + rest;
    StringReadsBack(s, rest);
    assert t[0] == QUOTE;
    assert t[1..] == Escaped(s) + [QUOTE] + rest;
  }

  // The shape of printed text, as equations between texts.

  lemma {:induction false} RegroupOpen(a: Unit, b: Unit, x: Text, rest: Text)
    ensures [a, b] + x + rest == [a] + ([b] + (x + rest))
  {
  }

  lemma {:induction false} RegroupNext(start: Text, x: Text, more: Text, rest: Text)
    ensures (start + x) + [COMMA, LF] + more + rest == start + (x + ([COMMA] + ([LF] + (more + rest))))
  {
  }

  lemma {:induction false} RegroupLast(start: Text, x: Text, end: Text, rest: Text)
    ensures (start + x) + end + rest == start + (x + (end + rest))
  {
  }

  lemma {:induction false} ArrayShape(v: Json, order: Layout, depth: nat, rest: Text) returns (body: Text)
    requires v.JArray? && v.items != [] && WriteArray(v, order, depth).Some?
    ensures WriteItems(v, 0, order, depth) == Some(body)
    ensures WriteArray(v, order, depth).value + rest == [OPEN_ARRAY] + ([LF] + (body + rest))
  {
    body := WriteItems(v, 0, order, depth).value;
    RegroupOpen(OPEN_ARRAY, LF, body, rest);
  }

  lemma {:induction false} ObjectShape(v: Json, order: Layout, depth: nat, rest: Text) returns (body: Text)
    requires v.JObject? && PresentKeys(v, order) != [] && WriteObject(v, order, depth).Some?
    ensures WriteFields(v, PresentKeys(v, order), order, depth) == Some(body)
    ensures WriteObject(v, order, depth).value + rest == [OPEN_OBJECT] + ([LF] + (body + rest))
  {
    body := WriteFields(v, PresentKeys(v, order), order, depth).value;
    RegroupOpen(OPEN_OBJECT, LF, body, rest);
  }

  lemma {:induction false} LastItemShape(v: Json, i: nat, order: Layout, depth: nat, rest: Text) returns (item: Text)
    requires v.JArray? && i + 1 == |v.items| && WriteItems(v, i, order, depth).Some?
    ensures Write(v.items[i], order, depth + 1) == Some(item)
    ensures WriteItems(v, i, order, depth).value + rest == Spaces(depth + 1) + (item + (End(depth, CLOSE_ARRAY) + rest))
  {
    item := Write(v.items[i], order, depth + 1).value;
    RegroupLast(Spaces(depth + 1), item, End(depth, CLOSE_ARRAY), rest);
  }

  lemma {:induction false} NextItemShape(v: Json, i: nat, order: Layout, depth: nat, rest: Text)
    returns (item: Text, more: Text)
    requires v.JArray? && i + 1 < |v.items| && WriteItems(v, i, order, depth).Some?
    ensures Write(v.items[i], order, depth + 1) == Some(item) && WriteItems(v, i + 1, order, depth) == Some(more)
    ensures WriteItems(v, i, order, depth).value + rest
         == Spaces(depth + 1) + (item + ([COMMA] + ([LF] + (more + rest))))
  {
    item := Write(v.items[i], order, depth + 1).value;
    more := WriteItems(v, i + 1, order, depth).value;
    RegroupNext(Spaces(depth + 1), item, more, rest);
  }

  lemma {:induction false} FieldShape(v: Json, key: Text, order: Layout, depth: nat, after: Text)
    requires v.JObject? && HasKey(v.fields, key) && WriteField(v, key, order, depth).Some?
    ensures var text := Write(v.fields[IndexOf(v.fields, key)].value, Below(order, key), depth + 1);
      && text.Some?
      && WriteField(v, key, order, depth).value + after
         == Spaces(depth + 1) + (Quoted(key) + [COLON] + ([0x20] + (text.value + after)))
  {
    assert [COLON, 0x20] == [COLON] + [0x20];
  }

  lemma {:induction false} LastFieldShape(v: Json, keys: seq<Text>, order: Layout, depth: nat, rest: Text)
    returns (field: Text)
    requires v.JObject? && |keys| == 1 && forall k :: k in keys ==> HasKey(v.fields, k)
    requires WriteFields(v, keys, order, depth).Some?
    ensures WriteField(v, keys[0], order, depth) == Some(field)
    ensures WriteFields(v, keys, order, depth).value + rest == field + (End(depth, CLOSE_OBJECT) + rest)
  {
    field := WriteField(v, keys[0], order, depth).value;
    RegroupLast([], field, End(depth, CLOSE_OBJECT), rest);
  }

  lemma {:induction false} NextFieldShape(v: Json, keys: seq<Text>, order: Layout, depth: nat, rest: Text)
    returns (field: Text, more: Text)
    requires v.JObject? && |keys| > 1 && forall k :: k in keys ==> HasKey(v.fields, k)
    requires WriteFields(v, keys, order, depth).Some?
    ensures WriteField(v, keys[0], order, depth) == Some(field) && WriteFields(v, keys[1..], order, depth) == Some(more)
    ensures WriteFields(v, keys, order, depth).value + rest == field + ([COMMA] + ([LF] + (more + rest)))
  {
    field := WriteField(v, keys[0], order, depth).value;
    more := WriteFields(v, keys[1..], order, depth).value;
    assert WriteFields(v, keys, order, depth) == Some(field + [COMMA, LF] + more);
    RegroupNext([], field, more, rest);
    assert [] + field == field;
  }

  // How the reader takes those shapes apart.

  /** The heart of the codec: whatever follows, reading a printed value gives the arranged value and what follows. */
  lemma {:induction false} WrittenReadsBack(v: Json, order: Layout, depth: nat, rest: Text)
    requires Sound(v) && Proper(order) && Write(v, order, depth).Some?
    ensures ReadValue(Write(v, order, depth).value + rest) == Some((Arranged(v, order), rest))
    decreases v, 1, 0
  {
    match v {
      case JString(text) =>
        TextReadsBack(text, rest);
      case JArray(items) =>
        BelowProper(order, STAR);
        if items == [] { EmptyReadsBack(rest); } else { ArrayReadsBack(v, Below(order, STAR), depth, rest); }
      case JObject(fields) =>
        if PresentKeys(v, order) == [] {
          EmptyReadsBack(rest);
        } else {
          ObjectReadsBack(v, order, depth, rest);
        }
      case _ =>
    }
  }

  lemma {:induction false} TextReadsBack(s: Text, rest: Text)
    ensures ReadValue(Quoted(s) + rest) == Some((JString(s), rest))
  {
    QuotedReadsBack(s, rest);
    assert (Quoted(s) + rest)[0] == QUOTE;
  }

  lemma {:induction false} ArrayReadsBack(v: Json, below: Layout, depth: nat, rest: Text)
    requires v.JArray? && v.items != [] && Sound(v) && Proper(below) && WriteArray(v, below, depth).Some?
    ensures ReadValue(WriteArray(v, below, depth).value + rest) == Some((JArray(ArrangedItems(v, 0, below)), rest))
    decreases v, 0, |v.items| + 1
  {
    var body := ArrayShape(v, below, depth, rest);
    ItemsReadBack(v, 0, below, depth, rest);
    ItemsStart(v, 0, below, depth, rest);
    ArrayReads(body + rest, ArrangedItems(v, 0, below), rest);
  }

  lemma {:induction false} ObjectReadsBack(v: Json, order: Layout, depth: nat, rest: Text)
    requires v.JObject? && PresentKeys(v, order) != [] && Sound(v) && Proper(order)
             && WriteObject(v, order, depth).Some?
    ensures ReadValue(WriteObject(v, order, depth).value + rest)
         == Some((JObject(ArrangedFields(v, PresentKeys(v, order), order)), rest))
    decreases v, 0, |PresentKeys(v, order)| + 1
  {
    var present := PresentKeys(v, order);
    OrderDistinct(v, order);
    var body := ObjectShape(v, order, depth, rest);
    FieldsReadBack(v, present, order, depth, [], rest);
    FieldsStart(v, present, order, depth, rest);
    assert [] + ArrangedFields(v, present, order) == ArrangedFields(v, present, order);
    ObjectReads(body + rest, ArrangedFields(v, present, order), rest);
  }

  lemma {:induction false} EmptyReadsBack(rest: Text)
    ensures ReadValue([OPEN_ARRAY, CLOSE_ARRAY] + rest) == Some((JArray([]), rest))
    ensures ReadValue([OPEN_OBJECT, CLOSE_OBJECT] + rest) == Some((JObject([]), rest))
  {
    var a, o := [OPEN_ARRAY, CLOSE_ARRAY] + rest, [OPEN_OBJECT, CLOSE_OBJECT] + rest;
    assert a[1..] == [CLOSE_ARRAY] + rest && o[1..] == [CLOSE_OBJECT] + rest;
    assert a[1..][1..] == rest && o[1..][1..] == rest;
  }

  lemma {:induction false} ArrayReads(t: Text, items: seq<Json>, rest: Text)
    requires SkipSpace(t) != [] && SkipSpace(t)[0] != CLOSE_ARRAY
    requires ReadItems(t) == Some((items, rest))
    ensures ReadValue([OPEN_ARRAY] + ([LF] + t)) == Some((JArray(items), rest))
  {
    var s := [OPEN_ARRAY] + ([LF] + t);
    SkipSpaceOver([LF], t);
    SpaceBeforeValue([LF], t);
    assert SkipSpace(s) == s && s[1..] == [LF] + t;
  }

  lemma {:induction false} ObjectReads(t: Text, fields: seq<Field<Json>>, rest: Text)
    requires SkipSpace(t) != [] && SkipSpace(t)[0] != CLOSE_OBJECT
    requires ReadFields(t, []) == Some((fields, rest))
    ensures ReadValue([OPEN_OBJECT] + ([LF] + t)) == Some((JObject(fields), rest))
  {
    var s := [OPEN_OBJECT] + ([LF] + t);
    SkipSpaceOver([LF], t);
    SpaceBeforeFields([LF], t, []);
    assert SkipSpace(s) == s && s[1..] == [LF] + t;
  }

  lemma {:induction false} LastItemReads(start: Text, s: Text, item: Json, after: Text, rest: Text)
    requires AllSpace(start) && ReadValue(s) == Some((item, after)) && SkipSpace(after) == [CLOSE_ARRAY] + rest
    ensures ReadItems(start + s) == Some(([item], rest))
  {
    SpaceBeforeValue(start, s);
    assert ([CLOSE_ARRAY] + rest)[1..] == rest;
  }

  lemma {:induction false} NextItemReads(start: Text, s: Text, item: Json, more: Text, items: seq<Json>, rest: Text)
    requires AllSpace(start) && ReadValue(s) == Some((item, [COMMA] + ([LF] + more)))
    requires ReadItems(more) == Some((items, rest))
    ensures ReadItems(start + s) == Some(([item] + items, rest))
  {
    var u := [COMMA] + ([LF] + more);
    SpaceBeforeValue(start, s);
    SpaceBeforeValue([LF], more);
    assert u[1..] == [LF] + more;
    assert SkipSpace(u) == u;
  }

  lemma {:induction false} LastFieldReads(s: Text, key: Text, afterKey: Text, value: Json, after: Text,
                                          before: seq<Field<Json>>, rest: Text)
    requires ReadKey(s) == Some((key, afterKey)) && ReadValue(afterKey) == Some((value, after))
    requires SkipSpace(after) == [CLOSE_OBJECT] + rest && DistinctKeys(before)
    ensures ReadFields(s, before) == Some((Put(before, key, value), rest))
  {
    assert ([CLOSE_OBJECT] + rest)[1..] == rest;
  }

  lemma {:induction false} NextFieldReads(s: Text, key: Text, afterKey: Text, value: Json, more: Text,
                                          before: seq<Field<Json>>)
    requires ReadKey(s) == Some((key, afterKey)) && ReadValue(afterKey) == Some((value, [COMMA] + ([LF] + more)))
    requires DistinctKeys(before)
    ensures ReadFields(s, before) == ReadFields(more, Put(before, key, value))
  {
    var u := [COMMA] + ([LF] + more);
    SpaceBeforeFields([LF], more, Put(before, key, value));
    assert u[1..] == [LF] + more;
    assert SkipSpace(u) == u;
  }

  lemma {:induction false} KeyReads(key: Text, after: Text)
    ensures ReadKey(Quoted(key) + [COLON] + after) == Some((key, after))
  {
    var colon := [COLON] + after;
    QuotedReadsBack(key, colon);
    assert Quoted(key) + [COLON] + after == Quoted(key) + colon;
    assert (Quoted(key) + colon)[0] == QUOTE;
    assert SkipSpace(colon) == colon && colon[1..] == after;
  }

  lemma {:induction false} StartsAfterSpaces(depth: nat, t: Text, rest: Text)
    requires t != [] && !IsSpace(t[0])
    ensures SkipSpace(Spaces(depth) + t + rest) == t + rest
  {
    assert Spaces(depth) + t + rest == Spaces(depth) + (t + rest);
    SkipSpaceOver(Spaces(depth), t + rest);
  }

  lemma {:induction false} ItemsStart(v: Json, i: nat, order: Layout, depth: nat, rest: Text)
    requires v.JArray? && i < |v.items| && WriteItems(v, i, order, depth).Some?
    ensures var u := SkipSpace(WriteItems(v, i, order, depth).value + rest); u != [] && u[0] != CLOSE_ARRAY
  {
    WrittenStart(v.items[i], order, depth + 1);
    if i + 1 == |v.items| {
      var item := LastItemShape(v, i, order, depth, rest);
      SkipSpaceOver(Spaces(depth + 1), item + (End(depth, CLOSE_ARRAY) + rest));
    } else {
      var item, more := NextItemShape(v, i, order, depth, rest);
      SkipSpaceOver(Spaces(depth + 1), item + ([COMMA] + ([LF] + (more + rest))));
    }
  }

  lemma {:induction false} FieldsStart(v: Json, keys: seq<Text>, order: Layout, depth: nat, rest: Text)
    requires v.JObject? && keys != [] && forall k :: k in keys ==> HasKey(v.fields, k)
    requires WriteFields(v, keys, order, depth).Some?
    ensures var u := SkipSpace(WriteFields(v, keys, order, depth).value + rest); u != [] && u[0] != CLOSE_OBJECT
  {
    var text := WriteFields(v, keys, order, depth).value;
    var more := text[|Spaces(depth + 1) + Quoted(keys[0])|..];
    assert text + rest == Spaces(depth + 1) + Quoted(keys[0]) + (more + rest);
    StartsAfterSpaces(depth + 1, Quoted(keys[0]), more + rest);
  }

  lemma {:induction false} ItemsReadBack(v: Json, i: nat, order: Layout, depth: nat, rest: Text)
    requires v.JArray? && i < |v.items| && Sound(v) && Proper(order) && WriteItems(v, i, order, depth).Some?
    ensures ReadItems(WriteItems(v, i, order, depth).value + rest) == Some((ArrangedItems(v, i, order), rest))
    decreases v, 0, |v.items| - i
  {
    var value := Arranged(v.items[i], order);
    ArrangedItemsStep(v, i, order);
    if i + 1 == |v.items| {
      var item := LastItemShape(v, i, order, depth, rest);
      var after := End(depth, CLOSE_ARRAY) + rest;
      WrittenReadsBack(v.items[i], order, depth + 1, after);
      EndReadsBack(depth, CLOSE_ARRAY, rest);
      LastItemReads(Spaces(depth + 1), item + after, value, after, rest);
    } else {
      var item, more := NextItemShape(v, i, order, depth, rest);
      var after := [COMMA] + ([LF] + (more + rest));
      WrittenReadsBack(v.items[i], order, depth + 1, after);
      ItemsReadBack(v, i + 1, order, depth, rest);
      NextItemReads(Spaces(depth + 1), item + after, value, more + rest, ArrangedItems(v, i + 1, order), rest);
    }
  }

  lemma {:induction false} ArrangedItemsStep(v: Json, i: nat, order: Layout)
    requires v.JArray? && i < |v.items|
    ensures ArrangedItems(v, i, order) == [Arranged(v.items[i], order)] + ArrangedItems(v, i + 1, order)
    ensures i + 1 == |v.items| ==> ArrangedItems(v, i, order) == [Arranged(v.items[i], order)]
  {
  }

  lemma {:induction false} ArrangedFieldsStep(v: Json, keys: seq<Text>, order: Layout, value: Json)
    requires v.JObject? && keys != [] && forall k :: k in keys ==> HasKey(v.fields, k)
    requires value == Arranged(v.fields[IndexOf(v.fields, keys[0])].value, Below(order, keys[0]))
    ensures ArrangedFields(v, keys, order) == [Field(keys[0], value)] + ArrangedFields(v, keys[1..], order)
    ensures |keys| == 1 ==> ArrangedFields(v, keys, order) == [Field(keys[0], value)]
  {
  }

  /** The key of a printed field reads back, and leaves the printed value. */
  lemma {:induction false} FieldKeyReads(v: Json, key: Text, order: Layout, depth: nat, after: Text)
    returns (text: Text)
    requires v.JObject? && HasKey(v.fields, key) && WriteField(v, key, order, depth).Some?
    ensures Write(v.fields[IndexOf(v.fields, key)].value, Below(order, key), depth + 1) == Some(text)
    ensures ReadKey(WriteField(v, key, order, depth).value + after) == Some((key, [0x20] + (text + after)))
  {
    FieldShape(v, key, order, depth, after);
    text := Write(v.fields[IndexOf(v.fields, key)].value, Below(order, key), depth + 1).value;
    var afterKey := [0x20] + (text + after);
    SpaceBeforeFields(Spaces(depth + 1), Quoted(key) + [COLON] + afterKey, []);
    KeyReads(key, afterKey);
  }

  /** What a printed field reads back as, whatever follows. */
  lemma {:induction false} FieldReadsBack(v: Json, key: Text, order: Layout, depth: nat, after: Text)
    returns (afterKey: Text)
    requires v.JObject? && HasKey(v.fields, key) && Sound(v) && Proper(order)
    requires WriteField(v, key, order, depth).Some?
    ensures ReadKey(WriteField(v, key, order, depth).value + after) == Some((key, afterKey))
    ensures ReadValue(afterKey) == Some((Arranged(v.fields[IndexOf(v.fields, key)].value, Below(order, key)), after))
    decreases v, 0, 0, 0
  {
    var text := FieldKeyReads(v, key, order, depth, after);
    afterKey := [0x20] + (text + after);
    BelowProper(order, key);
    WrittenReadsBack(v.fields[IndexOf(v.fields, key)].value, Below(order, key), depth + 1, after);
    SpaceBeforeValue([0x20], text + after);
  }

  lemma {:induction false} FieldsReadBack(v: Json, keys: seq<Text>, order: Layout, depth: nat,
                                          before: seq<Field<Json>>, rest: Text)
    requires v.JObject? && keys != [] && forall k :: k in keys ==> HasKey(v.fields, k)
    requires Sound(v) && Proper(order) && Distinct(keys) && WriteFields(v, keys, order, depth).Some?
    requires DistinctKeys(before) && forall k :: k in keys ==> !HasKey(before, k)
    ensures ReadFields(WriteFields(v, keys, order, depth).value + rest, before)
         == Some((before + ArrangedFields(v, keys, order), rest))
    decreases v, 0, |keys|
  {
    var key := keys[0];
    var value := Arranged(v.fields[IndexOf(v.fields, key)].value, Below(order, key));
    PutNew(before, keys, value);
    ArrangedFieldsStep(v, keys, order, value);
    if |keys| == 1 {
      var field := LastFieldShape(v, keys, order, depth, rest);
      var after := End(depth, CLOSE_OBJECT) + rest;
      var afterKey := FieldReadsBack(v, key, order, depth, after);
      EndReadsBack(depth, CLOSE_OBJECT, rest);
      LastFieldReads(field + after, key, afterKey, value, after, before, rest);
    } else {
      var field, more := NextFieldShape(v, keys, order, depth, rest);
      FieldThenMore(v, key, order, depth, field, more + rest, before);
      FieldsReadBack(v, keys[1..], order, depth, before + [Field(key, value)], rest);
      RegroupFields(before, Field(key, value), ArrangedFields(v, keys[1..], order));
    }
  }

  lemma {:induction false} FieldThenMore(v: Json, key: Text, order: Layout, depth: nat, field: Text, more: Text,
                                         before: seq<Field<Json>>)
    requires v.JObject? && HasKey(v.fields, key) && Sound(v) && Proper(order) && DistinctKeys(before)
    requires WriteField(v, key, order, depth) == Some(field)
    ensures ReadFields(field + ([COMMA] + ([LF] + more)), before)
         == ReadFields(more, Put(before, key, Arranged(v.fields[IndexOf(v.fields, key)].value, Below(order, key))))
    decreases v, 0, 0, 1
  {
    var after := [COMMA] + ([LF] + more);
    var afterKey := FieldReadsBack(v, key, order, depth, after);
    var value := Arranged(v.fields[IndexOf(v.fields, key)].value, Below(order, key));
    NextFieldReads(field + after, key, afterKey, value, more, before);
  }

  lemma {:induction false} RegroupFields(a: seq<Field<Json>>, f: Field<Json>, b: seq<Field<Json>>)
    ensures a + ([f] + b) == (a + [f]) + b
  {
  }

  lemma {:induction false} PutNew(before: seq<Field<Json>>, keys: seq<Text>, value: Json)
    requires DistinctKeys(before) && keys != [] && Distinct(keys) && forall k :: k in keys ==> !HasKey(before, k)
    ensures Put(before, keys[0], value) == before + [Field(keys[0], value)]
    ensures forall k :: k in keys[1..] ==> !HasKey(before + [Field(keys[0], value)], k)
  {
    assert keys[0] in keys;
    forall k | k in keys[1..] ensures !HasKey(before + [Field(keys[0], value)], k) {
      assert k in keys && !HasKey(before, k);
    }
  }

  /** A printed document is JSON for the value that was printed, with its fields in layout order. */
  lemma {:induction false} DocumentReadsBack(v: Json, order: Layout)
    requires Sound(v) && Proper(order) && Write(v, order, 0).Some?
    ensures Parse(Write(v, order, 0).value) == Some(Arranged(v, order))
  {
    WrittenReadsBack(v, order, 0, []);
    assert Write(v, order, 0).value + [] == Write(v, order, 0).value;
  }
}
