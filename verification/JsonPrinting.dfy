/**
 What a printed document depends on: under a layout, not on the order in which fields were added; and, for its length in
 bytes, on each string only through the length of that string.
*/
module JsonPrinting {
  import opened Options
  import opened Utf16
  import opened JsonStrings
  import opened JsonDocuments
  import opened Records

  lemma {:induction false} PresentSame(names: seq<Text>, f: seq<Field<Json>>, g: seq<Field<Json>>)
    requires forall k :: HasKey(f, k) <==> HasKey(g, k)
    ensures Present(names, f) == Present(names, g)
  {
    if names != [] {
      PresentSame(names[1..], f, g);
    }
  }

  // ----- field order -----

  /** The same value up to the order of fields, at every depth where the layout decides that order. */
  predicate Rearranged(v: Json, w: Json, order: Layout) {
    match v
    case JArray(items) =>
      && w.JArray? && |items| == |w.items|
      && forall i :: 0 <= i < |items| ==> Rearranged(items[i], w.items[i], Below(order, STAR))
    case JObject(fields) =>
      && w.JObject?
      && (order.Unordered? ==> KeysOf(fields) == KeysOf(w.fields))
      && (forall i :: 0 <= i < |w.fields| ==> HasKey(fields, w.fields[i].key))
      && forall i :: 0 <= i < |fields| ==>
           HasKey(w.fields, fields[i].key)
           && Rearranged(fields[i].value, w.fields[IndexOf(w.fields, fields[i].key)].value, Below(order, fields[i].key))
    case _ => v == w
  }

  lemma {:induction false} RearrangedKeys(v: Json, w: Json, order: Layout)
    requires v.JObject? && Rearranged(v, w, order)
    ensures KeyOrder(v.fields, order) == KeyOrder(w.fields, order)
    ensures forall k :: HasKey(v.fields, k) <==> HasKey(w.fields, k)
    ensures PresentKeys(v, order) == PresentKeys(w, order)
    ensures Placed(v.fields, KeyOrder(v.fields, order)) <==> Placed(w.fields, KeyOrder(w.fields, order))
  {
    var names := KeyOrder(v.fields, order);
    PresentSame(names, v.fields, w.fields);
    PlacedKeys(v.fields, names);
    PlacedKeys(w.fields, names);
  }

  /** Under a layout, objects with the same fields print the same text whatever order the fields were added in. */
  lemma {:induction false} LayoutDecidesOrder(v: Json, w: Json, order: Layout, depth: nat)
    requires Rearranged(v, w, order)
    ensures Write(v, order, depth) == Write(w, order, depth)
    decreases v, 3, 0
  {
    match v {
      case JArray(items) =>
        if items != [] { ItemsRearranged(v, w, 0, Below(order, STAR), depth); }
      case JObject(fields) =>
        RearrangedKeys(v, w, order);
        if PresentKeys(v, order) != [] { FieldsRearranged(v, w, PresentKeys(v, order), order, depth); }
      case _ =>
    }
  }

  lemma {:induction false} ItemsRearranged(v: Json, w: Json, i: nat, order: Layout, depth: nat)
    requires v.JArray? && w.JArray? && |v.items| == |w.items| && i < |v.items|
    requires forall j :: 0 <= j < |v.items| ==> Rearranged(v.items[j], w.items[j], order)
    ensures WriteItems(v, i, order, depth) == WriteItems(w, i, order, depth)
    decreases v, 1, |v.items| - i
  {
    LayoutDecidesOrder(v.items[i], w.items[i], order, depth + 1);
    if i + 1 < |v.items| { ItemsRearranged(v, w, i + 1, order, depth); }
  }

  lemma {:induction false} FieldsRearranged(v: Json, w: Json, keys: seq<Text>, order: Layout, depth: nat)
    requires v.JObject? && Rearranged(v, w, order) && keys != []
    requires (forall k :: k in keys ==> HasKey(v.fields, k)) && (forall k :: k in keys ==> HasKey(w.fields, k))
    ensures WriteFields(v, keys, order, depth) == WriteFields(w, keys, order, depth)
    decreases v, 1, |keys|
  {
    var i, j := IndexOf(v.fields, keys[0]), IndexOf(w.fields, keys[0]);
    LayoutDecidesOrder(v.fields[i].value, w.fields[j].value, Below(order, keys[0]), depth + 1);
    assert WriteField(v, keys[0], order, depth) == WriteField(w, keys[0], order, depth);
    if |keys| > 1 { FieldsRearranged(v, w, keys[1..], order, depth); }
  }

  lemma {:induction false} PlacedKeys(fields: seq<Field<Json>>, names: seq<Text>)
    ensures Placed(fields, names) <==> forall k :: HasKey(fields, k) ==> k in names
  {
    if forall k :: HasKey(fields, k) ==> k in names {
      forall i | 0 <= i < |fields| ensures fields[i].key in names {
        assert HasKey(fields, fields[i].key);
      }
    }
  }

  // ----- lengths -----

  function Size(t: Text): nat { |Utf8(t)| }

  lemma {:induction false} AsciiWellFormed(t: Text)
    requires IsAscii(t)
    ensures WellFormed(t)
  {
  }

  /** Both fail, or both give well-formed text of the same length in bytes. */
  predicate SameSize(a: Option<Text>, b: Option<Text>) {
    || (a.None? && b.None?)
    || (a.Some? && b.Some? && WellFormed(a.value) && WellFormed(b.value) && Size(a.value) == Size(b.value))
  }

  lemma {:induction false} AfterSame(s: Text, t: Text, a: Option<Text>, b: Option<Text>)
    requires SameSize(Some(s), Some(t)) && SameSize(a, b)
    ensures SameSize(After(s, a), After(t, b))
  {
    if a.Some? {
      WellFormedConcat(s, a.value);
      WellFormedConcat(t, b.value);
      Utf8Concat(s, a.value);
      Utf8Concat(t, b.value);
    }
  }

  lemma {:induction false} ConcatSame(s: Text, t: Text, a: Text, b: Text)
    requires SameSize(Some(s), Some(t)) && SameSize(Some(a), Some(b))
    ensures SameSize(Some(s + a), Some(t + b))
  {
    AfterSame(s, t, Some(a), Some(b));
  }

  /** The same shape, with strings that print to the same number of bytes. */
  predicate Alike(v: Json, w: Json) {
    match v
    case JString(s) => w.JString? && SameSize(WriteString(s), WriteString(w.text))
    case JArray(items) => w.JArray? && |items| == |w.items| && forall i :: 0 <= i < |items|
                                                                   ==> Alike(items[i], w.items[i])
    case JObject(fields) =>
      w.JObject? && |fields| == |w.fields|
      && forall i :: 0 <= i < |fields| ==> fields[i].key == w.fields[i].key && Alike(fields[i].value, w.fields[i].value)
    case _ => v == w
  }

  lemma {:induction false} StringAlike(s: Text)
    ensures SameSize(WriteString(s), WriteString(s))
  {
    if WellFormed(s) {
      EscapedWellFormed(s);
      AsciiWellFormed([QUOTE]);
      ConcatSame([QUOTE], [QUOTE], Escaped(s), Escaped(s));
      ConcatSame([QUOTE] + Escaped(s), [QUOTE] + Escaped(s), [QUOTE], [QUOTE]);
    }
  }

  lemma {:induction false} AlikeItself(v: Json)
    ensures Alike(v, v)
  {
    match v {
      case JString(s) => StringAlike(s);
      case JArray(items) =>
        forall i | 0 <= i < |items| ensures Alike(items[i], items[i]) { AlikeItself(items[i]); }
      case JObject(fields) =>
        forall i | 0 <= i < |fields| ensures Alike(fields[i].value, fields[i].value) { AlikeItself(fields[i].value); }
      case _ =>
    }
  }

  lemma {:induction false} SameOrder(f: seq<Field<Json>>, g: seq<Field<Json>>, order: Layout)
    requires SameKeys(f, g)
    ensures KeyOrder(f, order) == KeyOrder(g, order)
    ensures forall k :: HasKey(f, k) <==> HasKey(g, k)
    ensures Present(KeyOrder(f, order), f) == Present(KeyOrder(g, order), g)
  {
    assert KeysOf(f) == KeysOf(g);
    forall k ensures HasKey(f, k) <==> HasKey(g, k) {
      SamePlace(f, g, k);
    }
    PresentSame(KeyOrder(f, order), f, g);
  }

  /** Alike values print to the same number of bytes, or both fail; and what is printed is well-formed. */
  lemma {:induction false} WrittenAlike(v: Json, w: Json, order: Layout, depth: nat)
    requires Alike(v, w)
    ensures SameSize(Write(v, order, depth), Write(w, order, depth))
    decreases v, 3, 0
  {
    match v {
      case JString(s) =>
      case JArray(items) => ArrayAlike(v, w, Below(order, STAR), depth);
      case JObject(fields) => ObjectAlike(v, w, order, depth);
      case _ =>
    }
  }

  lemma {:induction false} ArrayAlike(v: Json, w: Json, below: Layout, depth: nat)
    requires v.JArray? && Alike(v, w)
    ensures SameSize(WriteArray(v, below, depth), WriteArray(w, below, depth))
    decreases v, 2, 0
  {
    if v.items == [] {
      AsciiWellFormed([OPEN_ARRAY, CLOSE_ARRAY]);
    } else {
      AsciiWellFormed([OPEN_ARRAY, LF]);
      ItemsAlike(v, w, 0, below, depth);
      AfterSame([OPEN_ARRAY, LF], [OPEN_ARRAY, LF], WriteItems(v, 0, below, depth), WriteItems(w, 0, below, depth));
    }
  }

  lemma {:induction false} PlacedSame(f: seq<Field<Json>>, g: seq<Field<Json>>, names: seq<Text>)
    requires SameKeys(f, g)
    ensures Placed(f, names) <==> Placed(g, names)
  {
  }

  lemma {:induction false} ObjectAlike(v: Json, w: Json, order: Layout, depth: nat)
    requires v.JObject? && Alike(v, w)
    ensures SameSize(WriteObject(v, order, depth), WriteObject(w, order, depth))
    decreases v, 2, 0
  {
    SameOrder(v.fields, w.fields, order);
    PlacedSame(v.fields, w.fields, KeyOrder(v.fields, order));
    var present := PresentKeys(v, order);
    if present == [] {
      AsciiWellFormed([OPEN_OBJECT, CLOSE_OBJECT]);
    } else {
      AsciiWellFormed([OPEN_OBJECT, LF]);
      FieldsAlike(v, w, present, order, depth);
      AfterSame([OPEN_OBJECT, LF], [OPEN_OBJECT, LF],
                WriteFields(v, present, order, depth), WriteFields(w, present, order, depth));
    }
  }

  /** A printed part, the separator, and what follows it. */
  lemma {:induction false} PartSame(a: Text, b: Text, separator: Text, c: Option<Text>, d: Option<Text>)
    requires SameSize(Some(a), Some(b)) && IsAscii(separator) && SameSize(c, d)
    ensures SameSize(After(a + separator, c), After(b + separator, d))
  {
    AsciiWellFormed(separator);
    ConcatSame(a, b, separator, separator);
    AfterSame(a + separator, b + separator, c, d);
  }

  lemma {:induction false} EndSame(a: Text, b: Text, depth: nat, close: Unit)
    requires SameSize(Some(a), Some(b)) && close < 0x80
    ensures SameSize(Some(a + End(depth, close)), Some(b + End(depth, close)))
  {
    AsciiWellFormed(End(depth, close));
    ConcatSame(a, b, End(depth, close), End(depth, close));
  }

  lemma {:induction false} ItemsAlike(v: Json, w: Json, i: nat, order: Layout, depth: nat)
    requires v.JArray? && Alike(v, w) && i < |v.items|
    ensures SameSize(WriteItems(v, i, order, depth), WriteItems(w, i, order, depth))
    decreases v, 1, |v.items| - i
  {
    WrittenAlike(v.items[i], w.items[i], order, depth + 1);
    var a, b := Write(v.items[i], order, depth + 1), Write(w.items[i], order, depth + 1);
    if a.Some? {
      var indent := Spaces(depth + 1);
      AsciiWellFormed(indent);
      ConcatSame(indent, indent, a.value, b.value);
      if i + 1 == |v.items| {
        EndSame(indent + a.value, indent + b.value, depth, CLOSE_ARRAY);
      } else {
        ItemsAlike(v, w, i + 1, order, depth);
        PartSame(indent + a.value, indent + b.value, [COMMA, LF], WriteItems(v, i + 1, order, depth),
                 WriteItems(w, i + 1, order, depth));
      }
    }
  }

  lemma {:induction false} FieldAlike(v: Json, w: Json, key: Text, order: Layout, depth: nat)
    requires v.JObject? && Alike(v, w) && HasKey(v.fields, key) && HasKey(w.fields, key)
    ensures SameSize(WriteField(v, key, order, depth), WriteField(w, key, order, depth))
    decreases v, 1, 0
  {
    SamePlace(v.fields, w.fields, key);
    StringAlike(key);
    if WriteString(key).Some? {
      var i := IndexOf(v.fields, key);
      WrittenAlike(v.fields[i].value, w.fields[i].value, Below(order, key), depth + 1);
      var start, name := Spaces(depth + 1), WriteString(key).value;
      AsciiWellFormed(start);
      AsciiWellFormed([COLON, 0x20]);
      ConcatSame(start, start, name, name);
      ConcatSame(start + name, start + name, [COLON, 0x20], [COLON, 0x20]);
      AfterSame(start + name + [COLON, 0x20], start + name + [COLON, 0x20],
                Write(v.fields[i].value, Below(order, key), depth + 1),
                Write(w.fields[i].value, Below(order, key), depth + 1));
    }
  }

  lemma {:induction false} FieldsAlike(v: Json, w: Json, keys: seq<Text>, order: Layout, depth: nat)
    requires v.JObject? && Alike(v, w) && keys != []
    requires (forall k :: k in keys ==> HasKey(v.fields, k)) && (forall k :: k in keys ==> HasKey(w.fields, k))
    ensures SameSize(WriteFields(v, keys, order, depth), WriteFields(w, keys, order, depth))
    decreases v, 1, |keys|
  {
    FieldAlike(v, w, keys[0], order, depth);
    var a, b := WriteField(v, keys[0], order, depth), WriteField(w, keys[0], order, depth);
    if a.Some? {
      if |keys| == 1 {
        EndSame(a.value, b.value, depth, CLOSE_OBJECT);
      } else {
        FieldsAlike(v, w, keys[1..], order, depth);
        PartSame(a.value, b.value, [COMMA, LF], WriteFields(v, keys[1..], order, depth),
                 WriteFields(w, keys[1..], order, depth));
      }
    }
  }

  lemma {:induction false} WrittenWellFormed(v: Json, order: Layout, depth: nat)
    requires Write(v, order, depth).Some?
    ensures WellFormed(Write(v, order, depth).value)
  {
    AlikeItself(v);
    WrittenAlike(v, v, order, depth);
  }

  // ----- when printing succeeds -----

  /** Every text is well-formed, every key has a place, and nothing but strings, arrays and objects occurs. */
  predicate Printable(v: Json, order: Layout) {
    match v
    case JString(s) => WellFormed(s)
    case JArray(items) => forall i :: 0 <= i < |items| ==> Printable(items[i], Below(order, STAR))
    case JObject(fields) =>
      && Placed(fields, KeyOrder(fields, order))
      && forall i :: 0 <= i < |fields| ==>
           WellFormed(fields[i].key) && Printable(fields[i].value, Below(order, fields[i].key))
    case _ => false
  }

  lemma {:induction false} PrintsExactlyPrintable(v: Json, order: Layout, depth: nat)
    requires Sound(v)
    ensures Write(v, order, depth).Some? <==> Printable(v, order)
    decreases v, 3, 0
  {
    match v {
      case JString(_) =>
      case JArray(items) =>
        forall i | 0 <= i < |items|
          ensures Write(items[i], Below(order, STAR), depth + 1).Some? <==> Printable(items[i], Below(order, STAR))
        {
          PrintsExactlyPrintable(items[i], Below(order, STAR), depth + 1);
        }
        if items != [] { ItemsPrint(v, 0, Below(order, STAR), depth); }
      case JObject(fields) =>
        if Placed(fields, KeyOrder(fields, order)) { ObjectPrints(v, order, depth); }
      case _ =>
    }
  }

  lemma {:induction false} ItemsPrint(v: Json, i: nat, order: Layout, depth: nat)
    requires v.JArray? && i < |v.items|
    ensures WriteItems(v, i, order, depth).Some?
       <==> forall j :: i <= j < |v.items| ==> Write(v.items[j], order, depth + 1).Some?
    decreases |v.items| - i
  {
    if i + 1 < |v.items| { ItemsPrint(v, i + 1, order, depth); }
  }

  predicate FieldPrints(v: Json, key: Text, order: Layout, depth: nat)
    requires v.JObject? && HasKey(v.fields, key)
  {
    WellFormed(key) && Write(v.fields[IndexOf(v.fields, key)].value, Below(order, key), depth + 1).Some?
  }

  predicate EveryFieldPrints(v: Json, keys: seq<Text>, order: Layout, depth: nat)
    requires v.JObject? && forall k :: k in keys ==> HasKey(v.fields, k)
  {
    forall k :: k in keys ==> FieldPrints(v, k, order, depth)
  }

  lemma {:induction false} FieldsPrint(v: Json, keys: seq<Text>, order: Layout, depth: nat)
    requires v.JObject? && keys != [] && forall k :: k in keys ==> HasKey(v.fields, k)
    ensures WriteFields(v, keys, order, depth).Some? <==> EveryFieldPrints(v, keys, order, depth)
    decreases |keys|
  {
    assert WriteField(v, keys[0], order, depth).Some? <==> FieldPrints(v, keys[0], order, depth);
    if |keys| > 1 {
      FieldsPrint(v, keys[1..], order, depth);
      assert keys == [keys[0]] + keys[1..];
    }
  }

  lemma {:induction false} PrintableFields(v: Json, order: Layout, depth: nat)
    requires v.JObject? && Sound(v) && Placed(v.fields, KeyOrder(v.fields, order))
    ensures Printable(v, order) <==>
      forall i :: 0 <= i < |v.fields| ==>
        WellFormed(v.fields[i].key) && Write(v.fields[i].value, Below(order, v.fields[i].key), depth + 1).Some?
    decreases v, 1, 0
  {
    forall i | 0 <= i < |v.fields|
      ensures Write(v.fields[i].value, Below(order, v.fields[i].key), depth + 1).Some?
         <==> Printable(v.fields[i].value, Below(order, v.fields[i].key))
    {
      PrintsExactlyPrintable(v.fields[i].value, Below(order, v.fields[i].key), depth + 1);
    }
  }

  lemma {:induction false} PresentCovers(v: Json, order: Layout, depth: nat)
    requires v.JObject? && DistinctKeys(v.fields) && Placed(v.fields, KeyOrder(v.fields, order))
    ensures EveryFieldPrints(v, PresentKeys(v, order), order, depth) <==>
      forall i :: 0 <= i < |v.fields| ==>
        WellFormed(v.fields[i].key) && Write(v.fields[i].value, Below(order, v.fields[i].key), depth + 1).Some?
  {
    var keys, fields := PresentKeys(v, order), v.fields;
    forall i | 0 <= i < |fields| ensures fields[i].key in keys && IndexOf(fields, fields[i].key) == i {
      assert HasKey(fields, fields[i].key);
    }
    if EveryFieldPrints(v, keys, order, depth) {
      forall i | 0 <= i < |fields|
        ensures WellFormed(fields[i].key) && Write(fields[i].value, Below(order, fields[i].key), depth + 1).Some?
      {
        assert FieldPrints(v, fields[i].key, order, depth);
      }
    }
  }

  lemma {:induction false} ObjectPrints(v: Json, order: Layout, depth: nat)
    requires v.JObject? && Sound(v) && Placed(v.fields, KeyOrder(v.fields, order))
    ensures WriteObject(v, order, depth).Some? <==> Printable(v, order)
    decreases v, 2, 0
  {
    PrintableFields(v, order, depth);
    PresentCovers(v, order, depth);
    if PresentKeys(v, order) != [] {
      FieldsPrint(v, PresentKeys(v, order), order, depth);
    }
  }

  // ----- what can be looked up in an arranged object -----

  lemma {:induction false} ArrangedLookup(v: Json, order: Layout, key: Text)
    requires v.JObject? && Sound(v) && Proper(order) && Placed(v.fields, KeyOrder(v.fields, order))
    ensures var fields := Arranged(v, order).fields;
      && (HasKey(fields, key) <==> HasKey(v.fields, key))
      && (HasKey(v.fields, key) ==>
           Lookup(fields, key) == Some(Arranged(v.fields[IndexOf(v.fields, key)].value, Below(order, key))))
  {
    var fields, keys := Arranged(v, order).fields, PresentKeys(v, order);
    PlacedKeys(v.fields, KeyOrder(v.fields, order));
    if HasKey(fields, key) {
      var i :| 0 <= i < |fields| && fields[i].key == key;
      assert keys[i] == key;
      assert key in keys;
    }
    if HasKey(v.fields, key) {
      OrderDistinct(v, order);
      var i :| 0 <= i < |keys| && keys[i] == key;
      assert fields[i].key == key;
      LookupAt(fields, i);
    }
  }
}
