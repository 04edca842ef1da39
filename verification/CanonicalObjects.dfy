/**
 The record printer of Fast ID. On records of texts it prints what the claim printer prints, so the two independently
 written canonical forms are one, and the reader of JSON gives back the record.
*/
module CanonicalObjects {
  import opened Options
  import opened DecimalText
  import opened Utf16
  import opened JsonStrings
  import opened JsonDocuments
  import opened Records

  datatype Member = Member(key: Text, value: MemberValue)
  datatype MemberValue = Plain(text: Text) | Flag(on: bool) | Uint(digits: Text)

  predicate DistinctMembers(members: seq<Member>) {
    forall i, j :: 0 <= i < j < |members| ==> members[i].key != members[j].key
  }

  predicate Encodable(m: Member) {
    && WellFormed(m.key)
    && (m.value.Plain? ==> WellFormed(m.value.text))
    && (m.value.Uint? ==> ReadUint(m.value.digits).Some?)
  }

  function ValueText(v: MemberValue): Text {
    match v
    case Plain(text) => Quoted(text)
    case Flag(on) => if on then Ascii("true") else Ascii("false")
    case Uint(digits) => Quoted(digits)
  }

  function MemberText(m: Member): Text { Spaces(1) + Quoted(m.key) + [COLON, 0x20] + ValueText(m.value) }

  /** The lines from the `i`th member on, and the closing brace. */
  function Lines(members: seq<Member>, i: nat): Text
    requires i <= |members|
    decreases |members| - i
  {
    if i == |members| then [CLOSE_OBJECT]
    else if i + 1 == |members| then MemberText(members[i]) + [LF] + Lines(members, i + 1)
    else MemberText(members[i]) + [COMMA, LF] + Lines(members, i + 1)
  }

  function RecordText(members: seq<Member>): Text { [OPEN_OBJECT, LF] + Lines(members, 0) }

  lemma {:induction false} UintWellFormed(t: Text)
    requires ReadUint(t).Some?
    ensures WellFormed(t)
  {
    ReadUintPrints(t);
    assert forall i :: 0 <= i < |t| ==> PairedAt(t, i);
  }

  function Keys(members: seq<Member>, n: nat): set<Text>
    requires n <= |members|
  {
    set j | 0 <= j < n :: members[j].key
  }

  lemma {:induction false} SeenStep(members: seq<Member>, n: nat)
    requires n < |members| && DistinctMembers(members[..n])
    ensures Keys(members, n + 1) == Keys(members, n) + {members[n].key}
    ensures members[n].key !in Keys(members, n) ==> DistinctMembers(members[..n + 1])
    ensures members[n].key in Keys(members, n) ==> !DistinctMembers(members)
  {
    assert members[..n + 1] == members[..n] + [members[n]];
  }

  /** What the loop knows: the members so far are sound, and their lines are written. */
  predicate Written(members: seq<Member>, n: nat, result: Text) {
    && n <= |members|
    && DistinctMembers(members[..n])
    && (forall i :: 0 <= i < n ==> Encodable(members[i]))
    && result + Lines(members, n) == RecordText(members)
  }

  lemma {:induction false} WrittenStep(members: seq<Member>, n: nat, result: Text)
    requires n < |members| && Written(members, n, result)
    requires members[n].key !in Keys(members, n) && Encodable(members[n])
    ensures var line := result + MemberText(members[n]);
      Written(members, n + 1, (if n + 1 != |members| then line + [COMMA] else line) + [LF])
  {
    LinesStep(members, n, result);
    SeenStep(members, n);
  }

  method EncodeCanonicalObject(members: seq<Member>) returns (r: Option<Text>)
    ensures r.Some? <==> DistinctMembers(members) && forall i :: 0 <= i < |members| ==> Encodable(members[i])
    ensures r.Some? ==> r.value == RecordText(members)
  {
    var seen: set<Text> := {};
    var result: Text := [OPEN_OBJECT, LF];
    var index := 0;
    while index < |members|
      invariant Written(members, index, result)
      invariant seen == Keys(members, index)
    {
      var m := members[index];
      SeenStep(members, index);
      if m.key in seen {
        return None;
      }
      var line := EncodeMember(m);
      if line.None? {
        return None;
      }
      WrittenStep(members, index, result);
      seen := seen + {m.key};
      result := result + line.value;
      if index + 1 != |members| {
        result := result + [COMMA];
      }
      result := result + [LF];
      index := index + 1;
    }
    assert members[..index] == members;
    return Some(result + [CLOSE_OBJECT]);
  }

  method EncodeMember(m: Member) returns (r: Option<Text>)
    ensures r == if Encodable(m) then Some(MemberText(m)) else None
  {
    var key := EscapeCanonicalJsonString(m.key);
    if key.None? {
      return None;
    }
    var start := Spaces(1) + ([QUOTE] + key.value + [QUOTE]) + [COLON, 0x20];
    match m.value {
      case Flag(on) =>
        return Some(start + if on then Ascii("true") else Ascii("false"));
      case Uint(digits) =>
        if ReadUint(digits).None? {
          return None;
        }
        UintWellFormed(digits);
        var text := EscapeCanonicalJsonString(digits);
        return Some(start + ([QUOTE] + text.value + [QUOTE]));
      case Plain(text) =>
        var escaped := EscapeCanonicalJsonString(text);
        if escaped.None? {
          return None;
        }
        return Some(start + ([QUOTE] + escaped.value + [QUOTE]));
    }
  }

  lemma {:induction false} LineEnds(before: Text, line: Text, rest: Text)
    ensures before + (line + [LF] + rest) == before + line + [LF] + rest
    ensures before + (line + [COMMA, LF] + rest) == before + line + [COMMA] + [LF] + rest
  {
    assert line + [COMMA, LF] + rest == line + [COMMA] + [LF] + rest;
  }

  lemma {:induction false} LinesStep(members: seq<Member>, i: nat, before: Text)
    requires i < |members|
    ensures before + Lines(members, i)
         == (if i + 1 != |members| then before + MemberText(members[i]) + [COMMA]
             else before + MemberText(members[i])) + [LF]
            + Lines(members, i + 1)
  {
    LineEnds(before, MemberText(members[i]), Lines(members, i + 1));
  }

  // ----- agreement with the claim printer -----

  predicate AllPlain(members: seq<Member>) {
    forall i :: 0 <= i < |members| ==> members[i].value.Plain?
  }

  /** A record of texts that the record printer accepts. */
  predicate TextRecord(members: seq<Member>) {
    AllPlain(members) && DistinctMembers(members) && forall i :: 0 <= i < |members| ==> Encodable(members[i])
  }

  function RecordOf(members: seq<Member>): (j: Json)
    requires AllPlain(members)
    ensures j.JObject? && |j.fields| == |members|
    ensures forall i :: 0 <= i < |members| ==> j.fields[i] == Field(members[i].key, JString(members[i].value.text))
  {
    JObject(seq(|members|, i requires 0 <= i < |members| && members[i].value.Plain? =>
      Field(members[i].key, JString(members[i].value.text))))
  }

  lemma {:induction false} PresentAll(names: seq<Text>, fields: seq<Field<Json>>)
    requires forall k :: k in names ==> HasKey(fields, k)
    ensures Present(names, fields) == names
  {
    if names != [] {
      PresentAll(names[1..], fields);
      assert names[0] in names;
    }
  }

  lemma {:induction false} FieldAgrees(members: seq<Member>, i: nat, order: Layout)
    requires AllPlain(members) && DistinctMembers(members) && i < |members| && Encodable(members[i])
    ensures HasKey(RecordOf(members).fields, members[i].key)
    ensures WriteField(RecordOf(members), members[i].key, order, 0) == Some(MemberText(members[i]))
  {
    var v, key := RecordOf(members), members[i].key;
    assert v.fields[i].key == key;
    assert IndexOf(v.fields, key) == i by {
      assert v.fields[IndexOf(v.fields, key)].key == v.fields[i].key;
    }
    assert Write(JString(members[i].value.text), Below(order, key), 1) == Some(ValueText(members[i].value));
  }

  lemma {:induction false} LastLine(line: Text)
    ensures line + End(0, CLOSE_OBJECT) == line + [LF] + [CLOSE_OBJECT]
  {
    assert Spaces(0) == [];
  }

  lemma {:induction false} LinesAgree(members: seq<Member>, i: nat, order: Layout)
    requires TextRecord(members) && i < |members|
    requires forall k :: k in KeysOf(RecordOf(members).fields)[i..] ==> HasKey(RecordOf(members).fields, k)
    ensures WriteFields(RecordOf(members), KeysOf(RecordOf(members).fields)[i..], order, 0) == Some(Lines(members, i))
    decreases |members| - i
  {
    var v := RecordOf(members);
    var keys := KeysOf(v.fields)[i..];
    assert keys[0] == members[i].key;
    FieldAgrees(members, i, order);
    if i + 1 == |members| {
      LastLine(MemberText(members[i]));
    } else {
      assert keys[1..] == KeysOf(v.fields)[i + 1..];
      LinesAgree(members, i + 1, order);
    }
  }

  lemma {:induction false} RecordFacts(members: seq<Member>)
    requires AllPlain(members) && DistinctMembers(members)
    ensures var f := RecordOf(members).fields;
      && DistinctKeys(f)
      && (forall k :: k in KeysOf(f) ==> HasKey(f, k))
      && PresentKeys(RecordOf(members), Unordered) == KeysOf(f)
      && Placed(f, KeysOf(f))
      && (forall i :: 0 <= i < |f| ==> HasKey(f, f[i].key) && IndexOf(f, f[i].key) == i)
  {
    var f := RecordOf(members).fields;
    var keys := KeysOf(f);
    forall i | 0 <= i < |f| ensures f[i].key in keys && HasKey(f, f[i].key) {
      assert keys[i] == f[i].key;
    }
    forall i | 0 <= i < |f| ensures IndexOf(f, f[i].key) == i {
      assert f[IndexOf(f, f[i].key)].key == f[i].key;
    }
    PresentAll(keys, f);
  }

  lemma {:induction false} ArrangedRecord(members: seq<Member>)
    requires AllPlain(members) && DistinctMembers(members)
    ensures Arranged(RecordOf(members), Unordered) == RecordOf(members)
  {
    var v := RecordOf(members);
    var keys := KeysOf(v.fields);
    RecordFacts(members);
    var fields := ArrangedFields(v, keys, Unordered);
    forall i | 0 <= i < |fields| ensures fields[i] == v.fields[i] {
      assert keys[i] == v.fields[i].key;
      assert fields[i] == Field(keys[i], Arranged(v.fields[IndexOf(v.fields, keys[i])].value,
                                                  Below(Unordered, keys[i])));
    }
    assert fields == v.fields;
  }

  lemma {:induction false} RecordWrites(members: seq<Member>)
    requires members != [] && TextRecord(members)
    ensures WriteObject(RecordOf(members), Unordered, 0) == Some(RecordText(members))
  {
    var v := RecordOf(members);
    RecordFacts(members);
    assert KeysOf(v.fields)[0..] == KeysOf(v.fields);
    LinesAgree(members, 0, Unordered);
  }

  /** The lines of a record of texts are JSON for exactly that record. */
  lemma {:induction false} RecordReadsBack(members: seq<Member>)
    requires TextRecord(members)
    ensures Parse(RecordText(members)) == Some(RecordOf(members))
  {
    if members == [] {
      EmptyReadsBack();
    } else {
      RecordWrites(members);
      RecordFacts(members);
      DocumentReadsBack(RecordOf(members), Unordered);
      ArrangedRecord(members);
    }
  }

  lemma {:induction false} EmptyReadsBack()
    ensures Parse([OPEN_OBJECT, LF] + [CLOSE_OBJECT]) == Some(JObject([]))
  {
    var text := [OPEN_OBJECT, LF] + [CLOSE_OBJECT];
    assert text[1..] == [LF, CLOSE_OBJECT] && [LF, CLOSE_OBJECT][1..] == [CLOSE_OBJECT];
    assert SkipSpace([LF, CLOSE_OBJECT]) == SkipSpace([CLOSE_OBJECT]) == [CLOSE_OBJECT];
    assert ReadObject([LF, CLOSE_OBJECT]) == Some((JObject([]), []));
    assert SkipSpace(text) == text;
    assert ReadValue(text) == Some((JObject([]), []));
  }

  // ----- the order in which an object enumerates its keys -----

  /** The array index that a property key spells, if it spells one. */
  function IndexKey(key: Text): Option<nat> {
    var n := ReadUint(key);
    if n.Some? && n.value < 0xFFFF_FFFF then n else None
  }

  /** A property `a` is enumerated before an earlier `b`: array indices come first and ascend. */
  predicate Overtakes(a: Text, b: Text) {
    IndexKey(a).Some? && (IndexKey(b).None? || IndexKey(a).value < IndexKey(b).value)
  }

  /** The members of an object, in the order they are enumerated, after one more was added. */
  function Added(members: seq<Member>, m: Member): seq<Member> {
    if members == [] then [m]
    else if Overtakes(m.key, members[0].key) then [m] + members
    else [members[0]] + Added(members[1..], m)
  }

  /** The enumeration order of an object to which these members were added one by one. */
  function Enumerated(members: seq<Member>): seq<Member> {
    if members == [] then [] else Added(Enumerated(members[..|members| - 1]), members[|members| - 1])
  }

  /** No key overtakes an earlier one. */
  predicate IndicesFirst(members: seq<Member>) {
    forall i, j :: 0 <= i < j < |members| ==> !Overtakes(members[j].key, members[i].key)
  }

  predicate LacksKey(members: seq<Member>, key: Text) {
    forall x :: x in members ==> x.key != key
  }

  lemma {:induction false} AddedMembers(members: seq<Member>, m: Member)
    ensures forall x :: x in Added(members, m) <==> x == m || x in members
  {
    if members != [] {
      AddedMembers(members[1..], m);
      assert members == [members[0]] + members[1..];
    }
  }

  lemma {:induction false} OvertakesOrders(a: Text, b: Text, c: Text)
    requires !Overtakes(a, b) && Overtakes(c, b)
    ensures !Overtakes(a, c)
  {
  }

  lemma {:induction false} InFrontKeeps(x: Member, rest: seq<Member>)
    requires IndicesFirst(rest) && DistinctMembers(rest) && LacksKey(rest, x.key)
    requires forall i :: 0 <= i < |rest| ==> !Overtakes(rest[i].key, x.key)
    ensures IndicesFirst([x] + rest) && DistinctMembers([x] + rest)
  {
    assert forall i :: 0 <= i < |rest| ==> rest[i] in rest;
  }

  lemma {:induction false} AddedKeeps(members: seq<Member>, m: Member)
    requires IndicesFirst(members) && DistinctMembers(members) && LacksKey(members, m.key)
    ensures IndicesFirst(Added(members, m)) && DistinctMembers(Added(members, m))
  {
    if members == [] {
    } else if Overtakes(m.key, members[0].key) {
      forall i | 0 <= i < |members|
        ensures !Overtakes(members[i].key, m.key)
      {
        OvertakesOrders(members[i].key, members[0].key, m.key);
      }
      InFrontKeeps(m, members);
    } else {
      var tail := members[1..];
      var rest := Added(tail, m);
      AddedKeeps(tail, m);
      AddedMembers(tail, m);
      forall i | 0 <= i < |rest|
        ensures !Overtakes(rest[i].key, members[0].key) && rest[i].key != members[0].key
      {
        assert rest[i] == m || rest[i] in tail;
      }
      InFrontKeeps(members[0], rest);
    }
  }

  lemma {:induction false} AddedAtEnd(members: seq<Member>, m: Member)
    requires forall i :: 0 <= i < |members| ==> !Overtakes(m.key, members[i].key)
    ensures Added(members, m) == members + [m]
  {
    if members != [] { AddedAtEnd(members[1..], m); }
  }

  lemma {:induction false} EnumeratedKeeps(members: seq<Member>)
    requires DistinctMembers(members)
    ensures DistinctMembers(Enumerated(members)) && IndicesFirst(Enumerated(members))
    ensures forall x :: x in Enumerated(members) <==> x in members
  {
    if members != [] {
      var front, last := members[..|members| - 1], members[|members| - 1];
      EnumeratedKeeps(front);
      assert members == front + [last];
      AddedKeeps(Enumerated(front), last);
      AddedMembers(Enumerated(front), last);
    }
  }

  /** An object enumerates its members as they were added exactly if no array index overtakes another key. */
  lemma {:induction false} EnumeratedAsAdded(members: seq<Member>)
    requires DistinctMembers(members)
    ensures Enumerated(members) == members <==> IndicesFirst(members)
  {
    EnumeratedKeeps(members);
    if members != [] && IndicesFirst(members) {
      var front, last := members[..|members| - 1], members[|members| - 1];
      EnumeratedAsAdded(front);
      AddedAtEnd(front, last);
      assert members == front + [last];
    }
  }

  lemma {:induction false} EnumeratedRecord(members: seq<Member>)
    requires TextRecord(members)
    ensures TextRecord(Enumerated(members)) && (Enumerated(members) == [] <==> members == [])
  {
    var shown := Enumerated(members);
    EnumeratedKeeps(members);
    forall i | 0 <= i < |shown|
      ensures shown[i].value.Plain? && Encodable(shown[i])
    {
      assert shown[i] in members;
    }
    if members != [] { assert members[0] in shown; }
  }

  lemma {:induction false} RecordTextInjective(a: seq<Member>, b: seq<Member>)
    requires TextRecord(a) && TextRecord(b) && RecordText(a) == RecordText(b)
    ensures a == b
  {
    RecordReadsBack(a);
    RecordReadsBack(b);
    SameRecord(a, b);
  }

  lemma {:induction false} SameRecord(a: seq<Member>, b: seq<Member>)
    requires AllPlain(a) && AllPlain(b) && RecordOf(a) == RecordOf(b)
    ensures a == b
  {
    assert |a| == |RecordOf(a).fields| == |b|;
    forall i | 0 <= i < |a|
      ensures a[i] == b[i]
    {
      assert RecordOf(a).fields[i] == RecordOf(b).fields[i];
    }
  }

  /** The claim printer, given an object to which the members of a text record were added in turn, agrees with the
      record printer exactly if the record is not empty and no array index overtakes another key. */
  lemma {:induction false} PrintersAgree(members: seq<Member>)
    requires TextRecord(members)
    ensures TextRecord(Enumerated(members))
    ensures Write(RecordOf(Enumerated(members)), Unordered, 0) == Some(RecordText(members))
        <==> members != [] && IndicesFirst(members)
  {
    var shown := Enumerated(members);
    EnumeratedRecord(members);
    EnumeratedAsAdded(members);
    if members == [] {
      assert Lines(members, 0) == [CLOSE_OBJECT];
    } else {
      RecordWrites(shown);
      if RecordText(shown) == RecordText(members) { RecordTextInjective(shown, members); }
    }
  }
}
