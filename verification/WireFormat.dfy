/**
 The conversion between a payment payload as the client holds it, as it arrives after JSON, and as the serialiser takes
 it. Both sides must convert to the same tree to hash the same transaction; `WireInvariantExactly` says for which values
 they do, and `IdempotentExactly` for which values converting twice changes nothing.
*/
module WireFormat {
  import opened Options
  import opened Decimals
  import opened DecimalText
  import opened Records
  import opened Utf16

  /** JavaScript values that reach the conversion: no `undefined`, finite numbers as they print, keys of their own. */
  datatype Value =
    | Null
    | Bool(value: bool)
    | Number(literal: Text)
    | Big(n: int)
    | Str(text: Text)
    | Bytes(bytes: seq<Byte>)
    | List(items: seq<Value>)
    | Record(fields: seq<Field<Value>>)

  const TYPE: Text := Ascii("type")
  const VALUE: Text := Ascii("value")

  /** Renaming of keys; `Settled` is all that the theorems use of it. */
  ghost predicate Settled(rename: Text -> Text) {
    && (forall k :: rename(rename(k)) == rename(k))
    && (forall k :: rename(k) == TYPE <==> k == TYPE)
    && (forall k :: rename(k) == VALUE <==> k == VALUE)
  }

  // ----- records -----

  /** The fields `type` (a string) and `value`, and no others. */
  predicate IsPair(fields: seq<Field<Value>>) {
    |fields| == 2 && ((fields[0].key == TYPE && fields[1].key == VALUE)
                      || (fields[0].key == VALUE && fields[1].key == TYPE))
  }

  function TypeOf(fields: seq<Field<Value>>): (i: nat)
    requires IsPair(fields)
    ensures i < 2
  {
    if fields[0].key == TYPE then 0 else 1
  }

  predicate IsVariant(fields: seq<Field<Value>>) {
    IsPair(fields) && fields[TypeOf(fields)].value.Str?
  }

  // ----- the conversion -----

  function ConvertText(t: Text): Value {
    if t != [] && DigitText(t).Some? then Big(FromDecimal(DigitText(t).value)) else Str(t)
  }

  function ByteNumbers(bytes: seq<Byte>): seq<Value> {
    seq(|bytes|, i requires 0 <= i < |bytes| => Number(PrintUint(bytes[i])))
  }

  function ToBcs(v: Value, rename: Text -> Text): Value
    decreases v, 1, 0
  {
    match v
    case Str(t) => ConvertText(t)
    case Bytes(bytes) => List(ByteNumbers(bytes))
    case List(items) => List(ToBcsItems(v, rename))
    case Record(fields) =>
      if IsVariant(fields) then ToBcsVariant(v, rename) else Record(ToBcsFields(v, |fields|, rename))
    case _ => v
  }

  function ToBcsItems(v: Value, rename: Text -> Text): (r: seq<Value>)
    requires v.List?
    ensures |r| == |v.items|
    decreases v, 0, 0
  {
    seq(|v.items|, i requires 0 <= i < |v.items| => ToBcs(v.items[i], rename))
  }

  /** A typed variant becomes a record with the type as its one key. */
  function ToBcsVariant(v: Value, rename: Text -> Text): Value
    requires v.Record? && IsVariant(v.fields)
    decreases v, 0, 0
  {
    var t := TypeOf(v.fields);
    Record([Field(v.fields[t].value.text, ToBcs(v.fields[1 - t].value, rename))])
  }

  /** The record built from the first `n` fields in order. */
  function ToBcsFields(v: Value, n: nat, rename: Text -> Text): seq<Field<Value>>
    requires v.Record? && n <= |v.fields|
    decreases v, 0, n
  {
    if n == 0 then [] else
    Put(ToBcsFields(v, n - 1, rename), rename(v.fields[n - 1].key), ToBcs(v.fields[n - 1].value, rename))
  }

  /** The value after it was printed as JSON with quoted big integers and parsed again. */
  function Trip(v: Value): Value
    decreases v, 1
  {
    match v
    case Big(n) => Str(PrintUint(n))
    case Bytes(bytes) => List(ByteNumbers(bytes))
    case List(items) => List(seq(|items|, i requires 0 <= i < |items| => Trip(items[i])))
    case Record(fields) => Record(TripFields(v))
    case _ => v
  }

  function TripFields(v: Value): (r: seq<Field<Value>>)
    requires v.Record?
    ensures |r| == |v.fields| && forall i :: 0 <= i < |r|
                                     ==> r[i].key == v.fields[i].key && r[i].value == Trip(v.fields[i].value)
    decreases v, 0
  {
    seq(|v.fields|, i requires 0 <= i < |v.fields| => Field(v.fields[i].key, Trip(v.fields[i].value)))
  }

  // ----- when the two sides agree -----

  /** No later field takes the same converted key, so this field's value is the one that stays. */
  predicate Survives(fields: seq<Field<Value>>, i: nat, n: nat, rename: Text -> Text)
    requires i < n <= |fields|
  {
    forall j :: i < j < n ==> rename(fields[j].key) != rename(fields[i].key)
  }

  /** No negative big integer stays in the tree, and no pair `type`, `value` has a big integer as its type. */
  predicate Faithful(v: Value, rename: Text -> Text) {
    match v
    case Big(n) => n >= 0
    case List(items) => forall i :: 0 <= i < |items| ==> Faithful(items[i], rename)
    case Record(fields) =>
      if IsVariant(fields) then Faithful(fields[1 - TypeOf(fields)].value, rename)
      else if IsPair(fields) && fields[TypeOf(fields)].value.Big? then false
      else forall i :: 0 <= i < |fields| && Survives(fields, i, |fields|, rename) ==> Faithful(fields[i].value, rename)
    case _ => true
  }

  /** Lists with the same keys in the same places that agree on every key outside `except`. */
  predicate AgreeExcept(a: seq<Field<Value>>, b: seq<Field<Value>>, except: set<Text>) {
    && |a| == |b| && (forall i :: 0 <= i < |a| ==> a[i].key == b[i].key)
    && forall i :: 0 <= i < |a| && a[i].key !in except ==> a[i].value == b[i].value
  }

  lemma {:induction false} PutKeys(a: seq<Field<Value>>, key: Text, value: Value, k: Text)
    ensures HasKey(Put(a, key, value), k) <==> HasKey(a, k) || k == key
  {
    var r := Put(a, key, value);
    if HasKey(a, k) {
      var i :| 0 <= i < |a| && a[i].key == k;
      assert r[i].key == k;
    }
    if k == key {
      assert r[if HasKey(a, key) then IndexOf(a, key) else |a|].key == key;
    }
    if HasKey(r, k) {
      var i :| 0 <= i < |r| && r[i].key == k;
      assert i < |a| ==> a[i].key == k;
    }
  }

  lemma {:induction false} PutAgree(a: seq<Field<Value>>, b: seq<Field<Value>>, key: Text, x: Value,
                                    y: Value, except: set<Text>)
    requires SameKeys(a, b) && DistinctKeys(a)
    ensures SameKeys(Put(a, key, x), Put(b, key, y))
    ensures AgreeExcept(Put(a, key, x), Put(b, key, y), except)
       <==> AgreeExcept(a, b, except + {key}) && (key in except || x == y)
  {
    SamePlace(a, b, key);
    var p, q := Put(a, key, x), Put(b, key, y);
    var place := if HasKey(a, key) then IndexOf(a, key) else |a|;
    assert p[place] == Field(key, x) && q[place] == Field(key, y);
    assert forall i :: 0 <= i < |a| && i != place ==> p[i] == a[i] && q[i] == b[i] && a[i].key != key;
    if AgreeExcept(p, q, except) {
      forall i | 0 <= i < |a| && a[i].key !in except + {key} ensures a[i].value == b[i].value {
        assert p[i].value == q[i].value;
      }
    }
  }

  predicate AgreeAt(v: Value, w: Value, i: nat, rename: Text -> Text)
    requires v.Record? && w.Record? && i < |v.fields| && i < |w.fields|
  {
    ToBcs(v.fields[i].value, rename) == ToBcs(w.fields[i].value, rename)
  }

  /** The surviving fields outside `except` convert to the same values. */
  predicate SurvivorsAgree(v: Value, w: Value, n: nat, rename: Text -> Text, except: set<Text>)
    requires v.Record? && w.Record? && n <= |v.fields| && n <= |w.fields|
  {
    forall i :: 0 <= i < n && Survives(v.fields, i, n, rename) && rename(v.fields[i].key) !in except
        ==> AgreeAt(v, w, i, rename)
  }

  lemma {:induction false} SurvivorsStep(v: Value, w: Value, n: nat, rename: Text -> Text, except: set<Text>)
    requires v.Record? && w.Record? && 0 < n <= |v.fields| && n <= |w.fields|
    ensures var key := rename(v.fields[n - 1].key);
      SurvivorsAgree(v, w, n, rename, except) <==>
        SurvivorsAgree(v, w, n - 1, rename, except + {key}) && (key in except || AgreeAt(v, w, n - 1, rename))
  {
    var key := rename(v.fields[n - 1].key);
    assert Survives(v.fields, n - 1, n, rename);
    forall i | 0 <= i < n - 1
      ensures Survives(v.fields, i, n, rename)
          <==> Survives(v.fields, i, n - 1, rename) && rename(v.fields[i].key) != key
    {
    }
  }

  /** What two converted records agree on, field by field of the originals. */
  lemma {:induction false} FieldsAgree(v: Value, w: Value, n: nat, rename: Text -> Text, except: set<Text>)
    requires v.Record? && w.Record? && SameKeys(v.fields, w.fields) && n <= |v.fields|
    ensures SameKeys(ToBcsFields(v, n, rename), ToBcsFields(w, n, rename))
    ensures DistinctKeys(ToBcsFields(v, n, rename))
    ensures AgreeExcept(ToBcsFields(v, n, rename), ToBcsFields(w, n, rename), except)
        <==> SurvivorsAgree(v, w, n, rename, except)
  {
    if n > 0 {
      var key := rename(v.fields[n - 1].key);
      FieldsAgree(v, w, n - 1, rename, except + {key});
      PutAgree(ToBcsFields(v, n - 1, rename), ToBcsFields(w, n - 1, rename), key,
               ToBcs(v.fields[n - 1].value, rename), ToBcs(w.fields[n - 1].value, rename), except);
      SurvivorsStep(v, w, n, rename, except);
    }
  }

  lemma {:induction false} EqualFields(v: Value, w: Value, rename: Text -> Text)
    requires v.Record? && w.Record? && SameKeys(v.fields, w.fields)
    ensures ToBcsFields(v, |v.fields|, rename) == ToBcsFields(w, |w.fields|, rename) <==>
      forall i :: 0 <= i < |v.fields| && Survives(v.fields, i, |v.fields|, rename)
        ==> ToBcs(v.fields[i].value, rename) == ToBcs(w.fields[i].value, rename)
  {
    var a, b := ToBcsFields(v, |v.fields|, rename), ToBcsFields(w, |w.fields|, rename);
    FieldsAgree(v, w, |v.fields|, rename, {});
    assert AgreeExcept(a, b, {}) <==> a == b;
  }

  // ----- where fields end up -----

  lemma {:induction false} PutPlaces(a: seq<Field<Value>>, key: Text, value: Value, k: Text)
    requires DistinctKeys(a)
    ensures var r := Put(a, key, value);
      && (HasKey(r, k) <==> HasKey(a, k) || k == key)
      && HasKey(r, key) && r[IndexOf(r, key)].value == value
      && (!HasKey(a, key) ==> IndexOf(r, key) == |a|)
      && (HasKey(a, k) ==> IndexOf(r, k) == IndexOf(a, k) && (k != key ==> r[IndexOf(r, k)] == a[IndexOf(a, k)]))
  {
    var r := Put(a, key, value);
    PutKeys(a, key, value, k);
    PutKeys(a, key, value, key);
    assert r[IndexOf(r, key)].key == key;
    if HasKey(a, k) { assert r[IndexOf(a, k)].key == r[IndexOf(r, k)].key == k; }
  }

  lemma {:induction false} FieldsDistinct(v: Value, n: nat, rename: Text -> Text)
    requires v.Record? && n <= |v.fields|
    ensures DistinctKeys(ToBcsFields(v, n, rename))
  {
    if n > 0 { FieldsDistinct(v, n - 1, rename); }
  }

  lemma {:induction false} KeyNotTaken(v: Value, n: nat, rename: Text -> Text, k: Text)
    requires v.Record? && n <= |v.fields| && forall i :: 0 <= i < n ==> rename(v.fields[i].key) != k
    ensures !HasKey(ToBcsFields(v, n, rename), k)
  {
    if n > 0 {
      KeyNotTaken(v, n - 1, rename, k);
      PutKeys(ToBcsFields(v, n - 1, rename), rename(v.fields[n - 1].key), ToBcs(v.fields[n - 1].value, rename), k);
    }
  }

  /** One more field: where each key stands afterwards, and with what value. */
  lemma {:induction false} NextField(v: Value, n: nat, rename: Text -> Text, k: Text)
    requires v.Record? && 0 < n <= |v.fields|
    ensures var a, r, key := ToBcsFields(v, n - 1, rename), ToBcsFields(v, n, rename), rename(v.fields[n - 1].key);
      && (HasKey(r, k) <==> HasKey(a, k) || k == key)
      && HasKey(r, key) && r[IndexOf(r, key)].value == ToBcs(v.fields[n - 1].value, rename)
      && (!HasKey(a, key) ==> IndexOf(r, key) == |a|)
      && (HasKey(a, k) ==> IndexOf(r, k) == IndexOf(a, k) && (k != key ==> r[IndexOf(r, k)] == a[IndexOf(a, k)]))
  {
    FieldsDistinct(v, n - 1, rename);
    PutPlaces(ToBcsFields(v, n - 1, rename), rename(v.fields[n - 1].key), ToBcs(v.fields[n - 1].value, rename), k);
  }

  predicate ValueUnder(r: seq<Field<Value>>, key: Text, value: Value) {
    HasKey(r, key) && r[IndexOf(r, key)].value == value
  }

  /** The value under a converted key is that of the last field that takes the key. */
  lemma {:induction false} LastValueStays(v: Value, n: nat, rename: Text -> Text, i: nat)
    requires v.Record? && i < n <= |v.fields| && Survives(v.fields, i, n, rename)
    ensures ValueUnder(ToBcsFields(v, n, rename), rename(v.fields[i].key), ToBcs(v.fields[i].value, rename))
  {
    hide ToBcs, ToBcsFields, IndexOf, HasKey;
    if i < n - 1 {
      assert Survives(v.fields, i, n - 1, rename);
      LastValueStays(v, n - 1, rename, i);
    }
    NextField(v, n, rename, rename(v.fields[i].key));
  }

  /** No earlier field takes the same converted key. */
  predicate First(fields: seq<Field<Value>>, i: nat, rename: Text -> Text)
    requires i < |fields|
  {
    forall j :: 0 <= j < i ==> rename(fields[j].key) != rename(fields[i].key)
  }

  lemma {:induction false} KeyTaken(v: Value, n: nat, rename: Text -> Text, i: nat)
    requires v.Record? && i < n <= |v.fields|
    ensures HasKey(ToBcsFields(v, n, rename), rename(v.fields[i].key))
  {
    if i < n - 1 { KeyTaken(v, n - 1, rename, i); }
    PutKeys(ToBcsFields(v, n - 1, rename), rename(v.fields[n - 1].key), ToBcs(v.fields[n - 1].value, rename),
            rename(v.fields[i].key));
  }

  predicate StandsBefore(r: seq<Field<Value>>, k: Text, l: Text) {
    HasKey(r, k) && HasKey(r, l) && IndexOf(r, k) < IndexOf(r, l)
  }

  lemma {:induction false} PutKeepsOrder(a: seq<Field<Value>>, key: Text, value: Value, k: Text, l: Text)
    requires DistinctKeys(a) && HasKey(a, k)
    requires StandsBefore(a, k, l) || (!HasKey(a, l) && l == key)
    ensures StandsBefore(Put(a, key, value), k, l)
  {
    PutPlaces(a, key, value, k);
    PutPlaces(a, key, value, l);
  }

  lemma {:induction false} NextKeepsOrder(v: Value, n: nat, rename: Text -> Text, k: Text, l: Text)
    requires v.Record? && 0 < n <= |v.fields| && HasKey(ToBcsFields(v, n - 1, rename), k)
    requires var a := ToBcsFields(v, n - 1, rename);
      StandsBefore(a, k, l) || (!HasKey(a, l) && l == rename(v.fields[n - 1].key))
    ensures StandsBefore(ToBcsFields(v, n, rename), k, l)
  {
    FieldsDistinct(v, n - 1, rename);
    PutKeepsOrder(ToBcsFields(v, n - 1, rename), rename(v.fields[n - 1].key),
                  ToBcs(v.fields[n - 1].value, rename), k, l);
  }

  /** Converted keys stand in the order in which the first fields that take them stand. */
  lemma {:induction false} FirstPlaceStays(v: Value, n: nat, rename: Text -> Text, i: nat, j: nat)
    requires v.Record? && i < j < n <= |v.fields| && First(v.fields, j, rename)
    ensures StandsBefore(ToBcsFields(v, n, rename), rename(v.fields[i].key), rename(v.fields[j].key))
  {
    hide StandsBefore, ToBcs, ToBcsFields, HasKey;
    KeyTaken(v, n - 1, rename, i);
    if j < n - 1 {
      FirstPlaceStays(v, n - 1, rename, i, j);
    } else {
      KeyNotTaken(v, n - 1, rename, rename(v.fields[j].key));
    }
    NextKeepsOrder(v, n, rename, rename(v.fields[i].key), rename(v.fields[j].key));
  }

  // ----- wire invariance -----

  lemma {:induction false} BigTrips(n: int)
    ensures ConvertText(PrintUint(n)) == Big(n) <==> n >= 0
  {
    if n >= 0 {
      DigitsReadBack(ToDecimal(n));
      FromToDecimal(n);
    } else {
      assert PrintUint(n)[0] == '-' as int;
    }
  }

  lemma {:induction false} NumbersConvert(bytes: seq<Byte>, rename: Text -> Text)
    ensures ToBcs(List(ByteNumbers(bytes)), rename) == List(ByteNumbers(bytes))
  {
    assert ToBcsItems(List(ByteNumbers(bytes)), rename) == ByteNumbers(bytes);
  }

  lemma {:induction false} ConvertTwoKeys(v: Value, rename: Text -> Text)
    requires v.Record? && IsPair(v.fields) && Settled(rename)
    ensures |ToBcsFields(v, 2, rename)| == 2
  {
    assert ToBcsFields(v, 0, rename) == [];
    var one := ToBcsFields(v, 1, rename);
    assert one == [Field(rename(v.fields[0].key), ToBcs(v.fields[0].value, rename))];
    assert TYPE != VALUE;
    assert rename(v.fields[0].key) != rename(v.fields[1].key);
  }

  /** The client's value and what arrives after JSON convert to the same tree exactly for faithful values. */
  lemma {:induction false} WireInvariantExactly(v: Value, rename: Text -> Text)
    requires Settled(rename)
    ensures ToBcs(Trip(v), rename) == ToBcs(v, rename) <==> Faithful(v, rename)
    decreases v
  {
    match v {
      case Big(n) => BigTrips(n);
      case Bytes(bytes) => NumbersConvert(bytes, rename);
      case List(items) => ListInvariant(v, rename);
      case Record(fields) =>
        if IsVariant(fields) {
          VariantInvariant(v, rename);
        } else if IsPair(fields) && fields[TypeOf(fields)].value.Big? {
          BigTypeDiffers(v, rename);
        } else {
          RecordInvariant(v, rename);
        }
      case _ =>
    }
  }

  lemma {:induction false} VariantInvariant(v: Value, rename: Text -> Text)
    requires v.Record? && IsVariant(v.fields) && Settled(rename)
    ensures ToBcs(Trip(v), rename) == ToBcs(v, rename) <==> Faithful(v, rename)
    decreases v, 0
  {
    var t := TypeOf(v.fields);
    var w := Trip(v);
    WireInvariantExactly(v.fields[1 - t].value, rename);
    assert IsVariant(w.fields) && TypeOf(w.fields) == t && w.fields[t].value == v.fields[t].value;
    assert ToBcsVariant(w, rename) == Record([Field(v.fields[t].value.text, ToBcs(w.fields[1 - t].value, rename))]);
    assert ToBcsVariant(v, rename) == Record([Field(v.fields[t].value.text, ToBcs(v.fields[1 - t].value, rename))]);
  }

  lemma {:induction false} BigTypeDiffers(v: Value, rename: Text -> Text)
    requires v.Record? && IsPair(v.fields) && v.fields[TypeOf(v.fields)].value.Big? && Settled(rename)
    ensures ToBcs(Trip(v), rename) != ToBcs(v, rename)
  {
    ConvertTwoKeys(v, rename);
    var w := Trip(v);
    assert IsVariant(w.fields);
    assert |ToBcsVariant(w, rename).fields| == 1;
  }

  lemma {:induction false} ListInvariant(v: Value, rename: Text -> Text)
    requires v.List? && Settled(rename)
    ensures ToBcs(Trip(v), rename) == ToBcs(v, rename) <==> Faithful(v, rename)
    decreases v, 0
  {
    var t := Trip(v);
    forall i | 0 <= i < |v.items|
      ensures ToBcsItems(t, rename)[i] == ToBcsItems(v, rename)[i] <==> Faithful(v.items[i], rename)
    {
      WireInvariantExactly(v.items[i], rename);
    }
    if Faithful(v, rename) {
      assert ToBcsItems(t, rename) == ToBcsItems(v, rename);
    }
  }

  lemma {:induction false} RecordInvariant(v: Value, rename: Text -> Text)
    requires v.Record? && !IsVariant(v.fields) && !IsVariant(TripFields(v)) && Settled(rename)
    requires !(IsPair(v.fields) && v.fields[TypeOf(v.fields)].value.Big?)
    ensures ToBcs(Trip(v), rename) == ToBcs(v, rename) <==> Faithful(v, rename)
    decreases v, 0
  {
    forall i | 0 <= i < |v.fields|
      ensures ToBcs(Trip(v).fields[i].value, rename) == ToBcs(v.fields[i].value, rename)
          <==> Faithful(v.fields[i].value, rename)
    {
      WireInvariantExactly(v.fields[i].value, rename);
    }
    EqualFields(v, Trip(v), rename);
  }

  // ----- converting twice -----

  predicate Sound(v: Value) {
    match v
    case List(items) => forall i :: 0 <= i < |items| ==> Sound(items[i])
    case Record(fields) => DistinctKeys(fields) && forall i :: 0 <= i < |fields| ==> Sound(fields[i].value)
    case _ => true
  }

  /** No variant that stays in the tree is named like a key that is renamed. */
  predicate Stable(v: Value, rename: Text -> Text) {
    match v
    case List(items) => forall i :: 0 <= i < |items| ==> Stable(items[i], rename)
    case Record(fields) =>
      if IsVariant(fields) then
        var t := TypeOf(fields);
        rename(fields[t].value.text) == fields[t].value.text && Stable(fields[1 - t].value, rename)
      else forall i :: 0 <= i < |fields| && Survives(fields, i, |fields|, rename) ==> Stable(fields[i].value, rename)
    case _ => true
  }

  /** Every field's converted key is there. */
  lemma {:induction false} KeysCome(v: Value, n: nat, rename: Text -> Text)
    requires v.Record? && n <= |v.fields|
    ensures DistinctKeys(ToBcsFields(v, n, rename))
    ensures forall j :: 0 <= j < n ==> HasKey(ToBcsFields(v, n, rename), rename(v.fields[j].key))
  {
    if n > 0 {
      KeysCome(v, n - 1, rename);
      var key, value := rename(v.fields[n - 1].key), ToBcs(v.fields[n - 1].value, rename);
      forall j | 0 <= j < n ensures HasKey(ToBcsFields(v, n, rename), rename(v.fields[j].key)) {
        PutKeys(ToBcsFields(v, n - 1, rename), key, value, rename(v.fields[j].key));
      }
    }
  }

  ghost predicate ComesFrom(v: Value, n: nat, rename: Text -> Text, e: Field<Value>)
    requires v.Record? && n <= |v.fields|
  {
    exists j :: 0 <= j < n && Gives(v, j, n, rename, e)
  }

  lemma {:induction false} PutComes(v: Value, n: nat, rename: Text -> Text, before: seq<Field<Value>>)
    requires v.Record? && 0 < n <= |v.fields|
    requires forall i :: 0 <= i < |before| ==> ComesFrom(v, n - 1, rename, before[i])
    requires DistinctKeys(before)
    ensures var e := Put(before, rename(v.fields[n - 1].key), ToBcs(v.fields[n - 1].value, rename));
      forall i :: 0 <= i < |e| ==> ComesFrom(v, n, rename, e[i])
  {
    var last := Field(rename(v.fields[n - 1].key), ToBcs(v.fields[n - 1].value, rename));
    var e := Put(before, last.key, last.value);
    assert Gives(v, n - 1, n, rename, last);
    forall i | 0 <= i < |e| ensures ComesFrom(v, n, rename, e[i]) {
      if e[i] != last {
        assert e[i] == before[i] && e[i].key != last.key;
        var j :| 0 <= j < n - 1 && Gives(v, j, n - 1, rename, before[i]);
        assert Gives(v, j, n, rename, e[i]);
      }
    }
  }

  /** Every converted entry comes from a surviving field. */
  lemma {:induction false} FieldsCome(v: Value, n: nat, rename: Text -> Text)
    requires v.Record? && n <= |v.fields|
    ensures forall i :: 0 <= i < |ToBcsFields(v, n, rename)| ==> ComesFrom(v, n, rename, ToBcsFields(v, n, rename)[i])
  {
    if n > 0 {
      FieldsCome(v, n - 1, rename);
      KeysCome(v, n - 1, rename);
      PutComes(v, n, rename, ToBcsFields(v, n - 1, rename));
      assert ToBcsFields(v, n, rename)
          == Put(ToBcsFields(v, n - 1, rename), rename(v.fields[n - 1].key), ToBcs(v.fields[n - 1].value, rename));
    }
  }

  /** The `j`th field survives and converts to this entry. */
  predicate Gives(v: Value, j: nat, n: nat, rename: Text -> Text, e: Field<Value>)
    requires v.Record? && j < n <= |v.fields|
  {
    Survives(v.fields, j, n, rename) && e == Field(rename(v.fields[j].key), ToBcs(v.fields[j].value, rename))
  }

  /** A survivor's entry is there. */
  lemma {:induction false} SurvivorStays(v: Value, j: nat, rename: Text -> Text) returns (i: nat)
    requires v.Record? && j < |v.fields| && Survives(v.fields, j, |v.fields|, rename)
    ensures var e := ToBcsFields(v, |v.fields|, rename);
      i < |e| && e[i] == Field(rename(v.fields[j].key), ToBcs(v.fields[j].value, rename))
  {
    var n := |v.fields|;
    KeysCome(v, n, rename);
    FieldsCome(v, n, rename);
    var e := ToBcsFields(v, n, rename);
    i :| 0 <= i < |e| && e[i].key == rename(v.fields[j].key);
    assert ComesFrom(v, n, rename, e[i]);
    var k :| 0 <= k < n && Gives(v, k, n, rename, e[i]);
    assert k == j;
  }

  /** Fields whose keys are distinct and settled convert one by one. */
  lemma {:induction false} SettledFields(w: Value, n: nat, rename: Text -> Text)
    requires w.Record? && n <= |w.fields| && DistinctKeys(w.fields)
    requires forall i :: 0 <= i < |w.fields| ==> rename(w.fields[i].key) == w.fields[i].key
    ensures var r := ToBcsFields(w, n, rename);
      |r| == n && forall i :: 0 <= i < n ==> r[i] == Field(w.fields[i].key, ToBcs(w.fields[i].value, rename))
  {
    if n > 0 {
      SettledFields(w, n - 1, rename);
      var before := ToBcsFields(w, n - 1, rename);
      var last := w.fields[n - 1];
      assert forall i :: 0 <= i < n - 1 ==> before[i].key == w.fields[i].key != last.key;
      assert !HasKey(before, last.key);
      assert ToBcsFields(w, n, rename) == before + [Field(last.key, ToBcs(last.value, rename))];
    }
  }

  lemma {:induction false} ThirdKey(fields: seq<Field<Value>>)
    requires DistinctKeys(fields) && |fields| > 2
    ensures exists m :: 0 <= m < |fields| && fields[m].key != TYPE && fields[m].key != VALUE
  {
    assert fields[0].key != fields[1].key && fields[1].key != fields[2].key && fields[0].key != fields[2].key;
  }

  lemma {:induction false} Origin(v: Value, rename: Text -> Text, i: nat) returns (j: nat)
    requires v.Record? && i < |ToBcsFields(v, |v.fields|, rename)|
    ensures j < |v.fields| && Gives(v, j, |v.fields|, rename, ToBcsFields(v, |v.fields|, rename)[i])
  {
    FieldsCome(v, |v.fields|, rename);
    assert ComesFrom(v, |v.fields|, rename, ToBcsFields(v, |v.fields|, rename)[i]);
    j :| 0 <= j < |v.fields| && Gives(v, j, |v.fields|, rename, ToBcsFields(v, |v.fields|, rename)[i]);
  }

  /** If the converted record has the keys `type` and `value` and no others, so had the original. */
  lemma {:induction false} PairComes(v: Value, rename: Text -> Text)
    requires v.Record? && DistinctKeys(v.fields) && Settled(rename)
    requires IsPair(ToBcsFields(v, |v.fields|, rename))
    ensures |v.fields| <= 2
  {
    var n, e := |v.fields|, ToBcsFields(v, |v.fields|, rename);
    KeysCome(v, n, rename);
    forall m | 0 <= m < n ensures v.fields[m].key == TYPE || v.fields[m].key == VALUE {
      PairKey(e, rename(v.fields[m].key));
    }
    if n > 2 {
      ThirdKey(v.fields);
    }
  }

  lemma {:induction false} PairKey(e: seq<Field<Value>>, key: Text)
    requires IsPair(e) && HasKey(e, key)
    ensures key == TYPE || key == VALUE
  {
  }

  lemma {:induction false} OnlyTextGivesText(v: Value, rename: Text -> Text)
    requires ToBcs(v, rename).Str?
    ensures v.Str?
  {
  }

  /** A record that is not a variant does not convert to one. */
  lemma {:induction false} NoNewVariant(v: Value, rename: Text -> Text)
    requires v.Record? && Sound(v) && Settled(rename) && IsVariant(ToBcsFields(v, |v.fields|, rename))
    ensures IsVariant(v.fields)
  {
    var e := ToBcsFields(v, |v.fields|, rename);
    var t := TypeOf(e);
    PairComes(v, rename);
    var j := Origin(v, rename, t);
    var k := Origin(v, rename, 1 - t);
    assert v.fields[j].key == TYPE && v.fields[k].key == VALUE && TYPE != VALUE;
    OnlyTextGivesText(v.fields[j].value, rename);
  }

  /** Converting twice is converting once exactly for stable values. */
  lemma {:induction false} IdempotentExactly(v: Value, rename: Text -> Text)
    requires Sound(v) && Settled(rename)
    ensures ToBcs(ToBcs(v, rename), rename) == ToBcs(v, rename) <==> Stable(v, rename)
    decreases v
  {
    match v {
      case Bytes(bytes) => NumbersConvert(bytes, rename);
      case List(items) => ListIdempotent(v, rename);
      case Record(fields) =>
        if IsVariant(fields) { VariantIdempotent(v, rename); } else { RecordIdempotent(v, rename); }
      case _ =>
    }
  }

  lemma {:induction false} ListIdempotent(v: Value, rename: Text -> Text)
    requires v.List? && Sound(v) && Settled(rename)
    ensures ToBcs(ToBcs(v, rename), rename) == ToBcs(v, rename) <==> Stable(v, rename)
    decreases v, 0
  {
    var c := ToBcs(v, rename);
    assert c.items == ToBcsItems(v, rename);
    forall i | 0 <= i < |v.items| ensures ToBcsItems(c, rename)[i] == c.items[i] <==> Stable(v.items[i], rename) {
      IdempotentExactly(v.items[i], rename);
    }
    if Stable(v, rename) {
      assert ToBcsItems(c, rename) == c.items;
    }
  }

  lemma {:induction false} VariantIdempotent(v: Value, rename: Text -> Text)
    requires v.Record? && IsVariant(v.fields) && Sound(v) && Settled(rename)
    ensures ToBcs(ToBcs(v, rename), rename) == ToBcs(v, rename) <==> Stable(v, rename)
    decreases v, 0
  {
    var t := TypeOf(v.fields);
    var name, inner := v.fields[t].value.text, v.fields[1 - t].value;
    IdempotentExactly(inner, rename);
    var c := ToBcs(v, rename);
    assert ToBcsVariant(v, rename) == Record([Field(name, ToBcs(inner, rename))]);
    assert ToBcsFields(c, 0, rename) == [];
    assert ToBcsFields(c, 1, rename) == [Field(rename(name), ToBcs(ToBcs(inner, rename), rename))];
  }

  /** Converting a converted record again converts its fields one by one. */
  lemma {:induction false} ConvertedAgain(v: Value, rename: Text -> Text)
    requires v.Record? && Settled(rename)
    ensures var e := ToBcsFields(v, |v.fields|, rename);
      var r := ToBcsFields(Record(e), |e|, rename);
      |r| == |e| && forall i :: 0 <= i < |e| ==> r[i] == Field(e[i].key, ToBcs(e[i].value, rename))
  {
    var n, e := |v.fields|, ToBcsFields(v, |v.fields|, rename);
    KeysCome(v, n, rename);
    FieldsCome(v, n, rename);
    forall i | 0 <= i < |e| ensures rename(e[i].key) == e[i].key {
      assert ComesFrom(v, n, rename, e[i]);
    }
    SettledFields(Record(e), |e|, rename);
  }

  lemma {:induction false} RecordIdempotent(v: Value, rename: Text -> Text)
    requires v.Record? && !IsVariant(v.fields) && Sound(v) && Settled(rename)
    ensures ToBcs(ToBcs(v, rename), rename) == ToBcs(v, rename) <==> Stable(v, rename)
    decreases v, 0
  {
    var n, e := |v.fields|, ToBcsFields(v, |v.fields|, rename);
    if IsVariant(e) { NoNewVariant(v, rename); }
    FieldsCome(v, n, rename);
    ConvertedAgain(v, rename);
    var r := ToBcsFields(Record(e), |e|, rename);
    forall j | 0 <= j < n
      ensures ToBcs(ToBcs(v.fields[j].value, rename), rename) == ToBcs(v.fields[j].value, rename)
          <==> Stable(v.fields[j].value, rename)
    {
      IdempotentExactly(v.fields[j].value, rename);
    }
    if Stable(v, rename) {
      forall i | 0 <= i < |e| ensures r[i] == e[i] {
        assert ComesFrom(v, n, rename, e[i]);
        var j :| 0 <= j < n && Gives(v, j, n, rename, e[i]);
      }
      assert r == e;
    }
    if r == e {
      forall j | 0 <= j < n && Survives(v.fields, j, n, rename) ensures Stable(v.fields[j].value, rename) {
        var i := SurvivorStays(v, j, rename);
        assert r[i] == e[i];
      }
    }
  }

  // ----- the renaming of the source -----

  const NETWORK_ID: Text := Ascii("networkId")
  const TIMESTAMP_NANOS: Text := Ascii("timestampNanos")
  const FEE_TOKEN: Text := Ascii("feeToken")
  const TOKEN_ID: Text := Ascii("tokenId")
  const USER_DATA: Text := Ascii("userData")
  const VERIFIER_COMMITTEE: Text := Ascii("verifierCommittee")
  const VERIFIER_QUORUM: Text := Ascii("verifierQuorum")
  const CLAIM_DATA: Text := Ascii("claimData")
  const AUTHORIZED_SIGNERS: Text := Ascii("authorizedSigners")

  predicate IsCamel(k: Text) {
    k in [NETWORK_ID, TIMESTAMP_NANOS, FEE_TOKEN, TOKEN_ID, USER_DATA, VERIFIER_COMMITTEE, VERIFIER_QUORUM,
          CLAIM_DATA, AUTHORIZED_SIGNERS]
  }

  function SnakeOf(k: Text): Text {
    if k == NETWORK_ID then Ascii("network_id")
    else if k == TIMESTAMP_NANOS then Ascii("timestamp_nanos")
    else if k == FEE_TOKEN then Ascii("fee_token")
    else if k == TOKEN_ID then Ascii("token_id")
    else if k == USER_DATA then Ascii("user_data")
    else if k == VERIFIER_COMMITTEE then Ascii("verifier_committee")
    else if k == VERIFIER_QUORUM then Ascii("verifier_quorum")
    else if k == CLAIM_DATA then Ascii("claim_data")
    else Ascii("authorized_signers")
  }

  /** Camel case to snake case for the nine field names of a transaction; every other key stays. */
  function Snake(k: Text): Text { if IsCamel(k) then SnakeOf(k) else k }

  /** The nine names by their texts. */
  lemma {:induction false} SnakeTexts()
    ensures Snake(Ascii("networkId")) == Ascii("network_id")
    ensures Snake(Ascii("timestampNanos")) == Ascii("timestamp_nanos")
    ensures Snake(Ascii("feeToken")) == Ascii("fee_token")
    ensures Snake(Ascii("tokenId")) == Ascii("token_id")
    ensures Snake(Ascii("userData")) == Ascii("user_data")
    ensures Snake(Ascii("verifierCommittee")) == Ascii("verifier_committee")
    ensures Snake(Ascii("verifierQuorum")) == Ascii("verifier_quorum")
    ensures Snake(Ascii("claimData")) == Ascii("claim_data")
    ensures Snake(Ascii("authorizedSigners")) == Ascii("authorized_signers")
  {
    // Names of equal length differ in their first letter, or in their ninth.
    assert NETWORK_ID[0] == 'n' as int && CLAIM_DATA[0] == 'c' as int;
    assert FEE_TOKEN[0] == 'f' as int && USER_DATA[0] == 'u' as int;
    assert VERIFIER_COMMITTEE[0] == 'v' as int && AUTHORIZED_SIGNERS[0] == 'a' as int;
    assert TIMESTAMP_NANOS[0] == 't' as int && VERIFIER_QUORUM[0] == 'v' as int;
    assert |NETWORK_ID| == 9 && |TIMESTAMP_NANOS| == 14 && |FEE_TOKEN| == 8 && |TOKEN_ID| == 7 && |USER_DATA| == 8;
    assert |VERIFIER_COMMITTEE| == 17 && |VERIFIER_QUORUM| == 14 && |CLAIM_DATA| == 9 && |AUTHORIZED_SIGNERS| == 17;
  }

  /** No other name changes. */
  lemma {:induction false} OtherNamesStay(k: Text)
    ensures Snake(k) != k ==>
      || k == Ascii("networkId") || k == Ascii("timestampNanos") || k == Ascii("feeToken") || k == Ascii("tokenId")
      || k == Ascii("userData") || k == Ascii("verifierCommittee") || k == Ascii("verifierQuorum")
      || k == Ascii("claimData") || k == Ascii("authorizedSigners")
  {
    hide SnakeOf;
  }

  /** Where the underscore of a converted name stands. */
  function Underscore(k: Text): nat {
    if k == NETWORK_ID then 7
    else if k == TIMESTAMP_NANOS then 9
    else if k == FEE_TOKEN then 3
    else if k == TOKEN_ID then 5
    else if k == USER_DATA then 4
    else if k == VERIFIER_COMMITTEE || k == VERIFIER_QUORUM then 8
    else if k == CLAIM_DATA then 5
    else 10
  }

  lemma {:induction false} SnakeHasUnderscore(k: Text)
    requires IsCamel(k)
    ensures Underscore(k) < |SnakeOf(k)| && SnakeOf(k)[Underscore(k)] == '_' as int
  {
  }

  lemma {:induction false} CamelHasNone(k: Text, i: nat)
    requires IsCamel(k) || k == TYPE || k == VALUE
    requires i < |k|
    ensures k[i] != '_' as int
  {
  }

  lemma {:induction false} SnakeSettled()
    ensures Settled(Snake)
  {
    forall k
      ensures Snake(Snake(k)) == Snake(k) && (Snake(k) == TYPE <==> k == TYPE) && (Snake(k) == VALUE <==> k == VALUE)
    {
      if IsCamel(k) {
        SnakeHasUnderscore(k);
        var i := Underscore(k);
        if i < |TYPE| { CamelHasNone(TYPE, i); }
        if i < |VALUE| { CamelHasNone(VALUE, i); }
        NotCamel(SnakeOf(k), i);
      }
      assert |TYPE| == 4 && |VALUE| == 5;
    }
  }

  lemma {:induction false} NotCamel(k: Text, i: nat)
    requires i < |k| && k[i] == '_' as int
    ensures !IsCamel(k) && k != TYPE && k != VALUE
  {
    if IsCamel(k) || k == TYPE || k == VALUE {
      CamelHasNone(k, i);
    }
  }

  /** The two theorems for the renaming of the source. */
  lemma {:induction false} BothSidesAgreeExactly(v: Value)
    ensures ToBcs(Trip(v), Snake) == ToBcs(v, Snake) <==> Faithful(v, Snake)
    ensures Sound(v) ==> (ToBcs(ToBcs(v, Snake), Snake) == ToBcs(v, Snake) <==> Stable(v, Snake))
  {
    SnakeSettled();
    WireInvariantExactly(v, Snake);
    if Sound(v) { IdempotentExactly(v, Snake); }
  }

  // Each exception is real.

  lemma {:induction false} NegativeNumberDiffers()
    ensures ToBcs(Trip(Big(-1)), Snake) != ToBcs(Big(-1), Snake)
  {
    BothSidesAgreeExactly(Big(-1));
  }

  lemma {:induction false} NumberAsTypeDiffers()
    ensures var v := Record([Field(TYPE, Big(1)), Field(VALUE, Null)]); ToBcs(Trip(v), Snake) != ToBcs(v, Snake)
  {
    SnakeSettled();
    BigTypeDiffers(Record([Field(TYPE, Big(1)), Field(VALUE, Null)]), Snake);
  }

  lemma {:induction false} RenamedVariantDiffers()
    ensures var v := Record([Field(TYPE, Str(NETWORK_ID)), Field(VALUE, Null)]);
      ToBcs(ToBcs(v, Snake), Snake) != ToBcs(v, Snake)
  {
    var v := Record([Field(TYPE, Str(NETWORK_ID)), Field(VALUE, Null)]);
    assert |TYPE| == 4 && |VALUE| == 5;
    SnakeSettled();
    IdempotentExactly(v, Snake);
    SnakeHasUnderscore(NETWORK_ID);
    CamelHasNone(NETWORK_ID, 7);
  }
}
