/** Objects as lists of keyed fields, in the order the fields were added. */
module Records {
  import opened Options
  import opened Utf16

  datatype Field<V> = Field(key: Text, value: V)

  predicate HasKey<V>(fields: seq<Field<V>>, key: Text) {
    exists i :: 0 <= i < |fields| && fields[i].key == key
  }

  predicate DistinctKeys<V>(fields: seq<Field<V>>) {
    forall i, j :: 0 <= i < j < |fields| ==> fields[i].key != fields[j].key
  }

  /** Where a key stands first. */
  function IndexOf<V>(fields: seq<Field<V>>, key: Text): (i: nat)
    requires HasKey(fields, key)
    ensures i < |fields| && fields[i].key == key
  {
    if fields[0].key == key then 0 else
    assert HasKey(fields[1..], key) by {
      var i :| 0 <= i < |fields| && fields[i].key == key;
      assert fields[1..][i - 1].key == key;
    }
    1 + IndexOf(fields[1..], key)
  }

  function Lookup<V>(fields: seq<Field<V>>, key: Text): Option<V> {
    if HasKey(fields, key) then Some(fields[IndexOf(fields, key)].value) else None
  }

  lemma {:induction false} LookupAt<V>(fields: seq<Field<V>>, i: nat)
    requires i < |fields| && DistinctKeys(fields)
    ensures Lookup(fields, fields[i].key) == Some(fields[i].value)
  {
    var j := IndexOf(fields, fields[i].key);
    assert fields[j].key == fields[i].key;
  }

  /** Assigning a property: a key already there keeps its place and takes the new value. */
  function Put<V>(fields: seq<Field<V>>, key: Text, value: V): (r: seq<Field<V>>)
    ensures DistinctKeys(fields) ==> DistinctKeys(r)
  {
    if HasKey(fields, key) then fields[IndexOf(fields, key) := Field(key, value)] else fields + [Field(key, value)]
  }

  /** The two lists have the same keys in the same places. */
  predicate SameKeys<V, W>(a: seq<Field<V>>, b: seq<Field<W>>) {
    |a| == |b| && forall i :: 0 <= i < |a| ==> a[i].key == b[i].key
  }

  lemma {:induction false} SamePlace<V, W>(a: seq<Field<V>>, b: seq<Field<W>>, key: Text)
    requires SameKeys(a, b)
    ensures HasKey(a, key) <==> HasKey(b, key)
    ensures HasKey(a, key) ==> IndexOf(a, key) == IndexOf(b, key)
  {
    if a != [] {
      if a[0].key != key { SamePlace(a[1..], b[1..], key); }
      TailHasKey(a, key);
      TailHasKey(b, key);
    }
  }

  lemma {:induction false} TailHasKey<V>(fields: seq<Field<V>>, key: Text)
    requires fields != []
    ensures HasKey(fields, key) <==> fields[0].key == key || HasKey(fields[1..], key)
  {
    assert forall i :: 1 <= i < |fields| ==> fields[i] == fields[1..][i - 1];
  }
}
