/**
 The committee check of the payment facilitator: which certificates are accepted, and why two accepted payments cannot
 conflict. Parsing a configured key and verifying a signature are parameters.
*/
module Quorum {
  import opened Options

  type Key = string
  type Bytes = string

  datatype Committee = Committee(members: set<Key>, minSignatures: nat)

  datatype Resolved = Unconfigured | Configured(committee: Committee) | BadKey(key: string)

  /** A certificate entry, or one whose shape is not understood. */
  datatype Entry = Unreadable | Signature(key: Key, signature: Bytes)

  datatype Fault = UnsupportedFormat | DuplicateSigner | UnknownSigner | InvalidSignature

  datatype Verdict =
    | Accepted
    | Insufficient(need: nat, got: nat)
    | InvalidSender
    | InvalidSenderSignature
    | Rejected(fault: Fault)

  const UNTRUSTED_MINIMUM := 3

  /** The least number above two thirds of the members. */
  function QuorumThreshold(n: nat): (q: nat)
    ensures 3 * q > 2 * n && 3 * (q - 1) <= 2 * n
  {
    2 * n / 3 + 1
  }

  // ----- the configured committee -----

  /** The distinct members that a list of configured keys names, when all of them parse. */
  function Members(keys: seq<string>, parse: string -> Option<Key>): set<Key> {
    set i | 0 <= i < |keys| && parse(keys[i]).Some? :: parse(keys[i]).value
  }

  predicate FirstBadKey(keys: seq<string>, i: nat, parse: string -> Option<Key>) {
    i < |keys| && parse(keys[i]).None? && forall j :: 0 <= j < i ==> parse(keys[j]).Some?
  }

  method ResolveTrustedCommittee(keys: Option<seq<string>>, parse: string -> Option<Key>) returns (r: Resolved)
    ensures r.Unconfigured? <==> keys.None? || keys.value == []
    ensures r.BadKey? ==> keys.Some? && exists i: nat :: FirstBadKey(keys.value, i, parse) && keys.value[i] == r.key
    ensures r.Configured? ==> keys.Some? && forall i :: 0 <= i < |keys.value| ==> parse(keys.value[i]).Some?
    ensures r.Configured? ==> r.committee.members == Members(keys.value, parse) != {}
    ensures r.Configured? ==> r.committee.minSignatures == QuorumThreshold(|r.committee.members|)
  {
    if keys.None? || keys.value == [] {
      return Unconfigured;
    }
    var list := keys.value;
    var memberKeys: set<Key> := {};
    var i := 0;
    while i < |list|
      invariant 0 <= i <= |list|
      invariant forall j :: 0 <= j < i ==> parse(list[j]).Some?
      invariant memberKeys == Members(list[..i], parse)
      invariant i > 0 ==> memberKeys != {}
    {
      var parsed := parse(list[i]);
      if parsed.None? {
        assert FirstBadKey(list, i, parse);
        return BadKey(list[i]);
      }
      MembersNext(list, i, parse);
      memberKeys := memberKeys + {parsed.value};
      i := i + 1;
    }
    assert list[..i] == list;
    return Configured(Committee(memberKeys, QuorumThreshold(|memberKeys|)));
  }

  lemma {:induction false} MembersNext(list: seq<string>, i: nat, parse: string -> Option<Key>)
    requires i < |list| && parse(list[i]).Some?
    ensures Members(list[..i + 1], parse) == Members(list[..i], parse) + {parse(list[i]).value}
  {
    var front, now := list[..i], list[..i + 1];
    forall k | k in Members(now, parse) ensures k in Members(front, parse) + {parse(list[i]).value} {
      var j :| 0 <= j < |now| && parse(now[j]).Some? && parse(now[j]).value == k;
      assert j < i ==> front[j] == now[j];
    }
    forall k | k in Members(front, parse) ensures k in Members(now, parse) {
      var j :| 0 <= j < |front| && parse(front[j]).Some? && parse(front[j]).value == k;
      assert now[j] == front[j];
    }
    assert now[i] == list[i];
  }

  // ----- the certificate -----

  /** The keys of the first `i` entries. */
  function Signers(entries: seq<Entry>, i: nat): set<Key>
    requires i <= |entries|
  {
    set j | 0 <= j < i && entries[j].Signature? :: entries[j].key
  }

  /** What is wrong with the `i`th entry, given the ones before it. */
  function FaultAt(entries: seq<Entry>, i: nat, committee: Option<Committee>, tx: Bytes,
                   valid: (Key, Bytes, Bytes) -> bool): Option<Fault>
    requires i < |entries|
  {
    var e := entries[i];
    if e.Unreadable? then Some(UnsupportedFormat)
    else if e.key in Signers(entries, i) then Some(DuplicateSigner)
    else if committee.Some? && e.key !in committee.value.members then Some(UnknownSigner)
    else if !valid(e.key, tx, e.signature) then Some(InvalidSignature)
    else None
  }

  predicate FirstFault(entries: seq<Entry>, i: nat, committee: Option<Committee>, tx: Bytes, fault: Fault,
                       valid: (Key, Bytes, Bytes) -> bool)
  {
    && i < |entries| && FaultAt(entries, i, committee, tx, valid) == Some(fault)
    && forall j :: 0 <= j < i ==> FaultAt(entries, j, committee, tx, valid).None?
  }

  function Need(committee: Option<Committee>): nat {
    if committee.Some? then committee.value.minSignatures else UNTRUSTED_MINIMUM
  }

  /** Every entry is a valid signature of this transaction by another (trusted) member than all other entries. */
  predicate Sound(entries: seq<Entry>, committee: Option<Committee>, tx: Bytes, valid: (Key, Bytes, Bytes) -> bool) {
    && (forall i :: 0 <= i < |entries| ==> entries[i].Signature? && valid(entries[i].key, tx, entries[i].signature))
    && (forall i, j :: 0 <= i < j < |entries| ==> entries[i].key != entries[j].key)
    && (committee.Some? ==> forall i :: 0 <= i < |entries| ==> entries[i].key in committee.value.members)
  }

  lemma {:induction false} SignersNext(entries: seq<Entry>, i: nat)
    requires i < |entries| && entries[i].Signature?
    ensures Signers(entries, i + 1) == Signers(entries, i) + {entries[i].key}
  {
  }

  method VerifyCertificate(entries: seq<Entry>, committee: Option<Committee>, tx: Bytes, sender: Option<Key>,
                           senderSignature: Bytes, valid: (Key, Bytes, Bytes) -> bool) returns (r: Verdict)
    ensures r.Accepted? <==>
      && |entries| >= Need(committee)
      && sender.Some? && valid(sender.value, tx, senderSignature)
      && Sound(entries, committee, tx, valid)
    ensures r.Insufficient? <==> |entries| < Need(committee)
    ensures r.Insufficient? ==> r == Insufficient(Need(committee), |entries|)
    ensures r.InvalidSender? <==> |entries| >= Need(committee) && sender.None?
    ensures r.InvalidSenderSignature? <==>
      |entries| >= Need(committee) && sender.Some? && !valid(sender.value, tx, senderSignature)
    ensures r.Rejected? ==> exists i: nat :: FirstFault(entries, i, committee, tx, r.fault, valid)
  {
    if |entries| < Need(committee) {
      return Insufficient(Need(committee), |entries|);
    }
    if sender.None? {
      return InvalidSender;
    }
    if !valid(sender.value, tx, senderSignature) {
      return InvalidSenderSignature;
    }
    var seen: set<Key> := {};
    var i := 0;
    while i < |entries|
      invariant 0 <= i <= |entries|
      invariant seen == Signers(entries, i)
      invariant Sound(entries[..i], committee, tx, valid)
      invariant forall j :: 0 <= j < i ==> FaultAt(entries, j, committee, tx, valid).None?
    {
      var entry := entries[i];
      if entry.Unreadable? {
        assert FirstFault(entries, i, committee, tx, UnsupportedFormat, valid);
        return Rejected(UnsupportedFormat);
      }
      if entry.key in seen {
        ghost var j :| 0 <= j < i && entries[j].Signature? && entries[j].key == entry.key;
        assert FirstFault(entries, i, committee, tx, DuplicateSigner, valid);
        return Rejected(DuplicateSigner);
      }
      if committee.Some? && entry.key !in committee.value.members {
        assert FirstFault(entries, i, committee, tx, UnknownSigner, valid);
        return Rejected(UnknownSigner);
      }
      if !valid(entry.key, tx, entry.signature) {
        assert FirstFault(entries, i, committee, tx, InvalidSignature, valid);
        return Rejected(InvalidSignature);
      }
      SignersNext(entries, i);
      seen := seen + {entry.key};
      assert entries[..i + 1] == entries[..i] + [entry];
      i := i + 1;
    }
    assert entries[..i] == entries;
    return Accepted;
  }

  // ----- what acceptance means -----

  lemma {:induction false} SignersCount(entries: seq<Entry>, n: nat)
    requires n <= |entries| && forall i :: 0 <= i < |entries| ==> entries[i].Signature?
    requires forall i, j :: 0 <= i < j < |entries| ==> entries[i].key != entries[j].key
    ensures |Signers(entries, n)| == n
  {
    if n == 0 {
      assert Signers(entries, 0) == {};
    } else {
      SignersCount(entries, n - 1);
      SignersNext(entries, n - 1);
      assert entries[n - 1].key !in Signers(entries, n - 1);
    }
  }

  ghost predicate SignedBy(key: Key, tx: Bytes, valid: (Key, Bytes, Bytes) -> bool) {
    exists s :: valid(key, tx, s)
  }

  /** A certificate that `VerifyCertificate` accepts under a committee that `ResolveTrustedCommittee` resolved. */
  predicate Accepts(entries: seq<Entry>, members: set<Key>, tx: Bytes, valid: (Key, Bytes, Bytes) -> bool) {
    |entries| >= QuorumThreshold(|members|)
      && Sound(entries, Some(Committee(members, QuorumThreshold(|members|))), tx, valid)
  }

  /** Acceptance means that more than two thirds of the trusted members, each counted once, signed this transaction. */
  lemma {:induction false} AcceptedByQuorum(entries: seq<Entry>, members: set<Key>, tx: Bytes,
                                            valid: (Key, Bytes, Bytes) -> bool)
    requires Accepts(entries, members, tx, valid)
    ensures var s := Signers(entries, |entries|);
      && s <= members && 3 * |s| > 2 * |members|
      && forall k :: k in s ==> SignedBy(k, tx, valid)
  {
    SignersCount(entries, |entries|);
    var s := Signers(entries, |entries|);
    forall k | k in s ensures SignedBy(k, tx, valid) {
      var j :| 0 <= j < |entries| && entries[j].key == k;
      assert valid(k, tx, entries[j].signature);
    }
  }

  lemma {:induction false} SubsetCount(a: set<Key>, b: set<Key>)
    requires a <= b
    ensures |a| <= |b|
  {
    if a != {} {
      var x :| x in a;
      SubsetCount(a - {x}, b - {x});
    }
  }

  /** Any two quorums share more than a third of the members. */
  lemma {:induction false} QuorumsOverlap(a: set<Key>, b: set<Key>, members: set<Key>)
    requires a <= members && b <= members
    requires |a| >= QuorumThreshold(|members|) && |b| >= QuorumThreshold(|members|)
    ensures 3 * |a * b| > |members|
  {
    SubsetCount(a + b, members);
    assert |a + b| == |a| + |b| - |a * b|;
  }

  /** The transactions that may not both be paid: the same sender and nonce. */
  predicate SameSlot(t: Bytes, u: Bytes, slot: Bytes -> (Key, nat)) { slot(t) == slot(u) }

  /** A member that never signed two different transactions for one sender and nonce. */
  ghost predicate Honest(key: Key, slot: Bytes -> (Key, nat), valid: (Key, Bytes, Bytes) -> bool) {
    forall t, u :: SignedBy(key, t, valid) && SignedBy(key, u, valid) && SameSlot(t, u, slot) ==> t == u
  }

  /** With at most `(n - 1) / 3` members that are not honest, no two accepted payments conflict. */
  lemma {:induction false} NoConflictingPayments(a: seq<Entry>, b: seq<Entry>, members: set<Key>,
                                                 faulty: set<Key>, t: Bytes, u: Bytes,
                              slot: Bytes -> (Key, nat), valid: (Key, Bytes, Bytes) -> bool)
    requires Accepts(a, members, t, valid) && Accepts(b, members, u, valid)
    requires 3 * |faulty| < |members| && forall k :: k in members && k !in faulty ==> Honest(k, slot, valid)
    requires SameSlot(t, u, slot)
    ensures t == u
  {
    AcceptedByQuorum(a, members, t, valid);
    AcceptedByQuorum(b, members, u, valid);
    var both := Signers(a, |a|) * Signers(b, |b|);
    SignersCount(a, |a|);
    SignersCount(b, |b|);
    QuorumsOverlap(Signers(a, |a|), Signers(b, |b|), members);
    if both <= faulty {
      SubsetCount(both, faulty);
    }
    var k :| k in both && k !in faulty;
    assert SignedBy(k, t, valid) && SignedBy(k, u, valid) && Honest(k, slot, valid);
  }

  /** The honest members alone can always form a quorum, so the threshold is also not too high. */
  lemma {:induction false} HonestQuorum(members: set<Key>, faulty: set<Key>)
    requires faulty <= members && 3 * |faulty| < |members|
    ensures |members - faulty| >= QuorumThreshold(|members|)
  {
    assert |members| == |members - faulty| + |faulty| by {
      assert members == (members - faulty) + faulty;
    }
  }

  /** Signing sets one below the threshold that cover the members share at most a third of them. */
  lemma {:induction false} ThresholdIsLeast(a: set<Key>, b: set<Key>, members: set<Key>)
    requires a + b == members && |a| == |b| == QuorumThreshold(|members|) - 1
    ensures 3 * |a * b| <= |members|
  {
    assert |a + b| == |a| + |b| - |a * b|;
  }

  lemma {:induction false} SubsetOfSize(s: set<Key>, n: nat) returns (t: set<Key>)
    requires n <= |s|
    ensures t <= s && |t| == n
  {
    if n == |s| {
      t := s;
    } else {
      var x :| x in s;
      t := SubsetOfSize(s - {x}, n);
    }
  }

  /** Such sets exist for every committee of two or more members, so no lower threshold is safe. */
  lemma {:induction false} LowerQuorumsExist(members: set<Key>) returns (a: set<Key>, b: set<Key>)
    requires |members| >= 2
    ensures a + b == members && |a| == |b| == QuorumThreshold(|members|) - 1
    ensures 3 * |a * b| <= |members|
  {
    var n, q := |members|, QuorumThreshold(|members|) - 1;
    a := SubsetOfSize(members, q);
    var shared := SubsetOfSize(a, 2 * q - n);
    b := (members - a) + shared;
    assert |members - a| == n - q by { assert members == (members - a) + a; }
    ThresholdIsLeast(a, b, members);
  }
}
