/**
 The text ids of durable records. The signing protocol names records by what they stand for (`RecordId`); here the
 source's id strings are shown to tell exactly the same records apart, for any digest with hex output that does not
 collide on the two reservations compared.
*/
module OperationIds {
  import opened Decimals
  import opened SignModel

  const RESERVED_PREFIX := "nonce-reservation-"

  predicate IsAlphanumeric(c: char) {
    '0' <= c <= '9' || 'A' <= c <= 'Z' || 'a' <= c <= 'z'
  }

  predicate IsOperationId(s: string) {
    && 1 <= |s| <= 128
    && IsAlphanumeric(s[0])
    && forall i :: 0 <= i < |s| ==> IsAlphanumeric(s[i]) || s[i] == '.' || s[i] == '_' || s[i] == '-'
  }

  predicate IsPublicOperationId(s: string) {
    IsOperationId(s) && !(RESERVED_PREFIX <= s)
  }

  predicate IsLowerHex(s: string) {
    forall i :: 0 <= i < |s| ==> '0' <= s[i] <= '9' || 'a' <= s[i] <= 'f'
  }

  function NetworkName(n: Network): string {
    match n
    case Testnet => "fast:testnet"
    case Mainnet => "fast:mainnet"
  }

  /** The text whose digest names a reservation; fields are separated by the NUL character. */
  function ReservationKey(network: Network, sender: string, nonce: nat): string {
    NetworkName(network) + "\0" + sender + "\0" + ToDecimal(nonce)
  }

  function IdText(id: RecordId, digest: string -> string): string {
    match id
    case Public(name) => name
    case Reserved(network, sender, nonce) => RESERVED_PREFIX + digest(ReservationKey(network, sender, nonce))
  }

  /** SHA-256 in hex, as far as the form of record ids depends on it. */
  ghost predicate HexDigest(digest: string -> string) {
    forall s :: |digest(s)| == 64 && IsLowerHex(digest(s))
  }

  /** The digest fails to tell the keys of two reservations apart. */
  ghost predicate Collides(a: RecordId, b: RecordId, digest: string -> string)
    requires a.Reserved? && b.Reserved?
  {
    var x, y := ReservationKey(a.network, a.sender, a.nonce), ReservationKey(b.network, b.sender, b.nonce);
    x != y && digest(x) == digest(y)
  }

  /** What callers and signers can bring: public names, and senders printed as hex. */
  predicate Presentable(id: RecordId) {
    match id
    case Public(name) => IsPublicOperationId(name)
    case Reserved(_, sender, _) => IsLowerHex(sender)
  }

  lemma {:induction false} SplitAtNul(a: string, b: string, x: string, y: string)
    requires forall i :: 0 <= i < |a| ==> a[i] != '\0'
    requires forall i :: 0 <= i < |b| ==> b[i] != '\0'
    requires a + "\0" + x == b + "\0" + y
    ensures a == b && x == y
  {
    var s := a + "\0" + x;
    var t := b + "\0" + y;
    assert s[|a|] == '\0' && t[|b|] == '\0';
    assert s[..|a|] == a && t[..|b|] == b;
    assert s[|a| + 1..] == x && t[|b| + 1..] == y;
  }

  lemma {:induction false} KeyShape(network: Network, sender: string, nonce: nat)
    ensures ReservationKey(network, sender, nonce) == NetworkName(network) + "\0" + (sender + "\0" + ToDecimal(nonce))
  {
  }

  lemma {:induction false} NamesDiffer(network: Network, network': Network)
    ensures NetworkName(network) == NetworkName(network') ==> network == network'
    ensures forall i :: 0 <= i < |NetworkName(network)| ==> NetworkName(network)[i] != '\0'
    ensures forall i :: 0 <= i < |NetworkName(network')| ==> NetworkName(network')[i] != '\0'
  {
    assert NetworkName(network)[5] == if network == Testnet then 't' else 'm';
    assert NetworkName(network')[5] == if network' == Testnet then 't' else 'm';
  }

  lemma {:induction false} ReservationKeyInjective(network: Network, sender: string, nonce: nat, network': Network,
                                                   sender': string, nonce': nat)
    requires IsLowerHex(sender) && IsLowerHex(sender')
    requires ReservationKey(network, sender, nonce) == ReservationKey(network', sender', nonce')
    ensures network == network' && sender == sender' && nonce == nonce'
  {
    var rest, rest' := sender + "\0" + ToDecimal(nonce), sender' + "\0" + ToDecimal(nonce');
    KeyShape(network, sender, nonce);
    KeyShape(network', sender', nonce');
    NamesDiffer(network, network');
    SplitAtNul(NetworkName(network), NetworkName(network'), rest, rest');
    SplitAtNul(sender, sender', ToDecimal(nonce), ToDecimal(nonce'));
    ToDecimalInjective(nonce, nonce');
  }

  /** Record ids and their texts determine each other, every text passes the id grammar, and no public call can name a
      reservation. */
  lemma {:induction false} IdTextIsFaithful(a: RecordId, b: RecordId, digest: string -> string)
    requires HexDigest(digest) && Presentable(a) && Presentable(b)
    requires a.Reserved? && b.Reserved? ==> !Collides(a, b, digest)
    ensures IdText(a, digest) == IdText(b, digest) <==> a == b
    ensures IsOperationId(IdText(a, digest))
    ensures IsPublicOperationId(IdText(a, digest)) <==> a.Public?
  {
    IdGrammar(a, digest);
    IdGrammar(b, digest);
    if IdText(a, digest) == IdText(b, digest) && a.Reserved? && b.Reserved? {
      var x, y := ReservationKey(a.network, a.sender, a.nonce), ReservationKey(b.network, b.sender, b.nonce);
      assert digest(x) == IdText(a, digest)[|RESERVED_PREFIX|..] && digest(y) == IdText(b, digest)[|RESERVED_PREFIX|..];
      ReservationKeyInjective(a.network, a.sender, a.nonce, b.network, b.sender, b.nonce);
    }
  }

  lemma {:induction false} IdGrammar(a: RecordId, digest: string -> string)
    requires HexDigest(digest) && Presentable(a)
    ensures IsOperationId(IdText(a, digest))
    ensures IsPublicOperationId(IdText(a, digest)) <==> a.Public?
  {
    if a.Reserved? {
      var key := ReservationKey(a.network, a.sender, a.nonce);
      var s := IdText(a, digest);
      assert |digest(key)| == 64 && IsLowerHex(digest(key));
      assert RESERVED_PREFIX <= s && |RESERVED_PREFIX| == 18;
      forall i | 0 <= i < |s|
        ensures IsAlphanumeric(s[i]) || s[i] == '-'
      {
        if i >= 18 { assert s[i] == digest(key)[i - 18]; }
      }
    }
  }
}
