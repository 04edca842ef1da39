/**
 The byte messages that wallets sign for Fast ID: social proof, intent and commit, profile, and report attribution.
 Strings and hex texts are taken as the bytes they encode to. `Decode` inverts every encoder, so the five kinds are
 jointly injective.
*/
module SignedMessages {
  import opened Options
  import Utf16

  type Byte = Utf16.Byte
  type Bytes = seq<Byte>

  const TWO_64 := 0x1_0000_0000_0000_0000
  const TWO_63 := 0x8000_0000_0000_0000

  // ----- numbers and lengths -----

  function Pow256(k: nat): (p: nat)
    ensures p > 0
  {
    if k == 0 then 1 else 256 * Pow256(k - 1)
  }

  /** The `k` low bytes of a number, highest first. */
  function BigEndian(n: nat, k: nat): (b: Bytes)
    ensures |b| == k
  {
    if k == 0 then [] else BigEndian(n / 256, k - 1) + [n % 256]
  }

  function FromBigEndian(b: Bytes): nat {
    if b == [] then 0 else FromBigEndian(b[..|b| - 1]) * 256 + b[|b| - 1]
  }

  lemma {:induction false} BigEndianReadsBack(n: nat, k: nat)
    requires n < Pow256(k)
    ensures FromBigEndian(BigEndian(n, k)) == n
  {
    if k > 0 {
      BigEndianReadsBack(n / 256, k - 1);
      assert BigEndian(n, k)[..k - 1] == BigEndian(n / 256, k - 1);
    }
  }

  /** Fills eight bytes from the low end, as both `u64be` and `i64be` do. */
  method FillU64(value: nat) returns (out: Bytes)
    ensures out == BigEndian(value, 8)
  {
    var bytes := new Byte[8];
    var remaining, index := value, 7;
    while index >= 0
      invariant -1 <= index <= 7
      invariant BigEndian(value, 8) == BigEndian(remaining, index + 1) + bytes[index + 1..]
    {
      var low, high := remaining % 256, remaining / 256;
      assert BigEndian(remaining, index + 1) == BigEndian(high, index) + [low];
      ghost var tail := bytes[index + 1..];
      bytes[index] := low;
      assert bytes[index..] == [low] + tail;
      remaining, index := high, index - 1;
    }
    out := bytes[..];
  }

  method U64be(value: int) returns (out: Option<Bytes>)
    ensures out == if 0 <= value < TWO_64 then Some(BigEndian(value, 8)) else None
  {
    if value < 0 || value >= TWO_64 {
      return None;
    }
    var bytes := FillU64(value);
    return Some(bytes);
  }

  function Flatten(parts: seq<Bytes>): Bytes {
    if parts == [] then [] else parts[0] + Flatten(parts[1..])
  }

  function TotalLength(parts: seq<Bytes>): nat {
    if parts == [] then 0 else |parts[0]| + TotalLength(parts[1..])
  }

  /** Copies the parts one after the other into a buffer of the total length. */
  method Concat(parts: seq<Bytes>) returns (out: Bytes)
    ensures out == Flatten(parts)
  {
    var buffer := new Byte[TotalLength(parts)];
    var offset: nat, i: nat := 0, 0;
    while i < |parts|
      invariant i <= |parts|
      invariant offset + TotalLength(parts[i..]) == buffer.Length
      invariant buffer[..offset] + Flatten(parts[i..]) == Flatten(parts)
    {
      var part := parts[i];
      ghost var before := buffer[..offset];
      assert parts[i..][0] == part && parts[i..][1..] == parts[i + 1..];
      forall j | 0 <= j < |part| {
        buffer[offset + j] := part[j];
      }
      assert buffer[..offset + |part|] == before + part;
      offset, i := offset + |part|, i + 1;
    }
    assert parts[i..] == [];
    out := buffer[..];
    assert buffer[..offset] == buffer[..];
  }

  /** Bytes after their length in `k` bytes. */
  function Sized(x: Bytes, k: nat): Bytes { BigEndian(|x|, k) + x }

  // ----- messages -----

  datatype Common = Common(address: Bytes, network: Bytes, kind: Bytes, value: Bytes, expiry: int, serverNonce: Bytes)
  datatype Avatar = NoChange | SetTo(digest: Bytes) | Clear
  datatype Seal = Seal(keyId: Bytes, enc: Bytes, ciphertext: Bytes)

  datatype Message =
    | SocialProof(common: Common, former: Option<Bytes>)
    | SocialIntent(common: Common, former: Option<Bytes>)
    | SocialCommit(common: Common, proofNonce: Bytes)
    | Profile(address: Bytes, network: Bytes, displayName: Bytes, bio: Bytes, avatar: Avatar,
              expiry: int, serverNonce: Bytes)
    | Attribution(area: Bytes, hour: int, seals: seq<Seal>)

  // The domain tags; `SocialDomainTexts` and `OtherDomainTexts` say what they spell.
  const FASTID: Bytes := [102, 97, 115, 116, 105, 100, 45]
  const SOCIAL: Bytes := FASTID + [115, 111, 99, 105, 97, 108, 45]
  const PROOF_DOMAIN: Bytes := SOCIAL + [112, 114, 111, 111, 102, 45, 118, 50]
  const INTENT_DOMAIN: Bytes := SOCIAL + [105, 110, 116, 101, 110, 116, 45, 118, 49]
  const COMMIT_DOMAIN: Bytes := SOCIAL + [99, 111, 109, 109, 105, 116, 45, 118, 49]
  const PROFILE_DOMAIN: Bytes := FASTID + [112, 114, 111, 102, 105, 108, 101, 45, 118, 49]
  const REPORT_DOMAIN: Bytes := FASTID + [114, 101, 112, 111, 114, 116, 45, 115, 105, 103, 45, 118, 49]

  const DOMAINS: seq<Bytes> := [PROOF_DOMAIN, INTENT_DOMAIN, COMMIT_DOMAIN, PROFILE_DOMAIN, REPORT_DOMAIN]

  lemma {:induction false} SocialDomainText()
    ensures SOCIAL == Utf16.Ascii("fastid-social-")
  {
  }

  lemma {:induction false} AsciiConcat(a: string, b: string)
    ensures Utf16.Ascii(a + b) == Utf16.Ascii(a) + Utf16.Ascii(b)
  {
  }

  lemma {:induction false} SocialDomainTexts()
    ensures PROOF_DOMAIN == Utf16.Ascii("fastid-social-" + "proof-v2")
    ensures INTENT_DOMAIN == Utf16.Ascii("fastid-social-" + "intent-v1")
    ensures COMMIT_DOMAIN == Utf16.Ascii("fastid-social-" + "commit-v1")
  {
    SocialDomainText();
    AsciiConcat("fastid-social-", "proof-v2");
    AsciiConcat("fastid-social-", "intent-v1");
    AsciiConcat("fastid-social-", "commit-v1");
  }

  lemma {:induction false} OtherDomainTexts()
    ensures PROFILE_DOMAIN == Utf16.Ascii("fastid-profile-v1")
    ensures REPORT_DOMAIN == Utf16.Ascii("fastid-report-sig-v1")
  {
  }

  predicate CommonFits(c: Common) {
    && |c.address| == 32 && |c.serverNonce| == 32
    && |c.network| <= 0xFF && |c.kind| <= 0xFF && |c.value| <= 0xFFFF
    && 0 <= c.expiry < TWO_64
  }

  function SocialBytes(domain: Bytes, c: Common, tail: Bytes): Bytes
    requires CommonFits(c)
  {
    domain + (c.address + (Sized(c.network, 1) + (Sized(c.kind, 1) + (Sized(c.value, 2)
      + (BigEndian(c.expiry, 8) + (c.serverNonce + tail))))))
  }

  function FormerBytes(former: Option<Bytes>): Bytes {
    if former.None? then [0] else [1] + former.value
  }

  function AvatarBytes(a: Avatar): Bytes {
    match a
    case NoChange => [0]
    case SetTo(digest) => [1] + digest
    case Clear => [2]
  }

  function SealsBytes(seals: seq<Seal>): Bytes {
    if seals == [] then [] else
    Sized(seals[0].keyId, 1) + (Sized(seals[0].enc, 4) + (Sized(seals[0].ciphertext, 4) + SealsBytes(seals[1..])))
  }

  function ProfileBody(address: Bytes, network: Bytes, displayName: Bytes, bio: Bytes, avatar: Avatar, expiry: nat,
                       serverNonce: Bytes): Bytes
  {
    address + (Sized(network, 1) + (Sized(displayName, 2) + (Sized(bio, 2)
      + (AvatarBytes(avatar) + (BigEndian(expiry, 8) + serverNonce)))))
  }

  /** What each encoder refuses; the profile and attribution encoders do not look at the range of their numbers. */
  predicate Accepted(m: Message) {
    match m
    case SocialProof(c, former) => CommonFits(c) && (former.Some? ==> |former.value| == 16)
    case SocialIntent(c, former) => CommonFits(c) && (former.Some? ==> |former.value| == 16)
    case SocialCommit(c, proofNonce) => CommonFits(c) && |proofNonce| == 16
    case Profile(address, network, displayName, bio, avatar, _, serverNonce) =>
      && |address| == 32 && |serverNonce| == 32
      && |network| <= 0xFF && |displayName| <= 0xFFFF && |bio| <= 0xFFFF
      && (avatar.SetTo? ==> |avatar.digest| == 32)
    case Attribution(area, _, seals) =>
      && |area| <= 0xFF && |seals| <= 0xFF
      && forall i :: 0 <= i < |seals| ==> |seals[i].keyId| <= 0xFF
  }

  function Encode(m: Message): Option<Bytes> {
    if !Accepted(m) then None else
    Some(match m
      case SocialProof(c, former) => SocialBytes(PROOF_DOMAIN, c, FormerBytes(former))
      case SocialIntent(c, former) => SocialBytes(INTENT_DOMAIN, c, FormerBytes(former))
      case SocialCommit(c, proofNonce) => SocialBytes(COMMIT_DOMAIN, c, proofNonce)
      case Profile(address, network, displayName, bio, avatar, expiry, serverNonce) =>
        PROFILE_DOMAIN + ProfileBody(address, network, displayName, bio, avatar, expiry % TWO_64, serverNonce)
      case Attribution(area, hour, seals) =>
        REPORT_DOMAIN + (Sized(area, 1) + (BigEndian(hour % TWO_64, 8) + (BigEndian(|seals|, 1) + SealsBytes(seals)))))
  }

  // ----- the encoders -----

  lemma {:induction false} FlattenTwo(a: Bytes, b: Bytes)
    ensures Flatten([a, b]) == a + b
  {
    assert [a, b][1..] == [b] && [b][1..] == [];
    assert Flatten([b]) == b + [];
  }

  lemma {:induction false} FlattenConcat(p: seq<Bytes>, q: seq<Bytes>)
    ensures Flatten(p + q) == Flatten(p) + Flatten(q)
  {
    if p == [] {
      assert p + q == q;
    } else {
      assert (p + q)[1..] == p[1..] + q;
      FlattenConcat(p[1..], q);
    }
  }

  lemma {:induction false} FlattenFirst(a: Bytes, p: seq<Bytes>)
    ensures Flatten([a] + p) == a + Flatten(p)
  {
    assert ([a] + p)[1..] == p;
  }

  lemma {:induction false} OneByte(n: nat)
    requires n <= 0xFF
    ensures BigEndian(n, 1) == [n]
  {
    assert BigEndian(n / 256, 0) == [];
  }

  lemma {:induction false} OneByteLength(x: Bytes)
    requires |x| <= 0xFF
    ensures BigEndian(|x|, 1) == [|x|]
  {
    OneByte(|x|);
  }

  lemma {:induction false} TwoByteLength(x: Bytes)
    requires |x| <= 0xFFFF
    ensures BigEndian(|x|, 2) == [|x| / 256, |x| % 256]
  {
    var h := |x| / 256;
    assert BigEndian(h, 1) == BigEndian(h / 256, 0) + [h % 256] == [h];
  }

  /** The parts that the three social messages share. */
  method EncodeSocialCommon(domain: Bytes, fields: Common) returns (parts: Option<seq<Bytes>>)
    ensures parts.Some? <==> CommonFits(fields)
    ensures parts.Some? ==> forall tail :: Flatten(parts.value + [tail]) == SocialBytes(domain, fields, tail)
  {
    if |fields.address| != 32 || |fields.serverNonce| != 32 { return None; }
    if |fields.network| > 0xFF || |fields.kind| > 0xFF || |fields.value| > 0xFFFF { return None; }
    var expiry := U64be(fields.expiry);
    if expiry.None? { return None; }
    var valueLength: Bytes := [|fields.value| / 256, |fields.value| % 256];
    var list: seq<Bytes> := [
      domain, fields.address, [|fields.network|], fields.network, [|fields.kind|], fields.kind,
      valueLength, fields.value, expiry.value, fields.serverNonce];
    OneByteLength(fields.network);
    OneByteLength(fields.kind);
    TwoByteLength(fields.value);
    forall tail ensures Flatten(list + [tail]) == SocialBytes(domain, fields, tail) {
      SocialParts(domain, fields, tail);
    }
    return Some(list);
  }

  lemma {:induction false} SocialParts(domain: Bytes, c: Common, tail: Bytes)
    requires CommonFits(c)
    ensures Flatten([domain, c.address, [|c.network|], c.network, [|c.kind|], c.kind,
      [|c.value| / 256, |c.value| % 256], c.value, BigEndian(c.expiry, 8), c.serverNonce] + [tail])
      == SocialBytes(domain, c, tail)
  {
    OneByteLength(c.network);
    OneByteLength(c.kind);
    TwoByteLength(c.value);
    ElevenParts(domain, c.address, [|c.network|], c.network, [|c.kind|], c.kind,
                [|c.value| / 256, |c.value| % 256], c.value, BigEndian(c.expiry, 8), c.serverNonce, tail);
  }

  lemma {:induction false} ElevenParts(domain: Bytes, address: Bytes, a: Bytes, b: Bytes, c: Bytes,
                                       d: Bytes, e: Bytes, f: Bytes,
                    expiry: Bytes, nonce: Bytes, tail: Bytes)
    ensures Flatten([domain, address, a, b, c, d, e, f, expiry, nonce] + [tail])
         == domain + (address + ((a + b) + ((c + d) + ((e + f) + (expiry + (nonce + tail))))))
  {
    var p := [expiry] + [nonce, tail];
    FlattenTwo(nonce, tail);
    FlattenFirst(expiry, [nonce, tail]);
    SixParts(a, b, c, d, e, f);
    FlattenConcat([a, b, c, d, e, f], p);
    var q := [a, b, c, d, e, f] + p;
    FlattenFirst(address, q);
    FlattenFirst(domain, [address] + q);
    assert [domain] + ([address] + q) == [domain, address, a, b, c, d, e, f, expiry, nonce] + [tail];
    RegroupSix(a + b, c + d, e + f, expiry + (nonce + tail));
  }

  lemma {:induction false} RegroupSix(x: Bytes, y: Bytes, z: Bytes, rest: Bytes)
    ensures (x + (y + z)) + rest == x + (y + (z + rest))
  {
  }

  lemma {:induction false} FlattenSized(length: Bytes, x: Bytes, p: seq<Bytes>)
    ensures Flatten([length, x] + p) == (length + x) + Flatten(p)
  {
    FlattenTwo(length, x);
    FlattenConcat([length, x], p);
  }

  method EncodeSocialIntentMessage(fields: Common, former: Option<Bytes>) returns (r: Option<Bytes>)
    ensures r == Encode(SocialIntent(fields, former))
  {
    if former.Some? && |former.value| != 16 { return None; }
    var common := EncodeSocialCommon(INTENT_DOMAIN, fields);
    if common.None? { return None; }
    var last: Bytes := [0];
    if former.Some? { last := Concat([[1], former.value]); FlattenTwo([1], former.value); }
    var bytes := Concat(common.value + [last]);
    return Some(bytes);
  }

  method EncodeSocialProofMessage(fields: Common, former: Option<Bytes>) returns (r: Option<Bytes>)
    ensures r == Encode(SocialProof(fields, former))
  {
    if former.Some? && |former.value| != 16 { return None; }
    var common := EncodeSocialCommon(PROOF_DOMAIN, fields);
    if common.None? { return None; }
    var last: Bytes := [0];
    if former.Some? { last := Concat([[1], former.value]); FlattenTwo([1], former.value); }
    var bytes := Concat(common.value + [last]);
    return Some(bytes);
  }

  method EncodeSocialCommitMessage(fields: Common, proofNonce: Bytes) returns (r: Option<Bytes>)
    ensures r == Encode(SocialCommit(fields, proofNonce))
  {
    if |proofNonce| != 16 { return None; }
    var common := EncodeSocialCommon(COMMIT_DOMAIN, fields);
    if common.None? { return None; }
    var bytes := Concat(common.value + [proofNonce]);
    return Some(bytes);
  }

  method EncodeProfileMessage(address: Bytes, network: Bytes, displayName: Bytes, bio: Bytes, avatar: Avatar,
                              expiry: int, serverNonce: Bytes) returns (r: Option<Bytes>)
    ensures r == Encode(Profile(address, network, displayName, bio, avatar, expiry, serverNonce))
  {
    if |network| > 0xFF || |displayName| > 0xFFFF || |bio| > 0xFFFF { return None; }
    if |address| != 32 || |serverNonce| != 32 { return None; }
    if avatar.SetTo? && |avatar.digest| != 32 { return None; }
    var flag: Byte := if avatar.NoChange? then 0 else if avatar.SetTo? then 1 else 2;
    var digest: Bytes := if avatar.SetTo? then avatar.digest else [];
    var expiryBytes := FillU64(expiry % TWO_64);
    var nameLength: Bytes, bioLength: Bytes := [|displayName| / 256, |displayName| % 256], [|bio| / 256, |bio| % 256];
    var bytes := Concat([PROFILE_DOMAIN, address, [|network|], network, nameLength, displayName, bioLength, bio,
                         [flag], digest, expiryBytes, serverNonce]);
    OneByteLength(network);
    TwoByteLength(displayName);
    TwoByteLength(bio);
    assert [flag] + digest == AvatarBytes(avatar);
    TwelveParts(PROFILE_DOMAIN, address, [|network|], network, nameLength, displayName, bioLength, bio,
                [flag], digest, expiryBytes, serverNonce);
    return Some(bytes);
  }

  lemma {:induction false} TwelveParts(domain: Bytes, address: Bytes, a: Bytes, b: Bytes, c: Bytes,
                                       d: Bytes, e: Bytes, f: Bytes,
                    g: Bytes, h: Bytes, expiry: Bytes, nonce: Bytes)
    ensures Flatten([domain, address, a, b, c, d, e, f, g, h, expiry, nonce])
         == domain + (address + ((a + b) + ((c + d) + ((e + f) + ((g + h) + (expiry + nonce))))))
  {
    var p := [expiry, nonce];
    FlattenTwo(expiry, nonce);
    SixParts(c, d, e, f, g, h);
    FlattenConcat([c, d, e, f, g, h], p);
    FlattenSized(a, b, [c, d, e, f, g, h] + p);
    var q := [a, b] + ([c, d, e, f, g, h] + p);
    FlattenFirst(address, q);
    FlattenFirst(domain, [address] + q);
    assert [domain] + ([address] + q) == [domain, address, a, b, c, d, e, f, g, h, expiry, nonce];
  }

  lemma {:induction false} SixParts(a: Bytes, b: Bytes, c: Bytes, d: Bytes, e: Bytes, f: Bytes)
    ensures Flatten([a, b, c, d, e, f]) == (a + b) + ((c + d) + (e + f))
  {
    FlattenTwo(e, f);
    FlattenSized(c, d, [e, f]);
    FlattenSized(a, b, [c, d] + [e, f]);
    assert [a, b] + ([c, d] + [e, f]) == [a, b, c, d, e, f];
  }

  lemma {:induction false} Regroup(start: Bytes, a: Bytes, b: Bytes, c: Bytes, rest: Bytes)
    ensures (start + (a + (b + c))) + rest == start + (a + (b + (c + rest)))
  {
  }

  /** Pushes the parts of the seals one by one, refusing a key id that does not fit its length byte. */
  method AttributionMessage(area: Bytes, hour: int, seals: seq<Seal>) returns (r: Option<Bytes>)
    ensures r == Encode(Attribution(area, hour, seals))
  {
    if |area| > 0xFF || |seals| > 0xFF { return None; }
    var hourBytes := FillU64(hour % TWO_64);
    var parts: seq<Bytes> := [REPORT_DOMAIN, [|area|], area, hourBytes, [|seals|]];
    ghost var head := parts;
    var i := 0;
    while i < |seals|
      invariant 0 <= i <= |seals|
      invariant forall j :: 0 <= j < i ==> |seals[j].keyId| <= 0xFF
      invariant Flatten(parts) + SealsBytes(seals[i..]) == Flatten(head) + SealsBytes(seals)
    {
      var seal := seals[i];
      if |seal.keyId| > 0xFF { return None; }
      var more: seq<Bytes> := [[|seal.keyId|], seal.keyId, BigEndian(|seal.enc|, 4), seal.enc,
                               BigEndian(|seal.ciphertext|, 4), seal.ciphertext];
      SealParts(seals, i, parts);
      parts := parts + more;
      i := i + 1;
    }
    assert seals[i..] == [];
    HeadParts(area, hourBytes, |seals|, SealsBytes(seals));
    var bytes := Concat(parts);
    assert bytes + SealsBytes([]) == bytes;
    return Some(bytes);
  }

  lemma {:induction false} SealParts(seals: seq<Seal>, i: nat, parts: seq<Bytes>)
    requires i < |seals| && |seals[i].keyId| <= 0xFF
    ensures var seal := seals[i];
      Flatten(parts + [[|seal.keyId|], seal.keyId, BigEndian(|seal.enc|, 4), seal.enc,
                       BigEndian(|seal.ciphertext|, 4), seal.ciphertext])
        + SealsBytes(seals[i + 1..])
      == Flatten(parts) + SealsBytes(seals[i..])
  {
    var seal, rest := seals[i], seals[i + 1..];
    var e, c := BigEndian(|seal.enc|, 4), BigEndian(|seal.ciphertext|, 4);
    OneByteLength(seal.keyId);
    var more := [[|seal.keyId|], seal.keyId, e, seal.enc, c, seal.ciphertext];
    SixParts([|seal.keyId|], seal.keyId, e, seal.enc, c, seal.ciphertext);
    FlattenConcat(parts, more);
    Regroup(Flatten(parts), Sized(seal.keyId, 1), Sized(seal.enc, 4), Sized(seal.ciphertext, 4), SealsBytes(rest));
    assert seals[i..][0] == seal && seals[i..][1..] == rest;
  }

  lemma {:induction false} FiveParts(a: Bytes, b: Bytes, c: Bytes, d: Bytes, e: Bytes, tail: Bytes)
    ensures Flatten([a, b, c, d, e]) + tail == a + ((b + c) + (d + (e + tail)))
  {
    FlattenTwo(d, e);
    FlattenSized(b, c, [d, e]);
    FlattenFirst(a, [b, c] + [d, e]);
    assert [a] + ([b, c] + [d, e]) == [a, b, c, d, e];
    Regroup(a, b + c, d, e, tail);
  }

  lemma {:induction false} HeadParts(area: Bytes, hour: Bytes, count: nat, tail: Bytes)
    requires |area| <= 0xFF && count <= 0xFF
    ensures Flatten([REPORT_DOMAIN, [|area|], area, hour, [count]]) + tail
         == REPORT_DOMAIN + (Sized(area, 1) + (hour + (BigEndian(count, 1) + tail)))
  {
    OneByte(count);
    OneByteLength(area);
    FiveParts(REPORT_DOMAIN, [|area|], area, hour, [count], tail);
  }

  // ----- the decoder -----

  function Take(b: Bytes, n: nat): Option<(Bytes, Bytes)> {
    if |b| < n then None else Some((b[..n], b[n..]))
  }

  function TakeNumber(b: Bytes, k: nat): Option<(nat, Bytes)> {
    var r :- Take(b, k);
    Some((FromBigEndian(r.0), r.1))
  }

  function TakeSized(b: Bytes, k: nat): Option<(Bytes, Bytes)> {
    var length :- TakeNumber(b, k);
    Take(length.1, length.0)
  }

  function DecodeCommon(b: Bytes): Option<(Common, Bytes)> {
    var address :- Take(b, 32);
    var network :- TakeSized(address.1, 1);
    var kind :- TakeSized(network.1, 1);
    var value :- TakeSized(kind.1, 2);
    var expiry :- TakeNumber(value.1, 8);
    var serverNonce :- Take(expiry.1, 32);
    Some((Common(address.0, network.0, kind.0, value.0, expiry.0, serverNonce.0), serverNonce.1))
  }

  function DecodeFormer(b: Bytes): Option<Bytes> {
    if b != [] && b[0] == 1 then Some(b[1..]) else None
  }

  function DecodeAvatar(b: Bytes): Option<(Avatar, Bytes)> {
    var flag :- TakeNumber(b, 1);
    if flag.0 == 0 then Some((NoChange, flag.1))
    else if flag.0 == 1 then
      var digest :- Take(flag.1, 32);
      Some((SetTo(digest.0), digest.1))
    else Some((Clear, flag.1))
  }

  function DecodeProfile(b: Bytes): Option<Message> {
    var address :- Take(b, 32);
    var network :- TakeSized(address.1, 1);
    var displayName :- TakeSized(network.1, 2);
    var bio :- TakeSized(displayName.1, 2);
    var avatar :- DecodeAvatar(bio.1);
    var expiry :- TakeNumber(avatar.1, 8);
    Some(Profile(address.0, network.0, displayName.0, bio.0, avatar.0, expiry.0, expiry.1))
  }

  function DecodeSeals(b: Bytes, count: nat): Option<seq<Seal>> {
    if count == 0 then Some([]) else
    var keyId :- TakeSized(b, 1);
    var enc :- TakeSized(keyId.1, 4);
    var ciphertext :- TakeSized(enc.1, 4);
    var rest :- DecodeSeals(ciphertext.1, count - 1);
    Some([Seal(keyId.0, enc.0, ciphertext.0)] + rest)
  }

  function Signed64(n: nat): int { if n < TWO_63 then n else n - TWO_64 }

  function DecodeAttribution(b: Bytes): Option<Message> {
    var area :- TakeSized(b, 1);
    var hour :- TakeNumber(area.1, 8);
    var count :- TakeNumber(hour.1, 1);
    var seals :- DecodeSeals(count.1, count.0);
    Some(Attribution(area.0, Signed64(hour.0), seals))
  }

  function DecodeProof(b: Bytes): Option<Message> {
    var c :- DecodeCommon(b);
    Some(SocialProof(c.0, DecodeFormer(c.1)))
  }

  function DecodeIntent(b: Bytes): Option<Message> {
    var c :- DecodeCommon(b);
    Some(SocialIntent(c.0, DecodeFormer(c.1)))
  }

  function DecodeCommit(b: Bytes): Option<Message> {
    var c :- DecodeCommon(b);
    Some(SocialCommit(c.0, c.1))
  }

  function Decode(b: Bytes): Option<Message> {
    if PROOF_DOMAIN <= b then DecodeProof(b[|PROOF_DOMAIN|..])
    else if INTENT_DOMAIN <= b then DecodeIntent(b[|INTENT_DOMAIN|..])
    else if COMMIT_DOMAIN <= b then DecodeCommit(b[|COMMIT_DOMAIN|..])
    else if PROFILE_DOMAIN <= b then DecodeProfile(b[|PROFILE_DOMAIN|..])
    else if REPORT_DOMAIN <= b then DecodeAttribution(b[|REPORT_DOMAIN|..])
    else None
  }

  /** The ranges the encoders assume without checking: profile expiry, report hour, and seal lengths. */
  predicate InRange(m: Message) {
    match m
    case Profile(_, _, _, _, _, expiry, _) => 0 <= expiry < TWO_64
    case Attribution(_, hour, seals) =>
      && -TWO_63 <= hour < TWO_63
      && forall i :: 0 <= i < |seals| ==> |seals[i].enc| < 0x1_0000_0000 && |seals[i].ciphertext| < 0x1_0000_0000
    case _ => true
  }

  lemma {:induction false} TakeReadsBack(x: Bytes, rest: Bytes)
    ensures Take(x + rest, |x|) == Some((x, rest))
  {
  }

  lemma {:induction false} NumberReadsBack(n: nat, k: nat, rest: Bytes)
    requires n < Pow256(k)
    ensures TakeNumber(BigEndian(n, k) + rest, k) == Some((n, rest))
  {
    BigEndianReadsBack(n, k);
    TakeReadsBack(BigEndian(n, k), rest);
  }

  lemma {:induction false} SizedReadsBack(x: Bytes, k: nat, rest: Bytes)
    requires |x| < Pow256(k)
    ensures TakeSized(Sized(x, k) + rest, k) == Some((x, rest))
  {
    NumberReadsBack(|x|, k, x + rest);
    assert Sized(x, k) + rest == BigEndian(|x|, k) + (x + rest);
    TakeReadsBack(x, rest);
  }

  lemma {:induction false} Powers()
    ensures Pow256(1) == 0x100 && Pow256(2) == 0x1_0000 && Pow256(4) == 0x1_0000_0000 && Pow256(8) == TWO_64
  {
    assert Pow256(3) == 0x100_0000;
    assert Pow256(6) == 0x1_0000_0000_0000;
  }

  lemma {:induction false} CommonReadsBack(c: Common, tail: Bytes)
    requires CommonFits(c)
    ensures DecodeCommon(SocialBytes([], c, tail)) == Some((c, tail))
  {
    Powers();
    var nonce := c.serverNonce + tail;
    var expiry := BigEndian(c.expiry, 8) + nonce;
    var value := Sized(c.value, 2) + expiry;
    var kind := Sized(c.kind, 1) + value;
    var network := Sized(c.network, 1) + kind;
    assert SocialBytes([], c, tail) == c.address + network;
    TakeReadsBack(c.address, network);
    SizedReadsBack(c.network, 1, kind);
    SizedReadsBack(c.kind, 1, value);
    SizedReadsBack(c.value, 2, expiry);
    NumberReadsBack(c.expiry, 8, nonce);
    TakeReadsBack(c.serverNonce, tail);
  }

  lemma {:induction false} DomainFirst(domain: Bytes, c: Common, tail: Bytes)
    requires CommonFits(c)
    ensures SocialBytes(domain, c, tail) == domain + SocialBytes([], c, tail)
  {
    assert [] + (c.address + (Sized(c.network, 1) + (Sized(c.kind, 1) + (Sized(c.value, 2)
      + (BigEndian(c.expiry, 8) + (c.serverNonce + tail)))))) == SocialBytes([], c, tail);
  }

  lemma {:induction false} FormerReadsBack(former: Option<Bytes>)
    ensures DecodeFormer(FormerBytes(former)) == former
  {
    if former.Some? {
      assert ([1] + former.value)[1..] == former.value;
    }
  }

  lemma {:induction false} AvatarReadsBack(a: Avatar, rest: Bytes)
    requires a.SetTo? ==> |a.digest| == 32
    ensures DecodeAvatar(AvatarBytes(a) + rest) == Some((a, rest))
  {
    Powers();
    var flag := if a.NoChange? then 0 else if a.SetTo? then 1 else 2;
    OneByte(flag);
    if a.SetTo? {
      assert AvatarBytes(a) + rest == BigEndian(1, 1) + (a.digest + rest);
      NumberReadsBack(1, 1, a.digest + rest);
      TakeReadsBack(a.digest, rest);
    } else {
      NumberReadsBack(flag, 1, rest);
    }
  }

  lemma {:induction false} ProfileReadsBack(address: Bytes, network: Bytes, displayName: Bytes, bio: Bytes,
                                            avatar: Avatar, expiry: nat, serverNonce: Bytes)
    requires Accepted(Profile(address, network, displayName, bio, avatar, expiry, serverNonce)) && expiry < TWO_64
    ensures DecodeProfile(ProfileBody(address, network, displayName, bio, avatar, expiry, serverNonce))
         == Some(Profile(address, network, displayName, bio, avatar, expiry, serverNonce))
  {
    Powers();
    var e := BigEndian(expiry, 8) + serverNonce;
    var a := AvatarBytes(avatar) + e;
    var b := Sized(bio, 2) + a;
    var d := Sized(displayName, 2) + b;
    TakeReadsBack(address, Sized(network, 1) + d);
    SizedReadsBack(network, 1, d);
    SizedReadsBack(displayName, 2, b);
    SizedReadsBack(bio, 2, a);
    AvatarReadsBack(avatar, e);
    NumberReadsBack(expiry, 8, serverNonce);
  }

  lemma {:induction false} SealsReadBack(seals: seq<Seal>)
    requires forall i :: 0 <= i < |seals| ==>
      |seals[i].keyId| <= 0xFF && |seals[i].enc| < 0x1_0000_0000 && |seals[i].ciphertext| < 0x1_0000_0000
    ensures DecodeSeals(SealsBytes(seals), |seals|) == Some(seals)
  {
    if seals != [] {
      Powers();
      var s, rest := seals[0], SealsBytes(seals[1..]);
      SealsReadBack(seals[1..]);
      SizedReadsBack(s.ciphertext, 4, rest);
      SizedReadsBack(s.enc, 4, Sized(s.ciphertext, 4) + rest);
      SizedReadsBack(s.keyId, 1, Sized(s.enc, 4) + (Sized(s.ciphertext, 4) + rest));
      assert seals == [s] + seals[1..];
    }
  }

  lemma {:induction false} UnwrappedExpiry(n: int)
    requires 0 <= n < TWO_64
    ensures n % TWO_64 == n
  {
  }

  lemma {:induction false} SignedReadsBack(hour: int)
    requires -TWO_63 <= hour < TWO_63
    ensures Signed64(hour % TWO_64) == hour
  {
    assert hour % TWO_64 == if hour < 0 then hour + TWO_64 else hour;
  }

  lemma {:induction false} AttributionReadsBack(area: Bytes, hour: nat, seals: seq<Seal>)
    requires Accepted(Attribution(area, Signed64(hour), seals)) && InRange(Attribution(area, 0, seals)) && hour < TWO_64
    ensures DecodeAttribution(Sized(area, 1) + (BigEndian(hour, 8) + (BigEndian(|seals|, 1) + SealsBytes(seals))))
         == Some(Attribution(area, Signed64(hour), seals))
  {
    Powers();
    var s := SealsBytes(seals);
    var count := BigEndian(|seals|, 1) + s;
    var h := BigEndian(hour, 8) + count;
    SizedReadsBack(area, 1, h);
    NumberReadsBack(hour, 8, count);
    NumberReadsBack(|seals|, 1, s);
    SealsReadBack(seals);
  }

  /** The eighth and the fifteenth byte tell the domains apart. */
  lemma {:induction false} DomainLetters()
    ensures forall i :: 0 <= i < 5 ==> |DOMAINS[i]| > 14
    ensures DOMAINS[0][7] == DOMAINS[1][7] == DOMAINS[2][7] == 115 && DOMAINS[3][7] == 112 && DOMAINS[4][7] == 114
    ensures DOMAINS[0][14] == 112 && DOMAINS[1][14] == 105 && DOMAINS[2][14] == 99
  {
  }

  /** No domain is a prefix of a message under another one, so each message is recognised as its own kind. */
  lemma {:induction false} DomainsApart(i: nat, j: nat, rest: Bytes)
    requires i < 5 && j < 5 && i != j
    ensures !(DOMAINS[i] <= DOMAINS[j] + rest)
  {
    DomainLetters();
    assert (DOMAINS[j] + rest)[7] == DOMAINS[j][7] && (DOMAINS[j] + rest)[14] == DOMAINS[j][14];
  }

  /** No earlier domain in the list opens this message. */
  lemma {:induction false} EarlierDomains(j: nat, rest: Bytes)
    requires j < 5
    ensures j > 0 ==> !(PROOF_DOMAIN <= DOMAINS[j] + rest)
    ensures j > 1 ==> !(INTENT_DOMAIN <= DOMAINS[j] + rest)
    ensures j > 2 ==> !(COMMIT_DOMAIN <= DOMAINS[j] + rest)
    ensures j > 3 ==> !(PROFILE_DOMAIN <= DOMAINS[j] + rest)
  {
    if j > 0 { DomainsApart(0, j, rest); }
    if j > 1 { DomainsApart(1, j, rest); }
    if j > 2 { DomainsApart(2, j, rest); }
    if j > 3 { DomainsApart(3, j, rest); }
  }

  lemma {:induction false} Dispatch(rest: Bytes)
    ensures Decode(PROOF_DOMAIN + rest) == DecodeProof(rest)
    ensures Decode(INTENT_DOMAIN + rest) == DecodeIntent(rest)
    ensures Decode(COMMIT_DOMAIN + rest) == DecodeCommit(rest)
    ensures Decode(PROFILE_DOMAIN + rest) == DecodeProfile(rest)
    ensures Decode(REPORT_DOMAIN + rest) == DecodeAttribution(rest)
  {
    EarlierDomains(1, rest);
    EarlierDomains(2, rest);
    EarlierDomains(3, rest);
    EarlierDomains(4, rest);
    assert (PROOF_DOMAIN + rest)[|PROOF_DOMAIN|..] == rest;
    assert (INTENT_DOMAIN + rest)[|INTENT_DOMAIN|..] == rest;
    assert (COMMIT_DOMAIN + rest)[|COMMIT_DOMAIN|..] == rest;
    assert (PROFILE_DOMAIN + rest)[|PROFILE_DOMAIN|..] == rest;
    assert (REPORT_DOMAIN + rest)[|REPORT_DOMAIN|..] == rest;
  }

  lemma {:induction false} SocialReadsBack(domain: Bytes, c: Common, tail: Bytes)
    requires CommonFits(c)
    ensures SocialBytes(domain, c, tail) == domain + SocialBytes([], c, tail)
    ensures DecodeCommon(SocialBytes([], c, tail)) == Some((c, tail))
    ensures Decode(PROOF_DOMAIN + SocialBytes([], c, tail)) == Some(SocialProof(c, DecodeFormer(tail)))
    ensures Decode(INTENT_DOMAIN + SocialBytes([], c, tail)) == Some(SocialIntent(c, DecodeFormer(tail)))
    ensures Decode(COMMIT_DOMAIN + SocialBytes([], c, tail)) == Some(SocialCommit(c, tail))
  {
    DomainFirst(domain, c, tail);
    CommonReadsBack(c, tail);
    Dispatch(SocialBytes([], c, tail));
  }

  lemma {:induction false} ProfileDecodes(address: Bytes, network: Bytes, displayName: Bytes, bio: Bytes,
                                          avatar: Avatar, expiry: nat, serverNonce: Bytes)
    requires Accepted(Profile(address, network, displayName, bio, avatar, expiry, serverNonce)) && expiry < TWO_64
    ensures Decode(PROFILE_DOMAIN + ProfileBody(address, network, displayName, bio, avatar, expiry, serverNonce))
         == Some(Profile(address, network, displayName, bio, avatar, expiry, serverNonce))
  {
    ProfileReadsBack(address, network, displayName, bio, avatar, expiry, serverNonce);
    Dispatch(ProfileBody(address, network, displayName, bio, avatar, expiry, serverNonce));
  }

  lemma {:induction false} AttributionDecodes(m: Message)
    requires m.Attribution? && Accepted(m) && InRange(m)
    ensures Decode(Encode(m).value) == Some(m)
  {
    SignedReadsBack(m.hour);
    AttributionReadsBack(m.area, m.hour % TWO_64, m.seals);
    Dispatch(Sized(m.area, 1) + (BigEndian(m.hour % TWO_64, 8) + (BigEndian(|m.seals|, 1) + SealsBytes(m.seals))));
  }

  /** Every message that an encoder accepts, with its numbers in range, is recovered from its bytes. */
  lemma {:induction false} DecodeEncode(m: Message)
    requires Encode(m).Some? && InRange(m)
    ensures Decode(Encode(m).value) == Some(m)
  {
    match m {
      case SocialProof(c, former) =>
        FormerReadsBack(former);
        SocialReadsBack(PROOF_DOMAIN, c, FormerBytes(former));
      case SocialIntent(c, former) =>
        FormerReadsBack(former);
        SocialReadsBack(INTENT_DOMAIN, c, FormerBytes(former));
      case SocialCommit(c, proofNonce) =>
        SocialReadsBack(COMMIT_DOMAIN, c, proofNonce);
      case Profile(address, network, displayName, bio, avatar, expiry, serverNonce) =>
        ProfileDecodes(address, network, displayName, bio, avatar, expiry, serverNonce);
        UnwrappedExpiry(expiry);
      case Attribution(area, hour, seals) =>
        AttributionDecodes(m);
    }
  }

  /** Equal bytes mean the same kind of message with the same fields, across all five kinds. */
  lemma {:induction false} JointlyInjective(m: Message, n: Message)
    requires Encode(m).Some? && InRange(m) && InRange(n)
    requires Encode(m) == Encode(n)
    ensures m == n
  {
    DecodeEncode(m);
    DecodeEncode(n);
  }

  /** A message with its expiry or hour brought into the range of its eight bytes. */
  function Wrapped(m: Message): Message {
    match m
    case Profile(_, _, _, _, _, expiry, _) => m.(expiry := expiry % TWO_64)
    case Attribution(_, hour, _) => m.(hour := Signed64(hour % TWO_64))
    case _ => m
  }

  predicate SealsInRange(m: Message) {
    m.Attribution? ==>
      forall i :: 0 <= i < |m.seals| ==> |m.seals[i].enc| < 0x1_0000_0000 && |m.seals[i].ciphertext| < 0x1_0000_0000
  }

  lemma {:induction false} SignedWraps(h: nat)
    requires h < TWO_64
    ensures Signed64(h) % TWO_64 == h && -TWO_63 <= Signed64(h) < TWO_63
  {
    if h < TWO_63 {
      UnwrappedExpiry(h);
    } else {
      assert Signed64(h) == h - TWO_64;
    }
  }

  lemma {:induction false} WrappedSame(m: Message)
    ensures Encode(Wrapped(m)) == Encode(m)
    ensures SealsInRange(m) ==> InRange(Wrapped(m))
  {
    match m {
      case Profile(_, _, _, _, _, expiry, _) => UnwrappedExpiry(expiry % TWO_64);
      case Attribution(_, hour, _) => SignedWraps(hour % TWO_64);
      case _ =>
    }
  }

  /** Without the range on the numbers, two messages share their bytes exactly when they agree modulo 2^64. */
  lemma {:induction false} SameBytesExactly(m: Message, n: Message)
    requires Encode(m).Some? && SealsInRange(m) && SealsInRange(n)
    ensures Encode(m) == Encode(n) <==> Wrapped(m) == Wrapped(n)
  {
    WrappedSame(m);
    WrappedSame(n);
    if Encode(m) == Encode(n) {
      JointlyInjective(Wrapped(m), Wrapped(n));
    }
  }

  /** Two profile messages 2^64 seconds apart share their bytes. */
  lemma {:induction false} ExpiryWraps()
    ensures var m := Profile(Zeros(32), [], [], [], NoChange, 0, Zeros(32));
      var n := m.(expiry := TWO_64);
      m != n && Encode(m).Some? && Encode(m) == Encode(n)
  {
    var m := Profile(Zeros(32), [], [], [], NoChange, 0, Zeros(32));
    var n := m.(expiry := TWO_64);
    SameBytesExactly(m, n);
  }

  function Zeros(n: nat): Bytes {
    seq(n, i => 0)
  }
}
