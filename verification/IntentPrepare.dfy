/**
 The two steps around a transfer: `Prepare` validates and sizes the claim while the transfer id is unknown, `Finish`
 puts the id in. The main theorem is that finishing a prepared claim fails for no id, so nothing fails after payment.
*/
module IntentPrepare {
  import opened Options
  import opened DecimalText
  import opened Decimals
  import opened Utf16
  import opened JsonDocuments
  import opened Records
  import opened JsonPrinting
  import opened IntentCodec
  import opened IntentRoundTrip
  import JsonStrings

  const SAFE_MAX := 0x1F_FFFF_FFFF_FFFF
  const DEFAULT_SECONDS := 3600
  const CHAIN_ID_MAX := 9_999_999_999_999

  // ----- the transfer tag -----

  const TAG_PREFIX: seq<Byte> := [97, 108, 108, 115, 101, 116, 47, 116, 114, 97, 110, 115, 102,
                                  101, 114, 47, 118, 49, 58]

  function AsciiBytes(t: Text): (b: seq<Byte>)
    requires IsAscii(t)
    ensures |b| == |t| && b == t
  {
    seq(|t|, i requires 0 <= i < |t| && t[i] < 0x80 => t[i])
  }

  function Zeros32(n: nat): (b: seq<Byte>)
    ensures |b| == n
  {
    seq(n, i => 0)
  }

  lemma {:induction false} DecimalIsAscii(n: nat)
    ensures IsAscii(Ascii(ToDecimal(n))) && (n <= CHAIN_ID_MAX <==> |ToDecimal(n)| <= 13)
  {
    var s := ToDecimal(n);
    forall i | 0 <= i < |s| ensures Ascii(s)[i] < 0x80 {
      assert IsDigit(s[i]);
    }
    ToDecimalLength(n, 13);
    assert Pow10(13) == CHAIN_ID_MAX + 1 by {
      assert Pow10(4) == 10_000;
      assert Pow10(8) == 100_000_000;
      assert Pow10(12) == 1_000_000_000_000;
    }
  }

  /** The 32 bytes a transfer carries to name its chain. */
  function Tag(chainId: int): Option<seq<Byte>> {
    if 0 <= chainId <= CHAIN_ID_MAX then
      DecimalIsAscii(chainId);
      var bytes := TAG_PREFIX + AsciiBytes(Ascii(ToDecimal(chainId)));
      Some(bytes + Zeros32(32 - |bytes|))
    else None
  }

  function StripZeros(b: seq<Byte>): seq<Byte> {
    if b != [] && b[|b| - 1] == 0 then StripZeros(b[..|b| - 1]) else b
  }

  /**
   Reads a tag. The source decodes the bytes as text first, without failing on bytes that are not UTF-8; a byte outside
   ASCII becomes a character outside ASCII, which no tag has, so only the leading byte order mark makes a difference.
  */
  function ReadTag(u: seq<Byte>): Option<nat> {
    if |u| != 32 then None else
    var text := StripZeros(if BYTE_ORDER_MARK <= u then u[3..] else u);
    if !(TAG_PREFIX <= text) || |text| > |TAG_PREFIX| + 13 then None else ReadUint(text[|TAG_PREFIX|..])
  }

  lemma {:induction false} StripZerosOf(b: seq<Byte>, n: nat)
    requires b != [] && b[|b| - 1] != 0
    ensures StripZeros(b + Zeros32(n)) == b
  {
    if n == 0 {
      assert b + Zeros32(0) == b;
    } else {
      assert (b + Zeros32(n))[..|b| + n - 1] == b + Zeros32(n - 1);
      StripZerosOf(b, n - 1);
    }
  }

  lemma {:induction false} StrippedPads(b: seq<Byte>)
    ensures |StripZeros(b)| <= |b| && b == StripZeros(b) + Zeros32(|b| - |StripZeros(b)|)
  {
    if b != [] && b[|b| - 1] == 0 {
      StrippedPads(b[..|b| - 1]);
    }
  }

  lemma {:induction false} TagReadsBack(chainId: int)
    requires Tag(chainId).Some?
    ensures |Tag(chainId).value| == 32 && ReadTag(Tag(chainId).value) == Some(chainId)
    ensures !(BYTE_ORDER_MARK <= Tag(chainId).value)
  {
    DecimalIsAscii(chainId);
    var digits := Ascii(ToDecimal(chainId));
    var bytes := TAG_PREFIX + AsciiBytes(digits);
    assert bytes[|bytes| - 1] == digits[|digits| - 1];
    assert IsDigit(ToDecimal(chainId)[|digits| - 1]);
    StripZerosOf(bytes, 32 - |bytes|);
    assert TAG_PREFIX <= bytes && bytes[|TAG_PREFIX|..] == digits;
    assert Tag(chainId).value[0] == 97;
    NumberReadsBack(chainId);
  }

  /** Of the byte strings that read as a chain id, exactly those without a leading byte order mark are that id's tag. */
  lemma {:induction false} ReadTagExact(u: seq<Byte>)
    requires ReadTag(u).Some?
    ensures Tag(ReadTag(u).value) == Some(u) <==> !(BYTE_ORDER_MARK <= u)
  {
    var id := ReadTag(u).value;
    var text := StripZeros(if BYTE_ORDER_MARK <= u then u[3..] else u);
    ReadUintPrints(text[|TAG_PREFIX|..]);
    DecimalIsAscii(id);
    TagReadsBack(id);
    if !(BYTE_ORDER_MARK <= u) {
      StrippedPads(u);
      assert text == TAG_PREFIX + text[|TAG_PREFIX|..];
    }
  }

  /** Such marked byte strings exist: the reader does accept 32 bytes that no transfer was tagged with. */
  lemma {:induction false} MarkedTagReads()
    ensures var u := BYTE_ORDER_MARK + TAG_PREFIX + [0x31] + Zeros32(9);
      ReadTag(u) == Some(1) && Tag(1).Some? && Tag(1) != Some(u)
  {
    var u := BYTE_ORDER_MARK + TAG_PREFIX + [0x31] + Zeros32(9);
    assert u[3..] == (TAG_PREFIX + [0x31]) + Zeros32(9);
    StripZerosOf(TAG_PREFIX + [0x31], 9);
    assert (TAG_PREFIX + [0x31])[|TAG_PREFIX|..] == [0x31];
    assert ToDecimal(1) == "1" && Ascii("1") == [0x31];
    NumberReadsBack(1);
    ReadTagExact(u);
  }

  /** The chain text is valid exactly for the ids that have a tag, so the tag never fails after the encoding. */
  lemma {:induction false} ChainHasTag(chainId: int)
    ensures IsChain(CHAIN_PREFIX + PrintUint(chainId)) <==> Tag(chainId).Some?
  {
    var t := CHAIN_PREFIX + PrintUint(chainId);
    assert t[|CHAIN_PREFIX|..] == PrintUint(chainId);
    if chainId < 0 {
      assert PrintUint(chainId)[0] == '-' as int;
    } else {
      DecimalIsAscii(chainId);
      NumberReadsBack(chainId);
    }
  }

  // ----- prepare and finish -----

  function Placeholder(): (t: Text)
    ensures |t| == 66
  {
    [0x30, 0x78] + seq(64, i => 0x30)
  }

  /** The prepared claim holds the placeholder where the source's holds no transfer id; `Finish` never looks at it. */
  datatype Prepared = Prepared(claim: Claim, deadline: int, userData: seq<Byte>, byteLength: nat)

  /** `now` is the clock in milliseconds. */
  function Prepare(intents: seq<Intent>, chainId: Option<int>, bridge: Option<Text>, deadlineSeconds: Option<int>,
                   display: Option<Display>, now: int, isFast: Text -> bool): Option<Prepared>
  {
    if chainId.None? || bridge.None? then None else
    var seconds, nowSeconds := deadlineSeconds.GetOr(DEFAULT_SECONDS), now / 1000;
    if !(0 < seconds < 0x100_0000_0000) || !(0 <= nowSeconds <= SAFE_MAX) then None else
    match DerivedKind(intents)
    case None => None
    case Some(kind) =>
      var claim := Claim(SCHEMA, kind, CHAIN_PREFIX + PrintUint(chainId.value), Lower(bridge.value), Placeholder(),
                         nowSeconds + seconds, intents, display);
      match Encode(claim, isFast)
      case None => None
      case Some(bytes) =>
        match Tag(chainId.value)
        case None => None
        case Some(tag) => Some(Prepared(claim, claim.deadline, tag, |bytes|))
  }

  function Finish(p: Prepared, transferTx: Text, isFast: Text -> bool): Option<seq<Byte>> {
    match Encode(p.claim.(transferTx := transferTx), isFast)
    case None => None
    case Some(bytes) => if |bytes| != p.byteLength then None else Some(bytes)
  }

  /** What was prepared is what was asked for: every field, the chain also by its tag, and the deadline so far ahead. */
  lemma {:induction false} PreparedAsAsked(intents: seq<Intent>, chainId: Option<int>, bridge: Option<Text>,
                                           deadlineSeconds: Option<int>, display: Option<Display>, now: int,
                                           isFast: Text -> bool)
    requires Prepare(intents, chainId, bridge, deadlineSeconds, display, now, isFast).Some?
    ensures var p := Prepare(intents, chainId, bridge, deadlineSeconds, display, now, isFast).value;
      && chainId.Some? && ReadTag(p.userData) == Some(chainId.value)
      && p.claim.schema == Ascii("allset/intent/v1")
      && p.claim.chain == Ascii("eip155:") + PrintUint(chainId.value)
      && ReadUint(p.claim.chain[|CHAIN_PREFIX|..]) == Some(chainId.value)
      && bridge.Some? && p.claim.bridge == Lower(bridge.value)
      && p.claim.deadline == p.deadline
      && now < p.deadline * 1000 <= now + deadlineSeconds.GetOr(DEFAULT_SECONDS) * 1000
      && p.claim.intents == intents && p.claim.display == display
  {
    var p := Prepare(intents, chainId, bridge, deadlineSeconds, display, now, isFast).value;
    TagReadsBack(chainId.value);
    NumberReadsBack(chainId.value);
    assert p.claim.chain[|CHAIN_PREFIX|..] == PrintUint(chainId.value);
  }

  /** The claim that is asked for under a kind, with zeros for the transfer id that is not known yet. */
  function Asked(kind: Text, intents: seq<Intent>, chainId: int, bridge: Text, deadline: int, display: Option<Display>)
    : Claim
  {
    Claim(Ascii("allset/intent/v1"), kind, Ascii("eip155:") + PrintUint(chainId), Lower(bridge),
          Ascii("0x") + seq(64, i => 0x30), deadline, intents, display)
  }

  lemma {:induction false} EncodedFacts(c: Claim, isFast: Text -> bool)
    requires Encode(c, isFast).Some?
    ensures DerivedKind(c.intents) == Some(c.kind) && IsChain(c.chain)
  {
  }

  /** The claim that is prepared is the one asked for under some kind. */
  lemma {:induction false} PreparesAsked(intents: seq<Intent>, chainId: Option<int>, bridge: Option<Text>,
                                         deadlineSeconds: Option<int>, display: Option<Display>, now: int,
                                         isFast: Text -> bool)
    requires Prepare(intents, chainId, bridge, deadlineSeconds, display, now, isFast).Some?
    ensures chainId.Some? && bridge.Some?
    ensures var c := Prepare(intents, chainId, bridge, deadlineSeconds, display, now, isFast).value.claim;
      var seconds := if deadlineSeconds.Some? then deadlineSeconds.value else 3600;
      c == Asked(c.kind, intents, chainId.value, bridge.value, now / 1000 + seconds, display)
  {
    hide Encode, Tag, DerivedKind, Lower, PrintUint;
    assert Placeholder() == Ascii("0x") + seq(64, i => 0x30);
  }

  /**
   Preparation succeeds exactly with a chain, a bridge, a lifetime below 2^40 seconds, 3600 if none is given, a clock
   in range, and a claim that encodes as asked.
  */
  lemma {:induction false} PreparesExactly(kind: Text, intents: seq<Intent>, chainId: Option<int>,
                                           bridge: Option<Text>, deadlineSeconds: Option<int>,
                                           display: Option<Display>, now: int, isFast: Text -> bool)
    ensures var r := Prepare(intents, chainId, bridge, deadlineSeconds, display, now, isFast);
      var seconds := if deadlineSeconds.Some? then deadlineSeconds.value else 3600;
      r.Some? && r.value.claim.kind == kind <==>
        && chainId.Some? && bridge.Some?
        && 0 < seconds < 1099511627776
        && 0 <= now / 1000 <= 9007199254740991
        && Encode(Asked(kind, intents, chainId.value, bridge.value, now / 1000 + seconds, display), isFast).Some?
  {
    hide Encode, Tag, DerivedKind, Lower, PrintUint, IsChain;
    if Prepare(intents, chainId, bridge, deadlineSeconds, display, now, isFast).Some? {
      PreparesAsked(intents, chainId, bridge, deadlineSeconds, display, now, isFast);
    }
    if chainId.Some? && bridge.Some? {
      var seconds := deadlineSeconds.GetOr(3600);
      var c := Asked(kind, intents, chainId.value, bridge.value, now / 1000 + seconds, display);
      assert Placeholder() == Ascii("0x") + seq(64, i => 0x30);
      ChainHasTag(chainId.value);
      if Encode(c, isFast).Some? { EncodedFacts(c, isFast); }
    }
  }

  /** A tag is the text of its protocol and of the chain id, filled up with zero bytes to 32. */
  lemma {:induction false} TagSpells(chainId: int)
    ensures Tag(chainId).Some? <==> 0 <= chainId <= 9_999_999_999_999
    ensures Tag(chainId).Some? ==>
      var text := Ascii("allset/transfer/v1:") + Ascii(ToDecimal(chainId));
      var u := Tag(chainId).value;
      |text| <= |u| == 32 && u[..|text|] == text && forall i :: |text| <= i < 32 ==> u[i] == 0
  {
    if Tag(chainId).Some? {
      DecimalIsAscii(chainId);
      assert TAG_PREFIX == Ascii("allset/transfer/v1:");
    }
  }

  lemma {:induction false} AsciiSize(t: Text)
    requires IsAscii(t)
    ensures Size(t) == |t|
  {
    if t != [] {
      AsciiSize(t[1..]);
    }
  }

  lemma {:induction false} PlainEscaped(t: Text)
    requires forall i :: 0 <= i < |t| ==> 0x20 <= t[i] < 0x80 && t[i] != JsonStrings.QUOTE
                                          && t[i] != JsonStrings.BACKSLASH
    ensures JsonStrings.Escaped(t) == t
  {
    if t != [] {
      PlainEscaped(t[..|t| - 1]);
      assert JsonStrings.EscapeUnit(t[|t| - 1]) == [t[|t| - 1]];
    }
  }

  /** A hex text prints as itself between quotes, so its printed size is known from its length. */
  lemma {:induction false} HexSize(t: Text)
    requires IsHex(t)
    ensures WriteString(t).Some? && WellFormed(WriteString(t).value) && Size(WriteString(t).value) == |t| + 2
  {
    HexIsAscii(t);
    PlainEscaped(t);
    assert IsAscii(Quoted(t));
    AsciiSize(Quoted(t));
    AsciiWellFormed(Quoted(t));
  }

  /** The printed size of a claim depends on its transfer id only through the id's length. */
  lemma {:induction false} SizeIgnoresTransferId(c: Claim, tx: Text)
    requires IsHex32(c.transferTx) && IsHex32(tx)
    ensures SameSize(Write(Wire(c), LAYOUT, 0), Write(Wire(c.(transferTx := tx)), LAYOUT, 0))
  {
    var v, w := Wire(c), Wire(c.(transferTx := tx));
    HexSize(Lower(c.transferTx));
    HexSize(Lower(tx));
    forall i | 0 <= i < |v.fields|
      ensures v.fields[i].key == w.fields[i].key && Alike(v.fields[i].value, w.fields[i].value)
    {
      if i != 4 {
        assert v.fields[i] == w.fields[i];
        AlikeItself(v.fields[i].value);
      } else {
        assert v.fields[4] == Str(TRANSFER_TX, Lower(c.transferTx)) && w.fields[4] == Str(TRANSFER_TX, Lower(tx));
      }
    }
    WrittenAlike(v, w, LAYOUT, 0);
  }

  lemma {:induction false} PreparedIsEncoded(intents: seq<Intent>, chainId: Option<int>, bridge: Option<Text>,
                                             deadlineSeconds: Option<int>,
                              display: Option<Display>, now: int, isFast: Text -> bool)
    requires Prepare(intents, chainId, bridge, deadlineSeconds, display, now, isFast).Some?
    ensures var p := Prepare(intents, chainId, bridge, deadlineSeconds, display, now, isFast).value;
      && Encode(p.claim, isFast).Some? && |Encode(p.claim, isFast).value| == p.byteLength
      && p.claim.transferTx == Placeholder()
  {
  }

  lemma {:induction false} OtherIdIsValid(c: Claim, tx: Text, isFast: Text -> bool)
    requires Valid(c, isFast)
    ensures Valid(c.(transferTx := tx), isFast) <==> IsHex32(tx)
  {
  }

  /** A claim that encodes, encodes with exactly the 32-byte ids, always at the same length. */
  lemma {:induction false} FinishesExactly(p: Prepared, tx: Text, isFast: Text -> bool)
    requires Encode(p.claim, isFast).Some? && |Encode(p.claim, isFast).value| == p.byteLength
    requires p.claim.transferTx == Placeholder()
    ensures Finish(p, tx, isFast).Some? <==> IsHex32(tx)
    ensures IsHex32(tx) ==> Finish(p, tx, isFast) == Encode(p.claim.(transferTx := tx), isFast)
                            && |Finish(p, tx, isFast).value| == p.byteLength <= MAX_BYTES
  {
    OtherIdIsValid(p.claim, tx, isFast);
    if IsHex32(tx) { SizeIgnoresTransferId(p.claim, tx); }
  }

  /** A prepared claim finishes with every 32-byte id, at the prepared length, and with nothing else. */
  lemma {:induction false} PreparePredictsFinish(intents: seq<Intent>, chainId: Option<int>, bridge: Option<Text>,
                                                 deadlineSeconds: Option<int>,
                              display: Option<Display>, now: int, isFast: Text -> bool, tx: Text)
    requires Prepare(intents, chainId, bridge, deadlineSeconds, display, now, isFast).Some?
    ensures var p := Prepare(intents, chainId, bridge, deadlineSeconds, display, now, isFast).value;
      && (Finish(p, tx, isFast).Some? <==> IsHex32(tx))
      && (IsHex32(tx) ==>
           var bytes := Finish(p, tx, isFast).value;
           && |bytes| == p.byteLength <= MAX_BYTES
           && Decode(bytes, isFast) == Some(Normal(p.claim.(transferTx := tx))))
  {
    PreparedIsEncoded(intents, chainId, bridge, deadlineSeconds, display, now, isFast);
    var p := Prepare(intents, chainId, bridge, deadlineSeconds, display, now, isFast).value;
    FinishesExactly(p, tx, isFast);
    if IsHex32(tx) { DecodeEncode(p.claim.(transferTx := tx), isFast); }
  }
}
