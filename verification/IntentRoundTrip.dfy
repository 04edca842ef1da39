/**
 The codec theorems of the intent claim: decoding an encoding gives the claim in normal form, every accepted document is
 the one encoding of its claim, and encoding fails on a valid claim only for an unprintable symbol or for its length.
*/
module IntentRoundTrip {
  import opened Options
  import opened DecimalText
  import opened Decimals
  import opened Utf16
  import opened JsonDocuments
  import opened Records
  import opened JsonPrinting
  import opened IntentCodec

  /** What is used of bech32m: a canonical address is ASCII. */
  ghost predicate FastIsAscii(isFast: Text -> bool) {
    forall t :: isFast(t) ==> IsAscii(t)
  }

  // ----- leaves -----

  lemma {:induction false} LiteralWellFormed(s: string)
    ensures WellFormed(Ascii(s))
  {
  }

  lemma {:induction false} HexIsAscii(t: Text)
    requires IsHex(t)
    ensures IsAscii(t) && WellFormed(t)
  {
    AsciiWellFormed(t);
  }

  // ----- the keys -----

  lemma {:induction false} IntentKeys()
    ensures Distinct(INTENT_ORDER.names) && Distinct(DISPLAY_ORDER.names)
  {
    assert ACTION[0] == 'a' as int && TARGET[0] == 't' as int;
    assert RECEIVER[0] == 'r' as int && CALLDATA[0] == 'c' as int;
    assert TOKEN[0] == 't' as int && VALUE[0] == 'v' as int;
  }

  lemma {:induction false} TopKeys()
    ensures Distinct(TOP_KEYS)
  {
    assert SCHEMA_KEY[0] == 's' as int && BRIDGE[0] == 'b' as int;
    assert INTENTS[0] == 'i' as int && DISPLAY[0] == 'd' as int;
  }

  lemma {:induction false} ChildNamesAt(children: seq<Child>)
    requires forall i :: 0 <= i < |children| ==> children[i].name != STAR
    ensures |ChildNames(children)| == |children|
    ensures forall i :: 0 <= i < |children| ==> ChildNames(children)[i] == children[i].name
  {
    if children != [] {
      ChildNamesAt(children[1..]);
    }
  }

  lemma {:induction false} ChildLayoutAt(children: seq<Child>, i: nat)
    requires i < |children| && forall j :: 0 <= j < i ==> children[j].name != children[i].name
    ensures ChildLayout(children, children[i].name) == children[i].layout
  {
    if i > 0 {
      ChildLayoutAt(children[1..], i - 1);
    }
  }

  lemma {:induction false} InnerLayouts()
    ensures Below(INTENTS_ORDER, STAR) == INTENT_ORDER
    ensures Proper(INTENTS_ORDER) && Proper(INTENT_ORDER) && Proper(DISPLAY_ORDER)
  {
    IntentKeys();
    assert ChildNames(INTENTS_ORDER.children) == [];
  }

  lemma {:induction false} LayoutOrder()
    ensures ChildNames(LAYOUT.children) == TOP_KEYS
    ensures Below(LAYOUT, INTENTS) == INTENTS_ORDER && Below(LAYOUT, DISPLAY) == DISPLAY_ORDER
    ensures Below(INTENTS_ORDER, STAR) == INTENT_ORDER
    ensures Proper(LAYOUT) && Proper(INTENTS_ORDER) && Proper(INTENT_ORDER) && Proper(DISPLAY_ORDER)
  {
    TopKeys();
    InnerLayouts();
    var children := LAYOUT.children;
    assert |children| == 8;
    assert forall i :: 0 <= i < 8 ==> children[i].name == TOP_KEYS[i] && |TOP_KEYS[i]| > 1;
    ChildNamesAt(children);
    ChildLayoutAt(children, 6);
    ChildLayoutAt(children, 7);
    assert forall i :: 0 <= i < 8 ==> Proper(children[i].layout);
  }

  // ----- objects whose values are strings -----

  predicate AllStrings(fields: seq<Field<Json>>) {
    forall i :: 0 <= i < |fields| ==> fields[i].value.JString?
  }

  /** An object printed and read again answers the same lookups. */
  lemma {:induction false} RecordReads(v: Json, order: Layout, i: nat)
    requires v.JObject? && Sound(v) && Proper(order) && Placed(v.fields, KeyOrder(v.fields, order)) && i < |v.fields|
    ensures Lookup(Arranged(v, order).fields, v.fields[i].key)
         == Some(Arranged(v.fields[i].value, Below(order, v.fields[i].key)))
  {
    assert HasKey(v.fields, v.fields[i].key);
    ArrangedLookup(v, order, v.fields[i].key);
  }

  /** The fields `g` answer for the record `f`: the same strings under the same keys, and no other keys. */
  predicate Answers(f: seq<Field<Json>>, g: seq<Field<Json>>) {
    && (forall i :: 0 <= i < |f| && f[i].value.JString?
            ==> IntentCodec.ReadString(g, f[i].key) == Some(f[i].value.text))
    && (forall j :: 0 <= j < |g| ==> HasKey(f, g[j].key))
  }

  lemma {:induction false} RecordAnswers(v: Json, order: Layout)
    requires v.JObject? && Sound(v) && Proper(order) && Placed(v.fields, KeyOrder(v.fields, order))
    ensures Answers(v.fields, Arranged(v, order).fields)
  {
    var f, g := v.fields, Arranged(v, order).fields;
    forall i | 0 <= i < |f| && f[i].value.JString?
      ensures IntentCodec.ReadString(g, f[i].key) == Some(f[i].value.text)
    {
      RecordReads(v, order, i);
    }
    forall j | 0 <= j < |g| ensures HasKey(f, g[j].key) {
      assert HasKey(g, g[j].key);
      ArrangedLookup(v, order, g[j].key);
    }
  }

  lemma {:induction false} AnswersKeys(f: seq<Field<Json>>, g: seq<Field<Json>>, allowed: seq<Text>)
    requires Answers(f, g) && OnlyKeys(f, allowed)
    ensures OnlyKeys(g, allowed)
  {
  }

  // ----- intents -----

  lemma {:induction false} FourStrings(a: Field<Json>, b: Field<Json>, c: Field<Json>, d: Field<Json>, names: seq<Text>)
    requires a.value.JString? && b.value.JString? && c.value.JString? && d.value.JString?
    requires a.key != b.key && a.key != c.key && a.key != d.key && b.key != c.key && b.key != d.key && c.key != d.key
    requires a.key in names && b.key in names && c.key in names && d.key in names
    ensures Sound(JObject([a, b, c, d])) && AllStrings([a, b, c, d]) && Placed([a, b, c, d], names)
    ensures OnlyKeys([a, b, c, d], [a.key, b.key, c.key, d.key])
  {
  }

  lemma {:induction false} IntentNames()
    ensures var n := INTENT_ORDER.names;
      ACTION in n && TOKEN in n && RECEIVER in n && TARGET in n && CALLDATA in n && FAST_RECEIVER in n && VALUE in n
    ensures TOKEN != ACTION && TOKEN != VALUE && ACTION != VALUE
    ensures RECEIVER !in [ACTION, TOKEN, VALUE] && FAST_RECEIVER !in [ACTION, TOKEN, VALUE]
    ensures TARGET !in [ACTION, CALLDATA, VALUE] && CALLDATA !in [ACTION, VALUE]
  {
    IntentKeys();
    var n := INTENT_ORDER.names;
    assert n[0] == ACTION && n[1] == TOKEN && n[2] == RECEIVER && n[3] == TARGET;
    assert n[4] == CALLDATA && n[5] == FAST_RECEIVER && n[6] == VALUE;
  }

  lemma {:induction false} WireIntentShape(intent: Intent)
    ensures var v := WireIntent(intent);
      Sound(v) && AllStrings(v.fields) && Placed(v.fields, INTENT_ORDER.names)
  {
    IntentNames();
    var f, names := WireIntent(intent).fields, INTENT_ORDER.names;
    if !intent.Revoke? {
      FourStrings(f[0], f[1], f[2], f[3], names);
      assert f == [f[0], f[1], f[2], f[3]];
    }
  }

  lemma {:induction false} TransferAnswers(token: Text, receiver: Text, value: nat, g: seq<Field<Json>>)
    requires Answers(WireIntent(Transfer(token, receiver, value)).fields, g)
    ensures ReadTransfer(g, value) == Some(Transfer(Lower(token), Lower(receiver), value))
  {
    var f := WireIntent(Transfer(token, receiver, value)).fields;
    AnswersKeys(f, g, [ACTION, TOKEN, RECEIVER, VALUE]);
    assert f[1] == Str(TOKEN, Lower(token)) && f[2] == Str(RECEIVER, Lower(receiver));
  }

  lemma {:induction false} ExecuteAnswers(target: Text, calldata: Text, value: nat, g: seq<Field<Json>>)
    requires Answers(WireIntent(Execute(target, calldata, value)).fields, g)
    ensures ReadExecute(g, value) == Some(Execute(Lower(target), Lower(calldata), value))
  {
    var f := WireIntent(Execute(target, calldata, value)).fields;
    AnswersKeys(f, g, [ACTION, TARGET, CALLDATA, VALUE]);
    assert f[1] == Str(TARGET, Lower(target)) && f[2] == Str(CALLDATA, Lower(calldata));
  }

  lemma {:induction false} DepositBackAnswers(token: Text, fastReceiver: Text, value: nat, g: seq<Field<Json>>)
    requires Answers(WireIntent(DepositBack(token, fastReceiver, value)).fields, g)
    ensures ReadDepositBack(g, value) == Some(DepositBack(Lower(token), fastReceiver, value))
  {
    var f := WireIntent(DepositBack(token, fastReceiver, value)).fields;
    AnswersKeys(f, g, [ACTION, TOKEN, FAST_RECEIVER, VALUE]);
    assert f[1] == Str(TOKEN, Lower(token)) && f[2] == Str(FAST_RECEIVER, fastReceiver);
  }

  lemma {:induction false} RevokeAnswers(g: seq<Field<Json>>)
    requires Answers(WireIntent(Revoke(0)).fields, g)
    ensures ReadRevoke(g, 0) == Some(Revoke(0))
  {
    AnswersKeys(WireIntent(Revoke(0)).fields, g, [ACTION, VALUE]);
  }

  function ActionOf(intent: Intent): Text {
    match intent
    case Transfer(_, _, _) => TRANSFER_ACTION
    case Execute(_, _, _) => EXECUTE_ACTION
    case DepositBack(_, _, _) => DEPOSIT_BACK_ACTION
    case Revoke(_) => REVOKE_ACTION
  }

  lemma {:induction false} HeadAnswers(intent: Intent, g: seq<Field<Json>>)
    requires 0 <= intent.value && (intent.Revoke? ==> intent.value == 0)
    requires Answers(WireIntent(intent).fields, g)
    ensures IntentCodec.ReadString(g, ACTION) == Some(ActionOf(intent))
    ensures ReadNumber(g, VALUE) == Some(intent.value)
  {
    var f := WireIntent(intent).fields;
    var last := f[|f| - 1];
    NumberReadsBack(intent.value);
    assert ToDecimal(0) == "0";
    assert f[0] == Str(ACTION, ActionOf(intent));
    assert last == Str(VALUE, PrintUint(intent.value));
  }

  lemma {:induction false} IntentAnswers(intent: Intent, g: seq<Field<Json>>)
    requires 0 <= intent.value && (intent.Revoke? ==> intent.value == 0)
    requires Answers(WireIntent(intent).fields, g)
    ensures ReadIntent(JObject(g)) == Some(NormalIntent(intent))
  {
    HeadAnswers(intent, g);
    match intent {
      case Transfer(token, receiver, value) => TransferAnswers(token, receiver, value, g);
      case Execute(target, calldata, value) => ExecuteAnswers(target, calldata, value, g);
      case DepositBack(token, fastReceiver, value) => DepositBackAnswers(token, fastReceiver, value, g);
      case Revoke(_) => RevokeAnswers(g);
    }
  }

  /** An intent printed and parsed again reads as the intent in normal form. */
  lemma {:induction false} IntentReadsBack(intent: Intent, isFast: Text -> bool)
    requires ValidIntent(intent, isFast)
    ensures ReadIntent(Arranged(WireIntent(intent), INTENT_ORDER)) == Some(NormalIntent(intent))
  {
    var v := WireIntent(intent);
    IntentKeys();
    WireIntentShape(intent);
    RecordAnswers(v, INTENT_ORDER);
    IntentAnswers(intent, Arranged(v, INTENT_ORDER).fields);
  }

  predicate ReadsAs(item: Json, intent: Intent) { ReadIntent(item) == Some(intent) }

  lemma {:induction false} ReadIntentsStep(item: Json, items: seq<Json>, intent: Intent, rest: seq<Intent>)
    requires ReadsAs(item, intent) && ReadIntents(items) == Some(rest)
    ensures ReadIntents([item] + items) == Some([intent] + rest)
  {
    assert ([item] + items)[1..] == items;
  }

  lemma {:induction false} ReadIntentsAt(items: seq<Json>, intents: seq<Intent>)
    requires |items| == |intents| && forall i :: 0 <= i < |items| ==> ReadsAs(items[i], intents[i])
    ensures ReadIntents(items) == Some(intents)
  {
    hide ReadsAs, ReadIntent;
    if items != [] {
      var more, rest := items[1..], intents[1..];
      forall i | 0 <= i < |more| ensures ReadsAs(more[i], rest[i]) {
        assert ReadsAs(items[i + 1], intents[i + 1]);
      }
      ReadIntentsAt(more, rest);
      ReadIntentsStep(items[0], more, intents[0], rest);
      assert items == [items[0]] + more && intents == [intents[0]] + rest;
    }
  }

  lemma {:induction false} IntentsReadBack(intents: seq<Intent>, isFast: Text -> bool)
    requires ValidIntents(intents, isFast)
    ensures var v := Arranged(JArray(WireIntents(intents)), INTENTS_ORDER);
      v.JArray? && ReadIntents(v.items) == Some(NormalIntents(intents))
  {
    LayoutOrder();
    var w := JArray(WireIntents(intents));
    var items := Arranged(w, INTENTS_ORDER).items;
    assert items == ArrangedItems(w, 0, INTENT_ORDER);
    forall i | 0 <= i < |items| ensures ReadsAs(items[i], NormalIntents(intents)[i]) {
      assert items[i] == Arranged(w.items[0 + i], INTENT_ORDER);
      IntentReadsBack(intents[i], isFast);
    }
    ReadIntentsAt(items, NormalIntents(intents));
  }

  // ----- display -----

  lemma {:induction false} WireDisplayShape(d: Display)
    ensures var v := WireDisplay(d); Sound(v) && AllStrings(v.fields) && Placed(v.fields, DISPLAY_ORDER.names)
  {
    IntentKeys();
    var names := DISPLAY_ORDER.names;
    assert names[0] == AMOUNT && names[1] == TOKEN_SYMBOL && names[2] == TOKEN_DECIMALS;
    assert AMOUNT in names && TOKEN_SYMBOL in names && TOKEN_DECIMALS in names;
  }

  lemma {:induction false} DisplayAnswers(d: Display, g: seq<Field<Json>>)
    requires ValidDisplay(d) && Answers(WireDisplay(d).fields, g)
    ensures ReadDisplay(JObject(g)) == Some(d)
  {
    var f := WireDisplay(d).fields;
    AnswersKeys(f, g, [AMOUNT, TOKEN_SYMBOL, TOKEN_DECIMALS]);
    NumberReadsBack(d.amount);
    NumberReadsBack(d.tokenDecimals);
    assert f[0].key == AMOUNT && f[1].key == TOKEN_SYMBOL && f[2].key == TOKEN_DECIMALS;
  }

  lemma {:induction false} DisplayReadsBack(d: Display)
    requires ValidDisplay(d)
    ensures ReadDisplay(Arranged(WireDisplay(d), DISPLAY_ORDER)) == Some(d)
  {
    var v := WireDisplay(d);
    IntentKeys();
    WireDisplayShape(d);
    RecordAnswers(v, DISPLAY_ORDER);
    DisplayAnswers(d, Arranged(v, DISPLAY_ORDER).fields);
  }

  // ----- whole claims -----

  lemma {:induction false} WireKeys(c: Claim)
    ensures var f := Wire(c).fields;
      |f| == (if c.display.Some? then 8 else 7) && forall i :: 0 <= i < |f| ==> f[i].key == TOP_KEYS[i]
  {
  }

  lemma {:induction false} WireSound(c: Claim)
    ensures forall i :: 0 <= i < |Wire(c).fields| ==> Sound(Wire(c).fields[i].value)
  {
    var f := Wire(c).fields;
    forall i | 0 <= i < |c.intents| ensures Sound(WireIntents(c.intents)[i]) {
      WireIntentShape(c.intents[i]);
    }
    assert Sound(f[6].value);
    if c.display.Some? {
      WireDisplayShape(c.display.value);
      assert f[7].value == WireDisplay(c.display.value);
    }
  }

  lemma {:induction false} WireShape(c: Claim)
    ensures var v := Wire(c);
      && Sound(v) && OnlyKeys(v.fields, TOP_KEYS)
      && Placed(v.fields, KeyOrder(v.fields, LAYOUT))
      && (c.display.None? ==> !HasKey(v.fields, DISPLAY))
  {
    TopKeys();
    LayoutOrder();
    var v := Wire(c);
    WireKeys(c);
    WireSound(c);
    assert forall i :: 0 <= i < 8 ==> TOP_KEYS[i] in TOP_KEYS;
    assert TOP_KEYS[7] == DISPLAY;
  }

  lemma {:induction false} IntentListReadsBack(c: Claim, isFast: Text -> bool)
    requires Valid(c, isFast)
    ensures ReadIntentList(Arranged(Wire(c), LAYOUT).fields) == Some(NormalIntents(c.intents))
  {
    WireShape(c);
    LayoutOrder();
    assert Wire(c).fields[6] == Field(INTENTS, JArray(WireIntents(c.intents)));
    RecordReads(Wire(c), LAYOUT, 6);
    IntentsReadBack(c.intents, isFast);
  }

  lemma {:induction false} OptionalDisplayReadsBack(c: Claim, isFast: Text -> bool)
    requires Valid(c, isFast)
    ensures ReadOptionalDisplay(Arranged(Wire(c), LAYOUT).fields) == Some(c.display)
  {
    WireShape(c);
    LayoutOrder();
    if c.display.Some? {
      assert Wire(c).fields[7] == Field(DISPLAY, WireDisplay(c.display.value));
      RecordReads(Wire(c), LAYOUT, 7);
      DisplayReadsBack(c.display.value);
    } else {
      ArrangedLookup(Wire(c), LAYOUT, DISPLAY);
    }
  }

  lemma {:induction false} AnswerAt(f: seq<Field<Json>>, g: seq<Field<Json>>, i: nat, key: Text, text: Text)
    requires Answers(f, g) && i < |f| && f[i] == Str(key, text)
    ensures IntentCodec.ReadString(g, key) == Some(text)
  {
  }

  lemma {:induction false} ScalarAnswers(c: Claim, g: seq<Field<Json>>)
    requires Answers(Wire(c).fields, g)
    ensures IntentCodec.ReadString(g, SCHEMA_KEY) == Some(c.schema)
    ensures IntentCodec.ReadString(g, KIND) == Some(c.kind)
    ensures IntentCodec.ReadString(g, CHAIN) == Some(c.chain)
    ensures IntentCodec.ReadString(g, BRIDGE) == Some(Lower(c.bridge))
    ensures IntentCodec.ReadString(g, TRANSFER_TX) == Some(Lower(c.transferTx))
    ensures IntentCodec.ReadString(g, DEADLINE) == Some(PrintUint(c.deadline))
  {
    hide IntentCodec.ReadString, PrintUint, Lower;
    var f := Wire(c).fields;
    AnswerAt(f, g, 0, SCHEMA_KEY, c.schema);
    AnswerAt(f, g, 1, KIND, c.kind);
    AnswerAt(f, g, 2, CHAIN, c.chain);
    AnswerAt(f, g, 3, BRIDGE, Lower(c.bridge));
    AnswerAt(f, g, 4, TRANSFER_TX, Lower(c.transferTx));
    AnswerAt(f, g, 5, DEADLINE, PrintUint(c.deadline));
  }

  /** The wire record of a valid claim, printed and parsed again, reads as the claim in normal form. */
  lemma {:induction false} ClaimReadsBack(c: Claim, isFast: Text -> bool)
    requires Valid(c, isFast)
    ensures ReadClaim(Arranged(Wire(c), LAYOUT)) == Some(Normal(c))
  {
    WireShape(c);
    LayoutOrder();
    RecordAnswers(Wire(c), LAYOUT);
    var g := Arranged(Wire(c), LAYOUT).fields;
    ScalarAnswers(c, g);
    AnswersKeys(Wire(c).fields, g, TOP_KEYS);
    NumberReadsBack(c.deadline);
    IntentListReadsBack(c, isFast);
    OptionalDisplayReadsBack(c, isFast);
  }

  // ----- the theorems -----

  /** Decoding an encoding succeeds and gives the claim with its hex fields in lower case. */
  lemma {:induction false} DecodeEncode(c: Claim, isFast: Text -> bool)
    requires Encode(c, isFast).Some?
    ensures Decode(Encode(c, isFast).value, isFast) == Some(Normal(c))
  {
    var text := Write(Wire(c), LAYOUT, 0).value;
    WireShape(c);
    LayoutOrder();
    DocumentReadsBack(Wire(c), LAYOUT);
    WrittenWellFormed(Wire(c), LAYOUT, 0);
    WrittenStart(Wire(c), LAYOUT, 0);
    Utf8RoundTrip(text);
    ClaimReadsBack(c, isFast);
    NormalSame(c, isFast);
  }

  /** Every accepted document is the encoding of the claim it is read as, and that claim is in normal form. */
  lemma {:induction false} AcceptedIsCanonical(bytes: seq<Byte>, isFast: Text -> bool)
    requires Decode(bytes, isFast).Some?
    ensures var c := Decode(bytes, isFast).value; Encode(c, isFast) == Some(bytes) && Normal(c) == c
  {
    DecodeEncode(Decode(bytes, isFast).value, isFast);
  }

  /** A claim has at most one accepted document, and exactly one if it is in normal form and can be encoded. */
  lemma {:induction false} OneDocumentPerClaim(c: Claim, bytes: seq<Byte>, isFast: Text -> bool)
    ensures Decode(bytes, isFast) == Some(c) <==> Encode(c, isFast) == Some(bytes) && Normal(c) == c
  {
    if Decode(bytes, isFast) == Some(c) {
      AcceptedIsCanonical(bytes, isFast);
    }
    if Encode(c, isFast) == Some(bytes) {
      DecodeEncode(c, isFast);
    }
  }

  /** Claims that differ after normalisation have different bytes; claims that do not have the same. */
  lemma {:induction false} EncodeInjective(c: Claim, d: Claim, isFast: Text -> bool)
    requires Encode(c, isFast).Some? && Encode(d, isFast).Some?
    ensures Encode(c, isFast) == Encode(d, isFast) <==> Normal(c) == Normal(d)
  {
    DecodeEncode(c, isFast);
    DecodeEncode(d, isFast);
    NormalSame(c, isFast);
    NormalSame(d, isFast);
  }

  // ----- when encoding succeeds -----

  lemma {:induction false} NumberPrints(n: int)
    ensures WellFormed(PrintUint(n))
  {
    LiteralWellFormed(if n < 0 then "-" + ToDecimal(-n) else ToDecimal(n));
  }

  /** An object of strings with a place for each key prints if all its texts do. */
  lemma {:induction false} StringsPrint(v: Json, order: Layout)
    requires v.JObject? && AllStrings(v.fields) && Placed(v.fields, KeyOrder(v.fields, order))
    requires forall i :: 0 <= i < |v.fields| ==> WellFormed(v.fields[i].key) && WellFormed(v.fields[i].value.text)
    ensures Printable(v, order)
  {
  }

  lemma {:induction false} WireIntentPrints(intent: Intent, isFast: Text -> bool)
    requires ValidIntent(intent, isFast) && FastIsAscii(isFast)
    ensures Printable(WireIntent(intent), INTENT_ORDER)
  {
    WireIntentShape(intent);
    NumberPrints(intent.value);
    match intent {
      case Transfer(token, receiver, _) => HexIsAscii(Lower(token)); HexIsAscii(Lower(receiver));
      case Execute(target, calldata, _) => HexIsAscii(Lower(target)); HexIsAscii(Lower(calldata));
      case DepositBack(token, fastReceiver, _) => HexIsAscii(Lower(token)); AsciiWellFormed(fastReceiver);
      case Revoke(_) =>
    }
    StringsPrint(WireIntent(intent), INTENT_ORDER);
  }

  lemma {:induction false} WireDisplayPrints(d: Display)
    ensures Printable(WireDisplay(d), DISPLAY_ORDER) <==> WellFormed(d.tokenSymbol)
  {
    WireDisplayShape(d);
    NumberPrints(d.amount);
    NumberPrints(d.tokenDecimals);
    var f := WireDisplay(d).fields;
    assert f[0] == Str(AMOUNT, PrintUint(d.amount)) && f[2] == Str(TOKEN_DECIMALS, PrintUint(d.tokenDecimals));
    assert f[1] == Str(TOKEN_SYMBOL, d.tokenSymbol);
    assert Placed(f, KeyOrder(f, DISPLAY_ORDER));
  }

  predicate SymbolPrints(c: Claim) {
    c.display.Some? ==> WellFormed(c.display.value.tokenSymbol)
  }

  lemma {:induction false} KindPrints(c: Claim, isFast: Text -> bool)
    requires Valid(c, isFast)
    ensures WellFormed(c.kind) && WellFormed(c.chain)
  {
    var s := DigitText(c.chain[|CHAIN_PREFIX|..]).value;
    assert c.chain == CHAIN_PREFIX + c.chain[|CHAIN_PREFIX|..];
    assert forall i :: 0 <= i < |s| ==> c.chain[|CHAIN_PREFIX| + i] == c.chain[|CHAIN_PREFIX|..][i];
  }

  lemma {:induction false} IntentsPrint(intents: seq<Intent>, isFast: Text -> bool)
    requires ValidIntents(intents, isFast) && FastIsAscii(isFast)
    ensures Printable(JArray(WireIntents(intents)), INTENTS_ORDER)
  {
    LayoutOrder();
    forall i | 0 <= i < |intents| ensures Printable(WireIntents(intents)[i], INTENT_ORDER) {
      WireIntentPrints(intents[i], isFast);
    }
  }

  predicate PrintsUnder(f: Field<Json>, order: Layout) {
    WellFormed(f.key) && Printable(f.value, Below(order, f.key))
  }

  lemma {:induction false} TextPrints(key: Text, text: Text, order: Layout)
    requires WellFormed(key) && WellFormed(text)
    ensures PrintsUnder(Str(key, text), order)
  {
  }

  lemma {:induction false} ScalarsPrint(c: Claim, isFast: Text -> bool)
    requires Valid(c, isFast)
    ensures forall i :: 0 <= i < 6 ==> PrintsUnder(Wire(c).fields[i], LAYOUT)
  {
    KindPrints(c, isFast);
    NumberPrints(c.deadline);
    HexIsAscii(Lower(c.bridge));
    HexIsAscii(Lower(c.transferTx));
    var f := Wire(c).fields;
    TextPrints(SCHEMA_KEY, c.schema, LAYOUT);
    TextPrints(KIND, c.kind, LAYOUT);
    TextPrints(CHAIN, c.chain, LAYOUT);
    TextPrints(BRIDGE, Lower(c.bridge), LAYOUT);
    TextPrints(TRANSFER_TX, Lower(c.transferTx), LAYOUT);
    TextPrints(DEADLINE, PrintUint(c.deadline), LAYOUT);
    assert f[0] == Str(SCHEMA_KEY, c.schema) && f[1] == Str(KIND, c.kind) && f[2] == Str(CHAIN, c.chain);
    assert f[3] == Str(BRIDGE, Lower(c.bridge)) && f[4] == Str(TRANSFER_TX, Lower(c.transferTx));
    assert f[5] == Str(DEADLINE, PrintUint(c.deadline));
  }

  lemma {:induction false} ListsPrint(c: Claim, isFast: Text -> bool)
    requires Valid(c, isFast) && FastIsAscii(isFast)
    ensures PrintsUnder(Wire(c).fields[6], LAYOUT)
    ensures c.display.Some? ==> (PrintsUnder(Wire(c).fields[7], LAYOUT) <==> SymbolPrints(c))
  {
    LayoutOrder();
    IntentsPrint(c.intents, isFast);
    var f := Wire(c).fields;
    assert f[6] == Field(INTENTS, JArray(WireIntents(c.intents)));
    if c.display.Some? {
      WireDisplayPrints(c.display.value);
      assert f[7] == Field(DISPLAY, WireDisplay(c.display.value));
    }
  }

  lemma {:induction false} PrintableByField(v: Json, order: Layout)
    requires v.JObject? && Placed(v.fields, KeyOrder(v.fields, order))
    ensures Printable(v, order) <==> forall i :: 0 <= i < |v.fields| ==> PrintsUnder(v.fields[i], order)
  {
  }

  lemma {:induction false} WirePrints(c: Claim, isFast: Text -> bool)
    requires Valid(c, isFast) && FastIsAscii(isFast)
    ensures Printable(Wire(c), LAYOUT) <==> SymbolPrints(c)
  {
    WireShape(c);
    ScalarsPrint(c, isFast);
    ListsPrint(c, isFast);
    PrintableByField(Wire(c), LAYOUT);
  }

  /** A valid claim fails to encode only for a symbol with a lone surrogate or a document over the limit. */
  lemma {:induction false} EncodesExactlyWhen(c: Claim, isFast: Text -> bool)
    requires Valid(c, isFast) && FastIsAscii(isFast)
    ensures Write(Wire(c), LAYOUT, 0).Some? <==> SymbolPrints(c)
    ensures Encode(c, isFast).Some? <==> SymbolPrints(c) && Size(Write(Wire(c), LAYOUT, 0).value) <= MAX_BYTES
  {
    WireShape(c);
    WirePrints(c, isFast);
    PrintsExactlyPrintable(Wire(c), LAYOUT, 0);
  }
}
