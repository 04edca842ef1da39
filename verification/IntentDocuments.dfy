/**
 The `allset/intent/v1` document as a grammar over parsed JSON, in literal keys, action names, kinds and bounds: a
 claim is valid exactly if its wire record is in the grammar, and a document is accepted exactly if it is the canonical
 print of a record in the grammar.
*/
module IntentDocuments {
  import opened Options
  import opened DecimalText
  import opened Decimals
  import opened Utf16
  import opened JsonDocuments
  import opened Records
  import opened JsonPrinting
  import opened IntentCodec
  import opened IntentRoundTrip
  import opened IntentPrepare

  // ----- the grammar -----

  predicate IsText(f: Field<Json>, key: string) { f.key == Ascii(key) && f.value.JString? }

  predicate IsConstant(f: Field<Json>, key: string, text: string) { IsText(f, key) && f.value.text == Ascii(text) }

  predicate HexDigits(t: Text, digits: nat) {
    && |t| == 2 + digits && t[0] == 0x30 && t[1] == 0x78
    && forall i :: 2 <= i < |t| ==> 0x30 <= t[i] <= 0x39 || 0x61 <= t[i] <= 0x66
  }

  predicate IsHexText(f: Field<Json>, key: string, digits: nat) { IsText(f, key) && HexDigits(f.value.text, digits) }

  ghost predicate DecimalUpTo(t: Text, max: nat) {
    exists n: nat :: n <= max && t == Ascii(ToDecimal(n))
  }

  ghost predicate IsDecimal(f: Field<Json>, key: string, max: nat) {
    IsText(f, key) && DecimalUpTo(f.value.text, max)
  }

  const WORD_MAX := 115792089237316195423570985008687907853269984665640564039457584007913129639935

  ghost predicate IsTransfer(v: Json) {
    && v.JObject? && |v.fields| == 4
    && IsConstant(v.fields[0], "action", "transfer")
    && IsHexText(v.fields[1], "token", 40)
    && IsHexText(v.fields[2], "receiver", 40)
    && IsDecimal(v.fields[3], "value", WORD_MAX)
  }

  ghost predicate IsExecute(v: Json) {
    && v.JObject? && |v.fields| == 4
    && IsConstant(v.fields[0], "action", "execute")
    && IsHexText(v.fields[1], "target", 40)
    && IsText(v.fields[2], "calldata")
    && (exists n: nat :: HexDigits(v.fields[2].value.text, 2 * n))
    && IsDecimal(v.fields[3], "value", WORD_MAX)
  }

  ghost predicate IsDepositBack(v: Json, isFast: Text -> bool) {
    && v.JObject? && |v.fields| == 4
    && IsConstant(v.fields[0], "action", "deposit_back")
    && IsHexText(v.fields[1], "token", 40)
    && IsText(v.fields[2], "fast_receiver") && isFast(v.fields[2].value.text)
    && IsDecimal(v.fields[3], "value", WORD_MAX)
  }

  predicate IsRevoke(v: Json) {
    && v.JObject? && |v.fields| == 2
    && IsConstant(v.fields[0], "action", "revoke")
    && IsConstant(v.fields[1], "value", "0")
  }

  ghost predicate IsIntent(v: Json, isFast: Text -> bool) {
    IsTransfer(v) || IsExecute(v) || IsDepositBack(v, isFast) || IsRevoke(v)
  }

  /** One intent is described by its action, two or more are a batch, and a batch revokes nothing. */
  ghost predicate KindDescribes(kind: Text, items: seq<Json>, isFast: Text -> bool) {
    || (|items| == 1 && IsTransfer(items[0]) && kind == Ascii("withdraw"))
    || (|items| == 1 && IsExecute(items[0]) && kind == Ascii("execute"))
    || (|items| == 1 && IsDepositBack(items[0], isFast) && kind == Ascii("deposit_back"))
    || (|items| == 1 && IsRevoke(items[0]) && kind == Ascii("revoke"))
    || (|items| >= 2 && (forall i :: 0 <= i < |items| ==> !IsRevoke(items[i])) && kind == Ascii("batch"))
  }

  ghost predicate IsDisplay(v: Json) {
    && v.JObject? && |v.fields| == 3
    && IsDecimal(v.fields[0], "amount", WORD_MAX)
    && IsText(v.fields[1], "token_symbol") && 1 <= |Utf8(v.fields[1].value.text)| <= 16
    && IsDecimal(v.fields[2], "token_decimals", 99)
  }

  ghost predicate IsChainName(t: Text) {
    exists id: nat :: id <= 9_999_999_999_999 && t == Ascii("eip155:") + Ascii(ToDecimal(id))
  }

  ghost predicate IsHead(f: seq<Field<Json>>) {
    && |f| >= 6
    && IsConstant(f[0], "schema", "allset/intent/v1")
    && IsText(f[1], "kind")
    && IsText(f[2], "chain") && IsChainName(f[2].value.text)
    && IsHexText(f[3], "bridge", 40)
    && IsHexText(f[4], "transfer_tx", 64)
    && IsDecimal(f[5], "deadline", 18446744073709551615)
  }

  ghost predicate IsIntents(f: Field<Json>, isFast: Text -> bool) {
    && f.key == Ascii("intents") && f.value.JArray?
    && forall i :: 0 <= i < |f.value.items| ==> IsIntent(f.value.items[i], isFast)
  }

  ghost predicate IsDocument(v: Json, isFast: Text -> bool) {
    && v.JObject? && (|v.fields| == 7 || |v.fields| == 8)
    && IsHead(v.fields)
    && IsIntents(v.fields[6], isFast)
    && KindDescribes(v.fields[1].value.text, v.fields[6].value.items, isFast)
    && (|v.fields| == 8 ==> v.fields[7].key == Ascii("display") && IsDisplay(v.fields[7].value))
  }

  // ----- leaves -----

  lemma {:induction false} PrintsDecimal(n: int, max: nat)
    ensures DecimalUpTo(PrintUint(n), max) <==> 0 <= n <= max
  {
    if n < 0 {
      assert PrintUint(n)[0] == '-' as int;
    } else {
      NumberReadsBack(n);
      if DecimalUpTo(PrintUint(n), max) {
        var m: nat :| m <= max && PrintUint(n) == Ascii(ToDecimal(m));
        NumberReadsBack(m);
      }
    }
  }

  lemma {:induction false} DecimalReads(t: Text, max: nat)
    requires DecimalUpTo(t, max)
    ensures ReadUint(t).Some? && ReadUint(t).value <= max && PrintUint(ReadUint(t).value) == t
  {
    var n: nat :| n <= max && t == Ascii(ToDecimal(n));
    NumberReadsBack(n);
  }

  lemma {:induction false} PrintsHex(t: Text, digits: nat)
    ensures HexDigits(Lower(t), digits) <==> IsHex(Lower(t)) && |t| == 2 + digits
  {
  }

  lemma {:induction false} PrintsHexBytes(t: Text)
    ensures (exists n: nat :: HexDigits(Lower(t), 2 * n)) <==> IsHexBytes(t)
  {
    if IsHexBytes(t) {
      PrintsHex(t, 2 * ((|t| - 2) / 2));
    }
  }

  /** Hex digits of the grammar are in lower case already. */
  lemma {:induction false} HexIsLower(t: Text, digits: nat)
    requires HexDigits(t, digits)
    ensures Lower(t) == t
  {
  }

  /** Hex is accepted in either case, the letter x included, and is printed in lower case. */
  lemma {:induction false} HexInEitherCase(t: Text, digits: nat)
    ensures HexDigits(Lower(t), digits) <==>
      && |t| == 2 + digits && t[0] == 0x30 && (t[1] == 0x78 || t[1] == 0x58)
      && forall i :: 2 <= i < |t| ==> 0x30 <= t[i] <= 0x39 || 0x61 <= t[i] <= 0x66 || 0x41 <= t[i] <= 0x46
    ensures forall i :: 0 <= i < |t| ==> Lower(t)[i] == if 0x41 <= t[i] <= 0x5A then t[i] + 0x20 else t[i]
  {
    if |t| == 2 + digits {
      assert forall i :: 2 <= i < |t| ==> Lower(t)[i] == LowerUnit(t[i]);
    }
  }

  lemma {:induction false} ChainNames(t: Text)
    ensures IsChainName(t) <==> IsChain(t)
  {
    if IsChainName(t) {
      var id: nat :| id <= 9_999_999_999_999 && t == Ascii("eip155:") + Ascii(ToDecimal(id));
      DecimalIsAscii(id);
      NumberReadsBack(id);
      assert t[|CHAIN_PREFIX|..] == PrintUint(id);
    }
    if IsChain(t) {
      var digits := t[|CHAIN_PREFIX|..];
      ReadUintPrints(digits);
      DecimalIsAscii(ReadUint(digits).value);
      assert t == CHAIN_PREFIX + digits;
    }
  }

  // ----- intents -----

  lemma {:induction false} Actions(v: Json, isFast: Text -> bool)
    ensures IsTransfer(v) ==> !IsExecute(v) && !IsDepositBack(v, isFast) && !IsRevoke(v)
    ensures IsExecute(v) ==> !IsDepositBack(v, isFast) && !IsRevoke(v)
    ensures IsDepositBack(v, isFast) ==> !IsRevoke(v)
  {
    assert |Ascii("transfer")| == 8 && |Ascii("execute")| == 7;
    assert |Ascii("deposit_back")| == 12 && |Ascii("revoke")| == 6;
  }

  /** Which rule of the grammar the record of an intent is under is decided by the intent's constructor. */
  lemma {:induction false} IntentRule(intent: Intent, isFast: Text -> bool)
    ensures var v := WireIntent(intent);
      && (IsTransfer(v) ==> intent.Transfer?)
      && (IsExecute(v) ==> intent.Execute?)
      && (IsDepositBack(v, isFast) ==> intent.DepositBack?)
      && (IsRevoke(v) <==> intent.Revoke?)
  {
    assert |Ascii("transfer")| == 8 && |Ascii("execute")| == 7;
    assert |Ascii("deposit_back")| == 12 && |Ascii("revoke")| == 6;
  }

  lemma {:induction false} TransferRule(token: Text, receiver: Text, value: int, isFast: Text -> bool)
    ensures var i := Transfer(token, receiver, value); ValidIntent(i, isFast) <==> IsTransfer(WireIntent(i))
  {
    PrintsHex(token, 40);
    PrintsHex(receiver, 40);
    PrintsDecimal(value, WORD_MAX);
  }

  lemma {:induction false} ExecuteRule(target: Text, calldata: Text, value: int, isFast: Text -> bool)
    ensures var i := Execute(target, calldata, value); ValidIntent(i, isFast) <==> IsExecute(WireIntent(i))
  {
    PrintsHex(target, 40);
    PrintsHexBytes(calldata);
    PrintsDecimal(value, WORD_MAX);
  }

  lemma {:induction false} DepositBackRule(token: Text, fastReceiver: Text, value: int, isFast: Text -> bool)
    ensures var i := DepositBack(token, fastReceiver, value);
      ValidIntent(i, isFast) <==> IsDepositBack(WireIntent(i), isFast)
  {
    PrintsHex(token, 40);
    PrintsDecimal(value, WORD_MAX);
  }

  /** The number of a revocation is not printed, so the grammar cannot see it. */
  predicate RevokesNothing(intent: Intent) { intent.Revoke? ==> intent.value == 0 }

  lemma {:induction false} IntentInGrammar(intent: Intent, isFast: Text -> bool)
    ensures ValidIntent(intent, isFast) <==> IsIntent(WireIntent(intent), isFast) && RevokesNothing(intent)
  {
    IntentRule(intent, isFast);
    hide IsTransfer, IsExecute, IsDepositBack, IsRevoke;
    match intent {
      case Transfer(token, receiver, value) => TransferRule(token, receiver, value, isFast);
      case Execute(target, calldata, value) => ExecuteRule(target, calldata, value, isFast);
      case DepositBack(token, fastReceiver, value) => DepositBackRule(token, fastReceiver, value, isFast);
      case Revoke(_) =>
    }
  }

  lemma {:induction false} DisplayInGrammar(d: Display)
    ensures ValidDisplay(d) <==> IsDisplay(WireDisplay(d))
  {
    PrintsDecimal(d.amount, WORD_MAX);
    PrintsDecimal(d.tokenDecimals, 99);
    assert d.tokenSymbol != [] ==> |Utf8(d.tokenSymbol)| >= 1;
  }

  // ----- claims -----

  lemma {:induction false} KindRule(kind: Text, intents: seq<Intent>, isFast: Text -> bool)
    requires forall i :: 0 <= i < |intents| ==> ValidIntent(intents[i], isFast)
    ensures KindDescribes(kind, WireIntents(intents), isFast)
       <==> ValidIntents(intents, isFast) && DerivedKind(intents) == Some(kind)
  {
    hide IsTransfer, IsExecute, IsDepositBack, IsRevoke, ValidIntent;
    forall i | 0 <= i < |intents|
      ensures IsRevoke(WireIntents(intents)[i]) <==> intents[i].Revoke?
      ensures IsIntent(WireIntents(intents)[i], isFast)
    {
      IntentRule(intents[i], isFast);
      IntentInGrammar(intents[i], isFast);
    }
    if |intents| == 1 { IntentRule(intents[0], isFast); }
  }

  lemma {:induction false} HeadRule(c: Claim)
    ensures IsHead(Wire(c).fields) <==>
      && c.schema == SCHEMA && IsChain(c.chain) && IsHex20(c.bridge) && IsHex32(c.transferTx)
      && 0 <= c.deadline <= U64_MAX
  {
    hide IsChain, IsChainName, PrintUint, DecimalUpTo, Lower, HexDigits, IsHex;
    var f := Wire(c).fields;
    ChainNames(c.chain);
    PrintsHex(c.bridge, 40);
    PrintsHex(c.transferTx, 64);
    PrintsDecimal(c.deadline, U64_MAX);
    assert f[0] == Str(SCHEMA_KEY, c.schema) && f[1] == Str(KIND, c.kind) && f[2] == Str(CHAIN, c.chain);
    assert f[3] == Str(BRIDGE, Lower(c.bridge)) && f[4] == Str(TRANSFER_TX, Lower(c.transferTx));
    assert f[5] == Str(DEADLINE, PrintUint(c.deadline));
  }

  /** A claim is valid exactly if its wire record is in the grammar and no revocation carries a value. */
  lemma {:induction false} ClaimInGrammar(c: Claim, isFast: Text -> bool)
    ensures Valid(c, isFast) <==>
      IsDocument(Wire(c), isFast) && forall i :: 0 <= i < |c.intents| ==> RevokesNothing(c.intents[i])
  {
    hide IsHead, IsIntent, KindDescribes, ValidIntent, IsDisplay, ValidDisplay;
    HeadRule(c);
    var f := Wire(c).fields;
    assert f[1] == Str(KIND, c.kind) && f[6] == Field(INTENTS, JArray(WireIntents(c.intents)));
    forall i | 0 <= i < |c.intents|
      ensures ValidIntent(c.intents[i], isFast)
         <==> IsIntent(WireIntents(c.intents)[i], isFast) && RevokesNothing(c.intents[i])
    {
      IntentInGrammar(c.intents[i], isFast);
    }
    if forall i :: 0 <= i < |c.intents| ==> ValidIntent(c.intents[i], isFast) {
      KindRule(c.kind, c.intents, isFast);
    }
    if c.display.Some? {
      assert f[7] == Field(DISPLAY, WireDisplay(c.display.value));
      DisplayInGrammar(c.display.value);
    }
  }

  // ----- the record in its order -----

  /** The keys are among the names, in the names' order. */
  predicate InOrder(keys: seq<Text>, names: seq<Text>) {
    if keys == [] then true
    else if names == [] then false
    else if keys[0] == names[0] then InOrder(keys[1..], names[1..])
    else InOrder(keys, names[1..])
  }

  lemma {:induction false} InOrderPlaced(keys: seq<Text>, names: seq<Text>, key: Text)
    requires InOrder(keys, names) && key in keys
    ensures key in names
  {
    if keys[0] != names[0] {
      InOrderPlaced(keys, names[1..], key);
    } else if key != keys[0] {
      InOrderPlaced(keys[1..], names[1..], key);
    }
  }

  /** Keys at increasing places of the names, from a place on, are in order there. */
  lemma {:induction false} InOrderAt(keys: seq<Text>, names: seq<Text>, places: seq<nat>, from: nat)
    requires Distinct(names) && from <= |names| && |places| == |keys|
    requires forall i :: 0 <= i < |places| ==> from <= places[i] < |names| && keys[i] == names[places[i]]
    requires forall i, j :: 0 <= i < j < |places| ==> places[i] < places[j]
    ensures InOrder(keys, names[from..])
    decreases |names| - from
  {
    if keys != [] {
      assert from <= places[0] < |names|;
      assert names[from..][1..] == names[from + 1..];
      if places[0] == from {
        InOrderAt(keys[1..], names, places[1..], from + 1);
      } else {
        InOrderAt(keys, names, places, from + 1);
      }
    }
  }

  lemma {:induction false} PresentInOrder(fields: seq<Field<Json>>, keys: seq<Text>, names: seq<Text>)
    requires Distinct(names) && InOrder(keys, names)
    requires forall n :: n in names ==> (HasKey(fields, n) <==> n in keys)
    ensures Present(names, fields) == keys
  {
    if names != [] {
      assert names[0] !in names[1..];
      var rest := if keys != [] && keys[0] == names[0] then keys[1..] else keys;
      assert keys == (if keys != [] && keys[0] == names[0] then [names[0]] else []) + rest;
      if names[0] in rest { InOrderPlaced(rest, names[1..], names[0]); }
      PresentInOrder(fields, rest, names[1..]);
    }
  }

  lemma {:induction false} FieldArranged(v: Json, order: Layout, i: nat)
    requires v.JObject? && DistinctKeys(v.fields) && PresentKeys(v, order) == KeysOf(v.fields) && i < |v.fields|
    ensures Arranged(v, order).fields[i]
         == Field(v.fields[i].key, Arranged(v.fields[i].value, Below(order, v.fields[i].key)))
  {
    LookupAt(v.fields, i);
  }

  lemma {:induction false} AllPresent(f: seq<Field<Json>>, names: seq<Text>)
    requires Distinct(names) && InOrder(KeysOf(f), names)
    ensures Present(names, f) == KeysOf(f)
  {
    hide InOrder;
    forall n | n in names ensures HasKey(f, n) <==> n in KeysOf(f) {
      if n in KeysOf(f) {
        var i :| 0 <= i < |f| && KeysOf(f)[i] == n;
        assert f[i].key == n;
      }
      if HasKey(f, n) {
        assert KeysOf(f)[IndexOf(f, n)] == n;
      }
    }
    PresentInOrder(f, KeysOf(f), names);
  }

  /** An object whose fields are in layout order, at every depth, is what its print reads back as. */
  lemma {:induction false} ArrangedInOrder(v: Json, order: Layout)
    requires v.JObject? && DistinctKeys(v.fields)
    requires Distinct(KeyOrder(v.fields, order)) && InOrder(KeysOf(v.fields), KeyOrder(v.fields, order))
    requires forall i :: 0 <= i < |v.fields|
               ==> Arranged(v.fields[i].value, Below(order, v.fields[i].key)) == v.fields[i].value
    ensures Arranged(v, order) == v
  {
    hide InOrder, Present, KeyOrder, Below;
    AllPresent(v.fields, KeyOrder(v.fields, order));
    forall i | 0 <= i < |v.fields| ensures Arranged(v, order).fields[i] == v.fields[i] {
      FieldArranged(v, order, i);
    }
    assert Arranged(v, order).fields == v.fields;
  }

  /** The keys of an object of strings, at increasing places of the names. */
  lemma {:induction false} StringsInOrder(v: Json, order: Layout, places: seq<nat>)
    requires v.JObject? && AllStrings(v.fields) && DistinctKeys(v.fields) && order.Names? && Distinct(order.names)
    requires |places| == |v.fields|
    requires forall i :: 0 <= i < |places| ==> places[i] < |order.names| && v.fields[i].key == order.names[places[i]]
    requires forall i, j :: 0 <= i < j < |places| ==> places[i] < places[j]
    ensures Arranged(v, order) == v
  {
    InOrderAt(KeysOf(v.fields), order.names, places, 0);
    assert order.names[0..] == order.names;
    ArrangedInOrder(v, order);
  }

  /** Four strings under the first name, two in between, and the last name. */
  lemma {:induction false} FourInOrder(a: Text, b: Text, c: Text, d: Text, j: nat, k: nat)
    requires 0 < j < k < 6 && Distinct(INTENT_ORDER.names)
    ensures var n := INTENT_ORDER.names;
      var v := JObject([Str(n[0], a), Str(n[j], b), Str(n[k], c), Str(n[6], d)]);
      Arranged(v, INTENT_ORDER) == v
  {
    hide Arranged;
    var n, places := INTENT_ORDER.names, [0, j, k, 6];
    var v := JObject([Str(n[0], a), Str(n[j], b), Str(n[k], c), Str(n[6], d)]);
    StringsInOrder(v, INTENT_ORDER, places);
  }

  lemma {:induction false} IntentArranged(intent: Intent)
    ensures Arranged(WireIntent(intent), INTENT_ORDER) == WireIntent(intent)
  {
    hide Arranged, Lower, PrintUint;
    IntentKeys();
    var n := INTENT_ORDER.names;
    match intent {
      case Transfer(token, receiver, value) =>
        assert n[0] == ACTION && n[1] == TOKEN && n[2] == RECEIVER && n[6] == VALUE;
        FourInOrder(TRANSFER_ACTION, Lower(token), Lower(receiver), PrintUint(value), 1, 2);
      case Execute(target, calldata, value) =>
        assert n[0] == ACTION && n[3] == TARGET && n[4] == CALLDATA && n[6] == VALUE;
        FourInOrder(EXECUTE_ACTION, Lower(target), Lower(calldata), PrintUint(value), 3, 4);
      case DepositBack(token, fastReceiver, value) =>
        assert n[0] == ACTION && n[1] == TOKEN && n[5] == FAST_RECEIVER && n[6] == VALUE;
        FourInOrder(DEPOSIT_BACK_ACTION, Lower(token), fastReceiver, PrintUint(value), 1, 5);
      case Revoke(_) =>
        assert n[0] == ACTION && n[6] == VALUE && n[0] != n[6];
        StringsInOrder(WireIntent(intent), INTENT_ORDER, [0, 6]);
    }
  }

  lemma {:induction false} DisplayArranged(d: Display)
    ensures Arranged(WireDisplay(d), DISPLAY_ORDER) == WireDisplay(d)
  {
    hide Arranged;
    WireDisplayShape(d);
    IntentKeys();
    var n := DISPLAY_ORDER.names;
    assert n[0] == AMOUNT && n[1] == TOKEN_SYMBOL && n[2] == TOKEN_DECIMALS;
    StringsInOrder(WireDisplay(d), DISPLAY_ORDER, [0, 1, 2]);
  }

  lemma {:induction false} IntentsArranged(intents: seq<Intent>)
    ensures Arranged(JArray(WireIntents(intents)), INTENTS_ORDER) == JArray(WireIntents(intents))
  {
    InnerLayouts();
    var v := JArray(WireIntents(intents));
    forall i | 0 <= i < |intents| ensures ArrangedItems(v, 0, INTENT_ORDER)[i] == v.items[i] {
      assert ArrangedItems(v, 0, INTENT_ORDER)[i] == Arranged(v.items[0 + i], INTENT_ORDER);
      IntentArranged(intents[i]);
    }
    assert ArrangedItems(v, 0, INTENT_ORDER) == v.items;
  }

  lemma {:induction false} WireFieldArranged(c: Claim, i: nat)
    requires i < |Wire(c).fields|
    ensures var f := Wire(c).fields[i]; Arranged(f.value, Below(LAYOUT, f.key)) == f.value
  {
    LayoutOrder();
    var f := Wire(c).fields;
    if i == 6 {
      assert f[6] == Field(INTENTS, JArray(WireIntents(c.intents)));
      IntentsArranged(c.intents);
    } else if i == 7 {
      assert f[7] == Field(DISPLAY, WireDisplay(c.display.value));
      DisplayArranged(c.display.value);
    }
  }

  /** The wire record is in layout order at every depth. */
  lemma {:induction false} WireArranged(c: Claim)
    ensures Arranged(Wire(c), LAYOUT) == Wire(c)
  {
    hide Arranged;
    var v := Wire(c);
    WireShape(c);
    WireKeys(c);
    TopKeys();
    LayoutOrder();
    forall i | 0 <= i < |v.fields|
      ensures Arranged(v.fields[i].value, Below(LAYOUT, v.fields[i].key)) == v.fields[i].value
    {
      WireFieldArranged(c, i);
    }
    InOrderAt(KeysOf(v.fields), TOP_KEYS, seq(|v.fields|, i => i), 0);
    assert TOP_KEYS[0..] == TOP_KEYS;
    ArrangedInOrder(v, LAYOUT);
  }

  // ----- what a document spells -----

  function TextField(key: string, text: Text): Field<Json> { Field(Ascii(key), JString(text)) }

  /** The record spells the intent: its action by name, then each of its fields under its own key. */
  predicate SpellsIntent(v: Json, intent: Intent) {
    match intent
    case Transfer(token, receiver, value) =>
      v == JObject([TextField("action", Ascii("transfer")), TextField("token", Lower(token)),
                    TextField("receiver", Lower(receiver)), TextField("value", PrintUint(value))])
    case Execute(target, calldata, value) =>
      v == JObject([TextField("action", Ascii("execute")), TextField("target", Lower(target)),
                    TextField("calldata", Lower(calldata)), TextField("value", PrintUint(value))])
    case DepositBack(token, fastReceiver, value) =>
      v == JObject([TextField("action", Ascii("deposit_back")), TextField("token", Lower(token)),
                    TextField("fast_receiver", fastReceiver), TextField("value", PrintUint(value))])
    case Revoke(_) =>
      v == JObject([TextField("action", Ascii("revoke")), TextField("value", Ascii("0"))])
  }

  predicate SpellsDisplay(v: Json, d: Display) {
    v == JObject([TextField("amount", PrintUint(d.amount)), TextField("token_symbol", d.tokenSymbol),
                  TextField("token_decimals", PrintUint(d.tokenDecimals))])
  }

  /** The record spells the claim: every field under its own key, the display only if there is one. */
  predicate Spells(v: Json, c: Claim) {
    && v.JObject? && |v.fields| == (if c.display.Some? then 8 else 7)
    && v.fields[..6] == [
         TextField("schema", c.schema), TextField("kind", c.kind), TextField("chain", c.chain),
         TextField("bridge", Lower(c.bridge)), TextField("transfer_tx", Lower(c.transferTx)),
         TextField("deadline", PrintUint(c.deadline))]
    && v.fields[6].key == Ascii("intents") && v.fields[6].value.JArray?
    && |v.fields[6].value.items| == |c.intents|
    && (forall i :: 0 <= i < |c.intents| ==> SpellsIntent(v.fields[6].value.items[i], c.intents[i]))
    && (c.display.Some? ==> v.fields[7].key == Ascii("display") && SpellsDisplay(v.fields[7].value, c.display.value))
  }

  lemma {:induction false} WireSpells(c: Claim)
    ensures Spells(Wire(c), c)
  {
    var f := Wire(c).fields;
    assert f[6] == Field(INTENTS, JArray(WireIntents(c.intents)));
    forall i | 0 <= i < |c.intents| ensures SpellsIntent(WireIntents(c.intents)[i], c.intents[i]) {
    }
    if c.display.Some? {
      assert f[7] == Field(DISPLAY, WireDisplay(c.display.value));
    }
  }

  /** No two records spell the same claim. */
  lemma {:induction false} SpelledOnce(v: Json, w: Json, c: Claim)
    requires Spells(v, c) && Spells(w, c)
    ensures v == w
  {
    hide Lower, PrintUint;
    var f, g := v.fields, w.fields;
    assert f[6].value.items == g[6].value.items;
    forall i | 0 <= i < |f| ensures f[i] == g[i] {
      if i < 6 { assert f[..6][i] == g[..6][i]; }
    }
  }

  /** The value that the bytes are JSON for. */
  function Parsed(bytes: seq<Byte>): Option<Json> {
    match FromUtf8(bytes)
    case None => None
    case Some(text) => Parse(text)
  }

  /** Parsed as JSON, an encoding is a document of the grammar that spells the claim, field by field and in order. */
  lemma {:induction false} EncodingSpellsClaim(c: Claim, isFast: Text -> bool)
    requires Encode(c, isFast).Some?
    ensures var v := Parsed(Encode(c, isFast).value); v.Some? && Spells(v.value, c) && IsDocument(v.value, isFast)
  {
    hide Spells, IsDocument, Valid;
    var text := Write(Wire(c), LAYOUT, 0).value;
    assert Valid(c, isFast);
    WireShape(c);
    LayoutOrder();
    DocumentReadsBack(Wire(c), LAYOUT);
    WrittenWellFormed(Wire(c), LAYOUT, 0);
    WrittenStart(Wire(c), LAYOUT, 0);
    Utf8RoundTrip(text);
    WireArranged(c);
    WireSpells(c);
    ClaimInGrammar(c, isFast);
  }

  /** The canonical print of a document, in bytes. */
  function Printed(v: Json): Option<seq<Byte>> {
    match Write(v, LAYOUT, 0)
    case None => None
    case Some(text) => Some(Utf8(text))
  }

  /** A claim encodes exactly if the record that spells it is in the grammar and prints within the limit. */
  lemma {:induction false} EncodesExactly(c: Claim, v: Json, isFast: Text -> bool)
    requires Spells(v, c) && FastIsAscii(isFast)
    ensures Encode(c, isFast).Some? <==>
      && IsDocument(v, isFast)
      && (forall i :: 0 <= i < |c.intents| && c.intents[i].Revoke? ==> c.intents[i].value == 0)
      && (c.display.Some? ==> WellFormed(c.display.value.tokenSymbol))
      && (Printed(v).Some? ==> |Printed(v).value| <= 4096)
  {
    hide IsDocument, Spells, Valid;
    WireSpells(c);
    SpelledOnce(v, Wire(c), c);
    ClaimInGrammar(c, isFast);
    if Valid(c, isFast) { EncodesExactlyWhen(c, isFast); }
  }

  // ----- the claim of a document -----

  ghost function TransferOf(v: Json): (intent: Intent)
    requires IsTransfer(v)
    ensures WireIntent(intent) == v
  {
    var f := v.fields;
    HexIsLower(f[1].value.text, 40);
    HexIsLower(f[2].value.text, 40);
    DecimalReads(f[3].value.text, WORD_MAX);
    Transfer(f[1].value.text, f[2].value.text, ReadUint(f[3].value.text).value)
  }

  ghost function ExecuteOf(v: Json): (intent: Intent)
    requires IsExecute(v)
    ensures WireIntent(intent) == v
  {
    var f := v.fields;
    var n: nat :| HexDigits(f[2].value.text, 2 * n);
    HexIsLower(f[1].value.text, 40);
    HexIsLower(f[2].value.text, 2 * n);
    DecimalReads(f[3].value.text, WORD_MAX);
    Execute(f[1].value.text, f[2].value.text, ReadUint(f[3].value.text).value)
  }

  ghost function DepositBackOf(v: Json, isFast: Text -> bool): (intent: Intent)
    requires IsDepositBack(v, isFast)
    ensures WireIntent(intent) == v
  {
    var f := v.fields;
    HexIsLower(f[1].value.text, 40);
    DecimalReads(f[3].value.text, WORD_MAX);
    DepositBack(f[1].value.text, f[2].value.text, ReadUint(f[3].value.text).value)
  }

  ghost function IntentOf(v: Json, isFast: Text -> bool): (intent: Intent)
    requires IsIntent(v, isFast)
    ensures WireIntent(intent) == v && RevokesNothing(intent)
  {
    if IsTransfer(v) then TransferOf(v)
    else if IsExecute(v) then ExecuteOf(v)
    else if IsDepositBack(v, isFast) then DepositBackOf(v, isFast)
    else Revoke(0)
  }

  ghost function DisplayOf(v: Json): (d: Display)
    requires IsDisplay(v)
    ensures WireDisplay(d) == v
  {
    var f := v.fields;
    DecimalReads(f[0].value.text, WORD_MAX);
    DecimalReads(f[2].value.text, 99);
    Display(ReadUint(f[0].value.text).value, f[1].value.text, ReadUint(f[2].value.text).value)
  }

  ghost function IntentsOf(items: seq<Json>, isFast: Text -> bool): (intents: seq<Intent>)
    requires forall i :: 0 <= i < |items| ==> IsIntent(items[i], isFast)
    ensures WireIntents(intents) == items
    ensures forall i :: 0 <= i < |intents| ==> RevokesNothing(intents[i])
  {
    seq(|items|, i requires 0 <= i < |items| && IsIntent(items[i], isFast) => IntentOf(items[i], isFast))
  }

  ghost function ClaimOf(v: Json, isFast: Text -> bool): Claim
    requires IsDocument(v, isFast)
  {
    var f := v.fields;
    Claim(f[0].value.text, f[1].value.text, f[2].value.text, f[3].value.text, f[4].value.text,
          ReadUint(f[5].value.text).GetOr(0), IntentsOf(f[6].value.items, isFast),
          if |f| == 8 then Some(DisplayOf(f[7].value)) else None)
  }

  lemma {:induction false} HeadOf(f: seq<Field<Json>>)
    requires IsHead(f)
    ensures f[0] == Str(SCHEMA_KEY, f[0].value.text) && f[1] == Str(KIND, f[1].value.text)
    ensures f[2] == Str(CHAIN, f[2].value.text)
    ensures f[3] == Str(BRIDGE, Lower(f[3].value.text)) && f[4] == Str(TRANSFER_TX, Lower(f[4].value.text))
    ensures f[5] == Str(DEADLINE, PrintUint(ReadUint(f[5].value.text).GetOr(0)))
  {
    HexIsLower(f[3].value.text, 40);
    HexIsLower(f[4].value.text, 64);
    DecimalReads(f[5].value.text, U64_MAX);
  }

  lemma {:induction false} ClaimOfIsValid(v: Json, isFast: Text -> bool)
    requires IsDocument(v, isFast)
    ensures Wire(ClaimOf(v, isFast)) == v && Valid(ClaimOf(v, isFast), isFast)
  {
    hide HexDigits, DecimalUpTo, IsIntent, IsDisplay, KindDescribes, IsChainName, Lower, PrintUint, ReadUint, Valid;
    var c := ClaimOf(v, isFast);
    HeadOf(v.fields);
    assert Wire(c).fields == v.fields;
    ClaimInGrammar(c, isFast);
  }

  /** Bytes are accepted exactly if they are the canonical print, within the limit, of a document in the grammar. */
  lemma {:induction false} AcceptedExactly(bytes: seq<Byte>, isFast: Text -> bool)
    ensures Decode(bytes, isFast).Some?
       <==> |bytes| <= 4096 && exists v :: IsDocument(v, isFast) && Printed(v) == Some(bytes)
  {
    hide IsDocument, Wire, Write, Valid;
    if Decode(bytes, isFast).Some? {
      var c := Decode(bytes, isFast).value;
      AcceptedIsCanonical(bytes, isFast);
      assert Valid(c, isFast);
      ClaimInGrammar(c, isFast);
      assert IsDocument(Wire(c), isFast) && Printed(Wire(c)) == Some(bytes);
    }
    if |bytes| <= 4096 && exists v :: IsDocument(v, isFast) && Printed(v) == Some(bytes) {
      var v :| IsDocument(v, isFast) && Printed(v) == Some(bytes);
      var c := ClaimOf(v, isFast);
      ClaimOfIsValid(v, isFast);
      assert Encode(c, isFast) == Some(bytes);
      DecodeEncode(c, isFast);
    }
  }

  /** The text that the object's first field holds. */
  predicate FirstText(v: Json, key: string, text: string) {
    v.JObject? && v.fields != [] && IsConstant(v.fields[0], key, text)
  }

  /** The kind is the one intent's action, "withdraw" for a transfer, and "batch" exactly for two or more intents. */
  predicate KindNamesAction(kind: Text, items: seq<Json>) {
    && |items| >= 1
    && (kind == Ascii("withdraw") <==> |items| == 1 && FirstText(items[0], "action", "transfer"))
    && (kind == Ascii("execute") <==> |items| == 1 && FirstText(items[0], "action", "execute"))
    && (kind == Ascii("deposit_back") <==> |items| == 1 && FirstText(items[0], "action", "deposit_back"))
    && (kind == Ascii("revoke") <==> |items| == 1 && FirstText(items[0], "action", "revoke"))
    && (kind == Ascii("batch") <==> |items| >= 2)
    && (|items| >= 2 ==> forall i :: 0 <= i < |items| ==> !FirstText(items[i], "action", "revoke"))
  }

  lemma {:induction false} ActionRule(v: Json, isFast: Text -> bool)
    requires IsIntent(v, isFast)
    ensures FirstText(v, "action", "transfer") <==> IsTransfer(v)
    ensures FirstText(v, "action", "execute") <==> IsExecute(v)
    ensures FirstText(v, "action", "deposit_back") <==> IsDepositBack(v, isFast)
    ensures FirstText(v, "action", "revoke") <==> IsRevoke(v)
  {
    hide HexDigits, DecimalUpTo;
    assert |Ascii("transfer")| == 8 && |Ascii("execute")| == 7;
    assert |Ascii("deposit_back")| == 12 && |Ascii("revoke")| == 6;
  }

  lemma {:induction false} KindOfItems(kind: Text, items: seq<Json>, isFast: Text -> bool)
    requires KindDescribes(kind, items, isFast) && forall i :: 0 <= i < |items| ==> IsIntent(items[i], isFast)
    ensures KindNamesAction(kind, items)
  {
    hide IsTransfer, IsExecute, IsDepositBack, IsRevoke, FirstText;
    forall i | 0 <= i < |items| ensures FirstText(items[i], "action", "revoke") <==> IsRevoke(items[i]) {
      ActionRule(items[i], isFast);
    }
    ActionRule(items[0], isFast);
    Actions(items[0], isFast);
    assert |Ascii("withdraw")| == 8 && |Ascii("execute")| == 7 && |Ascii("batch")| == 5;
    assert |Ascii("deposit_back")| == 12 && |Ascii("revoke")| == 6;
  }

  /** The kind of an accepted document is told by the actions its intents print. */
  lemma {:induction false} DocumentKind(bytes: seq<Byte>, isFast: Text -> bool)
    requires Decode(bytes, isFast).Some?
    ensures Parsed(bytes).Some? && IsDocument(Parsed(bytes).value, isFast)
    ensures var f := Parsed(bytes).value.fields;
      && f[1].key == Ascii("kind") && f[6].key == Ascii("intents")
      && KindNamesAction(f[1].value.text, f[6].value.items)
  {
    hide IsHead, IsDisplay, IsIntent, KindDescribes, Spells, Decode, Encode, Parsed, KindNamesAction, Ascii;
    AcceptedIsCanonical(bytes, isFast);
    EncodingSpellsClaim(Decode(bytes, isFast).value, isFast);
    var f := Parsed(bytes).value.fields;
    HeadOf(f);
    KindOfItems(f[1].value.text, f[6].value.items, isFast);
  }

  /** The kind of a valid claim, prepared or not, names its one intent, and is "batch" exactly for two or more. */
  predicate KindNames(kind: Text, intents: seq<Intent>) {
    && |intents| >= 1
    && (kind == Ascii("withdraw") <==> |intents| == 1 && intents[0].Transfer?)
    && (kind == Ascii("execute") <==> |intents| == 1 && intents[0].Execute?)
    && (kind == Ascii("deposit_back") <==> |intents| == 1 && intents[0].DepositBack?)
    && (kind == Ascii("revoke") <==> |intents| == 1 && intents[0].Revoke?)
    && (kind == Ascii("batch") <==> |intents| >= 2)
  }

  lemma {:induction false} ValidKind(c: Claim, isFast: Text -> bool)
    requires Valid(c, isFast)
    ensures KindNames(c.kind, c.intents)
  {
    assert |Ascii("withdraw")| == 8 && |Ascii("execute")| == 7 && |Ascii("batch")| == 5;
    assert |Ascii("deposit_back")| == 12 && |Ascii("revoke")| == 6;
  }

  /** A prepared claim, and every document it is finished into, carries the kind that names its intents. */
  lemma {:induction false} PreparedKind(intents: seq<Intent>, chainId: Option<int>, bridge: Option<Text>,
                                        deadlineSeconds: Option<int>, display: Option<Display>, now: int,
                                        isFast: Text -> bool, tx: Text)
    requires Prepare(intents, chainId, bridge, deadlineSeconds, display, now, isFast).Some? && IsHex32(tx)
    ensures var p := Prepare(intents, chainId, bridge, deadlineSeconds, display, now, isFast).value;
      && KindNames(p.claim.kind, intents)
      && Finish(p, tx, isFast).Some?
      && var v := Parsed(Finish(p, tx, isFast).value);
         v.Some? && IsDocument(v.value, isFast) && Spells(v.value, p.claim.(transferTx := tx))
  {
    hide IsDocument, Spells, Valid, Decode, Parsed;
    var p := Prepare(intents, chainId, bridge, deadlineSeconds, display, now, isFast).value;
    PreparedAsAsked(intents, chainId, bridge, deadlineSeconds, display, now, isFast);
    PreparedIsEncoded(intents, chainId, bridge, deadlineSeconds, display, now, isFast);
    assert Valid(p.claim, isFast);
    ValidKind(p.claim, isFast);
    FinishesExactly(p, tx, isFast);
    EncodingSpellsClaim(p.claim.(transferTx := tx), isFast);
  }
}
