/**
 The `allset/intent/v1` claim: validation, the canonical document, its decoder, and the prepare and finish steps around
 a transfer. Whether a text is the canonical bech32m form of a Fast address is the parameter `isFast`.
*/
module IntentCodec {
  import opened Options
  import opened DecimalText
  import opened Utf16
  import opened JsonDocuments
  import opened Records
  import opened JsonPrinting

  const MAX_BYTES := 4096
  const U64_MAX := 0xFFFF_FFFF_FFFF_FFFF
  const U256_MAX := 0xFFFF_FFFF_FFFF_FFFF_FFFF_FFFF_FFFF_FFFF_FFFF_FFFF_FFFF_FFFF_FFFF_FFFF_FFFF_FFFF

  datatype Intent =
    | Transfer(token: Text, receiver: Text, value: int)
    | Execute(target: Text, calldata: Text, value: int)
    | DepositBack(token: Text, fastReceiver: Text, value: int)
    | Revoke(value: int)

  datatype Display = Display(amount: int, tokenSymbol: Text, tokenDecimals: int)

  datatype Claim = Claim(
    schema: Text,
    kind: Text,
    chain: Text,
    bridge: Text,
    transferTx: Text,
    deadline: int,
    intents: seq<Intent>,
    display: Option<Display>)

  const SCHEMA: Text := Ascii("allset/intent/v1")

  // ----- validation -----

  function LowerUnit(u: Unit): Unit { if 0x41 <= u <= 0x5A then u + 0x20 else u }

  /** Lower case, as far as hex text depends on it: no other character has a hex digit or `x` as its lower case. */
  function Lower(t: Text): (r: Text)
    ensures |r| == |t|
  {
    seq(|t|, i requires 0 <= i < |t| => LowerUnit(t[i]))
  }

  predicate IsHexUnit(u: Unit) { 0x30 <= u <= 0x39 || 0x61 <= u <= 0x66 }

  /** `0x` and lower-case hex digits. */
  predicate IsHex(t: Text) {
    |t| >= 2 && t[0] == '0' as int && t[1] == 'x' as int && forall i :: 2 <= i < |t| ==> IsHexUnit(t[i])
  }

  predicate IsHex20(t: Text) { IsHex(Lower(t)) && |t| == 42 }

  predicate IsHex32(t: Text) { IsHex(Lower(t)) && |t| == 66 }

  predicate IsHexBytes(t: Text) { IsHex(Lower(t)) && |t| % 2 == 0 }

  const CHAIN_PREFIX: Text := Ascii("eip155:")

  predicate IsChain(t: Text) {
    CHAIN_PREFIX <= t && |t| <= |CHAIN_PREFIX| + 13 && ReadUint(t[|CHAIN_PREFIX|..]).Some?
  }

  function DerivedKind(intents: seq<Intent>): Option<Text> {
    if |intents| >= 2 then Some(Ascii("batch"))
    else if intents == [] then None
    else
      match intents[0]
      case Transfer(_, _, _) => Some(Ascii("withdraw"))
      case Execute(_, _, _) => Some(Ascii("execute"))
      case DepositBack(_, _, _) => Some(Ascii("deposit_back"))
      case Revoke(_) => Some(Ascii("revoke"))
  }

  predicate ValidIntent(intent: Intent, isFast: Text -> bool) {
    && 0 <= intent.value <= U256_MAX
    && match intent
       case Transfer(token, receiver, _) => IsHex20(token) && IsHex20(receiver)
       case Execute(target, calldata, _) => IsHex20(target) && IsHexBytes(calldata)
       case DepositBack(token, fastReceiver, _) => IsHex20(token) && isFast(fastReceiver)
       case Revoke(value) => value == 0
  }

  predicate ValidIntents(intents: seq<Intent>, isFast: Text -> bool) {
    && intents != []
    && (|intents| > 1 ==> forall i :: 0 <= i < |intents| ==> !intents[i].Revoke?)
    && (forall i :: 0 <= i < |intents| ==> ValidIntent(intents[i], isFast))
  }

  predicate ValidDisplay(d: Display) {
    && 0 <= d.amount <= U256_MAX
    && 0 <= d.tokenDecimals <= 99
    && d.tokenSymbol != []
    && |Utf8(d.tokenSymbol)| <= 16
  }

  predicate Valid(c: Claim, isFast: Text -> bool) {
    && c.schema == SCHEMA
    && IsChain(c.chain)
    && IsHex20(c.bridge)
    && IsHex32(c.transferTx)
    && 0 <= c.deadline <= U64_MAX
    && ValidIntents(c.intents, isFast)
    && DerivedKind(c.intents) == Some(c.kind)
    && (c.display.Some? ==> ValidDisplay(c.display.value))
  }

  // ----- the document -----

  const ACTION: Text := Ascii("action")
  const TOKEN: Text := Ascii("token")
  const RECEIVER: Text := Ascii("receiver")
  const TARGET: Text := Ascii("target")
  const CALLDATA: Text := Ascii("calldata")
  const FAST_RECEIVER: Text := Ascii("fast_receiver")
  const VALUE: Text := Ascii("value")
  const AMOUNT: Text := Ascii("amount")
  const TOKEN_SYMBOL: Text := Ascii("token_symbol")
  const TOKEN_DECIMALS: Text := Ascii("token_decimals")
  const SCHEMA_KEY: Text := Ascii("schema")
  const KIND: Text := Ascii("kind")
  const CHAIN: Text := Ascii("chain")
  const BRIDGE: Text := Ascii("bridge")
  const TRANSFER_TX: Text := Ascii("transfer_tx")
  const DEADLINE: Text := Ascii("deadline")
  const INTENTS: Text := Ascii("intents")
  const DISPLAY: Text := Ascii("display")

  const TOP_KEYS := [SCHEMA_KEY, KIND, CHAIN, BRIDGE, TRANSFER_TX, DEADLINE, INTENTS, DISPLAY]

  const TRANSFER_ACTION: Text := Ascii("transfer")
  const EXECUTE_ACTION: Text := Ascii("execute")
  const DEPOSIT_BACK_ACTION: Text := Ascii("deposit_back")
  const REVOKE_ACTION: Text := Ascii("revoke")

  const INTENT_ORDER := Names([ACTION, TOKEN, RECEIVER, TARGET, CALLDATA, FAST_RECEIVER, VALUE])
  const INTENTS_ORDER := Tree([Child(STAR, INTENT_ORDER)])
  const DISPLAY_ORDER := Names([AMOUNT, TOKEN_SYMBOL, TOKEN_DECIMALS])
  const LAYOUT := Tree([
    Child(SCHEMA_KEY, Names([])), Child(KIND, Names([])), Child(CHAIN, Names([])), Child(BRIDGE, Names([])),
    Child(TRANSFER_TX, Names([])), Child(DEADLINE, Names([])), Child(INTENTS, INTENTS_ORDER),
    Child(DISPLAY, DISPLAY_ORDER)])

  function Str(key: Text, text: Text): Field<Json> { Field(key, JString(text)) }

  function WireIntent(intent: Intent): Json {
    match intent
    case Transfer(token, receiver, value) => JObject([
      Str(ACTION, TRANSFER_ACTION), Str(TOKEN, Lower(token)), Str(RECEIVER, Lower(receiver)),
      Str(VALUE, PrintUint(value))])
    case Execute(target, calldata, value) => JObject([
      Str(ACTION, EXECUTE_ACTION), Str(TARGET, Lower(target)), Str(CALLDATA, Lower(calldata)),
      Str(VALUE, PrintUint(value))])
    case DepositBack(token, fastReceiver, value) => JObject([
      Str(ACTION, DEPOSIT_BACK_ACTION), Str(TOKEN, Lower(token)), Str(FAST_RECEIVER, fastReceiver),
      Str(VALUE, PrintUint(value))])
    case Revoke(_) => JObject([Str(ACTION, REVOKE_ACTION), Str(VALUE, Ascii("0"))])
  }

  function WireIntents(intents: seq<Intent>): (r: seq<Json>)
    ensures |r| == |intents|
  {
    seq(|intents|, i requires 0 <= i < |intents| => WireIntent(intents[i]))
  }

  function WireDisplay(d: Display): Json {
    JObject([Str(AMOUNT, PrintUint(d.amount)), Str(TOKEN_SYMBOL, d.tokenSymbol),
             Str(TOKEN_DECIMALS, PrintUint(d.tokenDecimals))])
  }

  function Wire(c: Claim): Json {
    JObject([
      Str(SCHEMA_KEY, c.schema), Str(KIND, c.kind), Str(CHAIN, c.chain), Str(BRIDGE, Lower(c.bridge)),
      Str(TRANSFER_TX, Lower(c.transferTx)), Str(DEADLINE, PrintUint(c.deadline)),
      Field(INTENTS, JArray(WireIntents(c.intents)))]
      + if c.display.Some? then [Field(DISPLAY, WireDisplay(c.display.value))] else [])
  }

  function Encode(c: Claim, isFast: Text -> bool): Option<seq<Byte>> {
    if !Valid(c, isFast) then None else
    match Write(Wire(c), LAYOUT, 0)
    case None => None
    case Some(text) => if |Utf8(text)| > MAX_BYTES then None else Some(Utf8(text))
  }

  // ----- decoding -----

  function ReadString(fields: seq<Field<Json>>, key: Text): Option<Text> {
    match Lookup<Json>(fields, key)
    case Some(JString(text)) => Some(text)
    case _ => None
  }

  function ReadNumber(fields: seq<Field<Json>>, key: Text): Option<nat> {
    match ReadString(fields, key)
    case None => None
    case Some(text) => ReadUint(text)
  }

  predicate OnlyKeys(fields: seq<Field<Json>>, allowed: seq<Text>) {
    forall i :: 0 <= i < |fields| ==> fields[i].key in allowed
  }

  function ReadTransfer(f: seq<Field<Json>>, value: nat): Option<Intent> {
    var token, receiver := ReadString(f, TOKEN), ReadString(f, RECEIVER);
    if OnlyKeys(f, [ACTION, TOKEN, RECEIVER, VALUE]) && token.Some? && receiver.Some?
    then Some(Transfer(token.value, receiver.value, value))
    else None
  }

  function ReadExecute(f: seq<Field<Json>>, value: nat): Option<Intent> {
    var target, calldata := ReadString(f, TARGET), ReadString(f, CALLDATA);
    if OnlyKeys(f, [ACTION, TARGET, CALLDATA, VALUE]) && target.Some? && calldata.Some?
    then Some(Execute(target.value, calldata.value, value))
    else None
  }

  function ReadDepositBack(f: seq<Field<Json>>, value: nat): Option<Intent> {
    var token, fastReceiver := ReadString(f, TOKEN), ReadString(f, FAST_RECEIVER);
    if OnlyKeys(f, [ACTION, TOKEN, FAST_RECEIVER, VALUE]) && token.Some? && fastReceiver.Some?
    then Some(DepositBack(token.value, fastReceiver.value, value))
    else None
  }

  function ReadRevoke(f: seq<Field<Json>>, value: nat): Option<Intent> {
    if OnlyKeys(f, [ACTION, VALUE]) then Some(Revoke(value)) else None
  }

  function ReadIntent(v: Json): Option<Intent> {
    if !v.JObject? then None else
    var action, value := ReadString(v.fields, ACTION), ReadNumber(v.fields, VALUE);
    if action.None? || value.None? then None
    else if action.value == TRANSFER_ACTION then ReadTransfer(v.fields, value.value)
    else if action.value == EXECUTE_ACTION then ReadExecute(v.fields, value.value)
    else if action.value == DEPOSIT_BACK_ACTION then ReadDepositBack(v.fields, value.value)
    else if action.value == REVOKE_ACTION then ReadRevoke(v.fields, value.value)
    else None
  }

  function ReadIntents(items: seq<Json>): Option<seq<Intent>> {
    if items == [] then Some([]) else
    match ReadIntent(items[0])
    case None => None
    case Some(first) =>
      match ReadIntents(items[1..])
      case None => None
      case Some(rest) => Some([first] + rest)
  }

  function ReadDisplay(v: Json): Option<Display> {
    if !v.JObject? || !OnlyKeys(v.fields, [AMOUNT, TOKEN_SYMBOL, TOKEN_DECIMALS]) then None else
    var amount, symbol := ReadNumber(v.fields, AMOUNT), ReadString(v.fields, TOKEN_SYMBOL);
    var decimals := ReadNumber(v.fields, TOKEN_DECIMALS);
    if amount.Some? && symbol.Some? && decimals.Some? then Some(Display(amount.value, symbol.value, decimals.value))
    else None
  }

  /** The claim that a parsed document spells, before it is validated. */
  function ReadClaim(v: Json): Option<Claim> {
    if !v.JObject? || Lookup(v.fields, SCHEMA_KEY) != Some(JString(SCHEMA))
       || !OnlyKeys(v.fields, TOP_KEYS) then None else
    var intents, display := ReadIntentList(v.fields), ReadOptionalDisplay(v.fields);
    var kind, chain := ReadString(v.fields, KIND), ReadString(v.fields, CHAIN);
    var bridge, transferTx := ReadString(v.fields, BRIDGE), ReadString(v.fields, TRANSFER_TX);
    var deadline := ReadNumber(v.fields, DEADLINE);
    if intents.None? || kind.None? || chain.None? || bridge.None? || transferTx.None? || deadline.None? || display.None?
    then None
    else Some(Claim(SCHEMA, kind.value, chain.value, bridge.value, transferTx.value, deadline.value,
                    intents.value, display.value))
  }

  function ReadIntentList(fields: seq<Field<Json>>): Option<seq<Intent>> {
    match Lookup<Json>(fields, INTENTS)
    case Some(JArray(items)) => ReadIntents(items)
    case _ => None
  }

  /** A display that is absent is fine; one that is present must be readable. */
  function ReadOptionalDisplay(fields: seq<Field<Json>>): Option<Option<Display>> {
    match Lookup<Json>(fields, DISPLAY)
    case None => Some(None)
    case Some(v) =>
      match ReadDisplay(v)
      case None => None
      case Some(d) => Some(Some(d))
  }

  function Decode(bytes: seq<Byte>, isFast: Text -> bool): Option<Claim> {
    if |bytes| > MAX_BYTES then None else
    match FromUtf8(bytes)
    case None => None
    case Some(text) =>
      match Parse(text)
      case None => None
      case Some(v) =>
        match ReadClaim(v)
        case None => None
        case Some(c) =>
          if Valid(c, isFast) && Encode(c, isFast) == Some(bytes) then Some(c) else None
  }

  // ----- normal claims -----

  function NormalIntent(intent: Intent): Intent {
    match intent
    case Transfer(token, receiver, value) => Transfer(Lower(token), Lower(receiver), value)
    case Execute(target, calldata, value) => Execute(Lower(target), Lower(calldata), value)
    case DepositBack(token, fastReceiver, value) => DepositBack(Lower(token), fastReceiver, value)
    case Revoke(_) => intent
  }

  function NormalIntents(intents: seq<Intent>): (r: seq<Intent>)
    ensures |r| == |intents|
  {
    seq(|intents|, i requires 0 <= i < |intents| => NormalIntent(intents[i]))
  }

  /** The claim with its hex fields in lower case. */
  function Normal(c: Claim): Claim {
    c.(bridge := Lower(c.bridge), transferTx := Lower(c.transferTx), intents := NormalIntents(c.intents))
  }

  lemma {:induction false} LowerTwice(t: Text)
    ensures Lower(Lower(t)) == Lower(t)
  {
  }

  lemma {:induction false} NormalIntentFacts(i: Intent, isFast: Text -> bool)
    ensures NormalIntent(NormalIntent(i)) == NormalIntent(i)
    ensures WireIntent(NormalIntent(i)) == WireIntent(i)
    ensures ValidIntent(NormalIntent(i), isFast) <==> ValidIntent(i, isFast)
  {
    match i {
      case Transfer(token, receiver, _) => LowerTwice(token); LowerTwice(receiver);
      case Execute(target, calldata, _) => LowerTwice(target); LowerTwice(calldata);
      case DepositBack(token, _, _) => LowerTwice(token);
      case Revoke(_) =>
    }
  }

  lemma {:induction false} NormalIntentsSame(intents: seq<Intent>, isFast: Text -> bool)
    ensures NormalIntents(NormalIntents(intents)) == NormalIntents(intents)
    ensures WireIntents(NormalIntents(intents)) == WireIntents(intents)
    ensures ValidIntents(NormalIntents(intents), isFast) <==> ValidIntents(intents, isFast)
    ensures DerivedKind(NormalIntents(intents)) == DerivedKind(intents)
  {
    var n := NormalIntents(intents);
    forall i | 0 <= i < |n|
      ensures NormalIntents(n)[i] == n[i] && WireIntents(n)[i] == WireIntents(intents)[i]
      ensures n[i].Revoke? <==> intents[i].Revoke?
      ensures ValidIntent(n[i], isFast) <==> ValidIntent(intents[i], isFast)
    {
      NormalIntentFacts(intents[i], isFast);
    }
  }

  /** Normalising changes neither validity nor the document, and normalising twice is normalising once. */
  lemma {:induction false} NormalSame(c: Claim, isFast: Text -> bool)
    ensures Normal(Normal(c)) == Normal(c)
    ensures Valid(Normal(c), isFast) <==> Valid(c, isFast)
    ensures Encode(Normal(c), isFast) == Encode(c, isFast)
  {
    LowerTwice(c.bridge);
    LowerTwice(c.transferTx);
    NormalIntentsSame(c.intents, isFast);
    assert Wire(Normal(c)) == Wire(c);
  }
}
