/**
 The scanner that decides from EVM logs whether a bridged transfer has been paid out: block windows, receipt soundness,
 and the slice of logs between the bridge's Withdraw and its first executor action.
*/
module SettlementScan {
  import opened Options

  /** Addresses and hashes compare without regard to case, so they are modelled as numbers. */
  type Address = nat
  type Hash = nat

  /** What a log's data and topics decode to; `Opaque` is anything neither ABI decodes. */
  datatype Payload =
    | Withdraw(operationId: nat, transferId: Hash, paymentToken: Address, amount: nat, chainId: nat)
    | DynamicallyTransferred(token: Address, recipient: Address, amount: nat)
    | OtherExecutorEvent(id: nat)
    | Erc20Transfer(from: Address, to: Address, value: nat)
    | Opaque(id: nat)

  datatype Log = Log(address: Address, logIndex: Option<int>, payload: Payload)

  /** A Withdraw log of the bridge as getLogs returns it. */
  datatype Found = Found(log: Log, blockNumber: nat, blockHash: Hash, txHash: Hash, removed: bool)

  datatype Receipt = Receipt(success: bool, blockHash: Hash, blockNumber: nat, txHash: Hash, logs: seq<Log>)

  datatype Route = Route(bridge: Address, token: Address, receiver: Address, amount: nat, chainId: nat)

  /** One view of the chain; a lookup that is missing throws. `withdrawals` holds the bridge's Withdraw logs. */
  datatype Chain = Chain(head: nat, withdrawals: seq<Found>, receipts: map<Hash, Receipt>, executors: map<nat, Address>)

  const WINDOW: nat := 2000

  // --- specification ---

  predicate Decodable(p: Payload) {
    p.DynamicallyTransferred? || p.OtherExecutorEvent?
  }

  predicate Pays(r: Route, p: Payload) {
    p.DynamicallyTransferred? && p.token == r.token && p.recipient == r.receiver && p.amount >= r.amount
  }

  predicate IsPayment(r: Route, executor: Address, item: Log, amount: nat) {
    item.address == r.token && item.payload == Erc20Transfer(executor, r.receiver, amount)
  }

  /** Nothing of the bridge and no decodable executor action. */
  predicate Passed(r: Route, executor: Address, item: Log) {
    item.address != r.bridge && !(item.address == executor && Decodable(item.payload))
  }

  /** The first bridge log or decodable executor action after the anchor, at `k`, pays the route, and a token transfer
      of exactly that action's amount, not logged by the executor, stands between them. */
  ghost predicate PaidAt(r: Route, logs: seq<Log>, anchor: nat, executor: Address, k: int)
    requires anchor < |logs|
  {
    && anchor < k < |logs|
    && (forall m :: anchor < m < k ==> Passed(r, executor, logs[m]))
    && logs[k].address != r.bridge && logs[k].address == executor && Pays(r, logs[k].payload)
    && exists j :: anchor < j < k && logs[j].address != executor
                   && IsPayment(r, executor, logs[j], logs[k].payload.amount)
  }

  ghost predicate PaidAfter(r: Route, logs: seq<Log>, anchor: nat, executor: Address)
    requires anchor < |logs|
  {
    exists k :: PaidAt(r, logs, anchor, executor, k)
  }

  predicate LogMatches(r: Route, f: Found) {
    f.log.payload.Withdraw? && f.log.payload.paymentToken == r.token && f.log.payload.amount == r.amount
    && f.log.payload.chainId == r.chainId
  }

  predicate OrderedAt(logs: seq<Log>, i: nat)
    requires i < |logs|
  {
    logs[i].logIndex.Some? && logs[i].logIndex.value >= 0
    && (i > 0 ==> logs[i - 1].logIndex.Some? && logs[i].logIndex.value > logs[i - 1].logIndex.value)
  }

  predicate SoundReceipt(f: Found, rec: Receipt) {
    && rec.success && rec.blockHash == f.blockHash && rec.txHash == f.txHash && !f.removed
    && forall i :: 0 <= i < |rec.logs| ==> OrderedAt(rec.logs, i)
  }

  predicate IsAnchor(r: Route, f: Found, item: Log) {
    item.logIndex == f.log.logIndex && item.address == r.bridge && item.payload == f.log.payload
  }

  /** A withdrawal log that proves the payment. */
  ghost predicate Proves(r: Route, c: Chain, f: Found) {
    && LogMatches(r, f)
    && f.txHash in c.receipts && SoundReceipt(f, c.receipts[f.txHash])
    && var rec := c.receipts[f.txHash];
    && rec.blockNumber in c.executors
    && exists a :: 0 <= a < |rec.logs| && IsAnchor(r, f, rec.logs[a])
                   && PaidAfter(r, rec.logs, a, c.executors[rec.blockNumber])
  }

  /**
   The withdrawal log `f`, found again at `a`; the token's transfer at `j` from the executor to the receiver; and the
   executor's action at `k` of that same amount, at least the route's. Nothing the bridge or an executor action in
   between.
  */
  ghost predicate PaidBy(r: Route, logs: seq<Log>, executor: Address, f: Found, a: int, j: int, k: int) {
    && 0 <= a < j < k < |logs|
    && logs[a] == Log(r.bridge, f.log.logIndex, f.log.payload)
    && logs[j].address == r.token && logs[j].address != executor
    && logs[k].address == executor && logs[k].address != r.bridge
    && logs[k].payload.DynamicallyTransferred?
    && logs[k].payload.token == r.token && logs[k].payload.recipient == r.receiver
    && logs[k].payload.amount >= r.amount
    && logs[j].payload == Erc20Transfer(executor, r.receiver, logs[k].payload.amount)
    && (forall m :: a < m < k ==> logs[m].address != r.bridge)
    && (forall m :: a < m < k && logs[m].address == executor
          ==> !logs[m].payload.DynamicallyTransferred? && !logs[m].payload.OtherExecutorEvent?)
  }

  ghost predicate PaidInReceipt(r: Route, rec: Receipt, executor: Address, f: Found) {
    exists a, j, k :: PaidBy(r, rec.logs, executor, f, a, j, k)
  }

  /** What proof of payment means, field by field. */
  lemma {:induction false} ProvesExactly(r: Route, c: Chain, f: Found)
    ensures Proves(r, c, f) <==>
      && f.log.payload.Withdraw?
      && f.log.payload.paymentToken == r.token && f.log.payload.amount == r.amount
      && f.log.payload.chainId == r.chainId
      && !f.removed && f.txHash in c.receipts
      && var rec := c.receipts[f.txHash];
      && rec.success && rec.blockHash == f.blockHash && rec.txHash == f.txHash
      && (forall i :: 0 <= i < |rec.logs| ==> rec.logs[i].logIndex.Some? && rec.logs[i].logIndex.value >= 0)
      && (forall i :: 0 < i < |rec.logs| ==> rec.logs[i - 1].logIndex.value < rec.logs[i].logIndex.value)
      && rec.blockNumber in c.executors
      && PaidInReceipt(r, rec, c.executors[rec.blockNumber], f)
  {
    if f.txHash in c.receipts && c.receipts[f.txHash].blockNumber in c.executors {
      var rec := c.receipts[f.txHash];
      PaidByExactly(r, rec, c.executors[rec.blockNumber], f);
      OrderedExactly(rec.logs);
    }
  }

  lemma {:induction false} OrderedExactly(logs: seq<Log>)
    ensures (forall i :: 0 <= i < |logs| ==> OrderedAt(logs, i)) <==>
      && (forall i :: 0 <= i < |logs| ==> logs[i].logIndex.Some? && logs[i].logIndex.value >= 0)
      && (forall i :: 0 < i < |logs| ==> logs[i - 1].logIndex.value < logs[i].logIndex.value)
  {
    if forall i :: 0 <= i < |logs| ==> OrderedAt(logs, i) {
      forall i | 0 <= i < |logs|
        ensures logs[i].logIndex.Some? && logs[i].logIndex.value >= 0
        ensures i > 0 ==> logs[i - 1].logIndex.Some? && logs[i - 1].logIndex.value < logs[i].logIndex.value
      {
        assert OrderedAt(logs, i);
      }
    }
  }

  ghost predicate PaidFromAnchor(r: Route, rec: Receipt, executor: Address, f: Found) {
    exists a :: 0 <= a < |rec.logs| && IsAnchor(r, f, rec.logs[a]) && PaidAfter(r, rec.logs, a, executor)
  }

  lemma {:induction false} PaidByExactly(r: Route, rec: Receipt, executor: Address, f: Found)
    ensures PaidInReceipt(r, rec, executor, f) <==> PaidFromAnchor(r, rec, executor, f)
  {
    var logs := rec.logs;
    if PaidInReceipt(r, rec, executor, f) {
      var a, j, k :| PaidBy(r, logs, executor, f, a, j, k);
      assert PaidAt(r, logs, a, executor, k);
    }
    if PaidFromAnchor(r, rec, executor, f) {
      var a :| 0 <= a < |logs| && IsAnchor(r, f, logs[a]) && PaidAfter(r, logs, a, executor);
      var k :| PaidAt(r, logs, a, executor, k);
      var j :| a < j < k && logs[j].address != executor && IsPayment(r, executor, logs[j], logs[k].payload.amount);
      assert PaidBy(r, logs, executor, f, a, j, k);
    }
  }

  predicate Selected(f: Found, transferId: Hash, from: int, to: int) {
    f.log.payload.Withdraw? && f.log.payload.transferId == transferId && from <= f.blockNumber <= to
  }

  /** Every lookup the scan of a withdrawal log can make succeeds. */
  ghost predicate Available(c: Chain, f: Found) {
    f.txHash in c.receipts && c.receipts[f.txHash].blockNumber in c.executors
  }

  /** getLogs over one block range. */
  function GetLogs(c: seq<Found>, transferId: Hash, from: int, to: int): seq<Found> {
    if c == [] then []
    else (if Selected(c[0], transferId, from, to) then [c[0]] else []) + GetLogs(c[1..], transferId, from, to)
  }

  lemma {:induction false} GetLogsHolds(c: seq<Found>, transferId: Hash, from: int, to: int, f: Found)
    ensures f in GetLogs(c, transferId, from, to) <==> f in c && Selected(f, transferId, from, to)
  {
    if c != [] {
      GetLogsHolds(c[1..], transferId, from, to, f);
      assert c == [c[0]] + c[1..];
    }
  }

  /** Adjacent ranges split the logs of their union, with none lost and none twice. */
  lemma {:induction false} RangesPartition(c: seq<Found>, transferId: Hash, from: int, mid: int, to: int)
    requires from <= mid + 1 && mid <= to
    ensures multiset(GetLogs(c, transferId, from, mid)) + multiset(GetLogs(c, transferId, mid + 1, to))
            == multiset(GetLogs(c, transferId, from, to))
  {
    if c != [] {
      RangesPartition(c[1..], transferId, from, mid, to);
    }
  }

  // --- the scanner ---

  /** Strictly increasing log indices make the anchor unique. */
  lemma {:induction false} OrderedIsIncreasing(logs: seq<Log>, i: nat, j: nat)
    requires forall m :: 0 <= m < |logs| ==> OrderedAt(logs, m)
    requires i < j < |logs|
    ensures logs[i].logIndex.Some? && logs[j].logIndex.Some?
    ensures logs[i].logIndex.value < logs[j].logIndex.value
  {
    assert OrderedAt(logs, i) && OrderedAt(logs, j);
    if i < j - 1 {
      OrderedIsIncreasing(logs, i, j - 1);
    }
  }

  method FindAnchor(r: Route, f: Found, logs: seq<Log>) returns (anchor: int)
    ensures -1 <= anchor < |logs|
    ensures anchor >= 0 ==> IsAnchor(r, f, logs[anchor])
    ensures forall i :: 0 <= i < |logs| && (anchor < 0 || i < anchor) ==> !IsAnchor(r, f, logs[i])
  {
    for i := 0 to |logs|
      invariant forall m :: 0 <= m < i ==> !IsAnchor(r, f, logs[m])
    {
      if IsAnchor(r, f, logs[i]) { return i; }
    }
    return -1;
  }

  /** Walk the logs after the anchor; stop at the next bridge event or the first decodable executor action. */
  method PaidInSlice(r: Route, logs: seq<Log>, anchor: nat, executor: Address) returns (paid: bool)
    requires anchor < |logs|
    ensures paid <==> PaidAfter(r, logs, anchor, executor)
  {
    var payments: seq<Log> := [];
    for i := anchor + 1 to |logs|
      invariant forall m :: anchor < m < i ==> Passed(r, executor, logs[m])
      invariant forall p :: p in payments <==> exists j :: anchor < j < i && logs[j] == p && p.address != executor
    {
      var item := logs[i];
      if item.address == r.bridge {
        return false;
      }
      if item.address == executor {
        if !Decodable(item.payload) { continue; }
        if !Pays(r, item.payload) { return false; }
        paid := exists p :: p in payments && IsPayment(r, executor, p, item.payload.amount);
        if paid {
          assert PaidAt(r, logs, anchor, executor, i);
        } else {
          assert forall j :: anchor < j < i && logs[j].address != executor ==> logs[j] in payments;
        }
        return;
      }
      payments := payments + [item];
    }
    return false;
  }

  datatype Verdict = Threw | Paid | NotPaid

  /** One Withdraw log: the checks of its receipt, its anchor, and the slice after it. */
  method InspectLog(r: Route, c: Chain, f: Found) returns (v: Verdict)
    ensures v == Paid ==> Proves(r, c, f)
    ensures v == NotPaid ==> !Proves(r, c, f)
    ensures v == Threw ==> !Available(c, f)
  {
    if !LogMatches(r, f) { return NotPaid; }
    if f.txHash !in c.receipts { return Threw; }
    var rec := c.receipts[f.txHash];
    if !(rec.success && rec.blockHash == f.blockHash && rec.txHash == f.txHash && !f.removed) { return NotPaid; }
    if exists i :: 0 <= i < |rec.logs| && !OrderedAt(rec.logs, i) { return NotPaid; }
    var anchor := FindAnchor(r, f, rec.logs);
    if anchor < 0 { return NotPaid; }
    if rec.blockNumber !in c.executors { return Threw; }
    var paid := PaidInSlice(r, rec.logs, anchor, c.executors[rec.blockNumber]);
    forall a | 0 <= a < |rec.logs| && IsAnchor(r, f, rec.logs[a])
      ensures a == anchor
    {
      if anchor < a { OrderedIsIncreasing(rec.logs, anchor, a); }
    }
    v := if paid then Paid else NotPaid;
  }

  /** The logs of one window, in the order the provider returned them. */
  method InspectWindow(r: Route, c: Chain, logs: seq<Found>) returns (v: Verdict)
    ensures v == Paid ==> exists f :: f in logs && Proves(r, c, f)
    ensures v == NotPaid ==> forall f :: f in logs ==> !Proves(r, c, f)
    ensures v == Threw ==> exists f :: f in logs && !Available(c, f)
  {
    for i := 0 to |logs|
      invariant forall f :: f in logs[..i] ==> !Proves(r, c, f)
    {
      v := InspectLog(r, c, logs[i]);
      if v != NotPaid {
        assert logs[i] in logs;
        return;
      }
      assert logs[..i + 1] == logs[..i] + [logs[i]];
    }
    assert logs[..|logs|] == logs;
    v := NotPaid;
  }

  ghost predicate NoneProves(r: Route, c: Chain, transferId: Hash, from: int, to: int) {
    forall i :: 0 <= i < |c.withdrawals| && Selected(c.withdrawals[i], transferId, from, to)
        ==> !Proves(r, c, c.withdrawals[i])
  }

  lemma {:induction false} WindowExtends(r: Route, c: Chain, transferId: Hash, from: int, start: int, end: int)
    requires NoneProves(r, c, transferId, from, start - 1)
    requires forall f :: f in GetLogs(c.withdrawals, transferId, start, end) ==> !Proves(r, c, f)
    ensures NoneProves(r, c, transferId, from, end)
  {
    forall i | 0 <= i < |c.withdrawals| && Selected(c.withdrawals[i], transferId, from, end)
      ensures !Proves(r, c, c.withdrawals[i])
    {
      var f := c.withdrawals[i];
      GetLogsHolds(c.withdrawals, transferId, start, end, f);
      assert Selected(f, transferId, from, start - 1) || Selected(f, transferId, start, end);
    }
  }

  /** The logs inspected so far are exactly those of a block range, each once. */
  ghost predicate InspectedAll(c: Chain, transferId: Hash, from: int, to: int, inspected: seq<Found>) {
    multiset(inspected) == multiset(GetLogs(c.withdrawals, transferId, from, to))
  }

  lemma {:induction false} InspectedExtends(c: Chain, transferId: Hash, from: int, start: int,
                                            end: int, inspected: seq<Found>)
    requires from <= start <= end + 1 && InspectedAll(c, transferId, from, start - 1, inspected)
    ensures InspectedAll(c, transferId, from, end, inspected + GetLogs(c.withdrawals, transferId, start, end))
  {
    RangesPartition(c.withdrawals, transferId, from, start - 1, end);
  }

  lemma {:induction false} WindowIsSelected(c: Chain, transferId: Hash, from: int, start: int, end: int, f: Found)
    requires from <= start && end <= c.head && f in GetLogs(c.withdrawals, transferId, start, end)
    ensures f in c.withdrawals && Selected(f, transferId, from, c.head)
  {
    GetLogsHolds(c.withdrawals, transferId, start, end, f);
  }

  ghost predicate SomeUnavailable(c: Chain, transferId: Hash, from: int) {
    exists i :: 0 <= i < |c.withdrawals| && Selected(c.withdrawals[i], transferId, from, c.head)
                && !Available(c, c.withdrawals[i])
  }

  lemma {:induction false} WindowThrows(c: Chain, transferId: Hash, from: int, start: int, end: int)
    requires from <= start && end <= c.head
    requires exists f :: f in GetLogs(c.withdrawals, transferId, start, end) && !Available(c, f)
    ensures SomeUnavailable(c, transferId, from)
  {
    var f :| f in GetLogs(c.withdrawals, transferId, start, end) && !Available(c, f);
    WindowIsSelected(c, transferId, from, start, end, f);
  }

  lemma {:induction false} WindowProves(r: Route, c: Chain, transferId: Hash, from: int, start: int, end: int)
    requires from <= start && end <= c.head
    requires exists f :: f in GetLogs(c.withdrawals, transferId, start, end) && Proves(r, c, f)
    ensures !NoneProves(r, c, transferId, from, c.head)
  {
    var f :| f in GetLogs(c.withdrawals, transferId, start, end) && Proves(r, c, f);
    WindowIsSelected(c, transferId, from, start, end, f);
  }

  /** What a verdict on the blocks up to `to` means. */
  ghost predicate Means(v: Verdict, r: Route, c: Chain, transferId: Hash, from: int, to: int) {
    match v
    case Paid => !NoneProves(r, c, transferId, from, c.head)
    case NotPaid => NoneProves(r, c, transferId, from, to)
    case Threw => SomeUnavailable(c, transferId, from)
  }

  /** One window, when the blocks before it have all been inspected in vain. */
  method ScanWindow(r: Route, c: Chain, transferId: Hash, from: int, start: int, end: int, ghost before: seq<Found>)
    returns (v: Verdict, ghost inspected: seq<Found>)
    requires from <= start <= end + 1 && end <= c.head
    requires NoneProves(r, c, transferId, from, start - 1) && InspectedAll(c, transferId, from, start - 1, before)
    ensures Means(v, r, c, transferId, from, end)
    ensures InspectedAll(c, transferId, from, end, inspected)
  {
    var found := GetLogs(c.withdrawals, transferId, start, end);
    InspectedExtends(c, transferId, from, start, end, before);
    inspected := before + found;
    v := InspectWindow(r, c, found);
    match v {
      case Threw => WindowThrows(c, transferId, from, start, end);
      case Paid => WindowProves(r, c, transferId, from, start, end);
      case NotPaid => WindowExtends(r, c, transferId, from, start, end);
    }
  }

  /** The whole scan. Unless a lookup throws, it answers exactly whether some withdrawal log of this transfer in
      [fromBlock, head] proves the payment; and a negative answer has inspected every such log exactly once. */
  method Settlement(r: Route, c: Chain, transferId: Hash, fromBlock: nat)
    returns (v: Verdict, ghost inspected: seq<Found>)
    ensures Means(v, r, c, transferId, fromBlock, c.head)
    ensures v == NotPaid ==> InspectedAll(c, transferId, fromBlock, c.head, inspected)
  {
    hide NoneProves, InspectedAll, SomeUnavailable;
    inspected := [];
    var start: int := fromBlock;
    NothingBefore(r, c, transferId, fromBlock);
    while start <= c.head
      invariant fromBlock <= start && (fromBlock <= c.head ==> start <= c.head + 1)
      invariant NoneProves(r, c, transferId, fromBlock, start - 1)
      invariant InspectedAll(c, transferId, fromBlock, start - 1, inspected)
      decreases c.head - start
    {
      var end := if start + (WINDOW - 1) < c.head then start + (WINDOW - 1) else c.head;
      v, inspected := ScanWindow(r, c, transferId, fromBlock, start, end, inspected);
      if v != NotPaid {
        return;
      }
      start := end + 1;
    }
    if c.head < fromBlock {
      NothingAbove(r, c, transferId, fromBlock);
      inspected := [];
    }
    v := NotPaid;
  }

  /** A start block above the head selects nothing. */
  lemma {:induction false} NothingAbove(r: Route, c: Chain, transferId: Hash, from: int)
    requires c.head < from
    ensures NoneProves(r, c, transferId, from, c.head) && InspectedAll(c, transferId, from, c.head, [])
  {
    EmptyRange(c.withdrawals, transferId, from, c.head);
  }

  lemma {:induction false} NothingBefore(r: Route, c: Chain, transferId: Hash, from: int)
    ensures NoneProves(r, c, transferId, from, from - 1) && InspectedAll(c, transferId, from, from - 1, [])
  {
    EmptyRange(c.withdrawals, transferId, from, from - 1);
  }

  lemma {:induction false} EmptyRange(c: seq<Found>, transferId: Hash, from: int, to: int)
    requires to < from
    ensures GetLogs(c, transferId, from, to) == []
  {
    if c != [] {
      EmptyRange(c[1..], transferId, from, to);
    }
  }
}
