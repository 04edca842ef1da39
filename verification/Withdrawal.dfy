/**
 The multisig withdrawal coordinator: one paid operation is advanced by re-running `Run` on one journal, any number of
 times, each run crashing or throwing anywhere. Everything outside the coordinator (wallet provider, bridge, signer,
 cross-signer, clock, crash points) answers arbitrarily.
*/
module Withdrawal {
  import opened Options

  datatype Route = Route(networkId: string, sender: string, chainId: nat, amount: nat,
                         fastBridge: string, fastToken: string,
                         evmToken: string, receiver: string, bridgeContract: string, endpoints: string)

  /** The fields that bind a journal to its operation; endpoints may rotate. */
  function Identity(r: Route): Route {
    r.(endpoints := "")
  }

  /** A transaction; its hash is taken to be injective, so the transaction stands for its id. */
  datatype Tx = Tx(networkId: string, sender: string, nonce: nat, stamp: nat, operation: Operation)

  datatype Operation =
    | TokenTransfer(token: string, recipient: string, amount: nat)
    | ExternalClaim(transfer: Tx, deadline: nat, token: string, receiver: string)

  datatype Envelope = Envelope(tx: Tx, multisig: bool, config: string)

  datatype StoredTransaction = StoredTransaction(nonce: nat, txId: Tx, envelope: Envelope)

  datatype Relay = Attempting | Accepted | Rejected

  datatype Journal = Journal(route: Route, evmStartBlock: nat, transfer: Option<StoredTransaction>,
                             intent: Option<StoredTransaction>,
                             deadline: Option<nat>, relay: Option<Relay>, completed: bool)

  datatype Status =
    | AwaitingTransferSignatures | TransferUncertain | AwaitingIntentSignatures | IntentUncertain
    | AwaitingSettlement | RelayUncertain | SettlementUnavailable | Completed

  /** One thing that happened: a durable journal write, an answer obtained, or an external effect issued. `Scanned` is
      the scanner's answer for a transfer, `Uncertified` that of the provider when it holds no certificate, `Answered`
      its acceptance of a proposal (which may still lack signatures), `Relayed` the relayer's verdict. */
  datatype Fact =
    | Wrote(journal: Journal)
    | Scanned(transfer: Tx, paid: bool)
    | Certified(tx: Tx)
    | Uncertified(tx: Tx, pending: bool)
    | Clocked(now: int)
    | CrossSigned(tx: Tx)
    | IssuedTransfer(tx: Tx)
    | IssuedIntent(tx: Tx)
    | Answered(tx: Tx, incomplete: bool)
    | IssuedRelay(transfer: Tx, intent: Tx, checkedAt: int)
    | Relayed(verdict: Relay)

  type History = seq<Fact>

  function TransferOperation(r: Route): Operation {
    TokenTransfer(r.fastToken, r.fastBridge, r.amount)
  }

  function IntentOperation(r: Route, transfer: Tx, deadline: nat): Operation {
    ExternalClaim(transfer, deadline, r.evmToken, r.receiver)
  }

  /** The saved envelope is this signer's multisig envelope of the saved transaction, for this route and this
      operation. */
  predicate Validates(s: StoredTransaction, op: Operation, r: Route, config: string) {
    && s.envelope.tx == s.txId
    && s.txId.networkId == r.networkId
    && s.txId.sender == r.sender
    && s.txId.nonce == s.nonce
    && s.txId.operation == op
    && s.envelope.multisig
    && s.envelope.config == config
  }

  // --- journals ---

  /** The shape every written journal has: relay after intent after transfer, a deadline with the intent, and saved
      transactions that are this route's. */
  ghost predicate JournalOk(j: Journal) {
    && (j.intent.Some? ==> j.transfer.Some?)
    && (j.relay.Some? ==> j.intent.Some?)
    && (j.completed ==> j.transfer.Some?)
    && (j.intent.Some? <==> j.deadline.Some?)
    && (j.transfer.Some? ==> SavedFor(j.transfer.value, TransferOperation(j.route), j.route))
    && (j.intent.Some? ==> SavedFor(j.intent.value,
                                    IntentOperation(j.route, j.transfer.value.txId, j.deadline.value), j.route))
  }

  ghost predicate SavedFor(s: StoredTransaction, op: Operation, r: Route) {
    Validates(s, op, r, s.envelope.config)
  }

  /** A journal only grows: what is set stays as it is, the relay outcome alone may follow an attempt. */
  ghost predicate Grows(a: Journal, b: Journal) {
    && b.route == a.route && b.evmStartBlock == a.evmStartBlock
    && (a.transfer.Some? ==> b.transfer == a.transfer)
    && (a.intent.Some? ==> b.intent == a.intent && b.deadline == a.deadline)
    && (a.relay.Some? ==> b.relay.Some? && (a.relay != Some(Attempting) ==> b.relay == a.relay))
    && (a.completed ==> b.completed)
  }

  /** A new journal has no stage. */
  predicate IsBlank(j: Journal) {
    j.transfer.None? && j.intent.None? && j.deadline.None? && j.relay.None? && !j.completed
  }

  const CLAIM_SECONDS := 86400

  /** A journal may complete only on a positive scan for its transfer just made, gains its intent only with a deadline
      one day after the clock just read, and takes over only the relay verdict just given. */
  predicate Grounded(saved: Option<Journal>, j: Journal, last: Option<Fact>) {
    var before := if saved.Some? then saved.value else j;
    && (saved.None? ==> IsBlank(j))
    && (j.completed && !before.completed ==> j.transfer.Some? && last == Some(Scanned(j.transfer.value.txId, true)))
    && (j.intent.Some? && before.intent.None? ==>
          last.Some? && last.value.Clocked? && j.deadline.Some? && j.deadline.value == last.value.now + CLAIM_SECONDS)
    && (j.relay != before.relay ==>
          if before.relay.None? then j.relay == Some(Attempting) else last.Some? && last.value.Relayed?
                                                                      && j.relay == Some(last.value.verdict))
  }

  // --- histories ---

  function LastFact(h: History): Option<Fact> {
    if h == [] then None else Some(h[|h| - 1])
  }

  /** The journal the store holds after a history. */
  function LastWritten(h: History): Option<Journal> {
    if h == [] then None
    else if h[|h| - 1].Wrote? then Some(h[|h| - 1].journal)
    else LastWritten(h[..|h| - 1])
  }

  datatype Kind = ATransfer | AnIntent | ARelay

  predicate IsA(f: Fact, k: Kind) {
    match k
    case ATransfer => f.IssuedTransfer?
    case AnIntent => f.IssuedIntent?
    case ARelay => f.IssuedRelay?
  }

  /** The stage of a journal that an effect of each kind belongs to. */
  predicate Announced(saved: Option<Journal>, k: Kind) {
    saved.Some? && match k
                   case ATransfer => saved.value.transfer.Some?
                   case AnIntent => saved.value.intent.Some?
                   case ARelay => saved.value.relay.Some?
  }

  /** When `f` may follow `h`. An effect follows at once the write that first announced its stage, in a journal not
      completed, and needs the certificates of the stages before it. */
  ghost predicate MayFollow(h: History, f: Fact) {
    var saved := LastWritten(h);
    match f
    case Wrote(j) => JournalOk(j) && (saved.Some? ==> Grows(saved.value, j)) && Grounded(saved, j, LastFact(h))
    case Scanned(_, _) => true
    case Certified(_) => true
    case Uncertified(_, _) => true
    case Clocked(_) => true
    case Answered(_, _) => true
    case Relayed(_) => true
    case CrossSigned(tx) => Certified(tx) in h
    case IssuedTransfer(tx) =>
      && JustAnnounced(h, ATransfer) && !saved.value.completed
      && saved.value.transfer.Some? && saved.value.transfer.value.txId == tx && saved.value.intent == None
    case IssuedIntent(tx) =>
      && JustAnnounced(h, AnIntent) && !saved.value.completed
      && saved.value.intent.Some? && saved.value.intent.value.txId == tx && saved.value.relay == None
      && saved.value.transfer.Some? && Certified(saved.value.transfer.value.txId) in h
    case IssuedRelay(transfer, intent, checkedAt) =>
      && JustAnnounced(h, ARelay) && !saved.value.completed
      && saved.value.relay == Some(Attempting)
      && saved.value.transfer.Some? && saved.value.transfer.value.txId == transfer && CrossSigned(transfer) in h
      && saved.value.intent.Some? && saved.value.intent.value.txId == intent && CrossSigned(intent) in h
      && saved.value.deadline.Some? && saved.value.deadline.value > checkedAt && Clocked(checkedAt) in h
  }

  /** The last fact is a write that sets this stage for the first time. */
  ghost predicate JustAnnounced(h: History, k: Kind)
    ensures JustAnnounced(h, k) ==> LastWritten(h).Some?
  {
    |h| > 0 && h[|h| - 1].Wrote? && !Announced(LastWritten(h[..|h| - 1]), k) && Announced(LastWritten(h), k)
  }

  ghost predicate FollowsAt(h: History, i: nat)
    requires i < |h|
  {
    MayFollow(h[..i], h[i])
  }

  /** Each fact may follow the ones before it. */
  ghost predicate Lawful(h: History) {
    forall i :: 0 <= i < |h| ==> FollowsAt(h, i)
  }

  /** A relay may be announced once, and issued right after its announcement. */
  lemma {:induction false} RelayMayFollow(h: History, journal: Journal, now: int)
    requires Lawful(h) && LastWritten(h) == Some(journal) && JournalOk(journal) && !journal.completed
    requires journal.transfer.Some? && journal.intent.Some? && journal.relay == None && journal.deadline.Some?
    requires journal.deadline.value > now && Clocked(now) in h
    requires CrossSigned(journal.transfer.value.txId) in h && CrossSigned(journal.intent.value.txId) in h
    ensures var next := journal.(relay := Some(Attempting));
      && MayFollow(h, Wrote(next))
      && MayFollow(h + [Wrote(next)], IssuedRelay(journal.transfer.value.txId, journal.intent.value.txId, now))
  {
    var announced := h + [Wrote(journal.(relay := Some(Attempting)))];
    assert announced[..|h|] == h;
  }

  /** The journal with one more stage. */
  function WithStage(isTransfer: bool, journal: Journal, stored: StoredTransaction, deadline: Option<nat>): Journal {
    if isTransfer then journal.(transfer := Some(stored))
    else journal.(intent := Some(stored), deadline := deadline)
  }

  function Issue(isTransfer: bool, tx: Tx): Fact {
    if isTransfer then IssuedTransfer(tx) else IssuedIntent(tx)
  }

  /** What holds when a stage may be proposed. */
  ghost predicate Ready(isTransfer: bool, journal: Journal, deadline: Option<nat>, h: History) {
    && !journal.completed
    && if isTransfer then journal.transfer == None else
       && journal.transfer.Some? && journal.intent == None && deadline.Some?
       && Certified(journal.transfer.value.txId) in h
       && LastFact(h).Some? && LastFact(h).value.Clocked?
       && deadline.value == LastFact(h).value.now + CLAIM_SECONDS
  }

  /** A stage that is ready may be announced, and issued right after its announcement. */
  lemma {:induction false} StageMayFollow(h: History, isTransfer: bool, journal: Journal, deadline: Option<nat>,
                                          stored: StoredTransaction)
    requires LastWritten(h) == Some(journal) && JournalOk(journal) && Ready(isTransfer, journal, deadline, h)
    requires SavedFor(stored, if isTransfer then TransferOperation(journal.route)
                              else IntentOperation(journal.route, journal.transfer.value.txId, deadline.value),
                      journal.route)
    ensures var next := WithStage(isTransfer, journal, stored, deadline);
      && JournalOk(next) && Grows(journal, next) && Grounded(Some(journal), next, LastFact(h))
      && MayFollow(h + [Wrote(next)], Issue(isTransfer, stored.txId))
  {
    var announced := h + [Wrote(WithStage(isTransfer, journal, stored, deadline))];
    assert announced[..|h|] == h;
  }

  /** Answers may come at any time. */
  lemma {:induction false} MayAlwaysFollow(h: History, f: Fact)
    requires f.Scanned? || f.Certified? || f.Uncertified? || f.Clocked? || f.Answered? || f.Relayed?
    ensures MayFollow(h, f)
  {
  }

  /** An answer about a saved stage that is not certified explains the status of awaiting it. */
  lemma {:induction false} AwaitingExplained(h: History, isTransfer: bool, pending: bool)
    requires h != [] && LastWritten(h).Some? && !LastWritten(h).value.completed && LastWritten(h).value.transfer.Some?
    requires !isTransfer ==> LastWritten(h).value.intent.Some?
    requires var j := LastWritten(h).value;
      var tx := if isTransfer then j.transfer.value.txId else j.intent.value.txId;
      h[|h| - 1] == Uncertified(tx, pending) || h[|h| - 1] == Answered(tx, pending)
    ensures isTransfer ==> Explains(if pending then AwaitingTransferSignatures else TransferUncertain, h)
    ensures !isTransfer ==> Explains(if pending then AwaitingIntentSignatures else IntentUncertain, h)
  {
  }

  lemma {:induction false} Append(h: History, f: Fact)
    ensures LastWritten(h + [f]) == if f.Wrote? then Some(f.journal) else LastWritten(h)
  {
    assert (h + [f])[..|h|] == h;
  }

  lemma {:induction false} LawfulAppend(h: History, f: Fact)
    requires Lawful(h) && MayFollow(h, f)
    ensures Lawful(h + [f])
    ensures LastWritten(h + [f]) == if f.Wrote? then Some(f.journal) else LastWritten(h)
  {
    Append(h, f);
    forall i | 0 <= i < |h + [f]|
      ensures FollowsAt(h + [f], i)
    {
      assert (h + [f])[..i] == h[..i];
      if i == |h| { assert h[..i] == h; } else { assert FollowsAt(h, i); }
    }
  }

  /** No transfer after an intent or a relay, and no intent after a relay. */
  predicate InOrder(first: Fact, second: Fact) {
    && (first.IssuedIntent? || first.IssuedRelay? ==> !second.IssuedTransfer?)
    && (first.IssuedRelay? ==> !second.IssuedIntent?)
  }

  /** The scan has shown the payment of the journal written at `i` before that write. */
  ghost predicate PaidBefore(h: History, i: nat)
    requires i < |h| && h[i].Wrote?
  {
    h[i].journal.transfer.Some? && Scanned(h[i].journal.transfer.value.txId, true) in h[..i]
  }

  predicate CompletedIn(f: Fact) {
    f.Wrote? && f.journal.completed
  }

  /** What a reported status rests on: the last thing that happened, and the journal it left. */
  ghost predicate Explains(status: Status, h: History) {
    && LastWritten(h).Some? && h != []
    && var j, last := LastWritten(h).value, h[|h| - 1];
    && j.transfer.Some?
    && match status
       case AwaitingTransferSignatures =>
         !j.completed && (last == Uncertified(j.transfer.value.txId, true)
                          || last == Answered(j.transfer.value.txId, true))
       case TransferUncertain =>
         !j.completed && (last == Uncertified(j.transfer.value.txId, false)
                          || last == Answered(j.transfer.value.txId, false))
       case AwaitingIntentSignatures =>
         !j.completed && j.intent.Some?
         && (last == Uncertified(j.intent.value.txId, true) || last == Answered(j.intent.value.txId, true))
       case IntentUncertain =>
         !j.completed && j.intent.Some?
         && (last == Uncertified(j.intent.value.txId, false) || last == Answered(j.intent.value.txId, false))
       case AwaitingSettlement =>
         !j.completed && j.intent.Some? && j.relay == Some(Accepted)
         && (last == Certified(j.intent.value.txId) || last == Wrote(j))
       case RelayUncertain =>
         !j.completed && j.intent.Some? && (j.relay == Some(Attempting) || j.relay == Some(Rejected))
         && (last == Certified(j.intent.value.txId) || last == Wrote(j))
       case SettlementUnavailable => j.completed && last == Scanned(j.transfer.value.txId, false)
       case Completed =>
         j.completed && last == Wrote(j) && |h| > 1 && h[|h| - 2] == Scanned(j.transfer.value.txId, true)
  }

  /** The scan of a journal with a saved transfer, made in the facts from `from` on, decides whether a run completes. */
  ghost predicate ScanDecides(h: History, from: nat, transfer: Tx, status: Status) {
    exists i :: from <= i < |h| && h[i].Scanned? && h[i].transfer == transfer && (h[i].paid <==> status == Completed)
  }

  /** No positive scan among the facts from `from` on. */
  ghost predicate NoneSettled(h: History, from: nat) {
    forall i :: from <= i < |h| ==> !(h[i].Scanned? && h[i].paid)
  }

  /** The saved transactions are multisig envelopes of this configuration. */
  predicate SignedUnder(j: Journal, config: string) {
    && (j.transfer.Some? ==> j.transfer.value.envelope.multisig && j.transfer.value.envelope.config == config)
    && (j.intent.Some? ==> j.intent.value.envelope.multisig && j.intent.value.envelope.config == config)
  }

  class Coordinator {
    /** The durable store's content. */
    var saved: Option<Journal>
    ghost var history: History

    ghost predicate Valid()
      reads this
    {
      && Lawful(history)
      && saved == LastWritten(history)
      && (saved.Some? ==> JournalOk(saved.value))
    }

    constructor ()
      ensures Valid() && saved == None && history == []
    {
      saved := None;
      history := [];
    }

    ghost method Observe(f: Fact)
      requires Valid() && !f.Wrote? && MayFollow(history, f)
      modifies this`history
      ensures Valid() && history == old(history) + [f]
    {
      LawfulAppend(history, f);
      history := history + [f];
    }

    /** A write that may fail before or after the journal became durable. */
    method Write(journal: Journal) returns (ok: bool)
      requires Valid() && JournalOk(journal) && (saved.Some? ==> Grows(saved.value, journal))
      requires Grounded(saved, journal, LastFact(history))
      modifies this
      ensures Valid()
      ensures history == old(history) || history == old(history) + [Wrote(journal)]
      ensures ok ==> history == old(history) + [Wrote(journal)]
    {
      if * { return false; }
      LawfulAppend(history, Wrote(journal));
      saved := Some(journal);
      history := history + [Wrote(journal)];
      ok := *;
    }

    /** Look for the certificate of a saved transaction, then for a pending proposal of it. */
    method Reconcile(stored: StoredTransaction) returns (ok: bool, certified: bool, pending: bool)
      requires Valid()
      modifies this`history
      ensures Valid() && LastWritten(history) == old(LastWritten(history))
      ensures !ok ==> history == old(history)
      ensures ok ==> history == old(history) + [if certified then Certified(stored.txId)
                                                else Uncertified(stored.txId, pending)]
    {
      ok, certified, pending := false, false, false;
      if * { return; }                              // the provider failed
      var found: Option<Tx> := *;                   // the certificate at the saved nonce
      if found.Some? {
        if found.value != stored.txId { return; }   // conflicting withdrawal certificate
        Observe(Certified(stored.txId));
        return true, true, false;
      }
      if * { return; }                              // the provider failed, or another proposal holds the nonce
      pending := *;
      Observe(Uncertified(stored.txId, pending));
      ok := true;
    }

    /** Sign and submit one stage; the attempt is written before the provider is called, and its answer is reported. */
    method Propose(isTransfer: bool, journal: Journal, deadline: Option<nat>, route: Route, config: string)
      returns (r: Option<Status>)
      requires Valid() && saved == Some(journal) && SignedUnder(journal, config)
      requires Identity(journal.route) == Identity(route)
      requires Ready(isTransfer, journal, deadline, history)
      modifies this
      ensures Valid() && old(history) <= history && NoneSettled(history, |old(history)|)
      ensures r.Some? ==> Explains(r.value, history) && SignedUnder(saved.value, config)
                          && saved.value.route == journal.route
      ensures r.Some? ==> r.value in if isTransfer then {AwaitingTransferSignatures, TransferUncertain}
                                     else {AwaitingIntentSignatures, IntentUncertain}
    {
      hide Lawful, MayFollow, JournalOk, Grows, Grounded, Explains;
      r := None;
      if * { return; }                              // account info or preflight failed, proposal pending, low balance
      var nonce: nat := *;
      var stamp: nat := *;
      var op := if isTransfer then TransferOperation(route)
                else IntentOperation(route, journal.transfer.value.txId, deadline.value);
      if * { return; }                              // the signer failed
      var tx := Tx(route.networkId, route.sender, nonce, stamp, op);
      var stored := StoredTransaction(nonce, tx, Envelope(tx, true, config));
      StageMayFollow(history, isTransfer, journal, deadline, stored);
      ghost var before := history;
      var ok := Write(WithStage(isTransfer, journal, stored, deadline));
      if !ok { return; }
      assert history == before + [Wrote(WithStage(isTransfer, journal, stored, deadline))];
      r := Submit(isTransfer, stored);
    }

    /** Send an announced stage to the provider; whatever it answers is reported as a wait. */
    method Submit(isTransfer: bool, stored: StoredTransaction) returns (r: Option<Status>)
      requires Valid() && MayFollow(history, Issue(isTransfer, stored.txId))
      requires saved.Some? && !saved.value.completed && saved.value.transfer.Some?
      requires Some(stored) == if isTransfer then saved.value.transfer else saved.value.intent
      modifies this`history
      ensures Valid() && old(history) <= history && NoneSettled(history, |old(history)|)
      ensures r.Some? ==> Explains(r.value, history)
      ensures r.Some? ==> r.value in if isTransfer then {AwaitingTransferSignatures, TransferUncertain}
                                     else {AwaitingIntentSignatures, IntentUncertain}
    {
      hide Lawful, MayFollow, JournalOk, Explains;
      Observe(Issue(isTransfer, stored.txId));
      if * { return None; }                         // the provider threw, or answered with a conflicting certificate
      var incomplete: bool := *;
      MayAlwaysFollow(history, Answered(stored.txId, incomplete));
      Observe(Answered(stored.txId, incomplete));
      AwaitingExplained(history, isTransfer, incomplete);
      r := Some(if isTransfer then (if incomplete then AwaitingTransferSignatures else TransferUncertain)
                else if incomplete then AwaitingIntentSignatures else IntentUncertain);
    }

    /** Cross-sign both certificates; each proof must carry the saved transaction's identity. */
    method CrossSignBoth(transfer: Tx, intent: Tx) returns (ok: bool)
      requires Valid() && Certified(transfer) in history && Certified(intent) in history
      modifies this`history
      ensures Valid() && LastWritten(history) == old(LastWritten(history))
      ensures history == if ok then old(history) + [CrossSigned(transfer)] + [CrossSigned(intent)] else old(history)
    {
      if * { return false; }
      LawfulAppend(history, CrossSigned(transfer));
      LawfulAppend(history + [CrossSigned(transfer)], CrossSigned(intent));
      history := history + [CrossSigned(transfer)] + [CrossSigned(intent)];
      ok := true;
    }

    /** Announce the relay durably, then call the relayer. */
    method IssueRelay(journal: Journal, now: int) returns (ok: bool, verdict: Relay)
      requires Valid() && saved == Some(journal) && !journal.completed
      requires journal.transfer.Some? && journal.intent.Some? && journal.relay == None && journal.deadline.Some?
      requires journal.deadline.value > now && Clocked(now) in history
      requires CrossSigned(journal.transfer.value.txId) in history && CrossSigned(journal.intent.value.txId) in history
      modifies this
      ensures Valid() && old(history) <= history && NoneSettled(history, |old(history)|)
      ensures ok ==> saved == Some(journal.(relay := Some(Attempting))) && LastFact(history) == Some(Relayed(verdict))
    {
      ok, verdict := false, Attempting;
      if * { return; }                              // the simulation failed
      var next := journal.(relay := Some(Attempting));
      ghost var before, relayed := history, IssuedRelay(journal.transfer.value.txId, journal.intent.value.txId, now);
      RelayMayFollow(before, journal, now);
      ok := Write(next);
      if !ok { return; }
      assert history == before + [Wrote(next)];
      Observe(relayed);
      if * { return false, Attempting; }            // the relayer call threw
      verdict := *;
      Observe(Relayed(verdict));
    }

    /** Relay once and record the verdict; `Attempting` stands for an indefinite answer. */
    method RelayOnce(journal: Journal, now: int) returns (r: Option<Status>)
      requires Valid() && saved == Some(journal) && !journal.completed
      requires journal.transfer.Some? && journal.intent.Some? && journal.relay == None && journal.deadline.Some?
      requires journal.deadline.value > now && Clocked(now) in history
      requires CrossSigned(journal.transfer.value.txId) in history && CrossSigned(journal.intent.value.txId) in history
      modifies this
      ensures Valid() && old(history) <= history && NoneSettled(history, |old(history)|)
      ensures r.Some? ==> Explains(r.value, history) && (r == Some(AwaitingSettlement) || r == Some(RelayUncertain))
                          && saved.value.(relay := None) == journal
    {
      var ok, verdict := IssueRelay(journal, now);
      if !ok { return None; }
      ok := Write(journal.(relay := Some(verdict)));
      r := if !ok then None else Some(if verdict == Accepted then AwaitingSettlement else RelayUncertain);
    }

    /** One run of the coordinator. None means that it threw or died. Anything it reports is explained by the last thing
        that happened, belongs to the journal's own route and signer configuration, and, once a transfer is saved, is
        `Completed` exactly if the scan found the payment. */
    method Run(route: Route, config: string) returns (r: Option<Status>)
      requires Valid()
      modifies this
      ensures Valid() && old(history) <= history
      ensures r.Some? ==> Explains(r.value, history)
      ensures r.Some? ==> Identity(saved.value.route) == Identity(route) && SignedUnder(saved.value, config)
      ensures r.Some? && old(saved).Some? && old(saved).value.transfer.Some? ==>
                ScanDecides(history, |old(history)|, old(saved).value.transfer.value.txId, r.value)
      ensures NoneSettled(history, |old(history)|) || r == None || r == Some(Completed)
      ensures old(saved).Some? && (Identity(old(saved).value.route) != Identity(route)
                                   || !SignedUnder(old(saved).value, config))
              ==> r == None && history == old(history)
    {
      r := None;
      if * { return; }                              // the route or the signer is not acceptable
      var evmBlock: nat := *;
      var journal := if saved.Some? then saved.value else Journal(route, evmBlock, None, None, None, None, false);
      if Identity(journal.route) != Identity(route) { return; }
      if journal.transfer.Some? && !Validates(journal.transfer.value, TransferOperation(route),
                                              route, config) { return; }
      if journal.intent.Some?
         && !Validates(journal.intent.value,
                       IntentOperation(route, journal.transfer.value.txId, journal.deadline.value), route, config)
      { return; }
      if saved.None? {
        var ok := Write(journal);
        if !ok { return; }
      }
      if journal.transfer.None? {
        r := Propose(true, journal, None, route, config);
        return;
      }
      if * { return; }                              // the settlement scan failed
      var settled: bool := *;
      Observe(Scanned(journal.transfer.value.txId, settled));
      assert history[|old(history)|] == Scanned(journal.transfer.value.txId, settled);
      if settled {
        var ok := Write(journal.(completed := true));
        if ok { r := Some(Completed); }
        return;
      }
      if journal.completed { return Some(SettlementUnavailable); }
      r := Advance(journal, route, config);
    }

    /** The rest of a run, when the scan has found no payment. */
    method Advance(journal: Journal, route: Route, config: string) returns (r: Option<Status>)
      requires Valid() && saved == Some(journal) && !journal.completed && journal.transfer.Some?
      requires Identity(journal.route) == Identity(route) && SignedUnder(journal, config)
      modifies this
      ensures Valid() && old(history) <= history && NoneSettled(history, |old(history)|)
      ensures r.Some? ==> Explains(r.value, history) && r != Some(Completed)
                          && saved.value.route == journal.route && SignedUnder(saved.value, config)
    {
      r := None;
      var ok, certified, pending := Reconcile(journal.transfer.value);
      if !ok { return; }
      if !certified { return Some(if pending then AwaitingTransferSignatures else TransferUncertain); }
      if journal.relay.Some? {
        r := AwaitSettlement(journal);
        return;
      }
      var now: int := *;
      Observe(Clocked(now));
      if journal.intent.None? {
        if now + CLAIM_SECONDS <= 0 { return; }     // the deadline is not a positive decimal
        r := Propose(false, journal, Some(now + CLAIM_SECONDS), route, config);
        return;
      }
      if journal.deadline.value <= now { return; }  // expired
      r := AdvanceRelay(journal, now);
    }

    /** A relay has been attempted: only its intent is looked up again. */
    method AwaitSettlement(journal: Journal) returns (r: Option<Status>)
      requires Valid() && saved == Some(journal) && !journal.completed && journal.relay.Some?
      modifies this`history
      ensures Valid() && old(history) <= history && NoneSettled(history, |old(history)|)
      ensures r.Some? ==> Explains(r.value, history) && r != Some(Completed)
    {
      var ok, certified, pending := Reconcile(journal.intent.value);
      if !ok { return None; }
      if !certified { return Some(if pending then AwaitingIntentSignatures else IntentUncertain); }
      match journal.relay.value
      case Accepted => r := Some(AwaitingSettlement);
      case Attempting => r := Some(RelayUncertain);
      case Rejected => r := Some(RelayUncertain);
    }

    /** Look the intent up, cross-sign both stages and relay. */
    method AdvanceRelay(journal: Journal, now: int) returns (r: Option<Status>)
      requires Valid() && saved == Some(journal) && !journal.completed && journal.relay.None?
      requires journal.transfer.Some? && journal.intent.Some? && journal.deadline.Some?
      requires journal.deadline.value > now && Clocked(now) in history
               && Certified(journal.transfer.value.txId) in history
      modifies this
      ensures Valid() && old(history) <= history && NoneSettled(history, |old(history)|)
      ensures r.Some? ==> Explains(r.value, history) && r != Some(Completed) && saved.value.(relay := None) == journal
    {
      hide Lawful, MayFollow, JournalOk, Explains;
      r := None;
      var ok, certified, pending := Reconcile(journal.intent.value);
      if !ok { return; }
      if !certified {
        AwaitingExplained(history, false, pending);
        return Some(if pending then AwaitingIntentSignatures else IntentUncertain);
      }
      ok := CrossSignBoth(journal.transfer.value.txId, journal.intent.value.txId);
      if !ok { return; }
      r := RelayOnce(journal, now);
    }

    /** Any number of runs, each with its own route spelling and signer: over all of them each stage is issued at most
        once, in order, and nothing is issued once the journal is completed. */
    method RunMany(routes: seq<Route>, configs: seq<string>)
      requires Valid() && |configs| == |routes|
      modifies this
      ensures Valid() && old(history) <= history
      ensures forall i, j, k :: 0 <= i < j < |history| ==> !(IsA(history[i], k) && IsA(history[j], k))
      ensures forall i, j :: 0 <= i < j < |history| ==> InOrder(history[i], history[j])
      ensures forall i, j, k :: 0 <= i < j < |history| && CompletedIn(history[i]) ==> !IsA(history[j], k)
      ensures forall i :: 0 <= i < |history| && CompletedIn(history[i]) ==> PaidBefore(history, i)
    {
      for i := 0 to |routes|
        invariant Valid() && old(history) <= history
      {
        var _ := Run(routes[i], configs[i]);
      }
      forall i, j, k: Kind | 0 <= i < j < |history|
        ensures !(IsA(history[i], k) && IsA(history[j], k))
      {
        EachIssuedOnce(history, i, j, k);
      }
      forall i, j | 0 <= i < j < |history|
        ensures InOrder(history[i], history[j])
      {
        IssuedInOrder(history, i, j);
      }
      forall i, j, k: Kind | 0 <= i < j < |history| && CompletedIn(history[i])
        ensures !IsA(history[j], k)
      {
        CompletedIsTerminal(history, i, j, k);
      }
      forall i | 0 <= i < |history| && CompletedIn(history[i])
        ensures PaidBefore(history, i)
      {
        CompletedIsPaid(history, i);
      }
    }
  }

  // --- what every lawful history, and so every sequence of runs, guarantees ---

  lemma {:induction false} LawfulPrefix(h: History, i: nat)
    requires Lawful(h) && i < |h|
    ensures MayFollow(h[..i], h[i])
  {
    assert FollowsAt(h, i);
  }

  /** Between two points of a lawful history the journal only grows: saved transactions, deadline, relay verdict and
      completion are never taken back. */
  lemma {:induction false} JournalGrowsBetween(h: History, i: nat, j: nat)
    requires Lawful(h) && i <= j <= |h| && LastWritten(h[..i]).Some?
    ensures LastWritten(h[..j]).Some? && Grows(LastWritten(h[..i]).value, LastWritten(h[..j]).value)
    decreases j - i
  {
    if i < j {
      LawfulPrefix(h, i);
      Append(h[..i], h[i]);
      assert h[..i] + [h[i]] == h[..i + 1];
      JournalGrowsBetween(h, i + 1, j);
    }
  }

  /** The transfer, the intent and the relay are each issued at most once: the first issue follows a journal that
      announced its stage, journals only grow, and the second would follow a write that announces the stage anew. */
  lemma {:induction false} EachIssuedOnce(h: History, i: nat, j: nat, k: Kind)
    requires Lawful(h) && i < j < |h|
    ensures !(IsA(h[i], k) && IsA(h[j], k))
  {
    if IsA(h[i], k) && IsA(h[j], k) {
      LawfulPrefix(h, i);
      LawfulPrefix(h, j);
      assert h[..j][j - 1] == h[j - 1];
      assert h[..j][..j - 1] == h[..j - 1];
      JournalGrowsBetween(h, i, j - 1);
    }
  }

  /** A journal is completed only after a scan showed the payment of its transfer. */
  lemma {:induction false} CompletedIsPaid(h: History, i: nat)
    requires Lawful(h) && i < |h| && CompletedIn(h[i])
    ensures PaidBefore(h, i)
  {
    LawfulPrefix(h, i);
    var saved := LastWritten(h[..i]);
    if saved.Some? && saved.value.completed {
      var k := LastWriteAt(h, i);
      CompletedIsPaid(h, k);
      assert h[..i][..k] == h[..k];
    } else {
      assert h[..i][i - 1] == h[i - 1];
    }
  }

  /** The write that the store holds after `i` facts. */
  lemma {:induction false} LastWriteAt(h: History, i: nat) returns (k: nat)
    requires i <= |h| && LastWritten(h[..i]).Some?
    ensures k < i && h[k].Wrote? && Some(h[k].journal) == LastWritten(h[..i])
  {
    if h[i - 1].Wrote? {
      k := i - 1;
    } else {
      assert h[..i][..i - 1] == h[..i - 1];
      k := LastWriteAt(h, i - 1);
    }
  }

  /** An intent's deadline is one day after the clock read just before it was announced. */
  lemma {:induction false} DeadlineIsOneDay(h: History, i: nat)
    requires Lawful(h) && i < |h| && h[i].IssuedIntent?
    ensures i > 1 && h[i - 2].Clocked? && h[i].tx.operation.ExternalClaim?
    ensures h[i].tx.operation.deadline == h[i - 2].now + CLAIM_SECONDS
  {
    LawfulPrefix(h, i);
    assert h[..i][i - 1] == h[i - 1] && h[..i][..i - 1] == h[..i - 1];
    LawfulPrefix(h, i - 1);
    assert h[..i - 1][i - 2] == h[i - 2];
  }

  /** Once a completed journal has been written, nothing is ever issued again. */
  lemma {:induction false} CompletedIsTerminal(h: History, i: nat, j: nat, k: Kind)
    requires Lawful(h) && i < j < |h| && CompletedIn(h[i])
    ensures !IsA(h[j], k)
  {
    Append(h[..i], h[i]);
    assert h[..i] + [h[i]] == h[..i + 1];
    JournalGrowsBetween(h, i + 1, j);
    LawfulPrefix(h, j);
  }

  /** The stages are issued in order. */
  lemma {:induction false} IssuedInOrder(h: History, i: nat, j: nat)
    requires Lawful(h) && i < j < |h|
    ensures InOrder(h[i], h[j])
  {
    if h[i].IssuedIntent? || h[i].IssuedRelay? {
      LawfulPrefix(h, i);
      LawfulPrefix(h, j);
      JournalGrowsBetween(h, i, j);
    }
  }

  /** An intent claims exactly the certified transfer of its own journal, for the route's token and receiver; the
      transfer pays the route's amount to its bridge. Every issue directly follows the durable write that announced
      it. */
  lemma {:induction false} IssuedAsAnnounced(h: History, i: nat)
    requires Lawful(h) && i < |h| && (h[i].IssuedTransfer? || h[i].IssuedIntent? || h[i].IssuedRelay?)
    ensures i > 0 && h[i - 1].Wrote? && JournalOk(h[i - 1].journal)
    ensures var j, r := h[i - 1].journal, h[i - 1].journal.route;
      match h[i]
      case IssuedTransfer(tx) =>
        && j.transfer.Some? && tx == j.transfer.value.txId
        && tx.networkId == r.networkId && tx.sender == r.sender
        && tx.operation == TokenTransfer(r.fastToken, r.fastBridge, r.amount)
      case IssuedIntent(tx) =>
        && j.transfer.Some? && j.intent.Some? && j.deadline.Some? && tx == j.intent.value.txId
        && tx.networkId == r.networkId && tx.sender == r.sender
        && tx.operation == ExternalClaim(j.transfer.value.txId, j.deadline.value, r.evmToken, r.receiver)
        && Certified(j.transfer.value.txId) in h[..i]
      case IssuedRelay(t, n, now) =>
        && n.operation.ExternalClaim? && n.operation.transfer == t && n.operation.deadline > now
        && Certified(t) in h[..i] && Certified(n) in h[..i]
      case _ => true
  {
    LawfulPrefix(h, i);
    assert h[..i][i - 1] == h[i - 1];
    assert LastWritten(h[..i]) == Some(h[i - 1].journal);
    LawfulPrefix(h, i - 1);
    if h[i].IssuedRelay? {
      CrossSignedIsCertified(h, i, h[i].transfer);
      CrossSignedIsCertified(h, i, h[i].intent);
    }
  }

  lemma {:induction false} CrossSignedIsCertified(h: History, i: nat, tx: Tx)
    requires Lawful(h) && i <= |h| && CrossSigned(tx) in h[..i]
    ensures Certified(tx) in h[..i]
  {
    var m :| 0 <= m < i && h[..i][m] == CrossSigned(tx);
    LawfulPrefix(h, m);
    assert h[..i][..m] == h[..m];
  }
}
