/**
 What the calls of the signing protocol report. Each report is tied to the answers the call received, as its story
 records them: what the journal held, what the provider, the proxy and the index answered, and which saves and lock
 releases went through. The statements speak of those answers field by field.
*/
module SignOutcomes {
  import opened Options
  import opened SignModel
  import opened SignProtocol
  import opened SignSafety

  // --- what an answer means ---

  /** The provider or the proxy showed a certificate of exactly this submission. */
  predicate Proves(c: Certificate, s: Submission) {
    c.tx == s.tx && c.senderSignature == s.senderSignature
  }

  predicate AnswerProves(a: ProviderAnswer, s: Submission) {
    a.Certified? && Proves(a.certificate, s)
  }

  /** The receipt of a settled submission, with its certificate. */
  predicate IsReceiptOf(r: Receipt, operation: FrozenOperation, s: Submission, c: Certificate) {
    && Public(r.name) == operation.input.operationId && r.indexOrigin == operation.indexOrigin
    && r.txId == s.tx && r.claim == s.tx.claim && r.sha256 == s.tx.claim.sha256
    && r.signer == s.tx.sender && r.nonce == s.tx.nonce && r.network == s.tx.network
    && r.senderSignature == s.senderSignature && r.certificate == c
  }

  /** An index row for exactly the receipt's record. */
  predicate ShowsRecord(l: Lookup, r: Receipt) {
    && l.Row?
    && l.row.sha256 == r.sha256
    && l.row.txId == r.txId
    && l.row.signer == r.signer
    && l.row.network == r.network
    && l.row.nonce == r.nonce
  }

  /** An index row that differs from the receipt's record in some field. */
  predicate ShowsOther(l: Lookup, r: Receipt) {
    l.Row? && !ShowsRecord(l, r)
  }

  /** The index refused the record as a conflict, and its exact row was then looked up. */
  predicate RefusedShowing(reply: Option<RecordAnswer>, r: Receipt, shows: (Lookup, Receipt) -> bool) {
    reply.Some? && reply.value.RefusedAsConflict? && shows(reply.value.lookup, r)
  }

  /** Which verdict a registered, looked-up or posted record earns. */
  ghost predicate Verdict(before: Registration, retry: bool, lookup: Option<Lookup>, reply: Option<RecordAnswer>,
                          r: Receipt, after: Registration)
  {
    && (after == Registered <==>
          || before == Registered
          || (lookup.Some? && ShowsRecord(lookup.value, r))
          || reply == Some(Recorded)
          || RefusedShowing(reply, r, ShowsRecord))
    && (after == Rejected <==>
          || reply == Some(Refused)
          || (before == Rejected && (retry || lookup == Some(NoRow))))
    && (after == Conflict <==>
          || (lookup.Some? && ShowsOther(lookup.value, r))
          || RefusedShowing(reply, r, ShowsOther)
          || reply == Some(RefusedAsConflict(NoRow))
          || (before == Conflict && (lookup == Some(NoRow) || reply == Some(Retryable)
                                     || reply == Some(RefusedAsConflict(LookupFailed)))))
    && after != JustSettled
  }

  // --- reports of the record client ---

  predicate LoadedFor(t: Story, r: Receipt) {
    t.loaded.Some? && t.loaded.value.Settled? && t.loaded.value.receipt == r
  }

  /** What checkRegistration (`retry` false) and retryRegistration report, unless a lock release failed: an error
      exactly if an await threw, the journal does not hold this receipt as settled, or a checked lookup failed; else the
      verdict earned, and whether it was saved. */
  ghost predicate RegistrationReport(t: Story, r: Receipt, retry: bool, outcome: Outcome) {
    && (outcome == Threw <==> t.threw || !LoadedFor(t, r) || t.lookup == Some(LookupFailed))
    && !outcome.Unknown?
    && (outcome.SettledAs? ==>
          && outcome.receipt == r
          && Verdict(t.loaded.value.registration, retry, t.lookup, t.reply, r, outcome.registration)
          && (outcome.persisted <==> t.loaded.value.registration == Registered || t.registrationSave == Some(Stored)))
  }

  // --- reports of signDigest ---

  /** The journal held an operation with the same input, client and signer, already past preparation. */
  predicate FoundSubmitted(t: Story, call: SignCall) {
    && t.found.Some? && !t.found.value.Prepared?
    && t.found.value.operation.input == call.input
    && t.found.value.operation.network == call.client.network
    && t.found.value.operation.proxyUrl == call.client.proxyUrl
    && t.found.value.operation.indexOrigin == call.client.indexOrigin
    && t.sender == Some(t.found.value.operation.sender)
  }

  /** The settlement that signDigest goes on to register: its own, durably saved, or the pending one it found. */
  predicate SettlementKnown(t: Story, call: SignCall, r: Receipt) {
    if t.sent.Some? then
      && t.answer.Some? && AnswerProves(t.answer.value, t.sent.value.submission) && t.settledSave == Some(Stored)
      && IsReceiptOf(r, t.sent.value.operation, t.sent.value.submission, t.answer.value.certificate)
    else
      && FoundSubmitted(t, call) && t.found.value.Settled? && t.found.value.receipt == r
      && (t.found.value.registration == JustSettled || t.found.value.registration == Pending)
  }

  /** What signDigest reports before it has anything to register, unless a lock release failed. */
  ghost predicate SubmissionReport(t: Story, call: SignCall, outcome: Outcome) {
    if t.sent.Some? then
      var s := t.sent.value.submission;
      && !t.threw && t.answer.Some?
      && (outcome == Threw <==> t.answer == Some(DefinitiveRefusal))
      && (outcome.Unknown? <==> t.answer != Some(DefinitiveRefusal) && !AnswerProves(t.answer.value, s))
      && (outcome.Unknown? ==> outcome == Unknown(call.name, s.tx))
      && (outcome.SettledAs? ==>
            && t.settledSave.Some? && t.settledSave != Some(Stored)
            && IsReceiptOf(outcome.receipt, t.sent.value.operation, s, t.answer.value.certificate)
            && outcome.registration == Pending && !outcome.persisted)
    else
      && (outcome == Threw <==> t.threw || !FoundSubmitted(t, call))
      && (outcome.Unknown? ==> t.found.value.SubmissionUnknown?
                               && outcome == Unknown(call.name, t.found.value.submission.tx))
      && (outcome.SettledAs? ==>
            && t.found.value.Settled?
            && t.found.value.registration != JustSettled && t.found.value.registration != Pending
            && outcome == SettledAs(t.found.value.registration, t.found.value.receipt, true))
  }

  // --- reports of recoverSettlement and registerReceipt ---

  predicate RecoveryPossible(t: Story, origin: string) {
    t.found.Some? && t.found.value.operation.proxyUrl == origin && !t.found.value.Prepared?
  }

  ghost predicate RecoveryReport(t: Story, name: string, origin: string, outcome: Outcome) {
    && (outcome == Threw <==>
          || t.threw || !RecoveryPossible(t, origin)
          || (t.found.value.SubmissionUnknown? && t.observed.Some? && t.observed.value.Some?
              && !Proves(t.observed.value.value, t.found.value.submission)))
    && (outcome.Unknown? ==>
          && t.found.value.SubmissionUnknown? && t.observed == Some(None)
          && outcome == Unknown(name, t.found.value.submission.tx))
    && (outcome.SettledAs? ==>
          if t.found.value.Settled? then
            var kept := t.found.value.registration;
            outcome == SettledAs(if kept == JustSettled then Pending else kept, t.found.value.receipt, true)
          else
            && t.found.value.SubmissionUnknown? && t.observed.Some? && t.observed.value.Some?
            && IsReceiptOf(outcome.receipt, t.found.value.operation, t.found.value.submission, t.observed.value.value)
            && outcome.registration == Pending
            && t.settledSave.Some? && (outcome.persisted <==> t.settledSave == Some(Stored)))
  }

  /** A certificate of the receipt's own transaction, with the receipt's own facts. */
  predicate Supports(c: Certificate, r: Receipt) {
    && c.tx == r.txId && c.senderSignature == r.senderSignature
    && r.txId.network == r.network && r.txId.sender == r.signer && r.txId.nonce == r.nonce
    && r.txId.claim == r.claim && r.claim.signer == r.signer && r.claim.sha256 == r.sha256
  }

  /** The caller's certificate and the one observed through the proxy both support the receipt. */
  predicate Verified(t: Story, given: Receipt) {
    && t.observed.Some? && t.observed.value.Some?
    && Supports(given.certificate, given) && Supports(t.observed.value.value, given)
  }

  /** The receipt as registered: the caller's, with the observed certificate. */
  function Durable(t: Story, given: Receipt): Receipt
    requires Verified(t, given)
  {
    given.(certificate := t.observed.value.value)
  }

  predicate ImportKnown(t: Story, given: Receipt, origin: string, r: Receipt) {
    && Verified(t, given) && r == Durable(t, given)
    && if t.found.None? then t.settledSave == Some(Stored)
       else t.found.value.Settled? && t.found.value.operation.proxyUrl == origin && t.found.value.receipt == r
  }

  /** What registerReceipt reports before it has anything to register. */
  ghost predicate ImportReport(t: Story, given: Receipt, origin: string, outcome: Outcome) {
    && (outcome == Threw <==>
          || t.threw || !Verified(t, given)
          || (t.found.Some? && !(t.found.value.Settled? && t.found.value.operation.proxyUrl == origin
                                 && t.found.value.receipt == Durable(t, given))))
    && !outcome.Unknown?
    && (outcome.SettledAs? ==>
          && t.found.None? && t.settledSave.Some? && t.settledSave != Some(Stored)
          && outcome == SettledAs(Pending, Durable(t, given), false))
  }

  // --- reports of any call ---

  /** The report of a call whose lock releases all went through. */
  ghost predicate Report(t: Story, outcome: Outcome) {
    match t.entry
    case Sign(call, _) =>
      if t.registering.None? then SubmissionReport(t, call, outcome)
      else SettlementKnown(t, call, t.registering.value)
           && RegistrationReport(t, t.registering.value, true, outcome) && (outcome == Threw ==> t.threw)
    case Record(r, retry, _) => t.registering == Some(r) && RegistrationReport(t, r, retry, outcome)
    case Recover(name, origin, _) => RecoveryReport(t, name, origin, outcome)
    case Import(given, origin, _) =>
      if t.registering.None? then ImportReport(t, given, origin, outcome)
      else ImportKnown(t, given, origin, t.registering.value)
           && RegistrationReport(t, t.registering.value, true, outcome) && (outcome == Threw ==> t.threw)
    case _ => false
  }

  // --- what the story says at each place ---

  predicate Calm(t: Story) { !t.threw && !t.stranded }

  predicate Unregistered(t: Story) {
    t.registering.None? && t.loaded.None? && t.lookup.None? && t.reply.None? && t.registrationSave.None?
  }

  predicate Unsent(t: Story) {
    t.sent.None? && t.answer.None? && t.settledSave.None? && t.observed.None? && Unregistered(t)
  }

  /** The record found is not past preparation and belongs to this very call. */
  ghost predicate FoundOwn(t: Story, call: SignCall, sender: string) {
    && t.sender == Some(sender)
    && (t.found.Some? ==> t.found.value.Prepared? && OperationOk(call, sender, t.found.value.operation))
  }

  /** A prepared operation that still owns the reservation of its nonce, and carries no retry marker. */
  predicate Resumes(found: Option<Snapshot>, reserved: Option<Snapshot>, call: SignCall) {
    && found.Some? && found.value.Prepared? && !found.value.retryMarker
    && reserved.Some? && reserved.value.Prepared? && reserved.value.reservation.Some?
    && reserved.value.reservation.value.owner == call.name
  }

  ghost predicate SignKnows(call: SignCall, at: SignPlace, t: Story) {
    && t.entry == Sign(call, AtOperationLock) && Calm(t) && Unsent(t) && t.quote.None?
    && (!at.AtQuote? ==> t.reserved.None?)
    && match at
       case AtOperationLock => t.found.None? && t.sender.None?
       case AtLoad => t.found.None? && t.sender.None?
       case AtPublicKey(existing) =>
         existing == t.found && t.sender.None? && (existing.Some? ==> BoundTo(existing.value, call))
       case AtAccountLock(sender) => FoundOwn(t, call, sender)
       case AtReload(sender) => FoundOwn(t, call, sender)
       case AtOldReservation(sender, previous) =>
         FoundOwn(t, call, sender) && t.found.Some? && !t.found.value.retryMarker
         && previous == t.found.value.operation
       case AtQuote(sender, resumed) =>
         FoundOwn(t, call, sender)
         && resumed == if Resumes(t.found, t.reserved, call) then Some(t.found.value.operation) else None
  }

  /** The operation an attempt works on: the one it resumes, under an unchanged fee schedule, or one frozen from the
      call, its signer and the quoted clock, nonce, request id and fee. */
  ghost predicate FrozenFor(w: Work, t: Story) {
    && t.quote.Some? && t.sender == Some(w.operation.sender)
    && w.feeToken == t.quote.value.fee.tokenId
    && if Resumes(t.found, t.reserved, w.call) then
         && w.operation == t.found.value.operation && !w.isNew
         && w.operation.fee.Some?
         && w.operation.fee.value.scheduleFingerprint == t.quote.value.fee.scheduleFingerprint
       else
         && w.isNew
         && w.operation.input == w.call.input && w.operation.network == w.call.client.network
         && w.operation.proxyUrl == w.call.client.proxyUrl && w.operation.indexOrigin == w.call.client.indexOrigin
         && w.operation.nonce == t.quote.value.nonce && w.operation.requestId == t.quote.value.requestId
         && w.operation.issuedAtNanos == t.quote.value.instantMs * 1_000_000
         && w.operation.fee == Some(t.quote.value.fee)
  }

  /** What a call has submitted: its own input as a claim by its signer, under the operation it resumed or the one it
      froze from the quoted clock, nonce, request id and fee. */
  predicate SentRight(t: Story) {
    t.sent.Some? ==>
      t.entry.Sign? && t.quote.Some?
      && SentFor(t.entry.call, t.sender, t.found, t.reserved, t.quote.value, t.sent.value)
  }

  predicate SentFor(call: SignCall, sender: Option<string>, found: Option<Snapshot>,
                    reserved: Option<Snapshot>, q: Quote,
                    a: Attempt)
  {
    var o, tx := a.operation, a.submission.tx;
    && a.name == call.name && sender == Some(tx.sender)
    && tx.network == call.client.network && tx.nonce == o.nonce && tx.timestampNanos == o.issuedAtNanos
    && tx.feeToken == q.fee.tokenId
    && tx.claim.sha256 == call.input.sha256 && tx.claim.relationship == call.input.relationship
    && tx.claim.signer == tx.sender && tx.claim.requestId == o.requestId
    && tx.claim.issuedAtSeconds == o.issuedAtNanos / 1_000_000_000
    && tx.claim.signerName == call.input.signerName.GetOr("")
    && tx.claim.listBySigner == call.input.listBySigner
    && tx.claim.fileLabel == (if call.input.listBySigner then call.input.publicTitle.GetOr("") else "")
    && if Resumes(found, reserved, call) then
         && o == found.value.operation
         && o.fee.Some? && o.fee.value.scheduleFingerprint == q.fee.scheduleFingerprint
       else
         && o.nonce == q.nonce && o.requestId == q.requestId && o.issuedAtNanos == q.instantMs * 1_000_000
         && o.fee == Some(q.fee)
  }

  /** What the attempt signs. */
  predicate Signs(w: Work, s: Submission) {
    s.tx == Transaction(w.operation.network, w.operation.sender, w.operation.nonce, w.claim, w.feeToken,
                        w.operation.issuedAtNanos)
  }

  ghost predicate WorkKnows(w: Work, at: WorkPlace, t: Story) {
    && t.entry == Sign(w.call, AtOperationLock) && Calm(t) && Unregistered(t) && t.observed.None?
    && t.settledSave.None? && FrozenFor(w, t) && FoundOwn(t, w.call, w.operation.sender)
    && match at
       case AtAnswer(s) => Signs(w, s) && t.sent == Some(Attempt(w.call.name, w.operation, s)) && t.answer.None?
       case AtSaveSettled(s, r) =>
         && Signs(w, s) && t.sent == Some(Attempt(w.call.name, w.operation, s))
         && t.answer.Some? && AnswerProves(t.answer.value, s)
         && IsReceiptOf(r, w.operation, s, t.answer.value.certificate)
       case AtSaveReservation(_, s) => Signs(w, s) && t.sent.None? && t.answer.None?
       case AtSaveUnknown(_, _, s) => Signs(w, s) && t.sent.None? && t.answer.None?
       case AtSubmit(s) => Signs(w, s) && t.sent.None? && t.answer.None?
       case _ => t.sent.None? && t.answer.None?
  }

  /** The call that registers `r` has established its settlement, or was asked to register just this receipt. */
  ghost predicate MayRegister(t: Story, r: Receipt, retry: bool) {
    match t.entry
    case Sign(call, _) => retry && SettlementKnown(t, call, r)
    case Record(given, again, _) => r == given && retry == again
    case Import(given, origin, _) => retry && ImportKnown(t, given, origin, r)
    case _ => false
  }

  ghost predicate RecordKnows(r: Receipt, retry: bool, at: RecordPlace, t: Story) {
    && MayRegister(t, r, retry) && Calm(t) && t.registrationSave.None?
    && match at
       case AtRecordLock => Unregistered(t)
       case AtRecordLoad => t.registering == Some(r) && t.loaded.None? && t.lookup.None? && t.reply.None?
       case AtIndex(l) =>
         && t.registering == Some(r) && t.loaded == Some(l.Snapshot()) && l.receipt == r
         && l.registration != Registered && (retry ==> l.registration != Rejected)
         && t.lookup.None? && t.reply.None?
       case AtSaveRegistration(l, registration) =>
         && t.registering == Some(r) && t.loaded == Some(l.Snapshot()) && l.receipt == r
         && l.registration != Registered && t.lookup != Some(LookupFailed)
         && Verdict(l.registration, retry, t.lookup, t.reply, r, registration)
  }

  ghost predicate RecoverKnows(name: string, origin: string, at: RecoverPlace, t: Story) {
    && t.entry == Recover(name, origin, AtRecoverLock) && Calm(t) && Unregistered(t) && t.settledSave.None?
    && match at
       case AtRecoverLock => t.found.None? && t.observed.None?
       case AtRecoverLoad => t.found.None? && t.observed.None?
       case AtReader(operation, s) =>
         RecoveryPossible(t, origin) && t.found == Some(SubmissionUnknown(operation, s)) && t.observed.None?
       case AtSaveRecovered(operation, s, r) =>
         && RecoveryPossible(t, origin) && t.found == Some(SubmissionUnknown(operation, s))
         && t.observed.Some? && t.observed.value.Some? && Proves(t.observed.value.value, s)
         && IsReceiptOf(r, operation, s, t.observed.value.value)
  }

  ghost predicate ImportKnows(r: Receipt, origin: string, at: ImportPlace, t: Story) {
    && t.entry.Import? && t.entry == Import(t.entry.receipt, origin, AtVerify)
    && Calm(t) && Unregistered(t) && t.settledSave.None? && t.found.None?
    && if at.AtVerify? then r == t.entry.receipt && t.observed.None?
       else Verified(t, t.entry.receipt) && r == Durable(t, t.entry.receipt)
  }

  /** What is known of a call on its way out of its lock scopes. */
  ghost predicate Leaving(t: Story, after: After) {
    if t.stranded then after == Return(Threw)
    else match after
         case Return(outcome) => Report(t, outcome)
         case ThenRegister(r) => MayRegister(t, r, true) && !t.entry.Record? && !t.threw && Unregistered(t)
  }

  ghost predicate Knows(proc: Proc, t: Story) {
    match proc
    case Sign(call, at) => SignKnows(call, at, t)
    case Working(w, at) => WorkKnows(w, at, t)
    case Record(r, retry, at) => RecordKnows(r, retry, at, t)
    case Recover(name, origin, at) => RecoverKnows(name, origin, at, t)
    case Import(r, origin, at) => ImportKnows(r, origin, at, t)
    case LeaveAccount(_, _, after) => Leaving(t, after)
    case LeaveOperation(_, after) => Leaving(t, after)
    case Finished(outcome) => Leaving(t, Return(outcome))
  }

  /** A signing or importing call registers a receipt that the journal holds as settled, and what a call reports as
      persisted the journal holds. */
  ghost predicate Anchored(proc: Proc, t: Story, store: Store) {
    match proc
    case Record(r, _, _) => t.entry.Record? || HoldsSettled(store, r)
    case LeaveAccount(_, _, after) => AfterAnchored(after, store)
    case LeaveOperation(_, after) => AfterAnchored(after, store)
    case Finished(outcome) => AfterAnchored(Return(outcome), store)
    case _ => true
  }

  predicate AfterAnchored(after: After, store: Store) {
    match after
    case ThenRegister(r) => HoldsSettled(store, r)
    case Return(SettledAs(_, r, persisted)) => persisted ==> HoldsSettled(store, r)
    case _ => true
  }

  predicate HoldsSettled(store: Store, r: Receipt) {
    Public(r.name) in store && store[Public(r.name)].Settled? && store[Public(r.name)].receipt == r
  }

  // --- each step keeps what is known ---

  lemma {:induction false} EntryKnows(proc: Proc)
    requires Entry(proc)
    ensures Knows(proc, NewStory(proc))
  {
  }

  lemma {:induction false} LockStepKnows(call: SignCall, at: SignPlace, t: Story, store: Store, ev: Event)
    requires at.AtOperationLock? || at.AtAccountLock?
    requires SignKnows(call, at, t)
    ensures Knows(AdvanceSign(call, at, store, ev).proc, Hear(t, Sign(call, at), store, ev))
  {
  }

  lemma {:induction false} LoadStepKnows(call: SignCall, t: Story, store: Store, ev: Event)
    requires SignKnows(call, AtLoad, t)
    ensures Knows(AdvanceSign(call, AtLoad, store, ev).proc, Hear(t, Sign(call, AtLoad), store, ev))
  {
  }

  lemma {:induction false} PublicKeyStepKnows(call: SignCall, at: SignPlace, t: Story, store: Store, ev: Event)
    requires at.AtPublicKey? && SignKnows(call, at, t)
    ensures Knows(AdvanceSign(call, at, store, ev).proc, Hear(t, Sign(call, at), store, ev))
  {
  }

  lemma {:induction false} OldReservationStepKnows(call: SignCall, at: SignPlace, t: Story, store: Store, ev: Event)
    requires at.AtOldReservation? && SignKnows(call, at, t)
    ensures Knows(AdvanceSign(call, at, store, ev).proc, Hear(t, Sign(call, at), store, ev))
  {
  }

  /** The reload finds a record that ends the call, or one that lets it go on. */
  lemma {:induction false} ReloadEnds(call: SignCall, sender: string, t: Story, store: Store)
    requires SignKnows(call, AtReload(sender), t) && !AfterReload(call, sender, store).Sign?
    ensures Knows(AfterReload(call, sender, store), t.(found := Get(store, Public(call.name))))
  {
    hide OperationOk;
  }

  lemma {:induction false} ReloadGoesOn(call: SignCall, sender: string, t: Story, store: Store)
    requires SignKnows(call, AtReload(sender), t) && AfterReload(call, sender, store).Sign?
    ensures Knows(AfterReload(call, sender, store), t.(found := Get(store, Public(call.name))))
  {
    hide Report;
  }

  lemma {:induction false} ReloadThrows(call: SignCall, sender: string, t: Story)
    requires SignKnows(call, AtReload(sender), t)
    ensures Knows(Exit2(call, sender, Return(Threw)), t.(threw := true))
  {
  }

  lemma {:induction false} ReloadStepKnows(call: SignCall, sender: string, t: Story, store: Store, ev: Event)
    requires SignKnows(call, AtReload(sender), t)
    ensures Knows(AdvanceSign(call, AtReload(sender), store, ev).proc, Hear(t, Sign(call, AtReload(sender)), store, ev))
  {
    if ev.Throws? {
      ReloadThrows(call, sender, t);
    } else if AfterReload(call, sender, store).Sign? {
      ReloadGoesOn(call, sender, t, store);
    } else {
      ReloadEnds(call, sender, t, store);
    }
    hide Knows, SignKnows, AfterReload;
  }

  lemma {:induction false} QuoteStepKnows(call: SignCall, at: SignPlace, t: Story, store: Store, ev: Event)
    requires at.AtQuote? && SignKnows(call, at, t)
    ensures Knows(AdvanceSign(call, at, store, ev).proc, Hear(t, Sign(call, at), store, ev))
  {
  }

  lemma {:induction false} SignStepKnows(call: SignCall, at: SignPlace, t: Story, store: Store, ev: Event)
    requires SignKnows(call, at, t)
    ensures Knows(AdvanceSign(call, at, store, ev).proc, Hear(t, Sign(call, at), store, ev))
  {
    hide SignKnows, Knows, Hear, AdvanceSign;
    match at
    case AtOperationLock => LockStepKnows(call, at, t, store, ev);
    case AtLoad => LoadStepKnows(call, t, store, ev);
    case AtPublicKey(_) => PublicKeyStepKnows(call, at, t, store, ev);
    case AtAccountLock(_) => LockStepKnows(call, at, t, store, ev);
    case AtReload(sender) => ReloadStepKnows(call, sender, t, store, ev);
    case AtOldReservation(_, _) => OldReservationStepKnows(call, at, t, store, ev);
    case AtQuote(_, _) => QuoteStepKnows(call, at, t, store, ev);
  }

  lemma {:induction false} LeaveAccountKnows(account: LockKey, name: string, after: After, t: Story,
                                             store: Store, ev: Event)
    requires Leaving(t, after)
    ensures var proc := LeaveAccount(account, name, after);
      Knows(Advance(proc, store, ev).proc, Hear(t, proc, store, ev))
  {
    hide Report, SettlementKnown, ImportKnown;
  }

  lemma {:induction false} LeaveOperationKnows(name: string, after: After, t: Story, store: Store, ev: Event)
    requires Leaving(t, after)
    ensures var proc := LeaveOperation(name, after);
      Knows(Advance(proc, store, ev).proc, Hear(t, proc, store, ev))
  {
    hide Report, SettlementKnown, ImportKnown;
  }

  lemma {:induction false} DirectReceiptProves(operation: FrozenOperation, s: Submission, c: Certificate)
    requires operation.input.operationId.Public? && Frozen(operation, s)
    ensures DirectReceipt(operation, s, c).Some? <==> Proves(c, s)
    ensures Proves(c, s) ==> IsReceiptOf(DirectReceipt(operation, s, c).value, operation, s, c)
  {
  }

  /** Up to the submission nothing is sent, and what is to be sent is what was signed. */
  lemma {:induction false} PrepareStepKnows(w: Work, at: WorkPlace, t: Story, store: Store, ev: Event)
    requires !at.AtSubmit? && !at.AtAnswer? && !at.AtSaveSettled?
    requires w.operation.input.operationId.Public? && WorkKnows(w, at, t)
    ensures Knows(AdvanceWork(w, at, store, ev).proc, Hear(t, Working(w, at), store, ev))
  {
    hide FrozenFor;
  }

  lemma {:induction false} AnswerStepKnows(w: Work, at: WorkPlace, t: Story, store: Store, ev: Event)
    requires at.AtAnswer? && w.operation.input.operationId.Public? && WorkKnows(w, at, t)
    requires Frozen(w.operation, at.submission)
    ensures Knows(AdvanceWork(w, at, store, ev).proc, Hear(t, Working(w, at), store, ev))
  {
    if ev.Answered? && ev.answer.Certified? {
      DirectReceiptProves(w.operation, at.submission, ev.answer.certificate);
    }
    hide FrozenFor, DirectReceipt, IsReceiptOf, Frozen;
  }

  lemma {:induction false} SettleStepKnows(w: Work, at: WorkPlace, t: Story, store: Store, ev: Event)
    requires at.AtSubmit? || at.AtSaveSettled?
    requires w.operation.input.operationId.Public? && WorkKnows(w, at, t)
    ensures Knows(AdvanceWork(w, at, store, ev).proc, Hear(t, Working(w, at), store, ev))
  {
    hide IsReceiptOf;
  }

  lemma {:induction false} WorkStepKnows(w: Work, at: WorkPlace, t: Story, store: Store, log: seq<Attempt>, ev: Event)
    requires w.operation.input.operationId.Public? && WorkKnows(w, at, t)
    requires WorkSound(w, at, store, log) && StoreInv(store, log)
    ensures Knows(AdvanceWork(w, at, store, ev).proc, Hear(t, Working(w, at), store, ev))
  {
    hide WorkKnows, Knows, Hear, AdvanceWork;
    if at.AtAnswer? {
      assert WellKept(Public(w.call.name), store[Public(w.call.name)]);
      AnswerStepKnows(w, at, t, store, ev);
    } else if at.AtSubmit? || at.AtSaveSettled? {
      SettleStepKnows(w, at, t, store, ev);
    } else {
      PrepareStepKnows(w, at, t, store, ev);
    }
  }

  lemma {:induction false} CheckEarns(before: Registration, lookup: Lookup, r: Receipt)
    requires before != Registered && lookup != LookupFailed
    ensures CheckOutcome(before, lookup, r).Some?
    ensures Verdict(before, false, Some(lookup), None, r, CheckOutcome(before, lookup, r).value)
  {
  }

  lemma {:induction false} RetryEarns(before: Registration, reply: RecordAnswer, r: Receipt)
    requires before != Registered && before != Rejected
    ensures Verdict(before, true, None, Some(reply), r, RetryOutcome(before, reply, r))
  {
  }

  lemma {:induction false} RecordLockKnows(r: Receipt, retry: bool, t: Story, store: Store, ev: Event)
    requires RecordKnows(r, retry, AtRecordLock, t)
    ensures var here := Record(r, retry, AtRecordLock);
      Knows(AdvanceRecord(r, retry, AtRecordLock, store, ev).proc, Hear(t, here, store, ev))
  {
    hide IsReceiptOf, Proves, Supports, Verdict;
  }

  lemma {:induction false} RecordLoadGoesOn(r: Receipt, retry: bool, t: Story, store: Store, ev: Event)
    requires RecordKnows(r, retry, AtRecordLoad, t)
    requires AdvanceRecord(r, retry, AtRecordLoad, store, ev).proc.Record?
    ensures Knows(AdvanceRecord(r, retry, AtRecordLoad, store, ev).proc,
                  Hear(t, Record(r, retry, AtRecordLoad), store, ev))
  {
    hide IsReceiptOf, Proves, Supports, Report, Leaving;
  }

  lemma {:induction false} RecordLoadEnds(r: Receipt, retry: bool, t: Story, store: Store, ev: Event)
    requires RecordKnows(r, retry, AtRecordLoad, t) && Anchored(Record(r, retry, AtRecordLoad), t, store)
    requires !AdvanceRecord(r, retry, AtRecordLoad, store, ev).proc.Record?
    ensures Knows(AdvanceRecord(r, retry, AtRecordLoad, store, ev).proc,
                  Hear(t, Record(r, retry, AtRecordLoad), store, ev))
  {
    hide IsReceiptOf, Proves, Supports;
  }

  lemma {:induction false} RecordLoadKnows(r: Receipt, retry: bool, t: Story, store: Store, ev: Event)
    requires RecordKnows(r, retry, AtRecordLoad, t) && Anchored(Record(r, retry, AtRecordLoad), t, store)
    ensures Knows(AdvanceRecord(r, retry, AtRecordLoad, store, ev).proc,
                  Hear(t, Record(r, retry, AtRecordLoad), store, ev))
  {
    hide RecordKnows, Knows, Hear, AdvanceRecord, Anchored;
    if AdvanceRecord(r, retry, AtRecordLoad, store, ev).proc.Record? {
      RecordLoadGoesOn(r, retry, t, store, ev);
    } else {
      RecordLoadEnds(r, retry, t, store, ev);
    }
  }

  lemma {:induction false} IndexStepKnows(r: Receipt, retry: bool, at: RecordPlace, t: Story, store: Store, ev: Event)
    requires at.AtIndex? && RecordKnows(r, retry, at, t)
    ensures Knows(AdvanceRecord(r, retry, at, store, ev).proc, Hear(t, Record(r, retry, at), store, ev))
  {
    if retry && ev.Posted? { RetryEarns(at.loaded.registration, ev.reply, r); }
    if !retry && ev.LookedUp? && ev.lookup != LookupFailed { CheckEarns(at.loaded.registration, ev.lookup, r); }
    hide IsReceiptOf, Proves, Supports, Verdict, RetryOutcome;
  }

  lemma {:induction false} VerdictSaveKnows(r: Receipt, retry: bool, at: RecordPlace, t: Story, store: Store, ev: Event)
    requires at.AtSaveRegistration? && RecordKnows(r, retry, at, t)
    ensures Knows(AdvanceRecord(r, retry, at, store, ev).proc, Hear(t, Record(r, retry, at), store, ev))
  {
    hide IsReceiptOf, Proves, Supports, Verdict;
  }

  lemma {:induction false} RecordStepKnows(r: Receipt, retry: bool, at: RecordPlace, t: Story, store: Store, ev: Event)
    requires RecordKnows(r, retry, at, t) && Anchored(Record(r, retry, at), t, store)
    ensures Knows(AdvanceRecord(r, retry, at, store, ev).proc, Hear(t, Record(r, retry, at), store, ev))
  {
    hide RecordKnows, Knows, Hear, AdvanceRecord, Anchored;
    match at
    case AtRecordLock => RecordLockKnows(r, retry, t, store, ev);
    case AtRecordLoad => RecordLoadKnows(r, retry, t, store, ev);
    case AtIndex(_) => IndexStepKnows(r, retry, at, t, store, ev);
    case AtSaveRegistration(_, _) => VerdictSaveKnows(r, retry, at, t, store, ev);
  }

  lemma {:induction false} ReaderStepKnows(name: string, origin: string, at: RecoverPlace, t: Story,
                                           store: Store, ev: Event)
    requires at.AtReader? && Typed(Recover(name, origin, at)) && RecoverKnows(name, origin, at, t)
    requires Frozen(at.operation, at.submission)
    ensures Knows(AdvanceRecover(name, origin, at, store, ev).proc, Hear(t, Recover(name, origin, at), store, ev))
  {
    if ev.Observed? && ev.certificate.Some? {
      SignAndRecoverAgree(at.operation, at.submission, ev.certificate.value);
      DirectReceiptProves(at.operation, at.submission, ev.certificate.value);
    }
    hide DirectReceipt, RecoveredReceipt, IsReceiptOf, Frozen;
  }

  lemma {:induction false} RecoverOtherKnows(name: string, origin: string, at: RecoverPlace, t: Story,
                                             store: Store, ev: Event)
    requires !at.AtReader? && RecoverKnows(name, origin, at, t)
    ensures Knows(AdvanceRecover(name, origin, at, store, ev).proc, Hear(t, Recover(name, origin, at), store, ev))
  {
    hide IsReceiptOf, Proves;
  }

  lemma {:induction false} RecoverStepKnows(name: string, origin: string, at: RecoverPlace, t: Story, store: Store,
                                            log: seq<Attempt>, ev: Event)
    requires Typed(Recover(name, origin, at)) && RecoverKnows(name, origin, at, t)
    requires RecoverSound(name, at, store) && StoreInv(store, log)
    ensures Knows(AdvanceRecover(name, origin, at, store, ev).proc, Hear(t, Recover(name, origin, at), store, ev))
  {
    hide RecoverKnows, Knows, Hear, AdvanceRecover;
    if at.AtReader? {
      assert WellKept(Public(name), store[Public(name)]);
      ReaderStepKnows(name, origin, at, t, store, ev);
    } else {
      RecoverOtherKnows(name, origin, at, t, store, ev);
    }
  }

  lemma {:induction false} VerifyStepKnows(r: Receipt, origin: string, t: Story, store: Store, ev: Event)
    requires ImportKnows(r, origin, AtVerify, t)
    ensures Knows(AdvanceImport(r, origin, AtVerify, store, ev).proc, Hear(t, Import(r, origin, AtVerify), store, ev))
  {
    if ev.Observed? && ev.certificate.Some? { VerifiedSupports(r, ev.certificate.value); }
    hide VerifiedReceipt, Supports;
  }

  lemma {:induction false} VerifiedSupports(r: Receipt, observed: Certificate)
    ensures VerifiedReceipt(r, observed)
         == if Supports(r.certificate, r) && Supports(observed, r) then Some(r.(certificate := observed)) else None
  {
  }

  lemma {:induction false} ImportStepKnows(r: Receipt, origin: string, at: ImportPlace, t: Story,
                                           store: Store, ev: Event)
    requires ImportKnows(r, origin, at, t)
    ensures Knows(AdvanceImport(r, origin, at, store, ev).proc, Hear(t, Import(r, origin, at), store, ev))
  {
    if at.AtVerify? {
      VerifyStepKnows(r, origin, t, store, ev);
    } else {
      hide Supports;
    }
  }

  lemma {:induction false} OthersSendNothing(proc: Proc, t: Story, store: Store, ev: Event)
    requires Knows(proc, t) && (proc.Sign? || proc.Recover? || proc.Import?) && SentRight(t)
    ensures SentRight(Hear(t, proc, store, ev))
  {
    assert t.sent.None?;
    HearKeepsSent(t, proc, store, ev);
    hide Hear, Knows;
  }

  lemma {:induction false} HearKeepsSent(t: Story, proc: Proc, store: Store, ev: Event)
    requires !proc.Working? || !proc.workPlace.AtSubmit?
    ensures Hear(t, proc, store, ev).sent == t.sent
  {
  }

  lemma {:induction false} RegisteringSendsNothing(proc: Proc, t: Story, store: Store, ev: Event)
    requires proc.Record? || proc.LeaveAccount? || proc.LeaveOperation? || proc.Finished?
    requires SentRight(t)
    ensures SentRight(Hear(t, proc, store, ev))
  {
    hide SentFor;
  }

  /** What was sent stays as it is, and is right when it is sent. */
  lemma {:induction false} AdvanceSends(proc: Proc, t: Story, store: Store, log: seq<Attempt>, ev: Event)
    requires Typed(proc) && Sound(proc, store, log) && Knows(proc, t) && SentRight(t)
    ensures SentRight(Hear(t, proc, store, ev))
  {
    hide SentRight, Hear, SignKnows, RecordKnows, RecoverKnows, ImportKnows, Leaving, WorkKnows, WorkSound;
    match proc
    case Working(w, at) => WorkSends(w, at, t, store, log, ev);
    case Sign(_, _) => OthersSendNothing(proc, t, store, ev);
    case Recover(_, _, _) => OthersSendNothing(proc, t, store, ev);
    case Import(_, _, _) => OthersSendNothing(proc, t, store, ev);
    case _ => RegisteringSendsNothing(proc, t, store, ev);
  }

  lemma {:induction false} WorkSends(w: Work, at: WorkPlace, t: Story, store: Store, log: seq<Attempt>, ev: Event)
    requires WorkSound(w, at, store, log) && WorkKnows(w, at, t) && SentRight(t)
    ensures SentRight(Hear(t, Working(w, at), store, ev))
  {
    if !at.AtSubmit? { hide FrozenFor, SentFor; }
  }

  lemma {:induction false} FinishedHears(outcome: Outcome, t: Story, store: Store, ev: Event)
    ensures Hear(t, Finished(outcome), store, ev) == t
  {
  }

  lemma {:induction false} AdvanceKnows(proc: Proc, t: Story, store: Store, log: seq<Attempt>, ev: Event)
    requires Typed(proc) && Sound(proc, store, log) && StoreInv(store, log)
    requires Knows(proc, t) && Anchored(proc, t, store)
    ensures Knows(Advance(proc, store, ev).proc, Hear(t, proc, store, ev))
  {
    hide SignKnows, WorkKnows, RecordKnows, RecoverKnows, ImportKnows, Leaving, Hear, Anchored;
    hide StoreInv, SignSound, WorkSound, RecordSound, RecoverSound, ImportSound;
    hide AdvanceSign, AdvanceWork, AdvanceRecord, AdvanceRecover, AdvanceImport;
    match proc
    case Sign(call, at) => SignStepKnows(call, at, t, store, ev);
    case Working(w, at) => WorkStepKnows(w, at, t, store, log, ev);
    case Record(r, retry, at) => RecordStepKnows(r, retry, at, t, store, ev);
    case Recover(name, origin, at) => RecoverStepKnows(name, origin, at, t, store, log, ev);
    case Import(r, origin, at) => ImportStepKnows(r, origin, at, t, store, ev);
    case LeaveAccount(account, name, after) => LeaveAccountKnows(account, name, after, t, store, ev);
    case LeaveOperation(name, after) => LeaveOperationKnows(name, after, t, store, ev);
    case Finished(outcome) => FinishedHears(outcome, t, store, ev);
  }
}
