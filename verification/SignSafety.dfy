/** The inductive invariant of the signing protocol and the step lemmas that keep it. */
module SignSafety {
  import opened Options
  import opened SignModel
  import opened SignProtocol

  // --- durable state ---

  function SlotOf(a: Attempt): RecordId {
    Reserved(a.submission.tx.network, a.submission.tx.sender, a.submission.tx.nonce)
  }

  ghost predicate Unattempted(name: string, log: seq<Attempt>) {
    forall i :: 0 <= i < |log| ==> log[i].name != name
  }

  ghost predicate SlotFree(slot: RecordId, log: seq<Attempt>) {
    forall i :: 0 <= i < |log| ==> SlotOf(log[i]) != slot
  }

  /** A signed submission carries exactly the transaction its operation was frozen to. */
  ghost predicate Frozen(operation: FrozenOperation, submission: Submission) {
    && Normalised(operation.input)
    && operation.nonce <= MAX_SAFE_INTEGER
    && submission.tx == TransactionOf(operation, submission.tx.feeToken)
  }

  ghost predicate Reserves(r: Reservation, id: RecordId)
    requires id.Reserved?
  {
    r == Reservation(r.owner, id.network, id.sender, id.nonce)
  }

  ghost predicate WellKept(id: RecordId, s: Snapshot) {
    && Accepted(id, s)
    && (id.Reserved? ==> s.Prepared? && !s.retryMarker && (s.reservation.Some? ==> Reserves(s.reservation.value, id)))
    && (id.Public? && s.Prepared? ==> s.reservation == None)
    && (s.SubmissionUnknown? ==> Frozen(s.operation, s.submission))
  }

  /** What a submission leaves behind for ever: its own evidence, and the reservation of its nonce in its own name. */
  ghost predicate Backed(store: Store, a: Attempt) {
    && Public(a.name) in store
    && !store[Public(a.name)].Prepared?
    && store[Public(a.name)].operation == a.operation
    && store[Public(a.name)].submission == a.submission
    && OwnedBy(store, SlotOf(a), a.name)
  }

  ghost predicate OwnedBy(store: Store, slot: RecordId, name: string) {
    && slot in store
    && store[slot].Prepared?
    && store[slot].reservation.Some?
    && store[slot].reservation.value.owner == name
  }

  ghost predicate StoreInv(store: Store, log: seq<Attempt>) {
    && (forall id :: id in store ==> WellKept(id, store[id]))
    && (forall i :: 0 <= i < |log| ==> Backed(store, log[i]))
    && (forall i, j :: 0 <= i < j < |log| ==> log[i].name != log[j].name)
  }

  // --- what one call knows at each of its awaits ---

  ghost predicate Unsubmitted(store: Store, name: string) {
    Public(name) in store ==> store[Public(name)].Prepared?
  }

  ghost predicate CallOk(call: SignCall) {
    Normalised(call.input) && call.input.operationId == Public(call.name)
  }

  ghost predicate OperationOk(call: SignCall, sender: string, operation: FrozenOperation) {
    && operation.input == call.input
    && operation.network == call.client.network
    && operation.proxyUrl == call.client.proxyUrl
    && operation.indexOrigin == call.client.indexOrigin
    && operation.sender == sender
  }

  ghost predicate WorkOk(w: Work) {
    && CallOk(w.call)
    && OperationOk(w.call, w.operation.sender, w.operation)
    && w.operation.nonce <= MAX_SAFE_INTEGER
    && w.claim == ClaimFor(w.operation.input, w.operation.sender, w.operation.requestId,
                           w.operation.issuedAtNanos / NANOS_PER_SECOND)
  }

  ghost predicate ReservationOk(w: Work, r: Snapshot) {
    && WellKept(w.Slot(), r)
    && r.Prepared?
    && r.reservation.Some?
    && r.reservation.value.owner == w.call.name
  }

  /** The durable reservation record as the attempt found it: absent or a tombstone if created, else its own. */
  ghost predicate ReservationFound(store: Store, w: Work, r: Snapshot, created: bool) {
    && ReservationOk(w, r)
    && (if created then w.Slot() in store ==> IsTombstone(Some(store[w.Slot()])) else Get(store, w.Slot()) == Some(r))
  }

  ghost predicate ReservationHeld(store: Store, w: Work, r: Snapshot) {
    ReservationOk(w, r) && Get(store, w.Slot()) == Some(r)
  }

  ghost predicate SignSound(call: SignCall, at: SignPlace, store: Store) {
    && CallOk(call)
    && match at
       case AtPublicKey(existing) => existing == Get(store, Public(call.name))
       case AtOldReservation(sender, previous) => Unsubmitted(store, call.name) && OperationOk(call, sender, previous)
       case AtQuote(sender, resumed) =>
         Unsubmitted(store, call.name) && (resumed.Some? ==> OperationOk(call, sender, resumed.value))
       case _ => true
  }

  ghost predicate WorkSound(w: Work, at: WorkPlace, store: Store, log: seq<Attempt>) {
    && WorkOk(w)
    && match at
       case AtReservation => Unsubmitted(store, w.call.name)
       case AtSavePrepared(r, created) => Unsubmitted(store, w.call.name) && ReservationFound(store, w, r, created)
       case AtSign(r, created) => Unsubmitted(store, w.call.name) && ReservationFound(store, w, r, created)
       case AtSaveReservation(r, submission) =>
         Unsubmitted(store, w.call.name) && ReservationFound(store, w, r, true) && Frozen(w.operation, submission)
       case AtUndoReservation(r) => ReservationOk(w, r) && SlotFree(w.Slot(), log)
       case AtSaveUnknown(r, created, submission) =>
         Unsubmitted(store, w.call.name) && ReservationHeld(store, w, r) && SlotFree(w.Slot(), log)
           && Frozen(w.operation, submission)
       case AtSaveMarker(r, created) => Unattempted(w.call.name, log) && ReservationHeld(store, w, r)
         && SlotFree(w.Slot(), log)
                                        && NotSettled(store, w.call.name)
       case AtSubmit(submission) =>
         && Unattempted(w.call.name, log) && Frozen(w.operation, submission)
         && Get(store, Public(w.call.name)) == Some(SubmissionUnknown(w.operation, submission))
         && OwnedBy(store, w.Slot(), w.call.name)
       case AtAnswer(submission) => Get(store, Public(w.call.name)) == Some(SubmissionUnknown(w.operation, submission))
       case AtSaveSettled(submission, receipt) =>
         && Get(store, Public(w.call.name)) == Some(SubmissionUnknown(w.operation, submission))
         && ReceiptBound(receipt, w.operation, submission)
  }

  ghost predicate NotSettled(store: Store, name: string) {
    Public(name) in store ==> !store[Public(name)].Settled?
  }

  ghost predicate RecordSound(receipt: Receipt, retry: bool, at: RecordPlace, store: Store) {
    match at
    case AtIndex(loaded) =>
      Get(store, Public(receipt.name)) == Some(loaded.Snapshot()) && loaded.receipt == receipt
        && loaded.registration != Registered && (retry ==> loaded.registration != Rejected)
    case AtSaveRegistration(loaded, registration) =>
      Get(store, Public(receipt.name)) == Some(loaded.Snapshot()) && loaded.receipt == receipt
      && MayBecome(loaded.registration, registration)
    case _ => true
  }

  ghost predicate RecoverSound(name: string, at: RecoverPlace, store: Store) {
    match at
    case AtReader(operation, submission) => Get(store, Public(name)) == Some(SubmissionUnknown(operation, submission))
    case AtSaveRecovered(operation, submission, receipt) =>
      && Get(store, Public(name)) == Some(SubmissionUnknown(operation, submission))
      && ReceiptBound(receipt, operation, submission)
    case _ => true
  }

  ghost predicate ImportSound(receipt: Receipt, at: ImportPlace, store: Store) {
    && receipt.nonce <= MAX_SAFE_INTEGER
    && (!at.AtVerify? ==>
          && CertificateFits(receipt.certificate, receipt.network, receipt.signer, receipt.nonce, receipt.txId,
                             receipt.sha256, receipt.claim)
          && receipt.certificate.senderSignature == receipt.senderSignature)
    && (at.AtSaveImported? ==> Get(store, Public(receipt.name)) == None)
  }

  ghost predicate Sound(proc: Proc, store: Store, log: seq<Attempt>) {
    match proc
    case Sign(call, at) => SignSound(call, at, store)
    case Working(w, at) => WorkSound(w, at, store, log)
    case Record(receipt, retry, at) => RecordSound(receipt, retry, at, store)
    case Recover(name, _, at) => RecoverSound(name, at, store)
    case Import(receipt, _, at) => ImportSound(receipt, at, store)
    case LeaveAccount(account, _, _) => account.AccountKey?
    case _ => true
  }

  // --- effects on the durable state ---

  /** What may replace a record: settlement evidence is final, and a submitted operation is never taken back. */
  ghost predicate LegalChange(before: Option<Snapshot>, after: Snapshot, id: RecordId, log: seq<Attempt>) {
    && (before.Some? && before.value.Settled? ==>
          after.Settled? && after == before.value.(registration := after.registration)
          && MayBecome(before.value.registration, after.registration))
    && (before.Some? && before.value.SubmissionUnknown? && after.Prepared? ==>
          id.Public? && Unattempted(id.name, log))
  }

  /** A save keeps the durable invariant if no submission loses its evidence or its reservation. */
  lemma {:induction false} PutKeeps(store: Store, log: seq<Attempt>, id: RecordId, s: Snapshot)
    requires StoreInv(store, log)
    requires WellKept(id, s)
    requires id.Public? ==> Unattempted(id.name, log)
                            || (id in store && !s.Prepared? && !store[id].Prepared?
                                && s.operation == store[id].operation && s.submission == store[id].submission)
    requires id.Reserved? ==> SlotFree(id, log)
    ensures StoreInv(store[id := s], log)
  {
    var store' := store[id := s];
    forall i | 0 <= i < |log|
      ensures Backed(store', log[i])
    {
      assert Backed(store, log[i]);
    }
  }

  lemma {:induction false} UnsubmittedIsUnattempted(store: Store, log: seq<Attempt>, name: string)
    requires StoreInv(store, log) && Unsubmitted(store, name)
    ensures Unattempted(name, log)
  {
    forall i | 0 <= i < |log|
      ensures log[i].name != name
    {
      assert Backed(store, log[i]);
    }
  }

  /** A nonce is free of submissions while its reservation is absent, a tombstone, or held by an operation not
      submitted. */
  lemma {:induction false} UnownedSlotIsFree(store: Store, log: seq<Attempt>, slot: RecordId, name: string)
    requires StoreInv(store, log) && Unattempted(name, log)
    requires slot in store ==> IsTombstone(Some(store[slot])) || OwnedBy(store, slot, name)
    ensures SlotFree(slot, log)
  {
    forall i | 0 <= i < |log|
      ensures SlotOf(log[i]) != slot
    {
      assert Backed(store, log[i]);
    }
  }

  lemma {:induction false} SubmitKeeps(store: Store, log: seq<Attempt>, a: Attempt)
    requires StoreInv(store, log) && Unattempted(a.name, log) && Backed(store, a)
    ensures StoreInv(store, log + [a])
  {
  }

  // --- one step of one call ---

  /** A move keeps track of the lock scopes the call is in. */
  ghost predicate KeysFit(proc: Proc, m: Move) {
    match m.action
    case Take(key) => Wants(proc) == Some(key) && key !in HeldKeys(proc) && HeldKeys(m.proc) == HeldKeys(proc) + {key}
    case Drop(key) => key in HeldKeys(proc) && HeldKeys(m.proc) == HeldKeys(proc) - {key}
    case Strand(key) => key in HeldKeys(proc) && HeldKeys(m.proc) == HeldKeys(proc) - {key}
    case Put(id, _) => Guard(id) in HeldKeys(proc) && HeldKeys(m.proc) == HeldKeys(proc)
    case Submit(a) => OperationKey(a.name) in HeldKeys(proc) && Guard(SlotOf(a)) in HeldKeys(proc)
      && HeldKeys(m.proc) == HeldKeys(proc)
    case Quiet => HeldKeys(m.proc) == HeldKeys(proc)
  }

  /** The durable effect of a move is legal: every save is, and a submission finds its own record durable. */
  ghost predicate EffectLegal(store: Store, log: seq<Attempt>, action: Action) {
    && (action.Put? ==> LegalChange(Get(store, action.id), action.snapshot, action.id, log))
    && (action.Submit? ==> Get(store, Public(action.attempt.name))
                           == Some(SubmissionUnknown(action.attempt.operation, action.attempt.submission)))
  }

  ghost predicate Keeps(proc: Proc, store: Store, log: seq<Attempt>, m: Move) {
    && Typed(m.proc)
    && KeysFit(proc, m)
    && EffectLegal(store, log, m.action)
    && StoreInv(StoreAfter(store, m.action), LogAfter(log, m.action))
    && Sound(m.proc, StoreAfter(store, m.action), LogAfter(log, m.action))
  }

  /** A move without a durable effect only has to be sound where it arrives. */
  lemma {:induction false} QuietKeeps(proc: Proc, store: Store, log: seq<Attempt>, next: Proc)
    requires StoreInv(store, log)
    requires Typed(next) && Sound(next, store, log) && HeldKeys(next) == HeldKeys(proc)
    ensures Keeps(proc, store, log, Move(Quiet, next))
  {
    assert StoreAfter(store, Quiet) == store && LogAfter(log, Quiet) == log;
  }

  lemma {:induction false} PutStepKeeps(proc: Proc, store: Store, log: seq<Attempt>, id: RecordId,
                                        s: Snapshot, next: Proc)
    requires StoreInv(store[id := s], log)
    requires LegalChange(Get(store, id), s, id, log) && Guard(id) in HeldKeys(proc)
    requires Typed(next) && Sound(next, store[id := s], log) && HeldKeys(next) == HeldKeys(proc)
    ensures Keeps(proc, store, log, Move(Put(id, s), next))
  {
    assert StoreAfter(store, Put(id, s)) == store[id := s] && LogAfter(log, Put(id, s)) == log;
  }

  /** A save has to be legal, and sound in each of its three outcomes. */
  lemma {:induction false} SavingKeeps(proc: Proc, store: Store, log: seq<Attempt>, id: RecordId, s: Snapshot,
                                       outcome: SaveOutcome, ok: Proc, failed: Proc)
    requires StoreInv(store, log) && StoreInv(store[id := s], log)
    requires LegalChange(Get(store, id), s, id, log) && Guard(id) in HeldKeys(proc)
    requires Typed(ok) && Sound(ok, store[id := s], log) && HeldKeys(ok) == HeldKeys(proc)
    requires Typed(failed) && Sound(failed, store, log) && Sound(failed, store[id := s], log)
             && HeldKeys(failed) == HeldKeys(proc)
    ensures Keeps(proc, store, log, Saving(id, s, outcome, ok, failed))
  {
    match outcome
    case Stored => PutStepKeeps(proc, store, log, id, s, ok);
    case FailedBefore => QuietKeeps(proc, store, log, failed);
    case FailedAfter => PutStepKeeps(proc, store, log, id, s, failed);
  }

  lemma {:induction false} QuoteIsSound(call: SignCall, sender: string, resumed: Option<FrozenOperation>, store: Store,
                     instantMs: nat, nonce: nat, requestId: string, fee: Fee)
    requires SignSound(call, AtQuote(sender, resumed), store)
    ensures var next := AfterQuote(call, sender, resumed, instantMs, nonce, requestId, fee);
            Typed(next) && Sound(next, store, []) && HeldKeys(next) == HeldKeys(Sign(call, AtQuote(sender, resumed)))
            && !(next.Working? && !next.workPlace.AtReservation?) && !next.Finished?
  {
    SecondsSurviveWidening(instantMs);
  }

  lemma {:induction false} LoadIsSound(call: SignCall, store: Store)
    requires CallOk(call)
    ensures var next := AfterLoad(call, store);
            Sound(next, store, []) && HeldKeys(next) == {OperationKey(call.name)}
              && (next.Sign? || next.LeaveOperation?)
  {
  }

  lemma {:induction false} PublicKeyIsSound(call: SignCall, existing: Option<Snapshot>, sender: string, store: Store)
    requires CallOk(call)
    ensures var next := AfterPublicKey(call, existing, sender);
            Sound(next, store, []) && HeldKeys(next) == {OperationKey(call.name)}
              && (next.Sign? || next.LeaveOperation?)
  {
  }

  lemma {:induction false} ReloadIsSound(call: SignCall, sender: string, store: Store)
    requires CallOk(call)
    ensures var next := AfterReload(call, sender, store);
            Sound(next, store, []) && HeldKeys(next)
              == {OperationKey(call.name), AccountKey(call.client.network, sender)}
            && (next.Sign? || next.LeaveAccount?)
  {
  }

  lemma {:induction false} OldReservationIsSound(call: SignCall, sender: string,
                                                 previous: FrozenOperation, store: Store)
    requires SignSound(call, AtOldReservation(sender, previous), store)
    ensures var next := AfterOldReservation(call, sender, previous, store);
            Sound(next, store, []) && HeldKeys(next)
              == {OperationKey(call.name), AccountKey(call.client.network, sender)}
            && (next.Sign? || next.LeaveAccount?)
  {
  }

  /** The awaits inside the operation lock alone. */
  predicate InOperationLock(at: SignPlace) {
    at.AtLoad? || at.AtPublicKey?
  }

  lemma {:induction false} LookupKeeps(call: SignCall, at: SignPlace, store: Store, log: seq<Attempt>, ev: Event)
    requires InOperationLock(at) && SignSound(call, at, store) && StoreInv(store, log)
    ensures Keeps(Sign(call, at), store, log, AdvanceSign(call, at, store, ev))
  {
    if at.AtLoad? { LoadIsSound(call, store); }
    if at.AtPublicKey? && ev.PublicKey? { PublicKeyIsSound(call, at.existing, ev.sender, store); }
    QuietKeeps(Sign(call, at), store, log, AdvanceSign(call, at, store, ev).proc);
  }

  lemma {:induction false} ReviewKeeps(call: SignCall, at: SignPlace, store: Store, log: seq<Attempt>, ev: Event)
    requires at.AtReload? || at.AtOldReservation? || at.AtQuote?
    requires SignSound(call, at, store) && StoreInv(store, log)
    ensures Keeps(Sign(call, at), store, log, AdvanceSign(call, at, store, ev))
  {
    match at {
      case AtReload(sender) => ReloadIsSound(call, sender, store);
      case AtOldReservation(sender, previous) => OldReservationIsSound(call, sender, previous, store);
      case AtQuote(sender, resumed) =>
        if ev.Quoted? { QuoteIsSound(call, sender, resumed, store, ev.instantMs, ev.nonce, ev.requestId, ev.fee); }
    }
    QuietKeeps(Sign(call, at), store, log, AdvanceSign(call, at, store, ev).proc);
  }

  lemma {:induction false} SignKeeps(call: SignCall, at: SignPlace, store: Store, log: seq<Attempt>, ev: Event)
    requires SignSound(call, at, store) && StoreInv(store, log)
    ensures Keeps(Sign(call, at), store, log, AdvanceSign(call, at, store, ev))
  {
    if at.AtReload? || at.AtOldReservation? || at.AtQuote? {
      ReviewKeeps(call, at, store, log, ev);
    } else if InOperationLock(at) {
      LookupKeeps(call, at, store, log, ev);
    }
  }

  lemma {:induction false} ReservationGranted(w: Work, store: Store, log: seq<Attempt>)
    requires WorkOk(w) && StoreInv(store, log)
    ensures var g := ReserveNonce(Get(store, w.Slot()), w.operation, w.call.name, w.operation.network,
                                  w.operation.sender, w.operation.nonce);
      && (g.Granted? ==> ReservationFound(store, w, g.record, g.created))
      && (g.Granted? <==> w.Slot() !in store || IsTombstone(Some(store[w.Slot()]))
                          || OwnedBy(store, w.Slot(), w.call.name))
      && (g.OwnedByAnother? <==> w.Slot() in store && store[w.Slot()].reservation.Some?
                                 && store[w.Slot()].reservation.value.owner != w.call.name)
  {
    if w.Slot() in store {
      assert WellKept(w.Slot(), store[w.Slot()]);
    }
  }

  lemma {:induction false} ReserveKeeps(w: Work, store: Store, log: seq<Attempt>, ev: Event)
    requires WorkSound(w, AtReservation, store, log) && StoreInv(store, log)
    ensures Keeps(Working(w, AtReservation), store, log, AdvanceWork(w, AtReservation, store, ev))
  {
    ReservationGranted(w, store, log);
    QuietKeeps(Working(w, AtReservation), store, log, AdvanceWork(w, AtReservation, store, ev).proc);
  }

  lemma {:induction false} PreparedSaveKeeps(w: Work, at: WorkPlace, store: Store,
                                             log: seq<Attempt>, outcome: SaveOutcome)
    requires at.AtSavePrepared? && WorkSound(w, at, store, log) && StoreInv(store, log)
    ensures Keeps(Working(w, at), store, log, AdvanceWork(w, at, store, Saved(outcome)))
  {
    var id, s := Public(w.call.name), Prepared(w.operation, None, false);
    UnsubmittedIsUnattempted(store, log, w.call.name);
    PutKeeps(store, log, id, s);
    SavingKeeps(Working(w, at), store, log, id, s, outcome, Working(w, AtSign(at.reservation, at.created)), Abandon(w));
  }

  /** What the signer's answer leads to knows that its nonce is free. */
  lemma {:induction false} SignatureIsSound(w: Work, at: WorkPlace, store: Store, log: seq<Attempt>, signature: string)
    requires at.AtSign? && WorkSound(w, at, store, log) && StoreInv(store, log)
    ensures var submission := SubmissionOf(w, signature);
            WorkSound(w, if at.created then AtSaveReservation(at.reservation, submission)
                         else AtSaveUnknown(at.reservation, at.created, submission), store, log)
  {
    if !at.created {
      UnsubmittedIsUnattempted(store, log, w.call.name);
      UnownedSlotIsFree(store, log, w.Slot(), w.call.name);
    }
  }

  lemma {:induction false} SignerKeeps(w: Work, at: WorkPlace, store: Store, log: seq<Attempt>, ev: Event)
    requires at.AtSign? && WorkSound(w, at, store, log) && StoreInv(store, log)
    ensures Keeps(Working(w, at), store, log, AdvanceWork(w, at, store, ev))
  {
    if ev.Signed? { SignatureIsSound(w, at, store, log, ev.signature); }
    QuietKeeps(Working(w, at), store, log, AdvanceWork(w, at, store, ev).proc);
  }

  lemma {:induction false} ReservationSaveKeeps(w: Work, at: WorkPlace, store: Store,
                                                log: seq<Attempt>, outcome: SaveOutcome)
    requires at.AtSaveReservation? && WorkSound(w, at, store, log) && StoreInv(store, log)
    ensures Keeps(Working(w, at), store, log, AdvanceWork(w, at, store, Saved(outcome)))
  {
    UnsubmittedIsUnattempted(store, log, w.call.name);
    UnownedSlotIsFree(store, log, w.Slot(), w.call.name);
    PutKeeps(store, log, w.Slot(), at.reservation);
    SavingKeeps(Working(w, at), store, log, w.Slot(), at.reservation, outcome,
                Working(w, AtSaveUnknown(at.reservation, true, at.submission)),
                Working(w, AtUndoReservation(at.reservation)));
  }

  lemma {:induction false} UndoKeeps(w: Work, at: WorkPlace, store: Store, log: seq<Attempt>, outcome: SaveOutcome)
    requires at.AtUndoReservation? && WorkSound(w, at, store, log) && StoreInv(store, log)
    ensures Keeps(Working(w, at), store, log, AdvanceWork(w, at, store, Saved(outcome)))
  {
    PutKeeps(store, log, w.Slot(), Tombstone(at.reservation));
    SavingKeeps(Working(w, at), store, log, w.Slot(), Tombstone(at.reservation), outcome, Abandon(w), Abandon(w));
  }

  lemma {:induction false} UnknownSaveKeeps(w: Work, at: WorkPlace, store: Store,
                                            log: seq<Attempt>, outcome: SaveOutcome)
    requires at.AtSaveUnknown? && WorkSound(w, at, store, log) && StoreInv(store, log)
    ensures Keeps(Working(w, at), store, log, AdvanceWork(w, at, store, Saved(outcome)))
  {
    var id, s := Public(w.call.name), SubmissionUnknown(w.operation, at.submission);
    UnsubmittedIsUnattempted(store, log, w.call.name);
    PutKeeps(store, log, id, s);
    SavingKeeps(Working(w, at), store, log, id, s, outcome,
                Working(w, AtSubmit(at.submission)), Working(w, AtSaveMarker(at.reservation, at.created)));
  }

  lemma {:induction false} MarkerSaveKeeps(w: Work, at: WorkPlace, store: Store,
                                           log: seq<Attempt>, outcome: SaveOutcome)
    requires at.AtSaveMarker? && WorkSound(w, at, store, log) && StoreInv(store, log)
    ensures Keeps(Working(w, at), store, log, AdvanceWork(w, at, store, Saved(outcome)))
  {
    var id, s := Public(w.call.name), Prepared(w.operation, None, true);
    PutKeeps(store, log, id, s);
    SavingKeeps(Working(w, at), store, log, id, s, outcome,
                if at.created then Working(w, AtUndoReservation(at.reservation)) else Abandon(w), Abandon(w));
  }

  lemma {:induction false} SubmitStepKeeps(w: Work, submission: Submission, store: Store, log: seq<Attempt>)
    requires WorkSound(w, AtSubmit(submission), store, log) && StoreInv(store, log)
    ensures Keeps(Working(w, AtSubmit(submission)), store, log, AdvanceWork(w, AtSubmit(submission), store, Done))
  {
    SubmitKeeps(store, log, Attempt(w.call.name, w.operation, submission));
  }

  lemma {:induction false} AnswerIsSound(w: Work, submission: Submission, store: Store,
                                         log: seq<Attempt>, answer: ProviderAnswer)
    requires WorkSound(w, AtAnswer(submission), store, log) && StoreInv(store, log)
    ensures var next := AfterAnswer(w, submission, answer);
            Typed(next) && Sound(next, store, log) && HeldKeys(next) == HeldKeys(Working(w, AtAnswer(submission)))
  {
    var id := Public(w.call.name);
    assert WellKept(id, store[id]);
  }

  lemma {:induction false} AnswerKeeps(w: Work, submission: Submission, store: Store, log: seq<Attempt>, ev: Event)
    requires WorkSound(w, AtAnswer(submission), store, log) && StoreInv(store, log)
    ensures Keeps(Working(w, AtAnswer(submission)), store, log, AdvanceWork(w, AtAnswer(submission), store, ev))
  {
    var here := Working(w, AtAnswer(submission));
    if ev.Answered? {
      AnswerIsSound(w, submission, store, log, ev.answer);
      QuietKeeps(here, store, log, AfterAnswer(w, submission, ev.answer));
    } else {
      QuietKeeps(here, store, log, here);
    }
  }

  lemma {:induction false} SettledSaveKeeps(w: Work, at: WorkPlace, store: Store,
                                            log: seq<Attempt>, outcome: SaveOutcome)
    requires at.AtSaveSettled? && WorkSound(w, at, store, log) && StoreInv(store, log)
    ensures Keeps(Working(w, at), store, log, AdvanceWork(w, at, store, Saved(outcome)))
  {
    var id, s := Public(w.call.name), Settled(w.operation, at.submission, at.receipt, Pending);
    PutKeeps(store, log, id, s);
    SavingKeeps(Working(w, at), store, log, id, s, outcome, Exit2(w.call, w.operation.sender, ThenRegister(at.receipt)),
                Exit2(w.call, w.operation.sender, Return(SettledAs(Pending, at.receipt, false))));
  }

  /** The places at which a save is awaited. */
  predicate AwaitsSave(at: WorkPlace) {
    !at.AtReservation? && !at.AtSign? && !at.AtSubmit? && !at.AtAnswer?
  }

  lemma {:induction false} WorkSaveKeeps(w: Work, at: WorkPlace, store: Store, log: seq<Attempt>, outcome: SaveOutcome)
    requires AwaitsSave(at) && WorkSound(w, at, store, log) && StoreInv(store, log)
    ensures Keeps(Working(w, at), store, log, AdvanceWork(w, at, store, Saved(outcome)))
  {
    match at
    case AtSavePrepared(_, _) => PreparedSaveKeeps(w, at, store, log, outcome);
    case AtSaveReservation(_, _) => ReservationSaveKeeps(w, at, store, log, outcome);
    case AtUndoReservation(_) => UndoKeeps(w, at, store, log, outcome);
    case AtSaveUnknown(_, _, _) => UnknownSaveKeeps(w, at, store, log, outcome);
    case AtSaveMarker(_, _) => MarkerSaveKeeps(w, at, store, log, outcome);
    case AtSaveSettled(_, _) => SettledSaveKeeps(w, at, store, log, outcome);
  }

  lemma {:induction false} WorkKeeps(w: Work, at: WorkPlace, store: Store, log: seq<Attempt>, ev: Event)
    requires WorkSound(w, at, store, log) && StoreInv(store, log)
    ensures Keeps(Working(w, at), store, log, AdvanceWork(w, at, store, ev))
  {
    if AwaitsSave(at) {
      if ev.Saved? {
        WorkSaveKeeps(w, at, store, log, ev.outcome);
      } else {
        QuietKeeps(Working(w, at), store, log, Working(w, at));
      }
    } else {
      match at
      case AtReservation => ReserveKeeps(w, store, log, ev);
      case AtSign(_, _) => SignerKeeps(w, at, store, log, ev);
      case AtSubmit(submission) => SubmitStepKeeps(w, submission, store, log);
      case AtAnswer(submission) => AnswerKeeps(w, submission, store, log, ev);
    }
  }

  lemma {:induction false} IndexOutcomeIsSound(receipt: Receipt, retry: bool, loaded: Settlement,
                                               store: Store, ev: Event)
    requires RecordSound(receipt, retry, AtIndex(loaded), store)
    ensures Sound(AfterIndex(receipt, retry, loaded, ev), store, [])
            && HeldKeys(AfterIndex(receipt, retry, loaded, ev)) == {OperationKey(receipt.name)}
            && !AfterIndex(receipt, retry, loaded, ev).Working?
  {
    if ev.Posted? { RegistrationNeverFallsBack(loaded.registration, NoRow, ev.reply, receipt); }
    if ev.LookedUp? { RegistrationNeverFallsBack(loaded.registration, ev.lookup, Recorded, receipt); }
  }

  lemma {:induction false} RegistrationSaveKeeps(receipt: Receipt, retry: bool, at: RecordPlace,
                                                 store: Store, log: seq<Attempt>,
                                                outcome: SaveOutcome)
    requires at.AtSaveRegistration? && RecordSound(receipt, retry, at, store) && StoreInv(store, log)
    ensures Keeps(Record(receipt, retry, at), store, log, AdvanceRecord(receipt, retry, at, store, Saved(outcome)))
  {
    var id, s := Public(receipt.name), at.loaded.(registration := at.registration).Snapshot();
    assert WellKept(id, store[id]);
    PutKeeps(store, log, id, s);
    SavingKeeps(Record(receipt, retry, at), store, log, id, s, outcome,
                Exit1(receipt.name, SettledAs(at.registration, receipt, true)),
                Exit1(receipt.name, SettledAs(at.registration, receipt, false)));
  }

  lemma {:induction false} RecordReadKeeps(receipt: Receipt, retry: bool, at: RecordPlace, store: Store,
                                           log: seq<Attempt>, ev: Event)
    requires at.AtRecordLoad? || at.AtIndex?
    requires RecordSound(receipt, retry, at, store) && StoreInv(store, log)
    ensures Keeps(Record(receipt, retry, at), store, log, AdvanceRecord(receipt, retry, at, store, ev))
  {
    if at.AtIndex? { IndexOutcomeIsSound(receipt, retry, at.loaded, store, ev); }
    QuietKeeps(Record(receipt, retry, at), store, log, AdvanceRecord(receipt, retry, at, store, ev).proc);
  }

  lemma {:induction false} RecordKeeps(receipt: Receipt, retry: bool, at: RecordPlace, store: Store,
                                       log: seq<Attempt>, ev: Event)
    requires RecordSound(receipt, retry, at, store) && StoreInv(store, log)
    ensures Keeps(Record(receipt, retry, at), store, log, AdvanceRecord(receipt, retry, at, store, ev))
  {
    if at.AtRecordLoad? || at.AtIndex? {
      RecordReadKeeps(receipt, retry, at, store, log, ev);
    } else if at.AtSaveRegistration? && ev.Saved? {
      RegistrationSaveKeeps(receipt, retry, at, store, log, ev.outcome);
    } else if at.AtSaveRegistration? {
      QuietKeeps(Record(receipt, retry, at), store, log, Record(receipt, retry, at));
    }
  }

  lemma {:induction false} ReaderIsSound(name: string, origin: string, operation: FrozenOperation,
                                         submission: Submission, store: Store,
                      log: seq<Attempt>, ev: Event)
    requires RecoverSound(name, AtReader(operation, submission), store) && StoreInv(store, log)
    requires operation.input.operationId.Public?
    ensures var next := AfterReader(name, origin, operation, submission, ev);
            Sound(next, store, log) && Typed(next) && HeldKeys(next) == {OperationKey(name)}
  {
    assert WellKept(Public(name), store[Public(name)]);
    if ev.Observed? && ev.certificate.Some? { SignAndRecoverAgree(operation, submission, ev.certificate.value); }
  }

  lemma {:induction false} RecoveredSaveKeeps(name: string, origin: string, at: RecoverPlace,
                                              store: Store, log: seq<Attempt>,
                                             outcome: SaveOutcome)
    requires at.AtSaveRecovered? && RecoverSound(name, at, store) && StoreInv(store, log)
    ensures Keeps(Recover(name, origin, at), store, log, AdvanceRecover(name, origin, at, store, Saved(outcome)))
  {
    var id, s := Public(name), Settled(at.operation, at.submission, at.receipt, Pending);
    assert WellKept(id, store[id]);
    PutKeeps(store, log, id, s);
    SavingKeeps(Recover(name, origin, at), store, log, id, s, outcome,
                Exit1(name, SettledAs(Pending, at.receipt, true)),
                Exit1(name, SettledAs(Pending, at.receipt, false)));
  }

  lemma {:induction false} RecoverReadKeeps(name: string, origin: string, at: RecoverPlace, store: Store,
                                            log: seq<Attempt>, ev: Event)
    requires at.AtRecoverLoad? || at.AtReader?
    requires RecoverSound(name, at, store) && StoreInv(store, log) && Typed(Recover(name, origin, at))
    ensures Keeps(Recover(name, origin, at), store, log, AdvanceRecover(name, origin, at, store, ev))
  {
    if at.AtReader? { ReaderIsSound(name, origin, at.operation, at.submission, store, log, ev); }
    QuietKeeps(Recover(name, origin, at), store, log, AdvanceRecover(name, origin, at, store, ev).proc);
  }

  lemma {:induction false} RecoverKeeps(name: string, origin: string, at: RecoverPlace, store: Store,
                                        log: seq<Attempt>, ev: Event)
    requires RecoverSound(name, at, store) && StoreInv(store, log) && Typed(Recover(name, origin, at))
    ensures Keeps(Recover(name, origin, at), store, log, AdvanceRecover(name, origin, at, store, ev))
  {
    if at.AtRecoverLoad? || at.AtReader? {
      RecoverReadKeeps(name, origin, at, store, log, ev);
    } else if at.AtSaveRecovered? && ev.Saved? {
      RecoveredSaveKeeps(name, origin, at, store, log, ev.outcome);
    } else if at.AtSaveRecovered? {
      QuietKeeps(Recover(name, origin, at), store, log, Recover(name, origin, at));
    }
  }

  lemma {:induction false} ImportedSaveKeeps(receipt: Receipt, origin: string, store: Store,
                                             log: seq<Attempt>, outcome: SaveOutcome)
    requires ImportSound(receipt, AtSaveImported, store) && StoreInv(store, log)
    ensures Keeps(Import(receipt, origin, AtSaveImported), store, log,
                  AdvanceImport(receipt, origin, AtSaveImported, store, Saved(outcome)))
  {
    var id, s := Public(receipt.name), ImportedSnapshot(receipt, origin);
    UnsubmittedIsUnattempted(store, log, receipt.name);
    PutKeeps(store, log, id, s);
    SavingKeeps(Import(receipt, origin, AtSaveImported), store, log, id, s, outcome,
                LeaveOperation(receipt.name, ThenRegister(receipt)),
                Exit1(receipt.name, SettledAs(Pending, receipt, false)));
  }

  lemma {:induction false} ImportKeeps(receipt: Receipt, origin: string, at: ImportPlace, store: Store,
                                       log: seq<Attempt>, ev: Event)
    requires ImportSound(receipt, at, store) && StoreInv(store, log)
    ensures Keeps(Import(receipt, origin, at), store, log, AdvanceImport(receipt, origin, at, store, ev))
  {
    if at.AtSaveImported? && ev.Saved? {
      ImportedSaveKeeps(receipt, origin, store, log, ev.outcome);
    } else if !at.AtImportLock? {
      QuietKeeps(Import(receipt, origin, at), store, log, AdvanceImport(receipt, origin, at, store, ev).proc);
    }
  }

  lemma {:induction false} LeavingKeeps(proc: Proc, store: Store, log: seq<Attempt>, ev: Event)
    requires proc.LeaveAccount? || proc.LeaveOperation?
    requires Typed(proc) && Sound(proc, store, log) && StoreInv(store, log)
    ensures Keeps(proc, store, log, Advance(proc, store, ev))
  {
    var m := Advance(proc, store, ev);
    assert StoreAfter(store, m.action) == store && LogAfter(log, m.action) == log;
  }

  /** Every step of every call keeps the invariant, writes only under the guarding lock, and changes records only
      forwards. */
  lemma {:induction false} AdvanceKeeps(proc: Proc, store: Store, log: seq<Attempt>, ev: Event)
    requires Typed(proc) && Sound(proc, store, log) && StoreInv(store, log)
    ensures Keeps(proc, store, log, Advance(proc, store, ev))
  {
    match proc
    case Sign(call, at) => SignKeeps(call, at, store, log, ev);
    case Working(w, at) => WorkKeeps(w, at, store, log, ev);
    case Record(receipt, retry, at) => RecordKeeps(receipt, retry, at, store, log, ev);
    case Recover(name, origin, at) => RecoverKeeps(name, origin, at, store, log, ev);
    case Import(receipt, origin, at) => ImportKeeps(receipt, origin, at, store, log, ev);
    case LeaveAccount(_, _, _) => LeavingKeeps(proc, store, log, ev);
    case LeaveOperation(_, _) => LeavingKeeps(proc, store, log, ev);
    case Finished(_) => QuietKeeps(proc, store, log, proc);
  }
}
