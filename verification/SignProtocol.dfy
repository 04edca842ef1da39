/**
 The Fast Sign SDK as a step system: any number of calls interleave at their awaits over one durable journal.

 A call is a `Proc`, the place of one call between two awaits with the locals it still needs. `Advance` runs a call to
 its next await, given what the awaited operation answered (`Event`); it is the code of `signDigest`, the record client,
 `recoverSettlement` and `registerReceipt` cut at every await. `Step` adds what the environment may do: start calls,
 kill them anywhere, and let the operator clear a lock whose owner is dead.
*/
module SignProtocol {
  import opened Options
  import opened SignModel

  datatype LockKey = OperationKey(name: string) | AccountKey(network: Network, sender: string)

  /** The lock under which a record is written. */
  function Guard(id: RecordId): LockKey {
    match id
    case Public(name) => OperationKey(name)
    case Reserved(network, sender, _) => AccountKey(network, sender)
  }

  datatype Client = Client(network: Network, proxyUrl: string, indexOrigin: string)

  /** A signDigest call: the operation's public name, its input as snapshotted, and the client it was made on. */
  datatype SignCall = SignCall(name: string, input: SignInput, client: Client)

  /** One signing attempt after its operation has been fixed. `isNew` is false when a prepared operation is resumed. */
  datatype Work = Work(call: SignCall, operation: FrozenOperation, isNew: bool, feeToken: Option<string>,
                       claim: Attestation)
  {
    function Slot(): RecordId { Reserved(operation.network, operation.sender, operation.nonce) }
  }

  datatype Outcome =
    | Threw
    | Unknown(name: string, txId: Transaction)
    | SettledAs(registration: Registration, receipt: Receipt, persisted: bool)

  /** Places in signDigest, named by the await the call is at. */
  datatype SignPlace =
    | AtOperationLock
    | AtLoad
    | AtPublicKey(existing: Option<Snapshot>)
    | AtAccountLock(sender: string)
    | AtReload(sender: string)
    | AtOldReservation(sender: string, previous: FrozenOperation)
    | AtQuote(sender: string, resumed: Option<FrozenOperation>)

  /** Places in signDigest once its operation is fixed. */
  datatype WorkPlace =
    | AtReservation
    | AtSavePrepared(reservation: Snapshot, created: bool)
    | AtSign(reservation: Snapshot, created: bool)
    | AtSaveReservation(reservation: Snapshot, submission: Submission)
    | AtUndoReservation(reservation: Snapshot)
    | AtSaveUnknown(reservation: Snapshot, created: bool, submission: Submission)
    | AtSaveMarker(reservation: Snapshot, created: bool)
    | AtSubmit(submission: Submission)
    | AtAnswer(submission: Submission)
    | AtSaveSettled(submission: Submission, receipt: Receipt)

  /** A settled record as the record client loaded it. */
  datatype Settlement = Settlement(operation: FrozenOperation, submission: Submission, receipt: Receipt,
                                   registration: Registration) {
    function Snapshot(): Snapshot { Settled(operation, submission, receipt, registration) }
  }

  datatype RecordPlace =
    | AtRecordLock
    | AtRecordLoad
    | AtIndex(loaded: Settlement)
    | AtSaveRegistration(loaded: Settlement, registration: Registration)

  datatype RecoverPlace =
    | AtRecoverLock
    | AtRecoverLoad
    | AtReader(operation: FrozenOperation, submission: Submission)
    | AtSaveRecovered(operation: FrozenOperation, submission: Submission, receipt: Receipt)

  datatype ImportPlace = AtVerify | AtImportLock | AtImportLoad | AtSaveImported

  /** What follows the last lock scope of a call: its result, or signDigest and registerReceipt going on to register. */
  datatype After = Return(outcome: Outcome) | ThenRegister(receipt: Receipt)

  datatype Proc =
    | Sign(call: SignCall, signPlace: SignPlace)
    | Working(work: Work, workPlace: WorkPlace)
    | Record(receipt: Receipt, retry: bool, recordPlace: RecordPlace)
    | Recover(name: string, readerOrigin: string, recoverPlace: RecoverPlace)
    | Import(receipt: Receipt, readerOrigin: string, importPlace: ImportPlace)
    | LeaveAccount(account: LockKey, name: string, after: After)
    | LeaveOperation(name: string, after: After)
    | Finished(outcome: Outcome)

  /** A save stores the snapshot, or throws before or after it became durable; likewise the removal of a lock. */
  datatype SaveOutcome = Stored | FailedBefore | FailedAfter

  datatype ProviderAnswer = DefinitiveRefusal | NoProof | Certified(certificate: Certificate)

  /** What the awaited operation answered. */
  datatype Event =
    | Done
    | Throws
    | PublicKey(sender: string)
    | Quoted(instantMs: nat, nonce: nat, requestId: string, fee: Fee)
    | Signed(signature: string)
    | Saved(outcome: SaveOutcome)
    | Answered(answer: ProviderAnswer)
    | Observed(certificate: Option<Certificate>)
    | LookedUp(lookup: Lookup)
    | Posted(reply: RecordAnswer)
    | Released(outcome: SaveOutcome)

  /** A call of submitTransaction: the operation it was made for and what was sent. */
  datatype Attempt = Attempt(name: string, operation: FrozenOperation, submission: Submission)

  /** `Strand` leaves the scope of a lock that could not be removed: the lock stays, and nobody is inside. */
  datatype Action =
    | Quiet
    | Take(key: LockKey)
    | Drop(key: LockKey)
    | Strand(key: LockKey)
    | Put(id: RecordId, snapshot: Snapshot)
    | Submit(attempt: Attempt)

  datatype Move = Move(action: Action, proc: Proc)

  // --- leaving lock scopes ---

  function Exit1(name: string, outcome: Outcome): Proc {
    LeaveOperation(name, Return(outcome))
  }

  function Exit2(call: SignCall, sender: string, after: After): Proc {
    LeaveAccount(AccountKey(call.client.network, sender), call.name, after)
  }

  function Abandon(w: Work): Proc {
    LeaveAccount(AccountKey(w.operation.network, w.operation.sender), w.call.name, Return(Threw))
  }

  /** What signDigest does with a record that is past prepared: report it, and register a settlement still pending. */
  function AfterFound(name: string, snapshot: Snapshot): After
    requires !snapshot.Prepared?
  {
    if snapshot.SubmissionUnknown? then Return(Unknown(name, snapshot.submission.tx))
    else if StateOf(snapshot.registration) == Pending then ThenRegister(snapshot.receipt)
    else Return(SettledAs(snapshot.registration, snapshot.receipt, true))
  }

  /** Removing a lock: `next` follows success, `failed` follows either way of throwing. */
  function Releasing(key: LockKey, outcome: SaveOutcome, next: Proc, failed: Proc): Move {
    match outcome
    case Stored => Move(Drop(key), next)
    case FailedBefore => Move(Strand(key), failed)
    case FailedAfter => Move(Drop(key), failed)
  }

  // --- saving ---

  /** A save of `s` under `id`: `ok` follows success, `failed` follows either way of throwing. */
  function Saving(id: RecordId, s: Snapshot, outcome: SaveOutcome, ok: Proc, failed: Proc): Move {
    match outcome
    case Stored => Move(Put(id, s), ok)
    case FailedBefore => Move(Quiet, failed)
    case FailedAfter => Move(Put(id, s), failed)
  }

  // --- signDigest, until its operation is fixed ---

  predicate BoundTo(existing: Snapshot, call: SignCall) {
    && existing.operation.input == call.input
    && existing.operation.network == call.client.network
    && existing.operation.proxyUrl == call.client.proxyUrl
    && existing.operation.indexOrigin == call.client.indexOrigin
  }

  function AfterLoad(call: SignCall, store: Store): Proc {
    var existing := Get(store, Public(call.name));
    if existing.Some? && !BoundTo(existing.value, call) then Exit1(call.name, Threw)
    else Sign(call, AtPublicKey(existing))
  }

  function AfterPublicKey(call: SignCall, existing: Option<Snapshot>, sender: string): Proc {
    if existing.Some? && existing.value.operation.sender != sender then Exit1(call.name, Threw)
    else if existing.Some? && !existing.value.Prepared? then
      LeaveOperation(call.name, AfterFound(call.name, existing.value))
    else Sign(call, AtAccountLock(sender))
  }

  function AfterReload(call: SignCall, sender: string, store: Store): Proc {
    var current := Get(store, Public(call.name));
    if current == None then Sign(call, AtQuote(sender, None))
    else if !BoundTo(current.value, call) || current.value.operation.sender != sender then
      Exit2(call, sender, Return(Threw))
    else if !current.value.Prepared? then Exit2(call, sender, AfterFound(call.name, current.value))
    else if current.value.retryMarker then Sign(call, AtQuote(sender, None))
    else Sign(call, AtOldReservation(sender, current.value.operation))
  }

  /** A prepared operation is resumed only while it owns the reservation of its nonce. */
  function AfterOldReservation(call: SignCall, sender: string, previous: FrozenOperation, store: Store): Proc {
    var id := Reserved(call.client.network, sender, previous.nonce);
    var record := Get(store, id);
    if record.Some? && (record.value.operation.input.operationId != id || !record.value.Prepared?
                        || (record.value.reservation.Some?
                            && (record.value.reservation.value.network != call.client.network
                                || record.value.reservation.value.sender != sender
                                || record.value.reservation.value.nonce != previous.nonce))) then
      Exit2(call, sender, Return(Threw))
    else if record.Some? && record.value.reservation.Some? && record.value.reservation.value.owner == call.name then
      Sign(call, AtQuote(sender, Some(previous)))
    else Sign(call, AtQuote(sender, None))
  }

  function AfterQuote(call: SignCall, sender: string, resumed: Option<FrozenOperation>,
                      instantMs: nat, nonce: nat, requestId: string, fee: Fee): Proc
  {
    var issuedAt := if resumed.Some? then resumed.value.issuedAtNanos else instantMs * 1_000_000;
    var used := if resumed.Some? then resumed.value.nonce else nonce;
    if issuedAt > MAX_U64 || used > MAX_SAFE_INTEGER
       || (resumed.Some? && (resumed.value.fee == None
                             || resumed.value.fee.value.scheduleFingerprint != fee.scheduleFingerprint))
    then Exit2(call, sender, Return(Threw))
    else
      var request := if resumed.Some? then resumed.value.requestId else requestId;
      var seconds := if resumed.Some? then issuedAt / NANOS_PER_SECOND else instantMs / 1000;
      var operation := if resumed.Some? then resumed.value else
        FrozenOperation(call.input, call.client.network, call.client.proxyUrl, call.client.indexOrigin, sender, used,
                        request, issuedAt, Some(fee));
      var claim := ClaimFor(call.input, sender, request, seconds);
      Working(Work(call, operation, resumed == None, fee.tokenId, claim), AtReservation)
  }

  function AdvanceSign(call: SignCall, at: SignPlace, store: Store, ev: Event): Move {
    var here := Sign(call, at);
    match at
    case AtOperationLock =>
      if ev.Throws? then Move(Quiet, Finished(Threw)) else Move(Take(OperationKey(call.name)), Sign(call, AtLoad))
    case AtLoad =>
      Move(Quiet, if ev.Throws? then Exit1(call.name, Threw) else AfterLoad(call, store))
    case AtPublicKey(existing) =>
      Move(Quiet, if ev.Throws? then Exit1(call.name, Threw)
           else if ev.PublicKey? then AfterPublicKey(call, existing, ev.sender) else here)
    case AtAccountLock(sender) =>
      if ev.Throws? then Move(Quiet, Exit1(call.name, Threw))
      else Move(Take(AccountKey(call.client.network, sender)), Sign(call, AtReload(sender)))
    case AtReload(sender) =>
      Move(Quiet, if ev.Throws? then Exit2(call, sender, Return(Threw)) else AfterReload(call, sender, store))
    case AtOldReservation(sender, previous) =>
      Move(Quiet, if ev.Throws? then Exit2(call, sender, Return(Threw))
                  else AfterOldReservation(call, sender, previous, store))
    case AtQuote(sender, resumed) =>
      Move(Quiet, if ev.Throws? then Exit2(call, sender, Return(Threw))
           else if ev.Quoted? then AfterQuote(call, sender, resumed, ev.instantMs, ev.nonce, ev.requestId, ev.fee)
           else here)
  }

  // --- signDigest, from the reservation of its nonce to the settled record ---

  function AfterReservation(w: Work, store: Store): Proc {
    match ReserveNonce(Get(store, w.Slot()), w.operation, w.call.name, w.operation.network,
                       w.operation.sender, w.operation.nonce)
    case Granted(record, created) => Working(w, if w.isNew then AtSavePrepared(record, created)
                                                else AtSign(record, created))
    case Malformed => Abandon(w)
    case OwnedByAnother => Abandon(w)
  }

  function SubmissionOf(w: Work, signature: string): Submission {
    Submission(Transaction(w.operation.network, w.operation.sender, w.operation.nonce, w.claim, w.feeToken,
                           w.operation.issuedAtNanos),
               signature)
  }

  function Tombstone(reservation: Snapshot): Snapshot {
    Prepared(reservation.operation, None, false)
  }

  function AfterAnswer(w: Work, submission: Submission, answer: ProviderAnswer): Proc
    requires w.operation.input.operationId.Public?
  {
    var unknown := Exit2(w.call, w.operation.sender, Return(Unknown(w.call.name, submission.tx)));
    match answer
    case DefinitiveRefusal => Abandon(w)
    case NoProof => unknown
    case Certified(c) =>
      var receipt := DirectReceipt(w.operation, submission, c);
      if receipt == None then unknown else Working(w, AtSaveSettled(submission, receipt.value))
  }

  function AdvanceWork(w: Work, at: WorkPlace, store: Store, ev: Event): Move
    requires w.operation.input.operationId.Public?
  {
    var here := Move(Quiet, Working(w, at));
    var id := Public(w.call.name);
    match at
    case AtReservation => Move(Quiet, if ev.Throws? then Abandon(w) else AfterReservation(w, store))
    case AtSavePrepared(reservation, created) =>
      if ev.Saved? then Saving(id, Prepared(w.operation, None, false), ev.outcome,
                               Working(w, AtSign(reservation, created)), Abandon(w))
      else here
    case AtSign(reservation, created) =>
      if ev.Throws? then Move(Quiet, Abandon(w))
      else if ev.Signed? then
        var submission := SubmissionOf(w, ev.signature);
        Move(Quiet, Working(w, if created then AtSaveReservation(reservation, submission)
                            else AtSaveUnknown(reservation, created, submission)))
      else here
    case AtSaveReservation(reservation, submission) =>
      if ev.Saved? then Saving(w.Slot(), reservation, ev.outcome,
                               Working(w, AtSaveUnknown(reservation, true, submission)),
                               Working(w, AtUndoReservation(reservation)))
      else here
    case AtUndoReservation(reservation) =>
      if ev.Saved? then Saving(w.Slot(), Tombstone(reservation), ev.outcome, Abandon(w), Abandon(w)) else here
    case AtSaveUnknown(reservation, created, submission) =>
      if ev.Saved? then Saving(id, SubmissionUnknown(w.operation, submission), ev.outcome,
                               Working(w, AtSubmit(submission)),
                               Working(w, AtSaveMarker(reservation, created)))
      else here
    case AtSaveMarker(reservation, created) =>
      if ev.Saved? then Saving(id, Prepared(w.operation, None, true), ev.outcome,
                               if created then Working(w, AtUndoReservation(reservation)) else Abandon(w), Abandon(w))
      else here
    case AtSubmit(submission) => Move(Submit(Attempt(w.call.name, w.operation, submission)),
                                      Working(w, AtAnswer(submission)))
    case AtAnswer(submission) => if ev.Answered? then Move(Quiet, AfterAnswer(w, submission, ev.answer)) else here
    case AtSaveSettled(submission, receipt) =>
      if ev.Saved? then Saving(id, Settled(w.operation, submission, receipt, Pending), ev.outcome,
                               Exit2(w.call, w.operation.sender, ThenRegister(receipt)),
                               Exit2(w.call, w.operation.sender, Return(SettledAs(Pending, receipt, false))))
      else here
  }

  // --- checkRegistration and retryRegistration ---

  function AfterRecordLoad(receipt: Receipt, retry: bool, store: Store): Proc {
    var loaded := Get(store, Public(receipt.name));
    if loaded == None || !loaded.value.Settled? || loaded.value.receipt != receipt then Exit1(receipt.name, Threw)
    else if loaded.value.registration == Registered then Exit1(receipt.name, SettledAs(Registered, receipt, true))
    else
      var settled := Settlement(loaded.value.operation, loaded.value.submission, receipt, loaded.value.registration);
      Record(receipt, retry, if retry && settled.registration == Rejected then AtSaveRegistration(settled, Rejected)
                             else AtIndex(settled))
  }

  function AfterIndex(receipt: Receipt, retry: bool, loaded: Settlement, ev: Event): Proc {
    if ev.Throws? then Exit1(receipt.name, Threw)
    else if retry && ev.Posted? then
      Record(receipt, retry, AtSaveRegistration(loaded, RetryOutcome(loaded.registration, ev.reply, receipt)))
    else if !retry && ev.LookedUp? then
      var found := CheckOutcome(loaded.registration, ev.lookup, receipt);
      if found == None then Exit1(receipt.name, Threw)
      else Record(receipt, retry, AtSaveRegistration(loaded, found.value))
    else Record(receipt, retry, AtIndex(loaded))
  }

  function AdvanceRecord(receipt: Receipt, retry: bool, at: RecordPlace, store: Store, ev: Event): Move {
    match at
    case AtRecordLock =>
      if ev.Throws? then Move(Quiet, Finished(Threw))
      else Move(Take(OperationKey(receipt.name)), Record(receipt, retry, AtRecordLoad))
    case AtRecordLoad => Move(Quiet, if ev.Throws? then Exit1(receipt.name, Threw)
                                     else AfterRecordLoad(receipt, retry, store))
    case AtIndex(loaded) => Move(Quiet, AfterIndex(receipt, retry, loaded, ev))
    case AtSaveRegistration(loaded, registration) =>
      if ev.Saved? then Saving(Public(receipt.name), loaded.(registration := registration).Snapshot(), ev.outcome,
                               Exit1(receipt.name, SettledAs(registration, receipt, true)),
                               Exit1(receipt.name, SettledAs(registration, receipt, false)))
      else Move(Quiet, Record(receipt, retry, at))
  }

  // --- recoverSettlement ---

  function AfterRecoverLoad(name: string, readerOrigin: string, store: Store): Proc {
    var loaded := Get(store, Public(name));
    if loaded == None || loaded.value.operation.proxyUrl != readerOrigin || loaded.value.Prepared? then
      Exit1(name, Threw)
    else if loaded.value.Settled? then
      Exit1(name, SettledAs(StateOf(loaded.value.registration), loaded.value.receipt, true))
    else Recover(name, readerOrigin, AtReader(loaded.value.operation, loaded.value.submission))
  }

  function AfterReader(name: string, readerOrigin: string, operation: FrozenOperation,
                       submission: Submission, ev: Event): Proc
    requires operation.input.operationId.Public?
  {
    if ev.Throws? then Exit1(name, Threw)
    else if !ev.Observed? then Recover(name, readerOrigin, AtReader(operation, submission))
    else if ev.certificate == None then Exit1(name, Unknown(name, submission.tx))
    else
      var receipt := RecoveredReceipt(operation, submission, ev.certificate.value);
      if receipt == None then Exit1(name, Threw)
      else Recover(name, readerOrigin, AtSaveRecovered(operation, submission, receipt.value))
  }

  function AdvanceRecover(name: string, readerOrigin: string, at: RecoverPlace, store: Store, ev: Event): Move
    requires at.AtReader? ==> at.operation.input.operationId.Public?
  {
    match at
    case AtRecoverLock =>
      if ev.Throws? then Move(Quiet, Finished(Threw))
      else Move(Take(OperationKey(name)), Recover(name, readerOrigin, AtRecoverLoad))
    case AtRecoverLoad => Move(Quiet, if ev.Throws? then Exit1(name, Threw)
                                      else AfterRecoverLoad(name, readerOrigin, store))
    case AtReader(operation, submission) => Move(Quiet, AfterReader(name, readerOrigin, operation, submission, ev))
    case AtSaveRecovered(operation, submission, receipt) =>
      if ev.Saved? then Saving(Public(name), Settled(operation, submission, receipt, Pending), ev.outcome,
                               Exit1(name, SettledAs(Pending, receipt, true)),
                               Exit1(name, SettledAs(Pending, receipt, false)))
      else Move(Quiet, Recover(name, readerOrigin, at))
  }

  // --- registerReceipt ---

  function AfterVerify(receipt: Receipt, readerOrigin: string, ev: Event): Proc {
    if !ev.Throws? && !ev.Observed? then Import(receipt, readerOrigin, AtVerify)
    else if ev.Throws? || ev.certificate == None then Finished(Threw)
    else
      var durable := VerifiedReceipt(receipt, ev.certificate.value);
      if durable == None then Finished(Threw) else Import(durable.value, readerOrigin, AtImportLock)
  }

  function AfterImportLoad(receipt: Receipt, readerOrigin: string, store: Store): Proc {
    var existing := Get(store, Public(receipt.name));
    if existing == None then Import(receipt, readerOrigin, AtSaveImported)
    else if !existing.value.Settled? || existing.value.operation.proxyUrl != readerOrigin
            || existing.value.receipt != receipt then
      Exit1(receipt.name, Threw)
    else LeaveOperation(receipt.name, ThenRegister(receipt))
  }

  function AdvanceImport(receipt: Receipt, readerOrigin: string, at: ImportPlace, store: Store, ev: Event): Move {
    match at
    case AtVerify => Move(Quiet, AfterVerify(receipt, readerOrigin, ev))
    case AtImportLock =>
      if ev.Throws? then Move(Quiet, Finished(Threw))
      else Move(Take(OperationKey(receipt.name)), Import(receipt, readerOrigin, AtImportLoad))
    case AtImportLoad => Move(Quiet, if ev.Throws? then Exit1(receipt.name, Threw)
                                     else AfterImportLoad(receipt, readerOrigin, store))
    case AtSaveImported =>
      if ev.Saved? then Saving(Public(receipt.name), ImportedSnapshot(receipt, readerOrigin), ev.outcome,
                               LeaveOperation(receipt.name, ThenRegister(receipt)),
                               Exit1(receipt.name, SettledAs(Pending, receipt, false)))
      else Move(Quiet, Import(receipt, readerOrigin, at))
  }

  // --- any call ---

  function AfterScopes(after: After): Proc {
    match after
    case Return(outcome) => Finished(outcome)
    case ThenRegister(receipt) => Record(receipt, true, AtRecordLock)
  }

  /** An operation is frozen under a public name; reservation records are never signed. */
  predicate Typed(proc: Proc) {
    && (proc.Working? ==> proc.work.operation.input.operationId.Public?)
    && (proc.Recover? && proc.recoverPlace.AtReader? ==> proc.recoverPlace.operation.input.operationId.Public?)
  }

  /** One call runs to its next await. An event that does not answer the await leaves the call where it is. */
  function Advance(proc: Proc, store: Store, ev: Event): Move
    requires Typed(proc)
  {
    match proc
    case Sign(call, at) => AdvanceSign(call, at, store, ev)
    case Working(w, at) => AdvanceWork(w, at, store, ev)
    case Record(receipt, retry, at) => AdvanceRecord(receipt, retry, at, store, ev)
    case Recover(name, origin, at) => AdvanceRecover(name, origin, at, store, ev)
    case Import(receipt, origin, at) => AdvanceImport(receipt, origin, at, store, ev)
    case LeaveAccount(account, name, after) =>
      if ev.Released? then Releasing(account, ev.outcome, LeaveOperation(name, after),
                                     LeaveOperation(name, Return(Threw)))
      else Move(Quiet, proc)
    case LeaveOperation(name, after) =>
      if ev.Released? then Releasing(OperationKey(name), ev.outcome, AfterScopes(after), Finished(Threw))
      else Move(Quiet, proc)
    case Finished(_) => Move(Quiet, proc)
  }

  /** The lock a call is waiting for, if it is waiting for one. */
  function Wants(proc: Proc): Option<LockKey> {
    match proc
    case Sign(call, at) =>
      if at.AtOperationLock? then Some(OperationKey(call.name))
      else if at.AtAccountLock? then Some(AccountKey(call.client.network, at.sender))
      else None
    case Record(receipt, _, at) => if at.AtRecordLock? then Some(OperationKey(receipt.name)) else None
    case Recover(name, _, at) => if at.AtRecoverLock? then Some(OperationKey(name)) else None
    case Import(receipt, _, at) => if at.AtImportLock? then Some(OperationKey(receipt.name)) else None
    case _ => None
  }

  /** The locks whose scopes a call is in. */
  function HeldKeys(proc: Proc): set<LockKey> {
    match proc
    case Sign(call, at) =>
      (match at
       case AtOperationLock => {}
       case AtLoad => {OperationKey(call.name)}
       case AtPublicKey(_) => {OperationKey(call.name)}
       case AtAccountLock(_) => {OperationKey(call.name)}
       case AtReload(sender) => {OperationKey(call.name), AccountKey(call.client.network, sender)}
       case AtOldReservation(sender, _) => {OperationKey(call.name), AccountKey(call.client.network, sender)}
       case AtQuote(sender, _) => {OperationKey(call.name), AccountKey(call.client.network, sender)})
    case Working(w, _) => {OperationKey(w.call.name), AccountKey(w.operation.network, w.operation.sender)}
    case Record(receipt, _, at) => if at.AtRecordLock? then {} else {OperationKey(receipt.name)}
    case Recover(name, _, at) => if at.AtRecoverLock? then {} else {OperationKey(name)}
    case Import(receipt, _, at) => if at.AtVerify? || at.AtImportLock? then {} else {OperationKey(receipt.name)}
    case LeaveAccount(account, name, _) => {OperationKey(name), account}
    case LeaveOperation(name, _) => {OperationKey(name)}
    case Finished(_) => {}
  }

  // --- what a call has heard ---

  datatype Quote = Quote(instantMs: nat, nonce: nat, requestId: string, fee: Fee)

  /** A record of the answers one call has received, kept beside the call for the theorems: nothing in it is decided,
      and nothing in the protocol reads it. `found`, `reserved` and `loaded` are the records as the call last loaded
      them, `threw` says that some await threw, `stranded` that some lock could not be released cleanly. */
  datatype Story = Story(entry: Proc, sender: Option<string>, found: Option<Snapshot>, reserved: Option<Snapshot>,
                         quote: Option<Quote>, sent: Option<Attempt>, answer: Option<ProviderAnswer>,
                         observed: Option<Option<Certificate>>, settledSave: Option<SaveOutcome>,
                         registering: Option<Receipt>, loaded: Option<Snapshot>, lookup: Option<Lookup>,
                         reply: Option<RecordAnswer>, registrationSave: Option<SaveOutcome>,
                         threw: bool, stranded: bool)

  function NewStory(entry: Proc): Story {
    Story(entry, None, None, None, None, None, None, None, None, None, None, None, None, None, false, false)
  }

  /** The awaits whose failure ends the call. */
  predicate CanThrow(at: Proc) {
    match at
    case Sign(_, _) => true
    case Working(_, place) => place.AtReservation? || place.AtSign?
    case Record(_, _, place) => !place.AtSaveRegistration?
    case Recover(_, _, place) => !place.AtSaveRecovered?
    case Import(_, _, place) => !place.AtSaveImported?
    case _ => false
  }

  function HearSign(t: Story, call: SignCall, at: SignPlace, store: Store, ev: Event): Story {
    match at
    case AtLoad => t.(found := Get(store, Public(call.name)))
    case AtPublicKey(_) => if ev.PublicKey? then t.(sender := Some(ev.sender)) else t
    case AtReload(_) => t.(found := Get(store, Public(call.name)))
    case AtOldReservation(sender, previous) =>
      t.(reserved := Get(store, Reserved(call.client.network, sender, previous.nonce)))
    case AtQuote(_, _) =>
      if ev.Quoted? then t.(quote := Some(Quote(ev.instantMs, ev.nonce, ev.requestId, ev.fee))) else t
    case _ => t
  }

  function HearWork(t: Story, w: Work, at: WorkPlace, ev: Event): Story {
    match at
    case AtSubmit(submission) => t.(sent := Some(Attempt(w.call.name, w.operation, submission)))
    case AtAnswer(_) => if ev.Answered? then t.(answer := Some(ev.answer)) else t
    case AtSaveSettled(_, _) => if ev.Saved? then t.(settledSave := Some(ev.outcome)) else t
    case _ => t
  }

  function HearRecord(t: Story, receipt: Receipt, retry: bool, at: RecordPlace, store: Store, ev: Event): Story {
    match at
    case AtRecordLock => t
    case AtRecordLoad => t.(loaded := Get(store, Public(receipt.name)))
    case AtIndex(_) =>
      if retry && ev.Posted? then t.(reply := Some(ev.reply))
      else if !retry && ev.LookedUp? then t.(lookup := Some(ev.lookup))
      else t
    case AtSaveRegistration(_, _) => if ev.Saved? then t.(registrationSave := Some(ev.outcome)) else t
  }

  function HearRecover(t: Story, name: string, at: RecoverPlace, store: Store, ev: Event): Story {
    match at
    case AtRecoverLock => t
    case AtRecoverLoad => t.(found := Get(store, Public(name)))
    case AtReader(_, _) => if ev.Observed? then t.(observed := Some(ev.certificate)) else t
    case AtSaveRecovered(_, _, _) => if ev.Saved? then t.(settledSave := Some(ev.outcome)) else t
  }

  function HearImport(t: Story, receipt: Receipt, at: ImportPlace, store: Store, ev: Event): Story {
    match at
    case AtVerify => if ev.Observed? then t.(observed := Some(ev.certificate)) else t
    case AtImportLock => t
    case AtImportLoad => t.(found := Get(store, Public(receipt.name)))
    case AtSaveImported => if ev.Saved? then t.(settledSave := Some(ev.outcome)) else t
  }

  /** The story after the await at which the call stands was answered. */
  function Hear(t: Story, at: Proc, store: Store, ev: Event): Story {
    var u := if at.Record? then t.(registering := Some(at.receipt)) else t;
    if ev.Throws? && CanThrow(at) then u.(threw := true) else
    match at
    case Sign(call, place) => HearSign(u, call, place, store, ev)
    case Working(w, place) => HearWork(u, w, place, ev)
    case Record(receipt, retry, place) => HearRecord(u, receipt, retry, place, store, ev)
    case Recover(name, _, place) => HearRecover(u, name, place, store, ev)
    case Import(receipt, _, place) => HearImport(u, receipt, place, store, ev)
    case LeaveAccount(_, _, _) => if ev.Released? && ev.outcome != Stored then u.(stranded := true) else u
    case LeaveOperation(_, _) => if ev.Released? && ev.outcome != Stored then u.(stranded := true) else u
    case Finished(_) => u
  }

  // --- the whole system ---

  type Pid = nat

  datatype System = System(store: Store, locks: map<LockKey, Pid>, procs: map<Pid, Proc>, log: seq<Attempt>,
                           stories: map<Pid, Story>)

  function StoreAfter(store: Store, action: Action): Store {
    if action.Put? then store[action.id := action.snapshot] else store
  }

  function LogAfter(log: seq<Attempt>, action: Action): seq<Attempt> {
    if action.Submit? then log + [action.attempt] else log
  }

  function LocksAfter(locks: map<LockKey, Pid>, p: Pid, action: Action): map<LockKey, Pid> {
    if action.Take? then locks[action.key := p]
    else if action.Drop? then locks - {action.key}
    else locks
  }

  datatype Cause =
    | Start(pid: Pid, proc: Proc)
    | Run(pid: Pid, ev: Event)
    | Die(pid: Pid)
    | ClearDeadLock(key: LockKey)

  /** The public calls, as their callers start them: public operation names, snapshotted inputs, safe receipt nonces. */
  ghost predicate Entry(proc: Proc) {
    || (proc.Sign? && proc.signPlace.AtOperationLock?
        && exists raw: RawInput :: raw.operationId == proc.call.name && proc.call.input == SnapshotInput(raw))
    || (proc.Record? && proc.recordPlace.AtRecordLock?)
    || (proc.Recover? && proc.recoverPlace.AtRecoverLock?)
    || (proc.Import? && proc.importPlace.AtVerify? && proc.receipt.nonce <= MAX_SAFE_INTEGER)
  }

  ghost predicate Step(s: System, t: System, cause: Cause) {
    match cause
    case Start(p, proc) =>
      // Lock owners are told apart by random tokens, so a new call is never mistaken for an old owner.
      && p !in s.procs && p !in s.locks.Values && Entry(proc)
      && t == s.(procs := s.procs[p := proc], stories := s.stories[p := NewStory(proc)])
    case Run(p, ev) =>
      && p in s.procs && p in s.stories && Typed(s.procs[p])
      && var m := Advance(s.procs[p], s.store, ev);
      && (m.action.Take? ==> m.action.key !in s.locks)
      && t == System(StoreAfter(s.store, m.action), LocksAfter(s.locks, p, m.action), s.procs[p := m.proc],
                     LogAfter(s.log, m.action), s.stories[p := Hear(s.stories[p], s.procs[p], s.store, ev)])
    case Die(p) =>
      && p in s.procs && t == s.(procs := s.procs - {p}, stories := s.stories - {p})
    case ClearDeadLock(key) =>
      && key in s.locks && s.locks[key] !in s.procs
      && t == s.(locks := s.locks - {key})
  }

  ghost predicate Init(s: System) {
    s == System(map[], map[], map[], [], map[])
  }

  ghost predicate Next(s: System, t: System) {
    exists cause :: Step(s, t, cause)
  }

  /** A run of the system: every interleaving of every set of calls with every answer, death and operator step. */
  ghost predicate Behaviour(states: seq<System>) {
    && |states| > 0
    && Init(states[0])
    && forall i :: 0 <= i < |states| - 1 ==> NextAt(states, i)
  }

  ghost predicate NextAt(states: seq<System>, i: int)
    requires 0 <= i < |states| - 1
  {
    Next(states[i], states[i + 1])
  }
}
