/** Durable records of the Fast Sign SDK and the pure decisions its calls make about them. */
module SignModel {
  import opened Options

  const MAX_U64: nat := 0xffff_ffff_ffff_ffff
  const MAX_SAFE_INTEGER: nat := 0x1f_ffff_ffff_ffff

  datatype Network = Testnet | Mainnet

  /** What names a durable record: a caller's operation, or the internal reservation of one nonce.
      OperationIds shows that the text ids of the source keep the two kinds apart and the reservations distinct. */
  datatype RecordId =
    | Public(name: string)
    | Reserved(network: Network, sender: string, nonce: nat)

  datatype RawInput = RawInput(operationId: string, sha256: string, relationship: string,
                               signerName: Option<string>, publicTitle: Option<string>, listBySigner: Option<bool>)

  datatype SignInput = SignInput(operationId: RecordId, sha256: string, relationship: string,
                                 signerName: Option<string>, publicTitle: Option<string>, listBySigner: bool)

  datatype Fee = Fee(tokenId: Option<string>, amountAtomic: nat, scheduleFingerprint: string)

  datatype FrozenOperation = FrozenOperation(input: SignInput, network: Network, proxyUrl: string, indexOrigin: string,
                                             sender: string, nonce: nat, requestId: string, issuedAtNanos: nat,
                                             fee: Option<Fee>)

  /** The claim payload; its byte encoding is taken to be injective. */
  datatype Attestation = Attestation(sha256: string, relationship: string, signer: string, requestId: string,
                                     issuedAtSeconds: nat, signerName: string, fileLabel: string, listBySigner: bool)

  datatype Transaction = Transaction(network: Network, sender: string, nonce: nat, claim: Attestation,
                                     feeToken: Option<string>, timestampNanos: nat)

  /** Transaction id, signing bytes and transaction bytes are injective images of the transaction, which stands for
      them. */
  datatype Submission = Submission(tx: Transaction, senderSignature: string)

  /** A settlement certificate in its canonical form; `committee` is the part no client check looks at. */
  datatype Certificate = Certificate(tx: Transaction, senderSignature: string, committee: seq<string>)

  datatype Receipt = Receipt(name: string, indexOrigin: string, sha256: string, txId: Transaction, signer: string,
                             nonce: nat, network: Network, claim: Attestation, senderSignature: string,
                             certificate: Certificate)

  datatype Reservation = Reservation(owner: string, network: Network, sender: string, nonce: nat)

  datatype Registration = JustSettled | Pending | Conflict | Rejected | Registered

  datatype Snapshot =
    | Prepared(operation: FrozenOperation, reservation: Option<Reservation>, retryMarker: bool)
    | SubmissionUnknown(operation: FrozenOperation, submission: Submission)
    | Settled(operation: FrozenOperation, submission: Submission, receipt: Receipt, registration: Registration)

  type Store = map<RecordId, Snapshot>

  /** The input as frozen: no empty signer name, no title unless the attestation is listed. */
  function SnapshotInput(raw: RawInput): SignInput {
    var listed := raw.listBySigner.GetOr(false);
    SignInput(Public(raw.operationId), raw.sha256, raw.relationship,
              if raw.signerName == Some("") then None else raw.signerName,
              if listed then raw.publicTitle else None,
              listed)
  }

  ghost predicate Normalised(input: SignInput) {
    input.operationId.Public? && (input.listBySigner || input.publicTitle == None)
  }

  /** The claim a sign call encodes for one request id and one issue time. */
  function ClaimFor(input: SignInput, sender: string, requestId: string, issuedAtSeconds: nat): Attestation {
    Attestation(input.sha256, input.relationship, sender, requestId, issuedAtSeconds, input.signerName.GetOr(""),
                if input.listBySigner then input.publicTitle.GetOr("") else "", input.listBySigner)
  }

  /** The claim states what the caller gave: a signer's name if any, a title only if listed. */
  lemma {:induction false} ClaimStatesInput(raw: RawInput, sender: string, requestId: string, issuedAtSeconds: nat)
    ensures var a := ClaimFor(SnapshotInput(raw), sender, requestId, issuedAtSeconds);
      && a.sha256 == raw.sha256 && a.relationship == raw.relationship
      && a.signer == sender && a.requestId == requestId && a.issuedAtSeconds == issuedAtSeconds
      && a.signerName == raw.signerName.GetOr("")
      && (a.listBySigner <==> raw.listBySigner == Some(true))
      && a.fileLabel == (if raw.listBySigner == Some(true) then raw.publicTitle.GetOr("") else "")
  {
  }

  // --- nonce reservations ---

  datatype ReserveResult = Granted(record: Snapshot, created: bool) | Malformed | OwnedByAnother

  predicate IsTombstone(existing: Option<Snapshot>) {
    existing.Some? && existing.value.Prepared? && existing.value.reservation == None
  }

  function ReservationRecord(id: RecordId, operation: FrozenOperation, reservation: Option<Reservation>): Snapshot {
    Prepared(operation.(input := operation.input.(operationId := id)), reservation, false)
  }

  /** Decide whether `owner` may use a nonce, given the durable reservation record found for it. */
  function ReserveNonce(existing: Option<Snapshot>, operation: FrozenOperation, owner: string,
                        network: Network, sender: string, nonce: nat): ReserveResult
  {
    var id := Reserved(network, sender, nonce);
    if existing == None || IsTombstone(existing) then
      Granted(ReservationRecord(id, operation, Some(Reservation(owner, network, sender, nonce))), true)
    else if existing.value.operation.input.operationId != id
         || !existing.value.Prepared?
         || existing.value.reservation.value.network != network
         || existing.value.reservation.value.sender != sender
         || existing.value.reservation.value.nonce != nonce then
      Malformed
    else if existing.value.reservation.value.owner != owner then
      OwnedByAnother
    else
      Granted(existing.value, false)
  }

  // --- certificates and receipts ---

  /** The settlement facts a certificate is held against. */
  predicate CertificateFits(c: Certificate, network: Network, sender: string, nonce: nat, txId: Transaction,
                            sha256: string, claim: Attestation)
  {
    && c.tx.network == network
    && c.tx.sender == sender
    && c.tx.nonce == nonce
    && c.tx == txId
    && c.tx.claim == claim
    && c.tx.claim.signer == sender
    && c.tx.claim.sha256 == sha256
  }

  /** The receipt the signing call builds from the provider's answer, if the answer proves settlement. */
  function DirectReceipt(operation: FrozenOperation, submission: Submission, c: Certificate): Option<Receipt>
    requires operation.input.operationId.Public?
  {
    if CertificateFits(c, operation.network, operation.sender, operation.nonce, submission.tx,
                       operation.input.sha256, submission.tx.claim)
       && c.senderSignature == submission.senderSignature
    then Some(Receipt(operation.input.operationId.name, operation.indexOrigin, operation.input.sha256, submission.tx,
                      operation.sender, operation.nonce, operation.network, submission.tx.claim, c.senderSignature, c))
    else None
  }

  const NANOS_PER_SECOND: nat := 1_000_000_000

  predicate MetadataMatches(operation: FrozenOperation, a: Attestation) {
    && a.requestId == operation.requestId
    && a.relationship == operation.input.relationship
    && a.signerName == operation.input.signerName.GetOr("")
    && a.fileLabel == operation.input.publicTitle.GetOr("")
    && a.listBySigner == operation.input.listBySigner
    && a.issuedAtSeconds * NANOS_PER_SECOND <= operation.issuedAtNanos
    && operation.issuedAtNanos < a.issuedAtSeconds * NANOS_PER_SECOND + NANOS_PER_SECOND
  }

  /** The receipt recovery builds from an observed certificate, or None where recovery throws. */
  function RecoveredReceipt(operation: FrozenOperation, submission: Submission, c: Certificate): Option<Receipt>
    requires operation.input.operationId.Public?
  {
    if && CertificateFits(c, operation.network, operation.sender, operation.nonce, submission.tx,
                          operation.input.sha256, submission.tx.claim)
       && c.senderSignature == submission.senderSignature
       && MetadataMatches(operation, c.tx.claim)
       && operation.issuedAtNanos == c.tx.timestampNanos
       && c.tx.nonce <= MAX_SAFE_INTEGER
    then Some(Receipt(operation.input.operationId.name, operation.indexOrigin,
                      operation.input.sha256, c.tx, c.tx.sender,
                      c.tx.nonce, operation.network, c.tx.claim, c.senderSignature, c))
    else None
  }

  /** A caller's receipt checked against its own certificate and the one read back through the proxy. */
  function VerifiedReceipt(receipt: Receipt, observed: Certificate): Option<Receipt> {
    var c := receipt.certificate;
    if && CertificateFits(c, receipt.network, receipt.signer, receipt.nonce, receipt.txId,
                          receipt.sha256, receipt.claim)
       && c.senderSignature == receipt.senderSignature
       && CertificateFits(observed, receipt.network, receipt.signer, receipt.nonce, receipt.txId,
                          receipt.sha256, receipt.claim)
       && observed.senderSignature == receipt.senderSignature
    then Some(receipt.(certificate := observed))
    else None
  }

  /** The settled record registered for a verified receipt in an empty journal. */
  function ImportedSnapshot(receipt: Receipt, readerOrigin: string): Snapshot {
    var a := receipt.certificate.tx.claim;
    var input := SignInput(Public(receipt.name), receipt.sha256, a.relationship,
                           if a.signerName == "" then None else Some(a.signerName),
                           if a.listBySigner then Some(a.fileLabel) else None,
                           a.listBySigner);
    Settled(FrozenOperation(input, receipt.network, readerOrigin, receipt.indexOrigin, receipt.certificate.tx.sender,
                            receipt.certificate.tx.nonce, a.requestId, receipt.certificate.tx.timestampNanos, None),
            Submission(receipt.certificate.tx, receipt.certificate.senderSignature), receipt, Pending)
  }

  // --- what the journal accepts ---

  predicate ReceiptBound(r: Receipt, operation: FrozenOperation, submission: Submission) {
    && Public(r.name) == operation.input.operationId
    && r.indexOrigin == operation.indexOrigin
    && r.network == operation.network
    && r.signer == operation.sender
    && r.nonce == operation.nonce
    && r.nonce <= MAX_SAFE_INTEGER
    && r.sha256 == operation.input.sha256
    && r.txId == submission.tx
    && r.claim == submission.tx.claim
    && r.senderSignature == submission.senderSignature
  }

  /** The journal's structural validation of a snapshot filed under `id`. */
  predicate Accepted(id: RecordId, s: Snapshot) {
    && s.operation.input.operationId == id
    && (s.Prepared? && s.reservation.Some? ==>
          && s.reservation.value.network == s.operation.network
          && s.reservation.value.sender == s.operation.sender
          && s.reservation.value.nonce == s.operation.nonce
          && !s.retryMarker)
    && (s.Settled? ==> ReceiptBound(s.receipt, s.operation, s.submission))
  }

  // --- registration ---

  datatype IndexRow = IndexRow(sha256: string, txId: Transaction, signer: string, network: Network, nonce: nat)

  datatype Lookup = NoRow | Row(row: IndexRow) | LookupFailed

  datatype RecordAnswer = Recorded | RefusedAsConflict(lookup: Lookup) | Retryable | Refused

  predicate RowMatches(row: IndexRow, r: Receipt) {
    row == IndexRow(r.sha256, r.txId, r.signer, r.network, r.nonce)
  }

  /** Four-valued registration state reported to callers. */
  function StateOf(r: Registration): Registration {
    if r == JustSettled then Pending else r
  }

  /** None means that the lookup itself failed. */
  function Reconcile(lookup: Lookup, r: Receipt): Option<Registration> {
    match lookup
    case NoRow => Some(Pending)
    case Row(row) => Some(if RowMatches(row, r) then Registered else Conflict)
    case LookupFailed => None
  }

  function ReconcileFailure(previous: Registration): Registration {
    if previous == Conflict then Conflict else Pending
  }

  /** Outcome of checkRegistration; None where it throws without saving. */
  function CheckOutcome(previous: Registration, lookup: Lookup, r: Receipt): Option<Registration> {
    var found := Reconcile(lookup, r);
    if found == Some(Pending) && StateOf(previous) != Pending then Some(StateOf(previous)) else found
  }

  /** Outcome of retryRegistration once the index has answered; a rejected record never gets that far. */
  function RetryOutcome(previous: Registration, answer: RecordAnswer, r: Receipt): Registration {
    match answer
    case Recorded => Registered
    case RefusedAsConflict(lookup) =>
      (match Reconcile(lookup, r)
       case None => ReconcileFailure(previous)
       case Some(found) => if found == Pending then Conflict else found)
    case Retryable => ReconcileFailure(previous)
    case Refused => Rejected
  }

  /** Every registration change the two calls can make: never back to pending from a verdict, never away from
      registered. */
  ghost predicate MayBecome(before: Registration, after: Registration) {
    && after != JustSettled
    && (before == Registered ==> after == Registered)
    && (before == Conflict || before == Rejected ==> after != Pending)
  }

  lemma {:induction false} RegistrationNeverFallsBack(previous: Registration, lookup: Lookup,
                                                      answer: RecordAnswer, r: Receipt)
    requires previous != Registered
    ensures CheckOutcome(previous, lookup, r).Some? ==> MayBecome(previous, CheckOutcome(previous, lookup, r).value)
    ensures previous != Rejected ==> MayBecome(previous, RetryOutcome(previous, answer, r))
  {
  }

  // --- signing and recovery agree ---

  /** The transaction a frozen operation stands for once its fee token is known. */
  function TransactionOf(operation: FrozenOperation, feeToken: Option<string>): Transaction {
    Transaction(operation.network, operation.sender, operation.nonce,
                ClaimFor(operation.input, operation.sender, operation.requestId,
                         operation.issuedAtNanos / NANOS_PER_SECOND),
                feeToken, operation.issuedAtNanos)
  }

  /** Flooring milliseconds to seconds is the same before and after the clock value is widened to nanoseconds. */
  lemma {:induction false} SecondsSurviveWidening(instantMs: nat)
    ensures instantMs / 1000 == (instantMs * 1_000_000) / NANOS_PER_SECOND
  {
  }

  /** Every certificate of a frozen transaction passes all of recovery's checks, and recovery rebuilds
      exactly the receipt that the signing call would have saved from it. */
  lemma {:induction false} SignAndRecoverAgree(operation: FrozenOperation, submission: Submission, c: Certificate)
    requires Normalised(operation.input)
    requires operation.nonce <= MAX_SAFE_INTEGER
    requires submission.tx == TransactionOf(operation, submission.tx.feeToken)
    ensures RecoveredReceipt(operation, submission, c) == DirectReceipt(operation, submission, c)
    ensures c.tx == submission.tx && c.senderSignature == submission.senderSignature
            ==> RecoveredReceipt(operation, submission, c).Some?
    ensures RecoveredReceipt(operation, submission, c).Some?
            ==> ReceiptBound(RecoveredReceipt(operation, submission, c).value, operation, submission)
  {
  }

  /** The operation rebuilt for an imported receipt stands for the certified transaction again, exactly if the claim was
      issued in the second of the transaction and carries a label only when it is listed. */
  lemma {:induction false} ImportRebuilds(r: Receipt, readerOrigin: string)
    ensures var s, tx := ImportedSnapshot(r, readerOrigin), r.certificate.tx;
      && s.Settled? && s.receipt == r && s.submission == Submission(tx, r.certificate.senderSignature)
      && (r.network == tx.network && r.sha256 == tx.claim.sha256 && tx.claim.signer == tx.sender ==>
            (TransactionOf(s.operation, tx.feeToken) == tx <==>
              && tx.claim.issuedAtSeconds == tx.timestampNanos / NANOS_PER_SECOND
              && (tx.claim.listBySigner || tx.claim.fileLabel == "")))
  {
  }
}
