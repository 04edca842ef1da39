# Fast SDK and CLI: verified models

This project models the parts of the Fast monorepo whose correctness spans several functions or whole runs, and proves
what those parts promise. `dafny verify dfyconfig.toml` checks everything. Every lemma switches Dafny's automatic
induction off, so no proof by induction is left to the prover.

## What is modelled

**Fast Sign settlement protocol** (`SignModel`, `SignProtocol`, `SignSafety`, `SignRuns`, `SignReachable`,
`SignOutcomes`, `SignReports`, `OperationIds`, `FileLock`). `signDigest`, the record client, `recoverSettlement` and
`registerReceipt` are cut at every await into a step system over one durable journal. Any number of calls interleave; a
save may succeed, fail, or fail after publishing; the provider may accept, refuse or lose the answer; a call may die
anywhere or fail to remove its lock; a lock left behind stays until its owner is dead and an operator clears it. A ghost
log records every call of `submitTransaction`. The theorems hold in every state of every run: one submission per
operation and per (network, sender, nonce), durable evidence before each submission, and a one-way lifecycle of settled
records. A story beside each call records the answers it received; `SignOutcomes` and `SignReports` prove from it what
every finished call reports and which answers earn each registration verdict. `FileLock` models the lock under it file
by file (owner temp file, exclusive hard link, re-read, unlink), shows that it refines an atomic lock, and says what
each end of a call means; `OperationIds` shows that the journal's text ids tell the protocol's records apart.

**Multisig withdrawal coordinator** (`Withdrawal`, `SettlementScan`). The coordinator is a class whose runs may crash at
any effect and are repeated on one store; the scanner keeps the nested loops, breaks and continues of the source and is
proved against a specification of when a receipt proves the payment.

**Incoming-payment watcher** (`IncomingPayments`). Paged newest-first scans, the moving floor, the overlap margin and
the confirming rescan, proved equivalent to a full scan.

**Canonical codecs** (`Utf16`, `JsonStrings`, `JsonDocuments`, `JsonPrinting`, `CanonicalObjects`, `DecimalText`,
`IntentCodec`, `IntentRoundTrip`, `IntentPrepare`, `IntentDocuments`). UTF-16 texts, UTF-8, the two string escapers, a
reader for the whole of JSON (RFC 8259), the layout-driven printer, and the `allset/intent/v1` claim with validation,
encoder, decoder, prepare, finish and the transfer tag, down to bytes. `IntentDocuments` states the document as a
grammar in literal keys, kinds and bounds, and shows that exactly the canonical prints of that grammar are accepted.

**Wire conversion** (`WireFormat`, `WireText`). The text the x402 client prints, its reading, and the facilitator's
conversion to the serialiser's shape. The conversion is *not* the same on both sides for every value, and it is *not*
idempotent; the project proves exactly when each holds and exhibits values for which it does not.

**Signed messages** (`SignedMessages`), **amounts** (`Decimals`, `Amounts`), **paid-attempt memoisation**
(`PaidAttempts`), **certificate quorum** (`Quorum`) and **edit distance** (`Levenshtein`).

Transaction ids, signing bytes and attestation bytes stand for themselves as injective images of the data they are made
from. Signature checks, key parsing, the bech32m test and SHA-256 are parameters of the theorems.

## Where the code and its promise differ

- `toBcsFormat` is described as converting a payload the same way before and after its JSON round trip. It does so
  exactly when no negative big integer stays in the tree and no pair `{type, value}` has a big integer as its `type`
  (`WireFormat.WireInvariantExactly`). Converting twice equals converting once exactly when no surviving variant is named
  like a renamed key (`WireFormat.IdempotentExactly`).
- `readTransferUserDataTag` accepts 32 bytes that no transfer was tagged with: a leading byte order mark is dropped by
  the text decoder. Without that mark, reading and writing tags are inverse (`IntentPrepare.ReadTagExact`).
- `normalizeRequestAmount` and `parsePositiveAmount` take slightly different texts; `Amounts.AcceptanceDiffers` lists the
  two differences exactly.
- The two canonical printers differ on the empty record (`{}` and `{`, line break, `}`), and on records whose array-index
  keys an object enumerates out of the order they were added in; `CanonicalObjects.PrintersAgree` says that these are the
  only records of texts on which they differ.
- The profile and report encoders take their number modulo 2^64 without a range check; `SignedMessages.SameBytesExactly`
  says when two messages therefore share their bytes.

## Model

| member | source | states |
|---|---|---|
| SignRuns.AtMostOneSubmission | packages/sign-sdk/src/sign-client.ts:270-528 | in every state of every run, two submissions have different operations and different (network, sender, nonce) |
| SignRuns.SubmittedOnlyWithDurableEvidence | packages/sign-sdk/src/sign-client.ts:421-473 | at each submission the journal already holds exactly it as unknown, built from the frozen operation, with its nonce reserved in the operation's own name |
| SignRuns.SubmissionIsForEver | packages/sign-sdk/src/sign-client.ts:302-324 | after a submission its record never returns to prepared, its operation and submission never change, and its nonce reservation is never tombstoned or taken over |
| SignRuns.OutstandingSubmissionIsRecoverable | packages/sign-sdk/src/recovery.ts:324-438 | a submission still unknown is recovered from any certificate of its transaction, with the receipt the signing call would have saved |
| SignRuns.SettlementIsFinal | packages/sign-sdk/src/record-client.ts:108-188 | from settlement on, operation, submission and receipt never change, registered is absorbing, and conflict or rejected never falls back to pending |
| SignRuns.JournalAlwaysLoads | packages/sign-sdk/src/file-journal.ts:286-330 | every record any run stores passes the cross-field rules of the journal's validation (its checks of texts, URLs, formats and sizes are not modelled) |
| SignRuns.MutualExclusion | packages/sign-sdk/src/sign-client.ts:277-295 | two live calls are never inside the same lock, though locks of dead calls are cleared by hand |
| SignRuns.LockOrder | packages/sign-sdk/src/sign-client.ts:277-295 | a call that waits while holding a lock holds an operation lock and waits for an account lock |
| SignRuns.NoDeadlock | packages/sign-sdk/src/sign-client.ts:277-295 | no set of live calls waits in a cycle |
| SignRuns.EveryStateKeeps | packages/sign-sdk/src/sign-client.ts:270-528 | the invariant holds in every state of every run |
| SignRuns.StepKeeps | packages/sign-sdk/src/sign-client.ts:270-528 | starting, running, dying and clearing a dead lock each keep the invariant |
| SignRuns.Undisturbed | packages/sign-sdk/src/sign-client.ts:277-295 | what a call knows at its await survives every durable effect made under locks it does not hold |
| SignSafety.AdvanceKeeps | packages/sign-sdk/src/sign-client.ts:270-528 | every step of every call keeps the durable invariant, writes only under the guarding lock and changes records only forwards |
| SignSafety.PutKeeps | packages/sign-sdk/src/file-journal.ts:540-585 | a save keeps the durable invariant if no submission loses its evidence or its reservation |
| SignSafety.ReservationGranted | packages/sign-sdk/src/sign-client.ts:141-185 | a reservation is granted exactly if the record is absent, a tombstone or already the owner's, and refused as another's exactly if it has another owner; what is granted is well formed and names its owner |
| SignSafety.UnownedSlotIsFree | packages/sign-sdk/src/sign-client.ts:398-420 | a nonce whose reservation is absent, a tombstone or its own unsubmitted owner's was never submitted with |
| SignSafety.UnsubmittedIsUnattempted | packages/sign-sdk/src/sign-client.ts:302-327 | an operation whose record is absent or prepared was never submitted |
| SignSafety.UnknownSaveKeeps | packages/sign-sdk/src/sign-client.ts:428-434 | saving the unknown record keeps the invariant in all three outcomes of the save |
| SignSafety.MarkerSaveKeeps | packages/sign-sdk/src/sign-client.ts:434-471 | the retry marker may replace the unknown record because nothing was submitted, and only a stored marker releases the reservation |
| SignSafety.ReservationSaveKeeps | packages/sign-sdk/src/sign-client.ts:400-412 | saving a reservation keeps the invariant in all three outcomes of the save |
| SignSafety.UndoKeeps | packages/sign-sdk/src/sign-client.ts:412-471 | turning a reservation into a tombstone keeps the invariant in all three outcomes, because nothing was submitted with its nonce |
| SignSafety.AnswerKeeps | packages/sign-sdk/src/sign-client.ts:472-500 | every provider answer keeps the invariant; what the call then reports is stated by `SignReports.SubmittedCallReports` |
| SignSafety.SettledSaveKeeps | packages/sign-sdk/src/sign-client.ts:500-520 | saving the settlement keeps the invariant in all three outcomes, with a receipt bound to the frozen submission |
| SignSafety.RecordKeeps | packages/sign-sdk/src/record-client.ts:108-188 | checking and retrying registration keep the invariant |
| SignSafety.RecoverKeeps | packages/sign-sdk/src/recovery.ts:324-438 | recovery keeps the invariant and saves only receipts bound to the frozen submission |
| SignSafety.ImportKeeps | packages/sign-sdk/src/recovery.ts:189-301 | importing a verified receipt keeps the invariant and never replaces an existing record |
| SignModel.SignAndRecoverAgree | packages/sign-sdk/src/recovery.ts:374-424 | for every certificate recovery builds the receipt the direct path builds or both refuse, and a certificate of the frozen transaction passes all of recovery's checks |
| SignModel.SecondsSurviveWidening | packages/sign-sdk/src/sign-client.ts:353-362 | a resumed attempt derives the same claim second from nanoseconds as the first attempt did from milliseconds |
| SignModel.RegistrationNeverFallsBack | packages/sign-sdk/src/record-client.ts:145-188 | neither checking nor retrying turns conflict or rejected into pending; which verdict an answer earns is stated by `SignReports.VerdictsRestOn` |
| SignModel.ClaimStatesInput | packages/sign-sdk/src/sign-client.ts:355-378 | the claim that is signed states the caller's digest, relationship, name and title, the name only if given and the title only if listed |
| SignModel.ImportRebuilds | packages/sign-sdk/src/recovery.ts:232-301 | the operation rebuilt for an imported receipt stands for the certified transaction again, exactly if the claim's second and label are the transaction's |
| SignReports.SubmittedCallReports | packages/sign-sdk/src/sign-client.ts:421-520 | after its submission a call throws exactly on a definitive refusal, an await that threw or a failed lock release; it reports unknown, with its own transaction, exactly if the answer neither refused nor proved the frozen submission; and it reports settled only with the proven receipt, as persisted only if the save succeeded |
| SignReports.UnsubmittedCallReports | packages/sign-sdk/src/sign-client.ts:277-312 | a call that did not submit reports what the journal held of its own operation past preparation, and throws exactly otherwise |
| SignReports.RegistrationCallReports | packages/sign-sdk/src/record-client.ts:108-188 | checking and retrying throw exactly on an await that threw, a journal without this settled receipt or a failed lookup, and else report the verdict that the index's answers earn and whether it was saved |
| SignReports.RecoveryCallReports | packages/sign-sdk/src/recovery.ts:335-437 | recovery reports what the journal holds as settled, unknown exactly if no certificate is observed, and settled exactly with a certificate that proves the frozen submission |
| SignReports.ImportCallReports | packages/sign-sdk/src/recovery.ts:189-301 | a receipt is registered only if its own and the observed certificate support it and no other record contradicts it, and then the index's answers decide the report |
| SignReports.ReportsAreDurable | packages/sign-sdk/src/sign-client.ts:500-520 | what a call reports as persisted or as its own unknown submission the journal holds, in every later state too |
| SignReports.SubmitsWhatWasAsked | packages/sign-sdk/src/sign-client.ts:330-378 | what a call submits is its own input on its own client, under the operation, fee, nonce and time that it resumed or was quoted |
| SignReports.VerdictIsEarned | packages/sign-sdk/src/record-client.ts:133-188 | in every run, a settled record changes its verdict only in a registration call that loaded it and whose answers earn the new verdict |
| SignReports.VerdictsRestOn | packages/sign-sdk/src/record-client.ts:133-188 | a record becomes registered exactly on an index answer "recorded" or a row with the receipt's digest, transaction, signer, network and nonce, rejected exactly on a refusal, and conflict exactly on a differing row or a refused post that no matching row answers |
| SignReachable.AnyCallCanSubmit | packages/sign-sdk/src/sign-client.ts:270-473 | every sign call with clock and nonce in range has a run from the empty journal in which it submits |
| OperationIds.IdTextIsFaithful | packages/sign-sdk/src/types.ts:8-22 | record ids and their texts determine each other up to digest collisions, all pass the id grammar, and no public id names a reservation |
| OperationIds.ReservationKeyInjective | packages/sign-sdk/src/sign-client.ts:134-139 | the hashed key of a reservation determines network, sender and nonce |
| OperationIds.IdGrammar | packages/sign-sdk/src/types.ts:8-22 | public ids satisfy the shared grammar and miss the reserved prefix |
| FileLock.OneHolderAndNoTampering | packages/sign-sdk/src/file-journal.ts:587-661 | over every interleaving at most one call is inside a lock, the lock file is its own, and the errors for a vanished or changed lock are unreachable |
| FileLock.RefinesAtomicLock | packages/sign-sdk/src/file-journal.ts:587-661 | every file step is a step of an atomic lock (acquire when free, release by its holder) or changes nothing, failed unlinks and directory syncs included |
| FileLock.PublishedOwnerIsComplete | packages/sign-sdk/src/file-journal.ts:602-626 | a contender never reads an empty or partial owner from the public lock file |
| FileLock.StepKeeps | packages/sign-sdk/src/file-journal.ts:608-659 | every file step of every call, failed ones included, and every death keeps the lock invariant |
| FileLock.EndsAsReported | packages/sign-sdk/src/file-journal.ts:614-661 | a call ends normally exactly if it took the lock, ran its operation and released the lock; it fails for a dead or a live owner only if it met that owner, and then it ran nothing; no other end leaves the lock its own but a failed release |
| FileLock.RunsInsideOnly | packages/sign-sdk/src/file-journal.ts:616-660 | the operation runs only while its call holds the lock, from before it starts until after it ends |
| Withdrawal.EachIssuedOnce | app/cli/src/services/multisig-withdrawal.ts:192-276 | in a lawful history the transfer, the intent and the relay are each issued at most once, because each issue follows the write that first announced its stage and journals only grow |
| Withdrawal.IssuedInOrder | app/cli/src/services/multisig-withdrawal.ts:223-276 | no transfer follows an intent or relay, no intent follows a relay |
| Withdrawal.IssuedAsAnnounced | app/cli/src/services/multisig-withdrawal.ts:192-276 | each issue directly follows the durable write that announced it; the transfer pays the route's token and amount to the bridge, the intent claims exactly the certified transfer for the route's receiver, and the relay needs both certificates and an unexpired deadline |
| Withdrawal.CompletedIsTerminal | app/cli/src/services/multisig-withdrawal.ts:224-229 | after a completed journal is written nothing is ever issued |
| Withdrawal.CompletedIsPaid | app/cli/src/services/multisig-withdrawal.ts:224-229 | no completed journal is written before a scan has shown the payment of its transfer |
| Withdrawal.DeadlineIsOneDay | app/cli/src/services/multisig-withdrawal.ts:230-236 | an intent's deadline is 86400 seconds after the clock read just before it was announced |
| Withdrawal.JournalGrowsBetween | app/cli/src/services/multisig-withdrawal.ts:110-119 | saved stages, deadline, relay verdict and completion are never taken back, and relay needs intent needs transfer |
| Withdrawal.Coordinator.Run | app/cli/src/services/multisig-withdrawal.ts:67-277 | one run only appends to a lawful history, refuses a journal of another route or signer, reports completed exactly if its scan found the payment, once a transfer is saved, and reports any other status only on the provider's, scanner's or relayer's answer that says so |
| Withdrawal.Coordinator.Advance | app/cli/src/services/multisig-withdrawal.ts:230-251 | after a scan without payment: wait for the transfer, for settlement, or go on with the next stage before the deadline |
| Withdrawal.Coordinator.AwaitSettlement | app/cli/src/services/multisig-withdrawal.ts:236-247 | a relay that was attempted is never repeated; its verdict decides what is reported once the intent is certified |
| Withdrawal.Coordinator.AdvanceRelay | app/cli/src/services/multisig-withdrawal.ts:247-276 | both stages are certified and cross-signed before the relay is announced |
| Withdrawal.Coordinator.RunMany | app/cli/src/services/multisig-withdrawal.ts:66-277 | over any number of runs on one store, crashes included, each stage is issued at most once and in order, nothing is issued after a completed journal, and no journal completes without a scan that showed its payment |
| Withdrawal.Coordinator.Propose | app/cli/src/services/multisig-withdrawal.ts:192-222 | a proposal is written before it is submitted, at most once, and reported as incomplete or uncertain by the provider's answer |
| Withdrawal.Coordinator.IssueRelay | app/cli/src/services/multisig-withdrawal.ts:256-272 | the relay is announced durably before the one call of the relayer |
| Withdrawal.Coordinator.Reconcile | app/cli/src/services/multisig-withdrawal.ts:169-191 | a stage counts as certified only by a certificate of the saved transaction |
| SettlementScan.Settlement | app/cli/src/services/multisig-withdrawal.ts:347-440 | unless a lookup throws, the scan answers exactly whether some withdrawal log from the start block to the head proves the payment, having inspected each such log once |
| SettlementScan.ProvesExactly | app/cli/src/services/multisig-withdrawal.ts:360-437 | what proof of payment means, field by field: the log's token, amount and chain, the sound receipt with increasing log indices, the anchor, the token's transfer from the executor to the receiver, and the executor's action of that same amount |
| SettlementScan.PaidInSlice | app/cli/src/services/multisig-withdrawal.ts:400-436 | true exactly when, before any other bridge log or decodable executor action, the executor transferred at least the amount to the receiver after a token transfer of exactly that action's amount |
| SettlementScan.InspectLog | app/cli/src/services/multisig-withdrawal.ts:360-437 | a log proves the payment exactly when its receipt is sound, contains it once, and its slice pays |
| SettlementScan.FindAnchor | app/cli/src/services/multisig-withdrawal.ts:385-393 | finds the first log equal to the event in every topic and datum, or none |
| SettlementScan.RangesPartition | app/cli/src/services/multisig-withdrawal.ts:350-359 | consecutive windows together select exactly the logs of the whole range, none twice |
| SettlementScan.ScanWindow | app/cli/src/services/multisig-withdrawal.ts:351-438 | a window after a range inspected in vain either proves the payment, throws, or extends that range, each log inspected once |
| IncomingPayments.ScanIncoming | app/cli/src/services/incoming-payments.ts:111-139 | a paged scan returns the earliest match among the rows down to the floor and the newest time, whatever the pages, empty ones included |
| IncomingPayments.FullScan | app/cli/src/services/incoming-payments.ts:111-139 | a scan down to the start returns the earliest match of the whole feed |
| IncomingPayments.ConfirmedScan | app/cli/src/services/incoming-payments.ts:186-203 | an incremental match is replaced by the earliest one of the whole window before it is returned, and no match above the floor is missed |
| IncomingPayments.Watcher.Poll | app/cli/src/services/incoming-payments.ts:185-203 | a row is returned only if nothing speaks against it, field by field, and as the earliest such row in the whole window; a full scan, made at the stated times, finds one exactly if there is one; a failed poll keeps the floor, and the new floor is the overlap behind the newest row |
| IncomingPayments.Watcher.Wait | app/cli/src/services/incoming-payments.ts:205-227 | the payment returned is the earliest match in the whole window of the feed it was read from |
| IncomingPayments.IncrementalMeansFull | app/cli/src/services/incoming-payments.ts:186-203 | with rows at most the overlap behind the newest, there is a match above the floor exactly when there is one in the whole feed |
| IncomingPayments.FullScanSeesAll | app/cli/src/services/incoming-payments.ts:83-96 | a scan down to the start has seen every row that can match, to the nanosecond |
| IncomingPayments.NoneMatches | app/cli/src/services/incoming-payments.ts:83-91 | a feed has a match exactly if it has a row of the right kind, receiver, amount, token, sender and time that the receiver did not send |
| IncomingPayments.TimelyIsTransitive | app/cli/src/services/incoming-payments.ts:198-201 | timeliness between consecutive polls extends over any number of failed polls in between |
| JsonStrings.EscapeString | packages/allset-sdk/src/canonical-json.ts:17-50 | the claim printer's escaper gives the escaped text in quotes, or refuses, exactly on texts with an unpaired surrogate |
| JsonStrings.AssertWellFormedUtf16 | packages/fastid-sdk/src/canonical-json.ts:32-49 | true exactly when no surrogate stands alone |
| JsonStrings.EscapeCanonicalJsonString | packages/fastid-sdk/src/canonical-json.ts:55-87 | the record printer's escaper meets the same specification, so the two agree on every UTF-16 text |
| JsonStrings.ControlEscape | packages/allset-sdk/src/canonical-json.ts:33-46 | a control character without a short escape is written as its number in lower-case hex |
| JsonStrings.StringReadsBack | packages/allset-sdk/src/canonical-json.ts:33-46 | reading an escaped text by section 7 of RFC 8259 gives back the text |
| JsonStrings.EscapedInjective | packages/allset-sdk/src/canonical-json.ts:17-50 | no two texts escape to the same text |
| JsonStrings.EscapedWellFormed | packages/allset-sdk/src/canonical-json.ts:23-31 | escaping keeps text well-formed, so it survives UTF-8 |
| Utf16.Utf8RoundTrip | packages/allset-sdk/src/intent-v1.ts:332-342 | fatal decoding of the encoding of a well-formed text gives the text back exactly if it has no leading byte order mark |
| JsonDocuments.DocumentReadsBack | packages/allset-sdk/src/canonical-json.ts:52-89 | a printed value is JSON for that value with its fields in layout order, for every value, layout and nesting |
| JsonDocuments.WrittenReadsBack | packages/allset-sdk/src/canonical-json.ts:52-89 | the same at every depth, whatever text follows |
| JsonPrinting.LayoutDecidesOrder | packages/allset-sdk/src/canonical-json.ts:66-84 | values that differ only in the order of fields, at every depth where the layout decides it, print the same text |
| JsonPrinting.WrittenAlike | packages/allset-sdk/src/canonical-json.ts:52-95 | printed length in bytes depends on each string only through that string's own printed length |
| JsonPrinting.PrintsExactlyPrintable | packages/allset-sdk/src/canonical-json.ts:62-74 | printing fails exactly for other leaves, keys without a place and unpaired surrogates |
| CanonicalObjects.EncodeCanonicalObject | packages/fastid-sdk/src/canonical-json.ts:89-115 | succeeds exactly on distinct keys, printable texts and canonical numbers, and writes every member in order |
| CanonicalObjects.PrintersAgree | packages/fastid-sdk/src/canonical-json.ts:89-115 | on a record of texts the two canonical printers give the same text exactly if the record is not empty and no array-index key was added after a key it is enumerated before |
| CanonicalObjects.RecordReadsBack | packages/fastid-sdk/src/canonical-json.ts:89-115 | what the record printer prints for a record of texts, the empty one included, is JSON for that record |
| CanonicalObjects.EnumeratedAsAdded | packages/allset-sdk/src/canonical-json.ts:66-84 | an object enumerates its keys as they were added exactly if no array index overtakes another key |
| IntentRoundTrip.DecodeEncode | packages/allset-sdk/src/intent-v1.ts:246-387 | decoding an encoding succeeds and gives the claim with its hex fields in lower case |
| IntentRoundTrip.OneDocumentPerClaim | packages/allset-sdk/src/intent-v1.ts:328-387 | a document is accepted as a claim exactly when it is that claim's encoding and the claim is in normal form |
| IntentRoundTrip.AcceptedIsCanonical | packages/allset-sdk/src/intent-v1.ts:380-386 | every accepted document is the encoding of the claim it is read as |
| IntentRoundTrip.EncodeInjective | packages/allset-sdk/src/intent-v1.ts:246-278 | two encodings are equal exactly when the normalised claims are |
| IntentDocuments.EncodesExactly | packages/allset-sdk/src/intent-v1.ts:149-278 | a claim encodes exactly if the record that spells it is in the document grammar, no revocation carries a value, its symbol is well-formed and the document is at most 4096 bytes |
| IntentDocuments.EncodingSpellsClaim | packages/allset-sdk/src/intent-v1.ts:212-278 | parsed as JSON, an encoding has the literal keys and action names in the literal order, each with the claim's own field |
| IntentDocuments.AcceptedExactly | packages/allset-sdk/src/intent-v1.ts:328-387 | bytes are accepted exactly if they are the canonical print, of at most 4096 bytes, of a record in the document grammar |
| IntentDocuments.DocumentKind | packages/allset-sdk/src/intent-v1.ts:132-147 | in every accepted document the kind is "withdraw", "execute", "deposit_back" or "revoke" exactly for one intent whose printed action is "transfer", "execute", "deposit_back" or "revoke", and "batch" exactly for two or more, none of which revokes |
| IntentDocuments.ClaimInGrammar | packages/allset-sdk/src/intent-v1.ts:149-210 | a claim is valid exactly if its record is in the grammar of literal keys, kinds, hex lengths and number bounds, and no revocation carries a value |
| IntentDocuments.HexInEitherCase | packages/allset-sdk/src/intent-v1.ts:64-66 | hex is accepted in either case, its x included, and printed in lower case |
| IntentRoundTrip.ClaimReadsBack | packages/allset-sdk/src/intent-v1.ts:272-378 | the wire record of a valid claim reads as the claim in normal form |
| IntentCodec.NormalSame | packages/allset-sdk/src/intent-v1.ts:87-89 | lower-casing hex fields changes neither validity nor the document, and is idempotent |
| IntentPrepare.PreparePredictsFinish | packages/allset-sdk/src/intent-v1.ts:508-562 | a prepared claim finishes with exactly the 32-byte hex ids, at the prepared length, to a document that decodes to it |
| IntentDocuments.PreparedKind | packages/allset-sdk/src/intent-v1.ts:534-543 | a prepared claim, and every document it is finished into, carries the kind that names its intents, and the document spells the claim |
| IntentPrepare.PreparesExactly | packages/allset-sdk/src/intent-v1.ts:508-553 | preparation succeeds exactly with a chain, a bridge, a lifetime below 2^40 seconds (3600 if none is given), a clock in range and a claim that encodes as asked |
| IntentPrepare.PreparesAsked | packages/allset-sdk/src/intent-v1.ts:530-543 | the claim that is prepared is, field by field, the one asked for, with zeros for the transfer id |
| IntentPrepare.FinishesExactly | packages/allset-sdk/src/intent-v1.ts:555-562 | a claim that encodes finishes with exactly the 32-byte ids, always at the same length |
| IntentPrepare.PreparedAsAsked | packages/allset-sdk/src/intent-v1.ts:508-553 | the prepared claim carries the requested schema, chain, bridge, intents and display, the tag reads as the chain, and the deadline lies the requested time ahead of the clock |
| IntentPrepare.SizeIgnoresTransferId | packages/allset-sdk/src/intent-v1.ts:505-562 | the printed size of a claim does not depend on which 32-byte id it carries |
| IntentPrepare.ChainHasTag | packages/allset-sdk/src/intent-v1.ts:612-620 | the chain text is valid exactly for ids that have a tag, so the tag never fails after encoding |
| IntentPrepare.TagReadsBack | packages/allset-sdk/src/intent-v1.ts:612-629 | a tag is 32 bytes and reads as its chain id |
| IntentPrepare.TagSpells | packages/allset-sdk/src/intent-v1.ts:612-620 | a tag spells its protocol and the chain id, filled up with zero bytes, and exists exactly for ids of at most 13 digits |
| IntentPrepare.ReadTagExact | packages/allset-sdk/src/intent-v1.ts:622-629 | bytes that read as an id are that id's tag exactly when they lack a leading byte order mark |
| IntentPrepare.MarkedTagReads | packages/allset-sdk/src/intent-v1.ts:622-629 | marked bytes that are no tag do read as an id |
| DecimalText.NumberReadsBack | packages/allset-sdk/src/intent-v1.ts:95-100 | a printed unsigned number is canonical and reads as itself |
| SignedMessages.JointlyInjective | packages/fastid-sdk/src/proofs.ts:166-220 | equal bytes mean the same kind of message with the same fields, across all five signed messages |
| SignedMessages.DecodeEncode | packages/fastid-sdk/src/profile-message.ts:53-89 | every accepted message with numbers in range is recovered from its bytes |
| SignedMessages.SameBytesExactly | packages/fastid-sdk/src/profile-message.ts:30-38 | without the range, messages share bytes exactly when they agree modulo 2^64 |
| SignedMessages.ExpiryWraps | packages/fastid-sdk/src/profile-message.ts:30-38 | two profile messages whose expiries are 2^64 apart share their bytes |
| SignedMessages.EncodeSocialCommon | packages/fastid-sdk/src/proofs.ts:166-188 | the shared parts, refused exactly for wrong lengths or an expiry outside 64 bits |
| SignedMessages.EncodeSocialIntentMessage | packages/fastid-sdk/src/proofs.ts:190-200 | the parts joined are the intent message that the decoder inverts |
| SignedMessages.EncodeSocialProofMessage | packages/fastid-sdk/src/proofs.ts:202-212 | the parts joined are the proof message that the decoder inverts |
| SignedMessages.EncodeSocialCommitMessage | packages/fastid-sdk/src/proofs.ts:214-220 | the parts joined are the commit message that the decoder inverts |
| SignedMessages.EncodeProfileMessage | packages/fastid-sdk/src/profile-message.ts:53-89 | the parts joined are the profile message that the decoder inverts |
| SignedMessages.AttributionMessage | packages/fastid-sdk/src/report-wire.ts:122-153 | the loop over seals builds the attribution message that the decoder inverts |
| SignedMessages.U64be | packages/fastid-sdk/src/proofs.ts:143-154 | eight bytes, highest first, or refusal outside 64 bits |
| SignedMessages.Concat | packages/fastid-sdk/src/proofs.ts:156-164 | the buffer filled part by part is the concatenation |
| SignedMessages.DomainsApart | packages/fastid-sdk/src/proofs.ts:114-116 | no domain tag is a prefix of a message under another tag |
| SignedMessages.SocialDomainTexts | packages/fastid-sdk/src/proofs.ts:114-116 | the bytes of the three social domain tags spell their texts |
| SignedMessages.OtherDomainTexts | packages/fastid-sdk/src/profile-message.ts:53-89 | the bytes of the profile and report domain tags spell their texts |
| WireFormat.WireInvariantExactly | packages/x402-facilitator/src/fast-bcs.ts:91-119 | a value and its JSON round trip convert to the same tree exactly for faithful values |
| WireFormat.IdempotentExactly | packages/x402-facilitator/src/fast-bcs.ts:91-119 | converting twice equals converting once exactly for stable values |
| WireFormat.BothSidesAgreeExactly | packages/x402-facilitator/src/fast-bcs.ts:69-119 | both statements for the nine renamed keys of the source |
| WireFormat.SnakeTexts | packages/x402-facilitator/src/fast-bcs.ts:69-79 | the nine renamed keys by their texts |
| WireFormat.OtherNamesStay | packages/x402-facilitator/src/fast-bcs.ts:112-118 | no other key changes |
| WireFormat.NegativeNumberDiffers | packages/x402-facilitator/src/fast-bcs.ts:94-98 | a negative big integer converts differently after the round trip |
| WireFormat.NumberAsTypeDiffers | packages/x402-facilitator/src/fast-bcs.ts:103-110 | a pair with a big integer as its type becomes a variant only after the round trip |
| WireFormat.RenamedVariantDiffers | packages/x402-facilitator/src/fast-bcs.ts:103-118 | a variant named like a renamed key changes when converted again |
| WireFormat.FieldsAgree | packages/x402-facilitator/src/fast-bcs.ts:112-118 | two records with the same keys convert to the same fields exactly when each field whose converted key no later field takes converts to the same value |
| WireFormat.LastValueStays | packages/x402-facilitator/src/fast-bcs.ts:112-118 | when keys collide after renaming, the last field's value stays |
| WireFormat.FirstPlaceStays | packages/x402-facilitator/src/fast-bcs.ts:112-118 | converted keys stand in the order of the first fields that take them |
| WireText.PayloadArrives | packages/x402-client/src/fast.ts:29-59 | parsing what the client prints gives the value that the facilitator converts |
| WireText.CompactReadsBack | packages/x402-client/src/fast.ts:29-51 | compact text reads back as the value it was printed from, at every depth |
| WireText.StringifyReadsBack | packages/x402-client/src/fast.ts:31-33 | any text, lone surrogates included, survives printing and parsing |
| PaidAttempts.AtMostOnePaid | packages/fastid-sdk/src/proofs.ts:543-569 | after any sequence of calls, endings, handled failures and forgets, at most one attempt for one key between two forgets can have paid |
| PaidAttempts.AtMostOneEverPaid | packages/fastid-sdk/src/proofs.ts:543-569 | on one X session or website claim, at most one attempt ever started can have paid |
| PaidAttempts.StartsOnlyAfterProof | packages/fastid-sdk/src/proofs.ts:718-739 | a call finds its slot empty only when every earlier attempt since the last forget failed with an error that proves nothing was paid |
| PaidAttempts.EndingsAreFinal | packages/fastid-sdk/src/proofs.ts:543-569 | attempts are never dropped, moved or reopened |
| PaidAttempts.EveryRunIsSound | packages/fastid-sdk/src/proofs.ts:543-569 | the invariant holds after every sequence of events |
| PaidAttempts.ClearedMeansUnpaid | packages/fastid-sdk/src/claims.ts:346-433 | an error that clears the memo comes from before submission or a definitive refusal, and an attempt that may have paid never clears it; legacy commits and posts already settled included |
| PaidAttempts.RunEndsExactly | packages/fastid-sdk/src/claims.ts:346-494 | every end of a claim run, exactly: registered, refused for good or pending after settlement on Fast; refused by the provider; indefinite after the provider was called; or failed before that |
| PaidAttempts.AttemptEndsExactly | packages/fastid-sdk/src/proofs.ts:106-112 | an attempt ends with a failed commit or as its claim run does, and another may follow exactly if nothing can have been paid and the error is an expected one |
| PaidAttempts.EndingKeeps | packages/fastid-sdk/src/proofs.ts:561-568 | an attempt's ending keeps every other attempt on its key proven unpaid |
| PaidAttempts.ClearingKeeps | packages/fastid-sdk/src/proofs.ts:564-566 | clearing a proven unpaid attempt keeps the memo sound |
| PaidAttempts.OAuthSettlements.Settle | packages/fastid-sdk/src/proofs.ts:718-739 | a call joins the attempt in the map or starts one exactly when there is none, and then all earlier ones of its epoch are proven unpaid |
| PaidAttempts.OAuthSettlements.HandleFailure | packages/fastid-sdk/src/proofs.ts:730-738 | only the attempt's own memo is removed, and only for an error that proves nothing was paid |
| PaidAttempts.OAuthSettlements.Forget | packages/fastid-sdk/src/proofs.ts:741-744 | forgetting starts a new epoch for that key and no other |
| PaidAttempts.XSession.Settle | packages/fastid-sdk/src/proofs.ts:543-569 | which of applied, joined, unauthorised or started a call becomes, exactly, and whether a started run commits first; it always has something to claim |
| PaidAttempts.XSession.HandleFailure | packages/fastid-sdk/src/proofs.ts:563-567 | the session's memo is cleared only for its own proven unpaid attempt |
| PaidAttempts.WebsiteClaim.VerifyAndSettle | packages/fastid-sdk/src/proofs.ts:771-797 | which of verified, refused, joined or started a call becomes, exactly |
| PaidAttempts.WebsiteClaim.HandleFailure | packages/fastid-sdk/src/proofs.ts:788-792 | the claim's memo is cleared only for its own proven unpaid attempt |
| Quorum.NoConflictingPayments | packages/x402-facilitator/src/verify.ts:704-744 | with at most a third of the members, less one, signing conflicting transactions, two accepted payments of one sender and nonce are the same |
| Quorum.AcceptedByQuorum | packages/x402-facilitator/src/verify.ts:704-744 | acceptance means more than two thirds of the trusted members, each once, signed this transaction |
| Quorum.QuorumsOverlap | packages/x402-facilitator/src/verify.ts:419-421 | any two quorums share more than a third of the members |
| Quorum.QuorumThreshold | packages/x402-facilitator/src/verify.ts:419-421 | the threshold is the least number above two thirds |
| Quorum.HonestQuorum | packages/x402-facilitator/src/verify.ts:419-421 | the honest members alone can always reach the threshold |
| Quorum.ThresholdIsLeast | packages/x402-facilitator/src/verify.ts:419-421 | signing sets one below the threshold that together cover the committee share at most a third of it, for every committee |
| Quorum.LowerQuorumsExist | packages/x402-facilitator/src/verify.ts:419-421 | every committee of two or more has such sets, so no lower threshold is safe |
| Quorum.ResolveTrustedCommittee | packages/x402-facilitator/src/verify.ts:446-470 | the loop resolves to the distinct parsed keys and their threshold, or names the first bad key |
| Quorum.VerifyCertificate | packages/x402-facilitator/src/verify.ts:677-744 | accepts exactly enough valid signatures of distinct, trusted signers over a validly signed transaction; each other verdict is given exactly in its case, and a rejection names the first fault |
| Levenshtein.Levenshtein | app/cli/src/main.ts:198-211 | the table's last cell is the edit distance |
| Levenshtein.NoShorterPath | app/cli/src/main.ts:197-211 | no sequence of single insertions, deletions and substitutions is shorter than the distance |
| Levenshtein.ShortestPath | app/cli/src/main.ts:197-211 | a sequence of that length exists |
| Levenshtein.Triangle | app/cli/src/main.ts:197-211 | the distance satisfies the triangle inequality |
| Levenshtein.DistanceZero | app/cli/src/main.ts:197-211 | the distance is zero exactly for equal strings |
| Levenshtein.DistanceSymmetric | app/cli/src/main.ts:197-211 | the distance is symmetric |
| Levenshtein.DiagonalOnEqual | app/cli/src/main.ts:206-209 | on equal characters the diagonal cell is optimal outright |
| Levenshtein.Suggest | app/cli/src/main.ts:213-224 | for the token in lower case, the first candidate of least distance, if that is at most two |
| Amounts.ParseFormat | app/cli/src/services/amount.ts:4-39 | parsing a printed positive amount gives it back, for any number of decimals |
| Amounts.FormatInjective | app/cli/src/services/amount.ts:4-12 | no two amounts print the same |
| Amounts.ParseIsWorth | app/cli/src/services/amount.ts:19-39 | the parser takes exactly the right shapes with few enough places and a positive worth, and returns that worth |
| Amounts.NormalFormRoundTrip | app/cli/src/commands/request.ts:64-89 | parsing a normalised request succeeds and printing the amount gives the same text |
| Amounts.NormalizingKeepsWorth | app/cli/src/commands/request.ts:64-89 | normalising first does not change the amount parsed |
| Amounts.AcceptanceDiffers | app/cli/src/commands/request.ts:57-89 | the normaliser and the parser differ in acceptance exactly on a final point and on trailing zeros beyond the places |
| Amounts.AcceptanceDiffersOn | app/cli/src/commands/request.ts:57-89 | "1." and, without places, "1.0" are taken by one of the two only |
| Amounts.MultisigAgrees | app/cli/src/commands/send.ts:224-234 | the multisig arithmetic equals the parser on every positive amount it takes |
| Amounts.MultisigIsWorth | app/cli/src/commands/send.ts:361-366 | the multisig arithmetic computes exactly what the text is worth |
| Amounts.FeeAgrees | packages/fastid-sdk/src/claim-fee.ts:148-159 | the fee printer prints a number as the amount printer does |
| Decimals.ToFromDecimal | app/cli/src/services/amount.ts:4-12 | canonical decimal texts and numbers determine each other |

## Left out

- Network calls, HTTP, Effect and viem plumbing, retry timers: answers and failures are non-deterministic choices.
- Ed25519, HPKE, SHA-256 and transaction hashing: parameters or injective stand-ins; digest collisions are excluded only for the two keys compared.
- The certificate's committee part in the Sign SDK: no client check looks at it, so the model carries it along unread.
- Journal timestamps, diagnostic texts and attempt counters, except the retry marker, which decides a branch.
- File permissions, symlink checks and the lock's polling: a waiting call may throw at any time. Of directory syncs only that they may fail is modelled.
- `registerReceipt`'s early proxy check before verification (recovery.ts:207-215): it only reads and throws; the same check under the lock is modelled.
- Tampering with files by other programs: the lock and the withdrawal store are changed only by the calls modelled.
- Fee quotes and policy checks in `signDigest` beyond the schedule fingerprint, which decides whether an attempt resumes.
- Withdrawal.Coordinator.Run: assertions that a tampered journal file would fail are not modelled, because the store holds only what runs wrote.
- Withdrawal account information, preflight reads and simulation are choices that may fail; they guard liveness, not the order of effects.
- IncomingPayments.ScanIncoming: a scan reads one snapshot of the feed, whose end the explorer reports truthfully; the explorer itself is not part of this model.
- SignRuns.JournalAlwaysLoads: the journal's checks of texts, URLs, number formats and file sizes are not modelled, because the model's records carry typed values instead of parsed text.
- The poll deadline and sleeping are left to the caller of `Watcher.Wait`, which may give up after any poll.
- Error texts and the order in which `validateClaim` reports several faults: refusals are one value.
- Lower-casing of characters outside ASCII: none has a hex digit or `x` as its lower case, so validation cannot tell.
- Properties holding `undefined` and object keys inherited from `Object.prototype`, in JSON objects and in `toBcsFormat`; and, except in `CanonicalObjects.PrintersAgree`, that objects enumerate array-index keys first.
- The legacy ABI payloads behind `intentsToV1` and `intentClaimV1ToAbi`: viem's encoder is not part of this model, and preparation starts from v1 intents.
- Numbers in the wire conversion are the finite ones as they print; negative zero, NaN and infinities are not values of the model.
- String fields of the signed messages are taken as their UTF-8 bytes, and seal hex as its bytes.
- Canonicalisation of handles, hosts and OAuth values and proof polling; of the legacy commit request of `XSession` only that it passes or fails before the claim.
- The facilitator's checks of recipient, token and amount and its optional cross-check with a certificate from the network.
- The floating-point path of `fast send` and `parsePrice`.
- Command-line parsing, prompts, output and storage plumbing.
