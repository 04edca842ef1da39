/**
 Paid Fast ID claims: which errors a claim run can end with, and the memoisation that lets overlapping calls share one
 attempt. JavaScript runs each stretch between two awaits without interruption, so every method below is one such
 stretch, and any sequence of method calls is an interleaving of overlapping calls.
*/
module PaidAttempts {
  import opened Options

  // --- one claim run, from its first read to its registration ---

  /** Error classes, as far as callers tell them apart. All subclasses of PreSubmitError are `PreSubmit`. */
  datatype Error =
    | PreSubmit
    | NonceConflict
    | InsufficientFunds
    | IndeterminateProviderSubmission
    | NotSettled
    | SettlementMismatch
    | WrongNetwork
    | IndeterminateSubmission
    | RegistrationPending
    | RegistrationTerminal
    | Foreign

  predicate ProvesNoPaidAttempt(e: Error) {
    e == PreSubmit || e == NonceConflict || e == InsufficientFunds
  }

  datatype Result<T> = Ok(value: T) | Err(error: Error)

  /** What the provider's submitTransaction did: it threw, or returned something. */
  datatype ProviderAnswer =
    | ThrewNonceConflict
    | ThrewInsufficientFunding
    | ThrewOther
    | ReturnedNothing
    | ReturnedOther
    | Unreadable
    | Certificate(txDerivable: bool, sameTx: bool, hasNonce: bool, sameNetwork: bool)

  /** The status text of a registration answer, as far as it is told apart. */
  datatype StatusText = AppliedText | VerifiedExternalLink | RejectedText | OtherText

  datatype Registration = Unreachable | BadBody | Status(code: nat, text: StatusText)

  datatype Op = ToClaim | ToRevoke

  /** How a step that may throw turned out: passed, failed with a PreSubmitError, or failed with any other error. */
  datatype Gate = Open | Closed | Broken

  /** How each stage of one claim run turns out; `gate` is everything before the fee lookup. */
  datatype ClaimRun = ClaimRun(op: Op, gate: Gate, fee: Gate, encodes: bool, nonceRead: bool, builds: bool, signs: bool,
                               verifies: bool, signatureDecodes: bool, txIdDerivable: bool, answer: ProviderAnswer,
                               registration: Registration)

  /** How a run ended, and the two facts that decide whether it can have paid. */
  datatype Ending = Ending(submitted: bool, refused: bool, result: Result<()>)

  /** A provider error that says the transaction was not accepted. */
  predicate DefinitiveRefusal(a: ProviderAnswer) {
    a == ThrewNonceConflict || a == ThrewInsufficientFunding
  }

  function AfterSubmit(a: ProviderAnswer): Result<()> {
    match a
    case ThrewNonceConflict => Err(NonceConflict)
    case ThrewInsufficientFunding => Err(InsufficientFunds)
    case ThrewOther => Err(IndeterminateProviderSubmission)
    case ReturnedNothing => Err(IndeterminateProviderSubmission)
    case ReturnedOther => Err(NotSettled)
    case Unreadable => Err(IndeterminateProviderSubmission)
    case Certificate(derivable, sameTx, hasNonce, sameNetwork) =>
      if !derivable then Err(IndeterminateProviderSubmission)
      else if !sameTx then Err(SettlementMismatch)
      else if !hasNonce then Err(IndeterminateProviderSubmission)
      else if !sameNetwork then Err(WrongNetwork)
      else Ok(())
  }

  function SubmitSignedClaim(r: ClaimRun): Ending {
    if !r.signatureDecodes then Ending(false, false, Err(Foreign))
    else if !r.txIdDerivable then Ending(false, false, Err(PreSubmit))
    else Ending(true, DefinitiveRefusal(r.answer), AfterSubmit(r.answer))
  }

  function Register(op: Op, g: Registration): Result<()> {
    match g
    case Unreachable => Err(RegistrationPending)
    case BadBody => Err(RegistrationPending)
    case Status(code, text) =>
      if code == 409 || code == 422 then Err(RegistrationTerminal)
      else if !(200 <= code < 300) then Err(RegistrationPending)
      else if text == RejectedText then Err(RegistrationTerminal)
      else if text != AppliedText && !(op == ToClaim && text == VerifiedExternalLink) then Err(RegistrationPending)
      else Ok(())
  }

  function Failed(g: Gate): Ending {
    Ending(false, false, Err(if g == Broken then Foreign else PreSubmit))
  }

  /** A claim run, from its gate to its registration. */
  function RunClaim(r: ClaimRun): Ending {
    if r.gate != Open then Failed(r.gate)
    else if r.fee != Open then Failed(r.fee)
    else if !r.encodes || !r.nonceRead || !r.builds || !r.signs || !r.verifies then Failed(Closed)
    else
      var sent := SubmitSignedClaim(r);
      match sent.result
      case Ok(_) => sent.(result := Register(r.op, r.registration))
      case Err(e) => sent.(result := Err(if ProvesNoPaidAttempt(e) then e else IndeterminateSubmission))
  }

  /** What an attempt does: claim at once, claim after the legacy commit, or find the post settled already. */
  datatype Run = Claim(claim: ClaimRun) | CommitThenClaim(commit: Gate, claim: ClaimRun) | NothingToClaim

  function EndingOf(r: Run): Ending {
    match r
    case Claim(claim) => RunClaim(claim)
    case CommitThenClaim(commit, claim) => if commit != Open then Failed(commit) else RunClaim(claim)
    case NothingToClaim => Ending(false, false, Ok(()))
  }

  predicate CanHavePaid(e: Ending) {
    e.submitted && !e.refused
  }

  predicate Cleared(e: Ending) {
    e.result.Err? && ProvesNoPaidAttempt(e.result.error)
  }

  /** An error that permits another attempt is raised only before submission or on a definitive refusal, every refusal
      raises one, and a run that has settled on Fast, registered or not, never does. */
  lemma {:induction false} ClearedMeansUnpaid(r: Run)
    ensures var e := EndingOf(r);
      && (Cleared(e) ==> !CanHavePaid(e))
      && (e.submitted && e.refused ==> Cleared(e))
      && ((e.result.Ok? && !r.NothingToClaim?) || e.result == Err(RegistrationPending) ==> CanHavePaid(e))
  {
  }

  /** Every step before the provider is called went through. */
  predicate Submits(r: ClaimRun) {
    && r.gate == Open && r.fee == Open && r.encodes && r.nonceRead && r.builds && r.signs && r.verifies
    && r.signatureDecodes && r.txIdDerivable
  }

  /** The provider answered with a certificate of the submitted transaction, with a nonce, on the expected network. */
  predicate SettlesOnFast(r: ClaimRun) {
    && Submits(r)
    && r.answer.Certificate? && r.answer.txDerivable && r.answer.sameTx && r.answer.hasNonce && r.answer.sameNetwork
  }

  predicate Registered(op: Op, g: Registration) {
    g.Status? && 200 <= g.code < 300 && (g.text == AppliedText || (op == ToClaim && g.text == VerifiedExternalLink))
  }

  predicate RefusedForGood(g: Registration) {
    g.Status? && (g.code == 409 || g.code == 422 || (200 <= g.code < 300 && g.text == RejectedText))
  }

  /** How a claim run ends, exactly: registered, refused or pending after settlement on Fast; refused by the provider;
      indefinite after the provider was called, or if the signature could not be packed; else failed before that. */
  lemma {:induction false} RunEndsExactly(r: ClaimRun)
    ensures var e := RunClaim(r);
      && (e.submitted <==> Submits(r))
      && (e.refused <==> Submits(r) && (r.answer == ThrewNonceConflict || r.answer == ThrewInsufficientFunding))
      && (e.result == Ok(()) <==> SettlesOnFast(r) && Registered(r.op, r.registration))
      && (e.result == Err(RegistrationTerminal) <==> SettlesOnFast(r) && RefusedForGood(r.registration))
      && (e.result == Err(RegistrationPending) <==>
            SettlesOnFast(r) && !Registered(r.op, r.registration) && !RefusedForGood(r.registration))
      && (e.result == Err(NonceConflict) <==> Submits(r) && r.answer == ThrewNonceConflict)
      && (e.result == Err(InsufficientFunds) <==> Submits(r) && r.answer == ThrewInsufficientFunding)
      && (e.result == Err(IndeterminateSubmission) <==>
            || (Submits(r) && !e.refused && !SettlesOnFast(r))
            || (Submits(r.(signatureDecodes := true, txIdDerivable := true)) && !r.signatureDecodes))
      && (e.result == Err(Foreign) <==> r.gate == Broken || (r.gate == Open && r.fee == Broken))
      && (e.result == Err(PreSubmit) <==>
            && !(r.gate == Broken || (r.gate == Open && r.fee == Broken))
            && (!Submits(r.(signatureDecodes := true, txIdDerivable := true))
                || (r.signatureDecodes && !r.txIdDerivable)))
  {
  }

  /** An attempt ends with a failed commit, or as its claim run does, or with nothing left to claim; and another attempt
      may follow exactly if the provider was not called or definitely refused, and no unexpected error was thrown. */
  lemma {:induction false} AttemptEndsExactly(r: Run)
    ensures var e := EndingOf(r);
      && (r.CommitThenClaim? && r.commit == Closed ==> !e.submitted && e.result == Err(PreSubmit))
      && (r.CommitThenClaim? && r.commit == Broken ==> !e.submitted && e.result == Err(Foreign))
      && (r.CommitThenClaim? && r.commit == Open ==> e == RunClaim(r.claim))
      && (r.Claim? ==> e == RunClaim(r.claim))
      && (r.NothingToClaim? ==> !e.submitted && e.result == Ok(()))
      && (Cleared(e) <==> e.result.Err? && !CanHavePaid(e) && e.result != Err(Foreign)
                          && e.result != Err(IndeterminateSubmission))
  {
    if r.Claim? || r.CommitThenClaim? { RunEndsExactly(r.claim); }
  }

  // --- attempts that share memo slots ---

  /** One started run: `None` while its promise is unsettled. `epoch` counts the explicit forgets of its key so far. */
  datatype Attempt<K> = Attempt(key: K, epoch: nat, ending: Option<Ending>)

  type AttemptId = nat

  /** The memo of each key and, for the proofs, all attempts ever started. */
  datatype Memo<!K> = Memo(slots: map<K, AttemptId>, attempts: seq<Attempt<K>>, epochs: map<K, nat>) {
    function Epoch(k: K): nat {
      if k in epochs then epochs[k] else 0
    }

    predicate Running(id: AttemptId) {
      id < |attempts| && attempts[id].ending == None
    }

    predicate Ended(id: AttemptId) {
      id < |attempts| && attempts[id].ending.Some?
    }
  }

  /** What can happen: a call arrives, a run ends, the creator of a failed run handles its error, a key is forgotten. */
  datatype Event<K> =
    | Settles(key: K)
    | Ends(id: AttemptId, run: Run)
    | Handles(id: AttemptId)
    | Forgets(key: K)

  function Started<K>(m: Memo<K>, key: K): Memo<K> {
    Memo(m.slots[key := |m.attempts|], m.attempts + [Attempt(key, m.Epoch(key), None)], m.epochs)
  }

  /** A call joins the attempt in its slot or starts one; a failure empties the slot only if it proves nothing was paid
      and the slot still holds that attempt. Events that cannot happen change nothing. */
  function Step<K>(m: Memo<K>, e: Event<K>): Memo<K> {
    match e
    case Settles(key) => if key in m.slots then m else Started(m, key)
    case Ends(id, run) =>
      if m.Running(id) then m.(attempts := m.attempts[id := m.attempts[id].(ending := Some(EndingOf(run)))]) else m
    case Handles(id) =>
      if m.Ended(id) && ProvenUnpaid(m.attempts[id]) && m.attempts[id].key in m.slots
         && m.slots[m.attempts[id].key] == id
      then m.(slots := m.slots - {m.attempts[id].key}) else m
    case Forgets(key) => m.(slots := m.slots - {key}, epochs := m.epochs[key := m.Epoch(key) + 1])
  }

  /** The state after any sequence of events. */
  function After<K>(log: seq<Event<K>>): Memo<K> {
    if log == [] then Memo(map[], [], map[]) else Step(After(log[..|log| - 1]), log[|log| - 1])
  }

  predicate MayHavePaid<K>(a: Attempt<K>) {
    a.ending == None || CanHavePaid(a.ending.value)
  }

  predicate ProvenUnpaid<K>(a: Attempt<K>) {
    a.ending.Some? && Cleared(a.ending.value)
  }

  /** The inductive invariant: all attempts of a key and epoch but the one in the slot have failed with an error that
      proves nothing was paid, and such errors tell the truth. */
  ghost predicate Sound<K(!new)>(m: Memo<K>) {
    && (forall i :: 0 <= i < |m.attempts| && ProvenUnpaid(m.attempts[i]) ==> !CanHavePaid(m.attempts[i].ending.value))
    && (forall i :: 0 <= i < |m.attempts| ==> m.attempts[i].epoch <= m.Epoch(m.attempts[i].key))
    && (forall k :: k in m.slots ==> m.slots[k] < |m.attempts| && m.attempts[m.slots[k]].key == k
                                     && m.attempts[m.slots[k]].epoch == m.Epoch(k))
    && (forall i, j :: 0 <= i < j < |m.attempts| && SameMemo(m.attempts[i], m.attempts[j])
            ==> ProvenUnpaid(m.attempts[i]))
    && (forall i :: 0 <= i < |m.attempts| && m.attempts[i].epoch == m.Epoch(m.attempts[i].key)
                    && !ProvenUnpaid(m.attempts[i])
                    ==> m.attempts[i].key in m.slots && m.slots[m.attempts[i].key] == i)
  }

  predicate SameMemo<K(==)>(a: Attempt<K>, b: Attempt<K>) {
    a.key == b.key && a.epoch == b.epoch
  }

  lemma {:induction false} StartKeeps<K(!new)>(m: Memo<K>, key: K)
    requires Sound(m) && key !in m.slots
    ensures Sound(Started(m, key))
  {
    var m' := Started(m, key);
    assert forall i :: 0 <= i < |m.attempts| ==> m'.attempts[i] == m.attempts[i];
    forall i, j | 0 <= i < j < |m'.attempts| && SameMemo(m'.attempts[i], m'.attempts[j])
      ensures ProvenUnpaid(m'.attempts[i])
    {
      assert m'.attempts[i] == m.attempts[i];
      if j < |m.attempts| { assert SameMemo(m.attempts[i], m.attempts[j]); }
    }
  }

  /** An attempt's ending keeps the discipline: errors that permit another attempt prove the run unpaid. */
  lemma {:induction false} EndingKeeps<K(!new)>(m: Memo<K>, id: AttemptId, run: Run)
    requires Sound(m) && m.Running(id)
    ensures Sound(Step(m, Ends(id, run)))
  {
    ClearedMeansUnpaid(run);
    var m' := Step(m, Ends(id, run));
    forall i, j | 0 <= i < j < |m'.attempts| && SameMemo(m'.attempts[i], m'.attempts[j])
      ensures ProvenUnpaid(m'.attempts[i])
    {
      assert SameMemo(m.attempts[i], m.attempts[j]) && ProvenUnpaid(m.attempts[i]);
    }
    forall i | 0 <= i < |m'.attempts| && m'.attempts[i].epoch == m'.Epoch(m'.attempts[i].key)
           && !ProvenUnpaid(m'.attempts[i])
      ensures m'.attempts[i].key in m'.slots && m'.slots[m'.attempts[i].key] == i
    {
      assert !ProvenUnpaid(m.attempts[i]);
    }
  }

  /** Emptying a slot is safe once its attempt has failed provably unpaid. */
  lemma {:induction false} ClearingKeeps<K(!new)>(m: Memo<K>, id: AttemptId)
    requires Sound(m)
    ensures Sound(Step(m, Handles(id)))
  {
  }

  /** A new epoch of a key begins without attempts. */
  lemma {:induction false} ForgettingKeeps<K(!new)>(m: Memo<K>, key: K)
    requires Sound(m)
    ensures Sound(Step(m, Forgets(key)))
  {
    var m' := Step(m, Forgets(key));
    assert forall k :: m'.Epoch(k) == if k == key then m.Epoch(k) + 1 else m.Epoch(k);
  }

  lemma {:induction false} StepKeeps<K(!new)>(m: Memo<K>, e: Event<K>)
    requires Sound(m)
    ensures Sound(Step(m, e))
  {
    match e
    case Settles(key) => if key !in m.slots { StartKeeps(m, key); }
    case Ends(id, run) => if m.Running(id) { EndingKeeps(m, id, run); }
    case Handles(id) => ClearingKeeps(m, id);
    case Forgets(key) => ForgettingKeeps(m, key);
  }

  lemma {:induction false} EveryRunIsSound<K(!new)>(log: seq<Event<K>>)
    ensures Sound(After(log))
  {
    if log != [] {
      EveryRunIsSound(log[..|log| - 1]);
      StepKeeps(After(log[..|log| - 1]), log[|log| - 1]);
    }
  }

  /** Whatever happens in whatever order: of all attempts for one key between two forgets, at most one can have paid. */
  lemma {:induction false} AtMostOnePaid<K(!new)>(log: seq<Event<K>>, i: AttemptId, j: AttemptId)
    requires var attempts := After(log).attempts;
      i < |attempts| && j < |attempts| && SameMemo(attempts[i], attempts[j]) && MayHavePaid(attempts[i])
        && MayHavePaid(attempts[j])
    ensures i == j
  {
    EveryRunIsSound(log);
  }

  /** A call finds its slot empty only when every earlier attempt since the last forget has failed provably unpaid. */
  lemma {:induction false} StartsOnlyAfterProof<K(!new)>(log: seq<Event<K>>, key: K, i: AttemptId)
    requires var m := After(log); key !in m.slots && i < |m.attempts| && m.attempts[i].key == key
                                  && m.attempts[i].epoch == m.Epoch(key)
    ensures ProvenUnpaid(After(log).attempts[i]) && !CanHavePaid(After(log).attempts[i].ending.value)
  {
    EveryRunIsSound(log);
  }

  /** Attempts are never dropped, moved or reopened. */
  lemma {:induction false} EndingsAreFinal<K>(log: seq<Event<K>>, n: nat, i: AttemptId)
    requires n <= |log| && i < |After(log[..n]).attempts|
    ensures var before, after := After(log[..n]).attempts, After(log).attempts;
      i < |after| && SameMemo(after[i], before[i]) && (before[i].ending.Some? ==> after[i] == before[i])
  {
    if n < |log| {
      assert log[..|log| - 1][..n] == log[..n];
      EndingsAreFinal(log[..|log| - 1], n, i);
    } else {
      assert log[..n] == log;
    }
  }

  lemma {:induction false} AfterOneMore<K>(log: seq<Event<K>>, e: Event<K>)
    ensures After(log + [e]) == Step(After(log), e)
  {
    assert (log + [e])[..|log|] == log;
  }

  /** OAuth settlements, one memo slot per provider and value. */
  class OAuthSettlements {
    var slots: map<string, AttemptId>
    var started: nat
    /** Everything that has happened so far. */
    ghost var log: seq<Event<string>>

    ghost predicate Valid()
      reads this
    {
      slots == After(log).slots && started == |After(log).attempts|
    }

    constructor ()
      ensures Valid() && log == []
    {
      slots, started, log := map[], 0, [];
    }

    /** settleOAuthClaim up to its first await: join the attempt in the slot, or start one. */
    method Settle(key: string) returns (id: AttemptId, created: bool)
      requires Valid()
      modifies this
      ensures Valid() && log == old(log) + [Settles(key)]
      ensures slots == old(slots)[key := id] && created == (key !in old(slots))
      ensures created ==> id == old(started)
      ensures created ==> forall i :: 0 <= i < id && SameMemo(After(log).attempts[i], After(log).attempts[id])
                                      ==> ProvenUnpaid(After(log).attempts[i])
    {
      AfterOneMore(log, Settles(key));
      if key in slots {
        id, created := slots[key], false;
      } else {
        EveryRunIsSound(log + [Settles(key)]);
        id, created := started, true;
        started := started + 1;
        slots := slots[key := id];
      }
      log := log + [Settles(key)];
    }

    /** An attempt's promise settles. */
    method Finish(id: AttemptId, run: Run)
      requires Valid() && After(log).Running(id)
      modifies this`log
      ensures Valid() && log == old(log) + [Ends(id, run)]
    {
      AfterOneMore(log, Ends(id, run));
      log := log + [Ends(id, run)];
    }

    /** The creator of a failed attempt handles its error, possibly much later: only a provably unpaid failure empties
        the slot, and only while the slot still holds this very attempt. */
    method HandleFailure(id: AttemptId, key: string, error: Error)
      requires Valid() && After(log).Ended(id) && After(log).attempts[id].key == key
      requires After(log).attempts[id].ending.value.result == Err(error)
      modifies this
      ensures Valid() && log == old(log) + [Handles(id)] && started == old(started)
      ensures slots == if (error == PreSubmit || error == NonceConflict || error == InsufficientFunds)
                          && key in old(slots) && old(slots)[key] == id
                       then old(slots) - {key} else old(slots)
    {
      AfterOneMore(log, Handles(id));
      if ProvesNoPaidAttempt(error) && key in slots && slots[key] == id {
        slots := slots - {key};
      }
      log := log + [Handles(id)];
    }

    /** forgetOAuthSettlement: the caller takes responsibility, and a new epoch begins. */
    method Forget(key: string)
      requires Valid()
      modifies this
      ensures Valid() && log == old(log) + [Forgets(key)] && slots == old(slots) - {key} && started == old(started)
    {
      AfterOneMore(log, Forgets(key));
      slots := slots - {key};
      log := log + [Forgets(key)];
    }
  }

  // --- memos with a single slot ---

  /** What a memo variable holds. */
  function TheSlot(m: Memo<()>): Option<AttemptId> {
    if () in m.slots then Some(m.slots[()]) else None
  }

  /** Nothing is ever forgotten here, so all attempts share one epoch. */
  ghost predicate NeverForgets(log: seq<Event<()>>) {
    forall i :: 0 <= i < |log| ==> !log[i].Forgets?
  }

  lemma {:induction false} OneEpoch(log: seq<Event<()>>)
    requires NeverForgets(log)
    ensures After(log).epochs == map[]
  {
    if log != [] { OneEpoch(log[..|log| - 1]); }
  }

  /** With one key and no forgetting, at most one attempt ever started can have paid. */
  lemma {:induction false} AtMostOneEverPaid(log: seq<Event<()>>, i: AttemptId, j: AttemptId)
    requires NeverForgets(log)
    requires i < |After(log).attempts| && j < |After(log).attempts|
    requires MayHavePaid(After(log).attempts[i]) && MayHavePaid(After(log).attempts[j])
    ensures i == j
  {
    OneEpoch(log);
    EveryRunIsSound(log);
    var a, b := After(log).attempts[i], After(log).attempts[j];
    assert a.key == () && b.key == ();
    AtMostOnePaid(log, i, j);
  }

  /** A single-slot memo starts an attempt only after all earlier ones have failed provably unpaid. */
  lemma {:induction false} EmptyMeansProven(log: seq<Event<()>>, i: AttemptId)
    requires NeverForgets(log) && TheSlot(After(log)) == None && i < |After(log).attempts|
    ensures ProvenUnpaid(After(log).attempts[i])
  {
    OneEpoch(log);
    EveryRunIsSound(log);
    var a := After(log).attempts[i];
    assert a.key == () && a.epoch == 0;
  }

  // --- one X session ---

  datatype Tag = Committed | Applied

  datatype Verification = Verified(settlement: Option<Tag>) | Unverified

  /** How the started run goes on, decided before its first await. */
  datatype Route = Nothing | ClaimOnly | CommitFirst

  datatype XSettle = AlreadySettled | NotAuthorized | Joins(id: AttemptId) | Starts(id: AttemptId, route: Route)

  class XSession {
    const intentProtocol: bool
    var verification: Option<Verification>
    var settlement: Option<AttemptId>
    var started: nat
    ghost var log: seq<Event<()>>

    ghost predicate Valid()
      reads this
    {
      settlement == TheSlot(After(log)) && started == |After(log).attempts| && NeverForgets(log)
    }

    constructor (intentProtocol: bool)
      ensures Valid() && log == [] && verification == None && this.intentProtocol == intentProtocol
    {
      this.intentProtocol := intentProtocol;
      verification, settlement, started, log := None, None, 0, [];
    }

    /** What a run started now would do, by its own reading of the verification. */
    function SettleOnce(): Route
      reads this
    {
      match verification
      case Some(Verified(Some(Applied))) => Nothing
      case Some(Verified(Some(Committed))) => ClaimOnly
      case _ => CommitFirst
    }

    predicate IsApplied()
      reads this
    {
      SettleOnce() == Nothing
    }

    /** A verification result is recorded unless an applied settlement is already known. */
    method RecordVerification(v: Verification)
      requires Valid()
      modifies this`verification
      ensures Valid()
      ensures verification == if old(IsApplied()) then old(verification) else Some(v)
    {
      if !IsApplied() { verification := Some(v); }
    }

    /** settle up to its first await. A run starts only on a verified post whose tag the protocol allows, and only when
        every earlier run failed provably unpaid; it always has something to claim. */
    method Settle() returns (r: XSettle)
      requires Valid()
      modifies this
      ensures Valid() && verification == old(verification)
      ensures r == AlreadySettled <==> IsApplied()
      ensures r.Joins? <==> !IsApplied() && old(settlement).Some?
      ensures r.Joins? ==> old(settlement) == Some(r.id)
      ensures r.Starts? <==> !IsApplied() && old(settlement) == None && verification.Some?
                             && verification.value.Verified?
                             && (intentProtocol ==> verification.value.settlement.Some?)
      ensures r.Starts? ==> log == old(log) + [Settles(())] && settlement == Some(r.id) && r.id == old(started)
                            && r.route == (if verification.value.settlement == None then CommitFirst else ClaimOnly)
                            && forall i :: 0 <= i < r.id ==> ProvenUnpaid(After(old(log)).attempts[i])
      ensures !r.Starts? ==> unchanged(this)
    {
      if IsApplied() { return AlreadySettled; }
      if settlement.Some? { return Joins(settlement.value); }
      if verification == None || verification.value == Unverified { return NotAuthorized; }
      if verification.value.settlement == None && intentProtocol { return NotAuthorized; }
      forall i | 0 <= i < started
        ensures ProvenUnpaid(After(log).attempts[i])
      {
        EmptyMeansProven(log, i);
      }
      AfterOneMore(log, Settles(()));
      r := Starts(started, SettleOnce());
      settlement := Some(started);
      started := started + 1;
      log := log + [Settles(())];
    }

    /** A run ends. */
    method Finish(id: AttemptId, run: Run)
      requires Valid() && After(log).Running(id)
      modifies this`log
      ensures Valid() && log == old(log) + [Ends(id, run)]
    {
      AfterOneMore(log, Ends(id, run));
      log := log + [Ends(id, run)];
    }

    /** The handler of a failed run: only a provably unpaid failure makes room for another one. */
    method HandleFailure(id: AttemptId, error: Error)
      requires Valid() && After(log).Ended(id) && After(log).attempts[id].ending.value.result == Err(error)
      modifies this`settlement, this`log
      ensures Valid() && log == old(log) + [Handles(id)]
      ensures settlement == if (error == PreSubmit || error == NonceConflict || error == InsufficientFunds)
                               && old(settlement) == Some(id) then None else old(settlement)
    {
      AfterOneMore(log, Handles(id));
      assert After(log).attempts[id].key == ();
      if ProvesNoPaidAttempt(error) && settlement == Some(id) {
        settlement := None;
      }
      log := log + [Handles(id)];
    }
  }

  // --- one website claim object ---

  datatype WebsiteCall = AlreadyVerified | Refused | Waiting(id: AttemptId)

  /** A run that has ended past the point of payment. */
  predicate Paid<K>(a: Attempt<K>) {
    a.ending.Some? && CanHavePaid(a.ending.value)
  }

  ghost predicate HasPaid<K>(m: Memo<K>) {
    exists i :: 0 <= i < |m.attempts| && Paid(m.attempts[i])
  }

  lemma {:induction false} PaidStays<K>(m: Memo<K>, e: Event<K>)
    requires HasPaid(m)
    ensures HasPaid(Step(m, e))
  {
    var i :| 0 <= i < |m.attempts| && Paid(m.attempts[i]);
    assert Paid(Step(m, e).attempts[i]);
  }

  class WebsiteClaim {
    var settlement: Option<AttemptId>
    var verified: bool
    var started: nat
    ghost var log: seq<Event<()>>

    ghost predicate Valid()
      reads this
    {
      && settlement == TheSlot(After(log)) && started == |After(log).attempts| && NeverForgets(log)
      && (verified ==> HasPaid(After(log)))
    }

    constructor ()
      ensures Valid() && log == [] && !verified
    {
      settlement, verified, started, log := None, false, 0, [];
    }

    /** verifyAndSettle up to its first await. Waiting options are checked only by the call that would start a run. */
    method VerifyAndSettle(optionsRead: bool, optionsValid: bool) returns (r: WebsiteCall)
      requires Valid()
      modifies this
      ensures Valid() && verified == old(verified)
      ensures r == AlreadyVerified <==> verified
      ensures r == Refused <==> !verified && (!optionsRead || (old(settlement) == None && !optionsValid))
      ensures r.Waiting? ==> settlement == Some(r.id)
      ensures r.Waiting? && old(settlement) == None ==>
                log == old(log) + [Settles(())] && r.id == old(started)
                && forall i :: 0 <= i < r.id ==> ProvenUnpaid(After(old(log)).attempts[i])
      ensures !r.Waiting? || old(settlement).Some? ==> unchanged(this)
    {
      if verified { return AlreadyVerified; }
      if !optionsRead { return Refused; }
      if settlement == None {
        if !optionsValid { return Refused; }
        forall i | 0 <= i < started
          ensures ProvenUnpaid(After(log).attempts[i])
        {
          EmptyMeansProven(log, i);
        }
        AfterOneMore(log, Settles(()));
        settlement := Some(started);
        started := started + 1;
        log := log + [Settles(())];
      }
      r := Waiting(settlement.value);
    }

    /** A run ends. A settled claim whose registration is pending is not a failure here: it is waited for instead. */
    method Finish(id: AttemptId, run: Run)
      requires Valid() && After(log).Running(id)
      modifies this`log
      ensures Valid() && log == old(log) + [Ends(id, run)]
    {
      AfterOneMore(log, Ends(id, run));
      if verified { PaidStays(After(log), Ends(id, run)); }
      log := log + [Ends(id, run)];
    }

    /** The handler of a failed run: only a provably unpaid failure makes room for another one. */
    method HandleFailure(id: AttemptId, error: Error)
      requires Valid() && After(log).Ended(id) && After(log).attempts[id].ending.value.result == Err(error)
      modifies this`settlement, this`log
      ensures Valid() && log == old(log) + [Handles(id)]
      ensures settlement == if (error == PreSubmit || error == NonceConflict || error == InsufficientFunds)
                               && old(settlement) == Some(id) then None else old(settlement)
    {
      AfterOneMore(log, Handles(id));
      if verified { PaidStays(After(log), Handles(id)); }
      assert After(log).attempts[id].key == ();
      if ProvesNoPaidAttempt(error) && settlement == Some(id) {
        settlement := None;
      }
      log := log + [Handles(id)];
    }

    /** The wait of some call sees the link verified with the settled transaction, and caches it. */
    method Observe(id: AttemptId, run: ClaimRun)
      requires Valid() && id < |After(log).attempts| && After(log).attempts[id].ending == Some(RunClaim(run))
      requires RunClaim(run).result.Ok? || RunClaim(run).result == Err(RegistrationPending)
      modifies this`verified
      ensures Valid() && verified
    {
      ClearedMeansUnpaid(Claim(run));
      assert Paid(After(log).attempts[id]);
      verified := true;
    }
  }
}
