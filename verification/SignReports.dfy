/** What every finished call of a run has reported, and why; and which verdict a registration record earned. */
module SignReports {
  import opened Options
  import opened SignModel
  import opened SignProtocol
  import opened SignSafety
  import opened SignRuns
  import opened SignOutcomes

  ghost predicate StoriesTrue(s: System)
    requires s.stories.Keys == s.procs.Keys
  {
    forall p :: p in s.procs ==> StoryTrue(s, p)
  }

  ghost predicate StoryTrue(s: System, p: Pid)
    requires p in s.procs && p in s.stories
  {
    var proc, t := s.procs[p], s.stories[p];
    Knows(proc, t) && Anchored(proc, t, s.store) && SentRight(t) && (t.sent.Some? ==> t.sent.value in s.log)
  }

  // --- the stories stay true ---

  /** A receipt held as settled stays held. */
  lemma {:induction false} SettledStays(s: System, t: System, r: Receipt)
    requires SystemInv(s) && Next(s, t) && HoldsSettled(s.store, r)
    ensures HoldsSettled(t.store, r)
  {
    SettledStepsForward(s, t, Public(r.name));
  }

  lemma {:induction false} AfterAnchorStays(s: System, t: System, after: After)
    requires SystemInv(s) && Next(s, t) && AfterAnchored(after, s.store)
    ensures AfterAnchored(after, t.store)
  {
    match after
    case ThenRegister(r) => SettledStays(s, t, r);
    case Return(SettledAs(_, r, persisted)) => if persisted { SettledStays(s, t, r); }
    case _ =>
  }

  lemma {:induction false} AnchorStays(s: System, t: System, proc: Proc, story: Story)
    requires SystemInv(s) && Next(s, t) && Anchored(proc, story, s.store)
    ensures Anchored(proc, story, t.store)
  {
    hide SystemInv, Next, HoldsSettled, AfterAnchored;
    match proc
    case Record(r, _, _) => if HoldsSettled(s.store, r) { SettledStays(s, t, r); }
    case LeaveAccount(_, _, after) => AfterAnchorStays(s, t, after);
    case LeaveOperation(_, after) => AfterAnchorStays(s, t, after);
    case Finished(outcome) => AfterAnchorStays(s, t, Return(outcome));
    case _ =>
  }

  /** What signDigest finds settled and reports or registers, the journal holds. */
  lemma {:induction false} FoundIsAnchored(call: SignCall, existing: Snapshot, store: Store, log: seq<Attempt>)
    requires StoreInv(store, log) && Get(store, Public(call.name)) == Some(existing) && !existing.Prepared?
    ensures AfterAnchored(AfterFound(call.name, existing), store)
  {
    assert WellKept(Public(call.name), store[Public(call.name)]);
  }

  lemma {:induction false} SignAnchors(call: SignCall, at: SignPlace, u: Story, store: Store,
                                       log: seq<Attempt>, ev: Event)
    requires SignSound(call, at, store) && StoreInv(store, log)
    ensures Anchored(AdvanceSign(call, at, store, ev).proc, u, store)
  {
    var current := Get(store, Public(call.name));
    if current.Some? && !current.value.Prepared? { FoundIsAnchored(call, current.value, store, log); }
    hide StoreInv, OperationOk, HoldsSettled, AfterQuote, AfterOldReservation, AfterFound;
    if at.AtQuote? { QuoteAnchors(call, at, u, store, ev); }
    if at.AtOldReservation? { OldReservationAnchors(call, at, u, store, ev); }
  }

  lemma {:induction false} QuoteAnchors(call: SignCall, at: SignPlace, u: Story, store: Store, ev: Event)
    requires at.AtQuote?
    ensures Anchored(AdvanceSign(call, at, store, ev).proc, u, store)
  {
  }

  lemma {:induction false} OldReservationAnchors(call: SignCall, at: SignPlace, u: Story, store: Store, ev: Event)
    requires at.AtOldReservation?
    ensures Anchored(AdvanceSign(call, at, store, ev).proc, u, store)
  {
  }

  lemma {:induction false} WorkAnchors(w: Work, at: WorkPlace, t: Story, u: Story, store: Store, ev: Event)
    requires w.operation.input.operationId.Public? && WorkOk(w) && WorkKnows(w, at, t)
    ensures var m := AdvanceWork(w, at, store, ev); Anchored(m.proc, u, StoreAfter(store, m.action))
  {
    if at.AtSaveSettled? {
      assert Public(at.receipt.name) == Public(w.call.name);
    } else {
      hide WorkKnows, WorkOk, HoldsSettled, AfterReservation, DirectReceipt;
    }
  }

  lemma {:induction false} RecordAnchors(r: Receipt, retry: bool, at: RecordPlace, t: Story, u: Story,
                                         store: Store, ev: Event)
    requires Anchored(Record(r, retry, at), t, store) && RecordSound(r, retry, at, store) && u.entry == t.entry
    ensures var m := AdvanceRecord(r, retry, at, store, ev); Anchored(m.proc, u, StoreAfter(store, m.action))
  {
    hide CheckOutcome, RetryOutcome;
  }

  lemma {:induction false} RecoverAnchors(name: string, origin: string, at: RecoverPlace,
                                          t: Story, u: Story, store: Store,
                                          log: seq<Attempt>, ev: Event)
    requires Typed(Recover(name, origin, at)) && RecoverKnows(name, origin, at, t)
    requires RecoverSound(name, at, store) && StoreInv(store, log)
    ensures var m := AdvanceRecover(name, origin, at, store, ev); Anchored(m.proc, u, StoreAfter(store, m.action))
  {
    if Public(name) in store { assert WellKept(Public(name), store[Public(name)]); }
    hide StoreInv, RecoveredReceipt;
  }

  lemma {:induction false} ImportAnchors(r: Receipt, origin: string, at: ImportPlace, u: Story, store: Store, ev: Event)
    ensures var m := AdvanceImport(r, origin, at, store, ev); Anchored(m.proc, u, StoreAfter(store, m.action))
  {
    hide VerifiedReceipt;
  }

  lemma {:induction false} LeavingAnchors(proc: Proc, t: Story, u: Story, store: Store, ev: Event)
    requires proc.LeaveAccount? || proc.LeaveOperation? || proc.Finished?
    requires Typed(proc) && Anchored(proc, t, store)
    ensures var m := Advance(proc, store, ev); Anchored(m.proc, u, StoreAfter(store, m.action))
  {
    hide HoldsSettled;
  }

  lemma {:induction false} HearingKeepsEntry(t: Story, proc: Proc, store: Store, ev: Event)
    ensures Hear(t, proc, store, ev).entry == t.entry
  {
  }

  lemma {:induction false} AdvanceAnchors(proc: Proc, t: Story, store: Store, log: seq<Attempt>, ev: Event)
    requires Typed(proc) && Sound(proc, store, log) && StoreInv(store, log)
    requires Knows(proc, t) && Anchored(proc, t, store)
    ensures var m := Advance(proc, store, ev); Anchored(m.proc, Hear(t, proc, store, ev), StoreAfter(store, m.action))
  {
    var u := Hear(t, proc, store, ev);
    HearingKeepsEntry(t, proc, store, ev);
    hide Hear, Anchored, StoreInv, SignSound, RecordSound, RecoverSound, ImportSound;
    hide SignKnows, WorkKnows, RecordKnows, RecoverKnows, ImportKnows, Leaving;
    hide AdvanceSign, AdvanceWork, AdvanceRecord, AdvanceRecover, AdvanceImport, Exit1, Exit2;
    match proc
    case Sign(call, at) => SignAnchors(call, at, u, store, log, ev); QuietStore(call, at, store, ev);
    case Working(w, at) => WorkAnchors(w, at, t, u, store, ev);
    case Record(r, retry, at) => RecordAnchors(r, retry, at, t, u, store, ev);
    case Recover(name, origin, at) => RecoverAnchors(name, origin, at, t, u, store, log, ev);
    case Import(r, origin, at) => ImportAnchors(r, origin, at, u, store, ev);
    case _ => LeavingAnchors(proc, t, u, store, ev);
  }

  lemma {:induction false} QuietStore(call: SignCall, at: SignPlace, store: Store, ev: Event)
    ensures StoreAfter(store, AdvanceSign(call, at, store, ev).action) == store
  {
  }

  // --- every run ---

  lemma {:induction false} RunTells(s: System, t: System, p: Pid, ev: Event)
    requires SystemInv(s) && StoriesTrue(s) && Step(s, t, Run(p, ev)) && t.stories.Keys == t.procs.Keys
    ensures StoriesTrue(t)
  {
    var proc, story := s.procs[p], s.stories[p];
    assert ProcInv(s, p) && StoryTrue(s, p);
    AdvanceKnows(proc, story, s.store, s.log, ev);
    AdvanceAnchors(proc, story, s.store, s.log, ev);
    AdvanceSends(proc, story, s.store, s.log, ev);
    SentIsLogged(proc, story, s.store, s.log, ev);
    forall q | q in t.procs
      ensures StoryTrue(t, q)
    {
      if q != p {
        assert StoryTrue(s, q);
        AnchorStays(s, t, s.procs[q], s.stories[q]);
      }
    }
  }

  lemma {:induction false} SentIsLogged(proc: Proc, t: Story, store: Store, log: seq<Attempt>, ev: Event)
    requires Typed(proc) && (t.sent.Some? ==> t.sent.value in log)
    ensures var u := Hear(t, proc, store, ev);
      u.sent.Some? ==> u.sent.value in LogAfter(log, Advance(proc, store, ev).action)
  {
    if !proc.Working? || !proc.workPlace.AtSubmit? {
      HearKeepsSent(t, proc, store, ev);
      hide Hear, Advance;
    }
  }

  lemma {:induction false} StepTells(s: System, t: System, cause: Cause)
    requires SystemInv(s) && SystemInv(t) && StoriesTrue(s) && Step(s, t, cause)
    ensures StoriesTrue(t)
  {
    match cause
    case Run(p, ev) => RunTells(s, t, p, ev);
    case Start(p, proc) =>
      EntryKnows(proc);
      forall q | q in t.procs
        ensures StoryTrue(t, q)
      {
        if q != p { assert StoryTrue(s, q); }
      }
    case Die(_) =>
      forall q | q in t.procs
        ensures StoryTrue(t, q)
      {
        assert StoryTrue(s, q);
      }
    case ClearDeadLock(_) =>
      forall q | q in t.procs
        ensures StoryTrue(t, q)
      {
        assert StoryTrue(s, q);
      }
  }

  lemma {:induction false} InitTells(s: System)
    requires Init(s)
    ensures StoriesTrue(s)
  {
  }

  lemma {:induction false} EveryCallHasItsStory(s: System)
    requires SystemInv(s)
    ensures s.stories.Keys == s.procs.Keys
  {
  }

  lemma {:induction false} EveryStoryIsTrue(states: seq<System>, i: nat)
    requires Behaviour(states) && i < |states|
    ensures SystemInv(states[i]) && StoriesTrue(states[i])
  {
    hide SystemInv, StoriesTrue, Step, Init;
    EveryStateKeeps(states, i);
    if i == 0 {
      InitTells(states[0]);
    } else {
      EveryStoryIsTrue(states, i - 1);
      StepAt(states, i - 1);
      var cause :| Step(states[i - 1], states[i], cause);
      StepTells(states[i - 1], states[i], cause);
    }
  }

  // --- what finished calls report ---

  lemma {:induction false} FinishedCallReports(states: seq<System>, i: nat, p: Pid)
    requires Behaviour(states) && i < |states| && p in states[i].procs && states[i].procs[p].Finished?
    ensures p in states[i].stories
    ensures var t, outcome := states[i].stories[p], states[i].procs[p].outcome;
      && SentRight(t) && (if t.stranded then outcome == Threw else Report(t, outcome))
  {
    hide Report, SentRight, SystemInv, Anchored, Behaviour;
    EveryStoryIsTrue(states, i);
    EveryCallHasItsStory(states[i]);
    assert StoryTrue(states[i], p);
  }

  /** A sign call that submitted throws only on a definitive refusal, an await of its registration that threw, or a
      failed lock release; it reports unknown, with its own transaction, exactly if the answer neither refused nor
      proved its submission; and it reports settled only with the receipt of the proven submission. */
  lemma {:induction false} SubmittedCallReports(states: seq<System>, i: nat, p: Pid)
    requires Behaviour(states) && i < |states| && p in states[i].procs && states[i].procs[p].Finished?
    requires p in states[i].stories && states[i].stories[p].entry.Sign? && states[i].stories[p].sent.Some?
    ensures var t, outcome := states[i].stories[p], states[i].procs[p].outcome;
      var a := t.sent.value;
      && a in states[i].log && a.name == t.entry.call.name
      && (outcome == Threw <==> t.stranded || t.threw || t.answer == Some(DefinitiveRefusal))
      && (outcome.Unknown? <==> !t.stranded && t.answer != Some(DefinitiveRefusal)
                                && !(t.answer.Some? && AnswerProves(t.answer.value, a.submission)))
      && (outcome.Unknown? ==> outcome == Unknown(a.name, a.submission.tx))
      && (outcome.SettledAs? ==>
            && t.answer.Some? && AnswerProves(t.answer.value, a.submission)
            && IsReceiptOf(outcome.receipt, a.operation, a.submission, t.answer.value.certificate)
            && (outcome.persisted ==> t.settledSave == Some(Stored))
            && (t.settledSave != Some(Stored) ==> outcome.registration == Pending)
            && (t.settledSave == Some(Stored) ==> RegistrationReport(t, outcome.receipt, true, outcome)))
  {
    FinishedCallReports(states, i, p);
    assert StoryTrue(states[i], p) by { EveryStoryIsTrue(states, i); }
  }

  /** A sign call that did not submit reports what the journal held of its own operation past preparation, and throws
      otherwise. */
  lemma {:induction false} UnsubmittedCallReports(states: seq<System>, i: nat, p: Pid)
    requires Behaviour(states) && i < |states| && p in states[i].procs && states[i].procs[p].Finished?
    requires p in states[i].stories && states[i].stories[p].entry.Sign? && states[i].stories[p].sent.None?
    ensures var t, outcome := states[i].stories[p], states[i].procs[p].outcome;
      && (outcome == Threw <==> t.stranded || t.threw || !FoundSubmitted(t, t.entry.call))
      && (outcome != Threw ==>
            if t.found.value.SubmissionUnknown? then
              outcome == Unknown(t.entry.call.name, t.found.value.submission.tx)
            else
              && outcome.SettledAs? && outcome.receipt == t.found.value.receipt
              && (t.found.value.registration != JustSettled && t.found.value.registration != Pending ==>
                    outcome.registration == t.found.value.registration && outcome.persisted))
  {
    FinishedCallReports(states, i, p);
  }

  /** checkRegistration and retryRegistration report the verdict that the index's answers earn. */
  lemma {:induction false} RegistrationCallReports(states: seq<System>, i: nat, p: Pid)
    requires Behaviour(states) && i < |states| && p in states[i].procs && states[i].procs[p].Finished?
    requires p in states[i].stories && states[i].stories[p].entry.Record?
    ensures var t, outcome := states[i].stories[p], states[i].procs[p].outcome;
      if t.stranded then outcome == Threw else RegistrationReport(t, t.entry.receipt, t.entry.retry, outcome)
  {
    FinishedCallReports(states, i, p);
  }

  /** recoverSettlement reports what the journal holds, or what the observed certificate proves. */
  lemma {:induction false} RecoveryCallReports(states: seq<System>, i: nat, p: Pid)
    requires Behaviour(states) && i < |states| && p in states[i].procs && states[i].procs[p].Finished?
    requires p in states[i].stories && states[i].stories[p].entry.Recover?
    ensures var t, outcome := states[i].stories[p], states[i].procs[p].outcome;
      if t.stranded then outcome == Threw else RecoveryReport(t, t.entry.name, t.entry.readerOrigin, outcome)
  {
    FinishedCallReports(states, i, p);
  }

  /** registerReceipt registers a receipt that both certificates support and that no other record contradicts. */
  lemma {:induction false} ImportCallReports(states: seq<System>, i: nat, p: Pid)
    requires Behaviour(states) && i < |states| && p in states[i].procs && states[i].procs[p].Finished?
    requires p in states[i].stories && states[i].stories[p].entry.Import?
    ensures var t, outcome := states[i].stories[p], states[i].procs[p].outcome;
      var given, origin := t.entry.receipt, t.entry.readerOrigin;
      if t.stranded then outcome == Threw
      else if t.registering.None? then ImportReport(t, given, origin, outcome)
      else && ImportKnown(t, given, origin, t.registering.value)
           && RegistrationReport(t, t.registering.value, true, outcome) && (outcome == Threw ==> t.threw)
  {
    FinishedCallReports(states, i, p);
  }

  /** A report of a persisted settlement is backed by the journal, now and, by `SettlementIsFinal`, ever after; so is
      the report of an unknown settlement of one's own submission. */
  lemma {:induction false} ReportsAreDurable(states: seq<System>, i: nat, p: Pid)
    requires Behaviour(states) && i < |states| && p in states[i].procs && states[i].procs[p].Finished?
    ensures var outcome := states[i].procs[p].outcome;
      && (outcome.SettledAs? && outcome.persisted ==> HoldsSettled(states[i].store, outcome.receipt))
      && (outcome.Unknown? && p in states[i].stories && states[i].stories[p].sent.Some? ==>
            && Public(outcome.name) in states[i].store
            && !states[i].store[Public(outcome.name)].Prepared?
            && states[i].store[Public(outcome.name)].submission.tx == outcome.txId)
  {
    hide Knows, SentRight, SystemInv, Behaviour;
    EveryStoryIsTrue(states, i);
    FinishedCallReports(states, i, p);
    var s, t := states[i], states[i].stories[p];
    assert StoryTrue(s, p);
    if t.sent.Some? {
      SubmittedOrStranded(states, i, p);
      LoggedIsBacked(s, t.sent.value);
    }
  }

  lemma {:induction false} LoggedIsBacked(s: System, a: Attempt)
    requires SystemInv(s) && a in s.log
    ensures Backed(s.store, a)
  {
    var k :| 0 <= k < |s.log| && s.log[k] == a;
  }

  lemma {:induction false} SubmittedOrStranded(states: seq<System>, i: nat, p: Pid)
    requires Behaviour(states) && i < |states| && p in states[i].procs && states[i].procs[p].Finished?
    requires p in states[i].stories && states[i].stories[p].sent.Some?
    ensures var a, outcome := states[i].stories[p].sent.value, states[i].procs[p].outcome;
      a in states[i].log && (outcome.Unknown? ==> outcome == Unknown(a.name, a.submission.tx))
  {
    FinishedCallReports(states, i, p);
    SubmittedCallReports(states, i, p);
  }

  /** What a live or finished call has submitted is its own input, under the operation it resumed or froze. */
  lemma {:induction false} SubmitsWhatWasAsked(states: seq<System>, i: nat, p: Pid)
    requires Behaviour(states) && i < |states| && p in states[i].procs
    ensures p in states[i].stories && SentRight(states[i].stories[p])
  {
    EveryStoryIsTrue(states, i);
    assert StoryTrue(states[i], p);
  }

  // --- registration verdicts ---

  /** The record of `id` is changed by a registration call that loaded it and whose index answers earn the new
      verdict. */
  ghost predicate Earned(s: System, p: Pid, id: RecordId, before: Snapshot, after: Snapshot)
    requires before.Settled? && after.Settled?
  {
    && p in s.procs && p in s.stories && s.procs[p].Record?
    && var t, retry := s.stories[p], s.procs[p].retry;
    && id == Public(before.receipt.name)
    && t.registering == Some(before.receipt) && t.loaded == Some(before)
    && Verdict(before.registration, retry, t.lookup, t.reply, before.receipt, after.registration)
  }

  ghost predicate EarnedBySome(s: System, id: RecordId, before: Snapshot, after: Snapshot)
    requires before.Settled? && after.Settled?
  {
    exists p :: Earned(s, p, id, before, after)
  }

  lemma {:induction false} WorkGivesNoVerdict(w: Work, at: WorkPlace, store: Store, log: seq<Attempt>,
                                              ev: Event, id: RecordId)
    requires w.operation.input.operationId.Public? && WorkSound(w, at, store, log)
    requires id in store && store[id].Settled?
    ensures var after := StoreAfter(store, AdvanceWork(w, at, store, ev).action);
      id in after && (after[id].Settled? ==> after[id] == store[id])
  {
    hide WorkOk, Frozen, Unsubmitted, AfterReservation, AfterAnswer, ReceiptBound;
  }

  lemma {:induction false} OthersGiveNoVerdict(proc: Proc, store: Store, log: seq<Attempt>, ev: Event, id: RecordId)
    requires Typed(proc) && Sound(proc, store, log) && !proc.Record?
    requires id in store && store[id].Settled?
    ensures var after := StoreAfter(store, Advance(proc, store, ev).action);
      id in after && (after[id].Settled? ==> after[id] == store[id])
  {
    match proc
    case Working(w, at) => WorkGivesNoVerdict(w, at, store, log, ev, id); hide WorkSound, AdvanceWork;
    case Sign(call, at) => QuietStore(call, at, store, ev); hide AdvanceSign, SignSound;
    case Recover(_, _, _) => hide RecoveredReceipt, ReceiptBound, AfterReader, AfterRecoverLoad;
    case Import(_, _, _) => hide VerifiedReceipt, AfterVerify, AfterImportLoad, ImportedSnapshot, CertificateFits;
    case _ =>
  }

  lemma {:induction false} RecordGivesVerdict(r: Receipt, retry: bool, at: RecordPlace, t: Story, store: Store,
                                              ev: Event, id: RecordId)
    requires RecordKnows(r, retry, at, t) && RecordSound(r, retry, at, store)
    requires id in store && store[id].Settled?
    requires var after := StoreAfter(store, AdvanceRecord(r, retry, at, store, ev).action);
      id in after && after[id].Settled? && after[id].registration != store[id].registration
    ensures var after := StoreAfter(store, AdvanceRecord(r, retry, at, store, ev).action);
      && id == Public(r.name) && store[id].receipt == r && t.registering == Some(r) && t.loaded == Some(store[id])
      && Verdict(store[id].registration, retry, t.lookup, t.reply, r, after[id].registration)
  {
    hide MayRegister, Verdict, AfterIndex, AfterRecordLoad;
  }

  lemma {:induction false} ChangeIsEarned(s: System, t: System, p: Pid, ev: Event, id: RecordId)
    requires SystemInv(s) && StoriesTrue(s) && Step(s, t, Run(p, ev))
    requires id in s.store && s.store[id].Settled? && id in t.store && t.store[id].Settled?
    requires s.store[id].registration != t.store[id].registration
    ensures Earned(s, p, id, s.store[id], t.store[id])
  {
    var proc := s.procs[p];
    assert ProcInv(s, p) && StoryTrue(s, p);
    hide StoreInv, Verdict, RecordKnows, SentRight, Anchored, Hear, AdvanceRecord;
    if proc.Record? {
      RecordGivesVerdict(proc.receipt, proc.retry, proc.recordPlace, s.stories[p], s.store, ev, id);
    } else {
      OthersGiveNoVerdict(proc, s.store, s.log, ev, id);
    }
  }

  /** A settled record changes its verdict only as the answers of the index to a registration call earn it. */
  lemma {:induction false} VerdictIsEarned(states: seq<System>, i: nat, id: RecordId)
    requires Behaviour(states) && i + 1 < |states|
    requires id in states[i].store && states[i].store[id].Settled?
    requires id in states[i + 1].store && states[i + 1].store[id].Settled?
    requires states[i].store[id].registration != states[i + 1].store[id].registration
    ensures EarnedBySome(states[i], id, states[i].store[id], states[i + 1].store[id])
  {
    EveryStoryIsTrue(states, i);
    StepAt(states, i);
    var cause :| Step(states[i], states[i + 1], cause);
    ChangeIsEarned(states[i], states[i + 1], cause.pid, cause.ev, id);
  }

  /** What each new verdict rests on, answer by answer. */
  lemma {:induction false} VerdictsRestOn(s: System, p: Pid, id: RecordId, before: Snapshot, after: Snapshot)
    requires before.Settled? && after.Settled? && before.registration != after.registration
    requires Earned(s, p, id, before, after)
    ensures var t, r := s.stories[p], before.receipt;
      && (after.registration == Registered <==>
            || t.reply == Some(Recorded)
            || (t.lookup.Some? && ShowsRecord(t.lookup.value, r))
            || (t.reply.Some? && t.reply.value.RefusedAsConflict? && ShowsRecord(t.reply.value.lookup, r)))
      && (after.registration == Rejected <==> t.reply == Some(Refused))
      && (after.registration == Conflict <==>
            || (t.lookup.Some? && ShowsOther(t.lookup.value, r))
            || (t.reply.Some? && t.reply.value.RefusedAsConflict?
                && (t.reply.value.lookup == NoRow || ShowsOther(t.reply.value.lookup, r))))
  {
  }
}
