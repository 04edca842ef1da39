/** What holds in every run of the signing protocol, over all interleavings, answers, save failures and deaths. */
module SignRuns {
  import opened Options
  import opened SignModel
  import opened SignProtocol
  import opened SignSafety

  ghost predicate SystemInv(s: System) {
    && StoreInv(s.store, s.log)
    && s.stories.Keys == s.procs.Keys
    && forall p :: p in s.procs ==> ProcInv(s, p)
  }

  ghost predicate ProcInv(s: System, p: Pid)
    requires p in s.procs
  {
    && Typed(s.procs[p])
    && Sound(s.procs[p], s.store, s.log)
    && (forall k :: k in HeldKeys(s.procs[p]) ==> k in s.locks && s.locks[k] == p)
  }

  /** A call is not disturbed by a durable effect made under locks it does not hold. */
  lemma {:induction false} Undisturbed(proc: Proc, store: Store, log: seq<Attempt>, action: Action)
    requires Sound(proc, store, log)
    requires action.Put? ==> Guard(action.id) !in HeldKeys(proc)
    requires action.Submit? ==> OperationKey(action.attempt.name) !in HeldKeys(proc)
                                && Guard(SlotOf(action.attempt)) !in HeldKeys(proc)
    ensures Sound(proc, StoreAfter(store, action), LogAfter(log, action))
  {
    match proc
    case Sign(call, at) =>
    case Working(w, at) => WorkUndisturbed(w, at, store, log, action);
    case _ =>
  }

  lemma {:induction false} WorkUndisturbed(w: Work, at: WorkPlace, store: Store, log: seq<Attempt>, action: Action)
    requires WorkSound(w, at, store, log)
    requires action.Put? ==> Guard(action.id) !in HeldKeys(Working(w, at))
    requires action.Submit? ==> OperationKey(action.attempt.name) !in HeldKeys(Working(w, at))
                                && Guard(SlotOf(action.attempt)) !in HeldKeys(Working(w, at))
    ensures WorkSound(w, at, StoreAfter(store, action), LogAfter(log, action))
  {
    assert Guard(Public(w.call.name)) == OperationKey(w.call.name);
    assert Guard(w.Slot()) == AccountKey(w.operation.network, w.operation.sender);
    assert action.Put? ==> action.id != Public(w.call.name) && action.id != w.Slot();
  }

  /** Two live calls are never inside the same lock. */
  lemma {:induction false} MutualExclusion(s: System, p: Pid, q: Pid)
    requires SystemInv(s) && p in s.procs && q in s.procs && p != q
    ensures HeldKeys(s.procs[p]) !! HeldKeys(s.procs[q])
  {
    forall k | k in HeldKeys(s.procs[p])
      ensures k !in HeldKeys(s.procs[q])
    {
      assert ProcInv(s, p) && ProcInv(s, q);
    }
  }

  lemma {:induction false} RunKeeps(s: System, t: System, p: Pid, ev: Event)
    requires SystemInv(s) && Step(s, t, Run(p, ev))
    ensures SystemInv(t)
    ensures EffectLegal(s.store, s.log, Advance(s.procs[p], s.store, ev).action)
  {
    hide Sound, Typed, Advance, StoreInv, EffectLegal, HeldKeys, Hear;
    var m := Advance(s.procs[p], s.store, ev);
    assert ProcInv(s, p);
    AdvanceKeeps(s.procs[p], s.store, s.log, ev);
    forall q | q in t.procs
      ensures ProcInv(t, q)
    {
      if q != p {
        assert ProcInv(s, q);
        MutualExclusion(s, p, q);
        Undisturbed(s.procs[q], s.store, s.log, m.action);
      }
    }
  }

  lemma {:induction false} EntryIsSound(proc: Proc, store: Store, log: seq<Attempt>)
    requires Entry(proc)
    ensures Typed(proc) && Sound(proc, store, log) && HeldKeys(proc) == {}
  {
  }

  lemma {:induction false} StepKeeps(s: System, t: System, cause: Cause)
    requires SystemInv(s) && Step(s, t, cause)
    ensures SystemInv(t)
  {
    match cause
    case Start(p, proc) =>
      EntryIsSound(proc, s.store, s.log);
      forall q | q in t.procs
        ensures ProcInv(t, q)
      {
        assert q != p ==> ProcInv(s, q);
      }
    case Run(p, ev) => RunKeeps(s, t, p, ev);
    case Die(p) =>
      forall q | q in t.procs
        ensures ProcInv(t, q)
      {
        assert ProcInv(s, q);
      }
    case ClearDeadLock(key) =>
      forall q | q in t.procs
        ensures ProcInv(t, q)
      {
        assert ProcInv(s, q);
      }
  }

  lemma {:induction false} NextKeeps(s: System, t: System)
    requires SystemInv(s) && Next(s, t)
    ensures SystemInv(t)
  {
    var cause :| Step(s, t, cause);
    StepKeeps(s, t, cause);
  }

  lemma {:induction false} StepAt(states: seq<System>, i: nat)
    requires Behaviour(states) && i + 1 < |states|
    ensures Next(states[i], states[i + 1])
  {
    assert NextAt(states, i);
  }

  lemma {:induction false} EveryStateKeeps(states: seq<System>, i: nat)
    requires Behaviour(states) && i < |states|
    ensures SystemInv(states[i])
  {
    if i > 0 {
      EveryStateKeeps(states, i - 1);
      StepAt(states, i - 1);
      NextKeeps(states[i - 1], states[i]);
    }
  }

  // --- safety of submission ---

  /** submitTransaction is called at most once per operation, and no two calls ever share a network, sender and
      nonce. */
  lemma {:induction false} AtMostOneSubmission(states: seq<System>, i: nat, a: nat, b: nat)
    requires Behaviour(states) && i < |states| && a < b < |states[i].log|
    ensures states[i].log[a].name != states[i].log[b].name
    ensures SlotOf(states[i].log[a]) != SlotOf(states[i].log[b])
  {
    EveryStateKeeps(states, i);
    var s := states[i];
    assert Backed(s.store, s.log[a]) && Backed(s.store, s.log[b]);
  }

  /** Whenever a submission is made, the journal already holds exactly it as unknown, its transaction is the one its
      operation was frozen to, and its nonce is durably reserved in the operation's own name. */
  lemma {:induction false} SubmittedOnlyWithDurableEvidence(states: seq<System>, i: nat, a: Attempt)
    requires Behaviour(states) && i + 1 < |states| && states[i + 1].log == states[i].log + [a]
    ensures Get(states[i].store, Public(a.name)) == Some(SubmissionUnknown(a.operation, a.submission))
    ensures a.submission.tx == TransactionOf(a.operation, a.submission.tx.feeToken)
    ensures OwnedBy(states[i].store, SlotOf(a), a.name)
  {
    var s, t := states[i], states[i + 1];
    EveryStateKeeps(states, i);
    StepAt(states, i);
    var cause :| Step(s, t, cause);
    assert |t.log| != |s.log|;
    assert t.log[|s.log|] == a;
    var p, ev := cause.pid, cause.ev;
    assert ProcInv(s, p);
    AdvanceKeeps(s.procs[p], s.store, s.log, ev);
    assert WellKept(Public(a.name), s.store[Public(a.name)]);
    StepKeeps(s, t, cause);
    assert Backed(t.store, t.log[|s.log|]);
  }

  lemma {:induction false} LogGrowsByOne(s: System, t: System)
    requires Next(s, t)
    ensures s.log <= t.log
  {
  }

  lemma {:induction false} LogGrowsAt(states: seq<System>, i: nat)
    requires Behaviour(states) && i + 1 < |states|
    ensures states[i].log <= states[i + 1].log
  {
    StepAt(states, i);
    LogGrowsByOne(states[i], states[i + 1]);
  }

  lemma {:induction false} LogGrows(states: seq<System>, i: nat, j: nat)
    requires Behaviour(states) && i <= j < |states|
    ensures states[i].log <= states[j].log
  {
    if i < j {
      LogGrows(states, i, j - 1);
      LogGrowsAt(states, j - 1);
      PrefixOfPrefix(states[i].log, states[j - 1].log, states[j].log);
    }
  }

  lemma {:induction false} PrefixOfPrefix(a: seq<Attempt>, b: seq<Attempt>, c: seq<Attempt>)
    requires a <= b && b <= c
    ensures a <= c
  {
  }

  /** Once made, a submission keeps its operation, its evidence and the reservation of its nonce in every later
      state. */
  lemma {:induction false} SubmissionIsForEver(states: seq<System>, i: nat, j: nat, k: nat)
    requires Behaviour(states) && i <= j < |states| && k < |states[i].log|
    ensures Backed(states[j].store, states[i].log[k])
  {
    LogGrows(states, i, j);
    EveryStateKeeps(states, j);
    assert states[j].log[k] == states[i].log[k];
  }

  /** An outstanding submission can always be recovered: any certificate of it passes every check of recoverSettlement
      and gives the receipt that signDigest itself would have saved. */
  lemma {:induction false} OutstandingSubmissionIsRecoverable(states: seq<System>, i: nat, k: nat, c: Certificate)
    requires Behaviour(states) && i < |states| && k < |states[i].log|
    requires c.tx == states[i].log[k].submission.tx && c.senderSignature == states[i].log[k].submission.senderSignature
    ensures var a, record := states[i].log[k], Get(states[i].store, Public(states[i].log[k].name));
            && record.Some? && record.value.operation == a.operation && a.operation.input.operationId == Public(a.name)
            && (record.value.SubmissionUnknown? ==>
                  && RecoveredReceipt(record.value.operation, record.value.submission, c).Some?
                  && RecoveredReceipt(record.value.operation, record.value.submission, c)
                     == DirectReceipt(a.operation, a.submission, c))
  {
    EveryStateKeeps(states, i);
    var s := states[i];
    var a := s.log[k];
    assert Backed(s.store, a) && WellKept(Public(a.name), s.store[Public(a.name)]);
    if s.store[Public(a.name)].SubmissionUnknown? {
      SignAndRecoverAgree(a.operation, a.submission, c);
    }
  }

  // --- lifecycle of a settled record ---

  ghost predicate Reaches(before: Registration, after: Registration) {
    before == after || MayBecome(before, after)
  }

  ghost predicate SettledForward(before: Snapshot, after: Option<Snapshot>)
    requires before.Settled?
  {
    && after.Some? && after.value.Settled?
    && after.value == before.(registration := after.value.registration)
    && Reaches(before.registration, after.value.registration)
  }

  lemma {:induction false} SettledStepsForward(s: System, t: System, id: RecordId)
    requires SystemInv(s) && Next(s, t)
    requires id in s.store && s.store[id].Settled?
    ensures SettledForward(s.store[id], Get(t.store, id))
  {
    var cause :| Step(s, t, cause);
    if cause.Run? {
      RunKeeps(s, t, cause.pid, cause.ev);
    }
  }

  lemma {:induction false} SettledForwardTwice(a: Snapshot, b: Snapshot, c: Option<Snapshot>)
    requires a.Settled? && SettledForward(a, Some(b)) && SettledForward(b, c)
    ensures SettledForward(a, c)
  {
  }

  lemma {:induction false} SettledOneStep(states: seq<System>, i: nat, id: RecordId)
    requires Behaviour(states) && i + 1 < |states|
    requires id in states[i].store && states[i].store[id].Settled?
    ensures SettledForward(states[i].store[id], Get(states[i + 1].store, id))
  {
    EveryStateKeeps(states, i);
    StepAt(states, i);
    SettledStepsForward(states[i], states[i + 1], id);
  }

  /** From settlement on, operation, submission and receipt never change, `registered` is final, and a conflict or
      rejection never falls back to pending. */
  lemma {:induction false} SettlementIsFinal(states: seq<System>, i: nat, j: nat, id: RecordId)
    requires Behaviour(states) && i <= j < |states|
    requires id in states[i].store && states[i].store[id].Settled?
    ensures SettledForward(states[i].store[id], Get(states[j].store, id))
  {
    if i < j {
      SettlementIsFinal(states, i, j - 1, id);
      SettledOneStep(states, j - 1, id);
      SettledForwardTwice(states[i].store[id], states[j - 1].store[id], Get(states[j].store, id));
    }
  }

  /** The journal only ever holds records that its own validation accepts. */
  lemma {:induction false} JournalAlwaysLoads(states: seq<System>, i: nat, id: RecordId)
    requires Behaviour(states) && i < |states| && id in states[i].store
    ensures Accepted(id, states[i].store[id])
  {
    EveryStateKeeps(states, i);
    assert WellKept(id, states[i].store[id]);
  }

  // --- waiting ---

  /** `p` waits for a lock that the live call `q` is inside. */
  ghost predicate WaitsFor(s: System, p: Pid, q: Pid) {
    && p in s.procs && q in s.procs
    && Wants(s.procs[p]).Some?
    && Wants(s.procs[p]).value in HeldKeys(s.procs[q])
  }

  /** A call waiting for an operation lock is inside none; one waiting for an account lock is inside its operation lock
      only. */
  lemma {:induction false} LockOrder(proc: Proc)
    requires Wants(proc).Some?
    ensures Wants(proc).value.OperationKey? ==> HeldKeys(proc) == {}
    ensures forall k :: k in HeldKeys(proc) ==> k.OperationKey?
  {
  }

  /** No set of calls waits in a cycle: chains of waiting calls have at most two links, so they never return to their
      start. */
  lemma {:induction false} NoDeadlock(s: System, chain: seq<Pid>)
    requires SystemInv(s) && |chain| > 0
    requires forall i :: 0 <= i < |chain| - 1 ==> WaitsFor(s, chain[i], chain[i + 1])
    ensures |chain| <= 3
    ensures |chain| > 1 ==> chain[0] != chain[|chain| - 1]
  {
    if |chain| > 1 {
      assert WaitsFor(s, chain[0], chain[1]);
      LockOrder(s.procs[chain[0]]);
      if |chain| > 2 {
        assert WaitsFor(s, chain[1], chain[2]);
        LockOrder(s.procs[chain[1]]);
        if |chain| > 3 {
          assert WaitsFor(s, chain[2], chain[3]);
          LockOrder(s.procs[chain[2]]);
        }
      }
    }
  }
}
