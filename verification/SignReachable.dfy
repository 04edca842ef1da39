/** The safety theorems are about runs that happen: from an empty journal, any sign call can reach its submission. */
module SignReachable {
  import opened Options
  import opened SignModel
  import opened SignProtocol

  const ME: Pid := 0

  /** The system after the only call takes one step. */
  function After(s: System, ev: Event): System
    requires ME in s.procs && ME in s.stories && Typed(s.procs[ME])
  {
    var m := Advance(s.procs[ME], s.store, ev);
    System(StoreAfter(s.store, m.action), LocksAfter(s.locks, ME, m.action), s.procs[ME := m.proc],
           LogAfter(s.log, m.action), s.stories[ME := Hear(s.stories[ME], s.procs[ME], s.store, ev)])
  }

  /** The call is there, and the lock it would take is free. */
  predicate CanRun(s: System, ev: Event) {
    && ME in s.procs && ME in s.stories && Typed(s.procs[ME])
    && var action := Advance(s.procs[ME], s.store, ev).action;
    action.Take? ==> action.key !in s.locks
  }

  lemma {:induction false} Extend(states: seq<System>, ev: Event) returns (longer: seq<System>)
    requires Behaviour(states) && CanRun(states[|states| - 1], ev)
    ensures Behaviour(longer) && longer[|longer| - 1] == After(states[|states| - 1], ev)
  {
    var s := states[|states| - 1];
    var t := After(s, ev);
    longer := states + [t];
    assert Step(s, t, Run(ME, ev));
    forall i | 0 <= i < |longer| - 1 ensures NextAt(longer, i) {
      if i == |states| - 1 {
        assert longer[i] == s && longer[i + 1] == t;
      } else {
        assert NextAt(states, i) && longer[i] == states[i] && longer[i + 1] == states[i + 1];
      }
    }
  }

  function CallOf(raw: RawInput, client: Client): SignCall {
    SignCall(raw.operationId, SnapshotInput(raw), client)
  }

  /** The system is this call alone, before any effect of it. */
  predicate IsAlone(s: System, proc: Proc, locks: map<LockKey, Pid>) {
    s.store == map[] && s.locks == locks && s.procs == map[ME := proc] && s.log == [] && ME in s.stories
  }

  function BothLocks(call: SignCall, sender: string): map<LockKey, Pid> {
    map[OperationKey(call.name) := ME][AccountKey(call.client.network, sender) := ME]
  }

  lemma {:induction false} Starts(raw: RawInput, client: Client) returns (states: seq<System>)
    ensures Behaviour(states)
    ensures IsAlone(states[|states| - 1], Sign(CallOf(raw, client), AtOperationLock), map[])
  {
    var proc := Sign(CallOf(raw, client), AtOperationLock);
    var s := System(map[], map[], map[], [], map[]);
    var t := s.(procs := map[ME := proc], stories := map[ME := NewStory(proc)]);
    states := [s, t];
    assert Entry(proc);
    assert Step(s, t, Start(ME, proc));
    assert NextAt(states, 0);
  }

  lemma {:induction false} ReachesQuote(raw: RawInput, client: Client, sender: string) returns (states: seq<System>)
    ensures Behaviour(states)
    ensures var call := CallOf(raw, client);
      IsAlone(states[|states| - 1], Sign(call, AtQuote(sender, None)), BothLocks(call, sender))
  {
    var call := CallOf(raw, client);
    states := Starts(raw, client);
    states := Extend(states, Done);
    assert IsAlone(states[|states| - 1], Sign(call, AtLoad), map[OperationKey(call.name) := ME]);
    states := Extend(states, Done);
    assert IsAlone(states[|states| - 1], Sign(call, AtPublicKey(None)), map[OperationKey(call.name) := ME]);
    states := Extend(states, PublicKey(sender));
    assert IsAlone(states[|states| - 1], Sign(call, AtAccountLock(sender)), map[OperationKey(call.name) := ME]);
    states := Extend(states, Done);
    assert IsAlone(states[|states| - 1], Sign(call, AtReload(sender)), BothLocks(call, sender));
    states := Extend(states, Done);
    assert IsAlone(states[|states| - 1], Sign(call, AtQuote(sender, None)), BothLocks(call, sender));
  }

  /** The only call works at this place, and nothing has been submitted yet. */
  predicate WorksAt(s: System, w: Work, at: WorkPlace) {
    s.procs == map[ME := Working(w, at)] && s.log == [] && ME in s.stories
  }

  lemma {:induction false} ReachesSignature(states: seq<System>, w: Work, signature: string)
    returns (longer: seq<System>)
    requires Behaviour(states) && w.isNew && w.operation.input.operationId.Public?
    requires states[|states| - 1].store == map[] && WorksAt(states[|states| - 1], w, AtReservation)
    ensures Behaviour(longer)
    ensures exists r :: WorksAt(longer[|longer| - 1], w, AtSaveReservation(r, SubmissionOf(w, signature)))
  {
    var g := ReserveNonce(None, w.operation, w.call.name, w.operation.network, w.operation.sender, w.operation.nonce);
    longer := Extend(states, Done);
    assert WorksAt(longer[|longer| - 1], w, AtSavePrepared(g.record, true));
    longer := Extend(longer, Saved(Stored));
    assert WorksAt(longer[|longer| - 1], w, AtSign(g.record, true));
    longer := Extend(longer, Signed(signature));
    assert WorksAt(longer[|longer| - 1], w, AtSaveReservation(g.record, SubmissionOf(w, signature)));
  }

  /** From its reservation on, an undisturbed attempt submits what it signed. */
  lemma {:induction false} ReachesSubmission(states: seq<System>, w: Work, signature: string)
    returns (longer: seq<System>)
    requires Behaviour(states) && w.isNew && w.operation.input.operationId.Public?
    requires states[|states| - 1].store == map[] && WorksAt(states[|states| - 1], w, AtReservation)
    ensures Behaviour(longer)
    ensures longer[|longer| - 1].log == [Attempt(w.call.name, w.operation, SubmissionOf(w, signature))]
  {
    var submission := SubmissionOf(w, signature);
    longer := ReachesSignature(states, w, signature);
    var r :| WorksAt(longer[|longer| - 1], w, AtSaveReservation(r, submission));
    longer := Extend(longer, Saved(Stored));
    assert WorksAt(longer[|longer| - 1], w, AtSaveUnknown(r, true, submission));
    longer := Extend(longer, Saved(Stored));
    assert WorksAt(longer[|longer| - 1], w, AtSubmit(submission));
    longer := Extend(longer, Done);
  }

  /** Every sign call with a clock and nonce in range has a run from the empty journal in which it submits. */
  lemma {:induction false} AnyCallCanSubmit(raw: RawInput, client: Client, sender: string, instantMs: nat, nonce: nat,
                                            requestId: string, fee: Fee, signature: string)
    returns (states: seq<System>)
    requires instantMs * 1_000_000 <= MAX_U64 && nonce <= MAX_SAFE_INTEGER
    ensures Behaviour(states) && |states[|states| - 1].log| == 1
    ensures var a := states[|states| - 1].log[0];
      && a.name == raw.operationId && a.submission.senderSignature == signature
      && a.submission.tx.network == client.network && a.submission.tx.sender == sender && a.submission.tx.nonce == nonce
  {
    var call := CallOf(raw, client);
    states := ReachesQuote(raw, client, sender);
    states := Extend(states, Quoted(instantMs, nonce, requestId, fee));
    var operation := FrozenOperation(call.input, client.network, client.proxyUrl, client.indexOrigin, sender, nonce,
                                     requestId, instantMs * 1_000_000, Some(fee));
    var w := Work(call, operation, true, fee.tokenId, ClaimFor(call.input, sender, requestId, instantMs / 1000));
    assert WorksAt(states[|states| - 1], w, AtReservation);
    states := ReachesSubmission(states, w, signature);
  }
}
