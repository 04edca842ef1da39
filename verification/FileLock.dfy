/**
 The file journal's lock for one key, at the level of its file operations: each contender writes its owner record to a
 private inode, publishes it with an exclusive hard link, and on leaving checks that the published file is still its own
 before unlinking it. Calls of any number of processes interleave between file operations; processes die anywhere.
*/
module FileLock {
  import opened Options

  type Token = nat
  type Pid = nat
  type Inode = nat

  datatype Owner = Owner(pid: Pid, token: Token)

  datatype Result =
    | Completed
    | SetupFailed
    | TimedOut
    | DeadOwner
    | Malformed
    | ReleaseFailed
    | ReleasedUnsynced
    | Disappeared
    | OwnershipChanged

  /** Places in withLock, named by the file operation that comes next. `inode` is the contender's own owner file. */
  datatype Place =
    | Creating
    | Writing(inode: Inode)
    | Linking(inode: Inode)
    | Inspecting(inode: Inode)
    | Syncing(inode: Inode)
    | UnlinkingTemp(inode: Inode, published: bool, result: Result)
    | Running(inode: Inode)
    | Reading(inode: Inode, result: Result)
    | Comparing(inode: Inode, seen: Inode, result: Result)
    | Removing(inode: Inode, result: Result)
    | Resyncing(result: Result)
    | Over(result: Result)

  /** The owner that a contender last found, and whether its process lived then. */
  datatype Met = Met(owner: Owner, alive: bool)

  /** A call, with what it went through: whether it published its lock, whether it ran its operation, whom it met. */
  datatype Call = Call(pid: Pid, place: Place, took: bool, ran: bool, met: Option<Met>)

  /** Directory entries of the key's lock and of the owner files, inode contents, and the calls in progress.
      A content of None is an owner record not yet completely written. */
  datatype Disk = Disk(lock: Option<Inode>, temps: map<Token, Inode>, content: map<Inode, Option<Owner>>,
                       alive: set<Pid>, calls: map<Token, Call>)

  datatype Event = Works | Fails | Allocated(inode: Inode) | Expired

  /** The one change a step makes to what the calls share. */
  datatype Effect =
    | NoEffect
    | Create(inode: Inode)
    | Fill(inode: Inode)
    | Publish(inode: Inode)
    | UnlinkTemp
    | UnlinkLock

  datatype Move = Move(effect: Effect, place: Place)

  function Referenced(d: Disk): set<Inode> {
    d.temps.Values + (if d.lock.Some? then {d.lock.value} else {})
  }

  function Publication(d: Disk): Option<Owner> {
    if d.lock.Some? && d.lock.value in d.content then d.content[d.lock.value] else None
  }

  /** What a contender that found the lock taken makes of the file it reads there. */
  function AfterInspection(d: Disk, i: Inode, ev: Event): Place {
    if ev.Fails? then UnlinkingTemp(i, false, SetupFailed)
    else if d.lock == None then Linking(i)
    else if Publication(d) == None then UnlinkingTemp(i, false, Malformed)
    else if Publication(d).value.pid !in d.alive then UnlinkingTemp(i, false, DeadOwner)
    else if ev.Expired? then UnlinkingTemp(i, false, TimedOut)
    else Linking(i)
  }

  /** The owner's check before it removes the lock: the file read must carry its own token and process. */
  function AfterReading(d: Disk, pid: Pid, t: Token, i: Inode, result: Result, ev: Event): Place {
    if ev.Fails? then Over(ReleaseFailed)
    else if d.lock == None then Over(Disappeared)
    else if Publication(d) == None then Over(Malformed)
    else if Publication(d).value.token != t || Publication(d).value.pid != pid then Over(OwnershipChanged)
    else Comparing(i, d.lock.value, result)
  }

  function AfterUnlinkTemp(i: Inode, published: bool, result: Result, ev: Event): Place {
    if !published then Over(if ev.Fails? then SetupFailed else result)
    else if ev.Fails? then Reading(i, SetupFailed)
    else if result == Completed then Running(i)
    else Reading(i, result)
  }

  function Advance(d: Disk, pid: Pid, t: Token, place: Place, ev: Event): Move {
    match place
    case Creating =>
      if ev.Allocated? then Move(Create(ev.inode), Writing(ev.inode))
      else Move(NoEffect, if ev.Fails? then Over(SetupFailed) else place)
    case Writing(i) => if ev.Fails? then Move(NoEffect, UnlinkingTemp(i, false, SetupFailed))
                       else Move(Fill(i), Linking(i))
    case Linking(i) =>
      if d.lock.Some? then Move(NoEffect, Inspecting(i))
      else if ev.Fails? then Move(NoEffect, UnlinkingTemp(i, false, SetupFailed))
      else Move(Publish(i), Syncing(i))
    case Inspecting(i) => Move(NoEffect, AfterInspection(d, i, ev))
    case Syncing(i) => Move(NoEffect, UnlinkingTemp(i, true, if ev.Fails? then SetupFailed else Completed))
    case UnlinkingTemp(i, published, result) =>
      Move(if ev.Fails? then NoEffect else UnlinkTemp, AfterUnlinkTemp(i, published, result, ev))
    case Running(i) => Move(NoEffect, Reading(i, Completed))
    case Reading(i, result) => Move(NoEffect, AfterReading(d, pid, t, i, result, ev))
    case Comparing(i, seen, result) =>
      Move(NoEffect, if ev.Fails? then Over(ReleaseFailed)
                     else if d.lock != Some(seen) then Over(OwnershipChanged)
                     else Removing(i, result))
    case Removing(i, result) => if ev.Fails? then Move(NoEffect, Over(ReleaseFailed))
                                else Move(UnlinkLock, Resyncing(result))
    case Resyncing(result) => Move(NoEffect, Over(if ev.Fails? then ReleasedUnsynced else result))
    case Over(_) => Move(NoEffect, place)
  }

  function Begun(pid: Pid): Call { Call(pid, Creating, false, false, None) }

  /** The owner that is found when the published file is read. */
  function Meeting(d: Disk): Option<Met> {
    var o := Publication(d);
    if o.Some? then Some(Met(o.value, o.value.pid in d.alive)) else None
  }

  /** The call after a step of its own. */
  function After(d: Disk, c: Call, m: Move): Call {
    Call(c.pid, m.place, c.took || m.effect.Publish?, c.ran || c.place.Running?,
         if c.place.Inspecting? then Meeting(d) else c.met)
  }

  function Apply(d: Disk, pid: Pid, t: Token, m: Move): Disk
    requires t in d.calls
  {
    var e := d.(calls := d.calls[t := After(d, d.calls[t], m)]);
    match m.effect
    case NoEffect => e
    case Create(i) => e.(temps := d.temps[t := i], content := d.content[i := None])
    case Fill(i) => e.(content := d.content[i := Some(Owner(pid, t))])
    case Publish(i) => e.(lock := Some(i))
    case UnlinkTemp => e.(temps := d.temps - {t})
    case UnlinkLock => e.(lock := None)
  }

  datatype Cause = Start(token: Token, pid: Pid) | Run(token: Token, ev: Event) | Die(pid: Pid) | Clear

  ghost predicate TokenIsNew(d: Disk, t: Token) {
    && t !in d.calls && t !in d.temps
    && forall i :: i in d.content && d.content[i].Some? ==> d.content[i].value.token != t
  }

  ghost predicate Step(d: Disk, e: Disk, cause: Cause) {
    match cause
    case Start(t, pid) =>
      && TokenIsNew(d, t)
      && e == d.(calls := d.calls[t := Begun(pid)], alive := d.alive + {pid})
    case Run(t, ev) =>
      && t in d.calls
      && (ev.Allocated? ==> ev.inode !in Referenced(d))
      && e == Apply(d, d.calls[t].pid, t, Advance(d, d.calls[t].pid, t, d.calls[t].place, ev))
    case Die(pid) =>
      e == d.(alive := d.alive - {pid}, calls := map t | t in d.calls && d.calls[t].pid != pid :: d.calls[t])
    case Clear =>
      // The operator removes a lock only when the call that published it is gone.
      && d.lock.Some? && d.lock.value in d.content && d.content[d.lock.value].Some?
      && d.content[d.lock.value].value.token !in d.calls
      && e == d.(lock := None)
  }

  ghost predicate Init(d: Disk) {
    d == Disk(None, map[], map[], {}, map[])
  }

  // --- the invariant ---

  /** The contender has published its inode and not yet removed it. */
  predicate Inside(place: Place) {
    place.Syncing? || (place.UnlinkingTemp? && place.published) || place.Running? || place.Reading? || place.Comparing?
      || place.Removing?
  }

  ghost predicate Written(d: Disk, i: Inode, pid: Pid, t: Token) {
    i in d.content && d.content[i] == Some(Owner(pid, t))
  }

  /** Ends that mean somebody tampered with the lock. */
  predicate Tampered(result: Result) {
    result == Disappeared || result == OwnershipChanged || result == Malformed
  }

  ghost predicate PlaceInv(d: Disk, pid: Pid, t: Token, place: Place) {
    match place
    case Creating => t !in d.temps
    case Writing(i) => Get(d.temps, t) == Some(i) && d.lock != Some(i) && Get(d.content, i) == Some(None)
    case Linking(i) => Get(d.temps, t) == Some(i) && d.lock != Some(i) && Written(d, i, pid, t)
    case Inspecting(i) => Get(d.temps, t) == Some(i) && d.lock != Some(i) && Written(d, i, pid, t)
    case Syncing(i) => d.lock == Some(i) && Written(d, i, pid, t)
    case UnlinkingTemp(i, published, result) =>
      !Tampered(result) && if published then d.lock == Some(i) && Written(d, i, pid, t)
                           else Get(d.temps, t) == Some(i) && d.lock != Some(i)
    case Running(i) => d.lock == Some(i) && Written(d, i, pid, t)
    case Reading(i, result) => d.lock == Some(i) && Written(d, i, pid, t) && !Tampered(result)
    case Comparing(i, seen, result) => d.lock == Some(i) && Written(d, i, pid, t) && seen == i && !Tampered(result)
    case Removing(i, result) => d.lock == Some(i) && Written(d, i, pid, t) && !Tampered(result)
    case Resyncing(result) => !Tampered(result)
    case Over(result) => !Tampered(result)
  }

  ghost predicate CallInv(d: Disk, t: Token)
    requires t in d.calls
  {
    PlaceInv(d, d.calls[t].pid, t, d.calls[t].place)
  }

  /** While the call that published the lock lives, it is inside or has failed to release it; and only its own temporary
      entry may still name the published inode. */
  ghost predicate LockInv(d: Disk) {
    d.lock.Some? ==>
      && Publication(d).Some?
      && var o := Publication(d).value;
      && (o.token in d.calls ==> d.calls[o.token].pid == o.pid
                                 && (Inside(d.calls[o.token].place) || d.calls[o.token].place == Over(ReleaseFailed)))
      && (forall t :: t in d.temps && d.temps[t] == d.lock.value ==> t == o.token)
  }

  /** No two owner files share an inode, and none carries another contender's token. */
  ghost predicate TempsInv(d: Disk) {
    && (forall t, u :: t in d.temps && u in d.temps && t != u ==> d.temps[t] != d.temps[u])
    && (forall t :: t in d.temps ==> d.temps[t] in d.content
                                     && (d.content[d.temps[t]].Some? ==> d.content[d.temps[t]].value.token == t))
  }

  ghost predicate DiskInv(d: Disk) {
    LockInv(d) && TempsInv(d) && forall t :: t in d.calls ==> CallInv(d, t)
  }

  /** The call whose lock is published, as the signing protocol sees the lock. */
  function HolderOf(d: Disk): Option<Token> {
    var o := Publication(d);
    if o.Some? then Some(o.value.token) else None
  }

  /** Whoever is inside is the holder, so at most one call is inside. */
  lemma {:induction false} InsideIsHolder(d: Disk, t: Token)
    requires DiskInv(d) && t in d.calls && Inside(d.calls[t].place)
    ensures HolderOf(d) == Some(t)
  {
    assert CallInv(d, t);
  }

  // --- each step keeps the invariant ---

  ghost predicate MoveAllowed(d: Disk, m: Move) {
    m.effect.Create? ==> m.effect.inode !in Referenced(d)
  }

  lemma {:induction false} OwnPlaceKeeps(d: Disk, pid: Pid, t: Token, place: Place, ev: Event)
    requires t in d.calls && LockInv(d) && PlaceInv(d, pid, t, place) && MoveAllowed(d, Advance(d, pid, t, place, ev))
    ensures var m := Advance(d, pid, t, place, ev); PlaceInv(Apply(d, pid, t, m), pid, t, m.place)
  {
  }

  /** What an effect presupposes of the contender that makes it. */
  ghost predicate EffectOk(d: Disk, pid: Pid, t: Token, effect: Effect) {
    match effect
    case NoEffect => true
    case Create(i) => t !in d.temps && i !in Referenced(d)
    case Fill(i) => Get(d.temps, t) == Some(i) && d.lock != Some(i)
    case Publish(i) => d.lock == None && Get(d.temps, t) == Some(i) && Written(d, i, pid, t)
    case UnlinkTemp => true
    case UnlinkLock => d.lock.Some? && Written(d, d.lock.value, pid, t)
  }

  lemma {:induction false} OtherPlaceKeeps(d: Disk, pid: Pid, t: Token, m: Move, pid': Pid, u: Token, place: Place)
    requires t in d.calls && TempsInv(d) && EffectOk(d, pid, t, m.effect) && u != t
    requires PlaceInv(d, pid', u, place)
    ensures PlaceInv(Apply(d, pid, t, m), pid', u, place)
  {
    match m.effect
    case NoEffect =>
    case Create(i) => assert forall x :: x in d.temps ==> d.temps[x] in Referenced(d);
    case Fill(i) =>
    case Publish(i) =>
    case UnlinkTemp =>
    case UnlinkLock =>
  }

  lemma {:induction false} AdvanceIsOk(d: Disk, t: Token, ev: Event)
    requires DiskInv(d) && t in d.calls
    requires MoveAllowed(d, Advance(d, d.calls[t].pid, t, d.calls[t].place, ev))
    ensures EffectOk(d, d.calls[t].pid, t, Advance(d, d.calls[t].pid, t, d.calls[t].place, ev).effect)
  {
    assert CallInv(d, t);
  }

  lemma {:induction false} TempsKeep(d: Disk, pid: Pid, t: Token, m: Move)
    requires t in d.calls && TempsInv(d) && EffectOk(d, pid, t, m.effect)
    ensures TempsInv(Apply(d, pid, t, m))
  {
    assert forall x :: x in d.temps ==> d.temps[x] in Referenced(d);
  }

  /** The published lock after an effect; `inside` says whether the call that made it is still inside. */
  lemma {:induction false} LockAfter(d: Disk, pid: Pid, t: Token, m: Move)
    requires t in d.calls && d.calls[t].pid == pid
    requires LockInv(d) && TempsInv(d) && EffectOk(d, pid, t, m.effect)
    requires m.effect.Publish? ==> Inside(m.place)
    requires Publication(d).Some? && Publication(d).value.token == t && !m.effect.UnlinkLock?
             ==> Inside(m.place) || m.place == Over(ReleaseFailed)
    ensures LockInv(Apply(d, pid, t, m))
  {
    assert forall x :: x in d.temps ==> d.temps[x] in Referenced(d);
  }

  lemma {:induction false} LockKeeps(d: Disk, t: Token, ev: Event)
    requires DiskInv(d) && t in d.calls
    requires MoveAllowed(d, Advance(d, d.calls[t].pid, t, d.calls[t].place, ev))
    ensures LockInv(Apply(d, d.calls[t].pid, t, Advance(d, d.calls[t].pid, t, d.calls[t].place, ev)))
  {
    assert CallInv(d, t);
    AdvanceIsOk(d, t, ev);
    LockAfter(d, d.calls[t].pid, t, Advance(d, d.calls[t].pid, t, d.calls[t].place, ev));
  }

  lemma {:induction false} RunKeeps(d: Disk, e: Disk, t: Token, ev: Event)
    requires DiskInv(d) && Step(d, e, Run(t, ev))
    ensures DiskInv(e)
  {
    var pid, place := d.calls[t].pid, d.calls[t].place;
    var m := Advance(d, pid, t, place, ev);
    assert CallInv(d, t);
    OwnPlaceKeeps(d, pid, t, place, ev);
    AdvanceIsOk(d, t, ev);
    TempsKeep(d, pid, t, m);
    LockKeeps(d, t, ev);
    forall u | u in e.calls
      ensures CallInv(e, u)
    {
      if u != t {
        assert CallInv(d, u);
        OtherPlaceKeeps(d, pid, t, m, d.calls[u].pid, u, d.calls[u].place);
      }
    }
  }

  lemma {:induction false} StepKeeps(d: Disk, e: Disk, cause: Cause)
    requires DiskInv(d) && Step(d, e, cause)
    ensures DiskInv(e)
  {
    if cause.Run? {
      RunKeeps(d, e, cause.token, cause.ev);
    } else {
      forall u | u in e.calls
        ensures CallInv(e, u)
      {
        assert u in d.calls ==> CallInv(d, u);
      }
    }
  }

  // --- runs ---

  ghost predicate Next(d: Disk, e: Disk) {
    exists cause :: Step(d, e, cause)
  }

  ghost predicate Behaviour(disks: seq<Disk>) {
    && |disks| > 0 && Init(disks[0])
    && forall i :: 0 <= i < |disks| - 1 ==> NextAt(disks, i)
  }

  ghost predicate NextAt(disks: seq<Disk>, i: int)
    requires 0 <= i < |disks| - 1
  {
    Next(disks[i], disks[i + 1])
  }

  lemma {:induction false} EveryDiskKeeps(disks: seq<Disk>, i: nat)
    requires Behaviour(disks) && i < |disks|
    ensures DiskInv(disks[i])
  {
    if i > 0 {
      EveryDiskKeeps(disks, i - 1);
      NextKeeps(disks, i - 1);
    }
  }

  lemma {:induction false} NextKeeps(disks: seq<Disk>, i: nat)
    requires Behaviour(disks) && i + 1 < |disks| && DiskInv(disks[i])
    ensures DiskInv(disks[i + 1])
  {
    assert NextAt(disks, i);
    var cause :| Step(disks[i], disks[i + 1], cause);
    StepKeeps(disks[i], disks[i + 1], cause);
  }

  /** At most one live call runs inside the lock, and no live call ever ends with "ownership changed", "disappeared"
      or "malformed": those need somebody outside the protocol to touch the files. */
  lemma {:induction false} OneHolderAndNoTampering(disks: seq<Disk>, i: nat, t: Token, u: Token)
    requires Behaviour(disks) && i < |disks| && t in disks[i].calls && u in disks[i].calls
    ensures Inside(disks[i].calls[t].place) && Inside(disks[i].calls[u].place) ==> t == u
    ensures disks[i].calls[t].place.Over? ==> !Tampered(disks[i].calls[t].place.result)
  {
    EveryDiskKeeps(disks, i);
    if Inside(disks[i].calls[t].place) { InsideIsHolder(disks[i], t); }
    if Inside(disks[i].calls[u].place) { InsideIsHolder(disks[i], u); }
    assert CallInv(disks[i], t);
  }

  /** The file protocol refines an atomic lock: a step leaves the holder as it is, or its own call takes the free lock,
      or its own call, the holder, drops it. Only the operator's step also frees it, and then the holder is dead. */
  lemma {:induction false} RefinesAtomicLock(disks: seq<Disk>, i: nat, cause: Cause)
    requires Behaviour(disks) && i + 1 < |disks| && Step(disks[i], disks[i + 1], cause)
    ensures var d, e := disks[i], disks[i + 1];
            var before, after := HolderOf(d), HolderOf(e);
            match cause
            case Run(t, _) =>
              || after == before
              || (before == None && after == Some(t) && !Inside(d.calls[t].place) && Inside(e.calls[t].place))
              || (before == Some(t) && after == None && Inside(d.calls[t].place) && !Inside(e.calls[t].place))
            case Clear => before.Some? && before.value !in d.calls && after == None
            case _ => after == before
  {
    EveryDiskKeeps(disks, i);
    if cause.Run? {
      assert CallInv(disks[i], cause.token);
    }
  }

  // --- what a call reports ---

  /** Refused before it had the lock: for a live owner or a dead one that it met, or for a failure of its own. */
  predicate RefusalEarned(c: Call, result: Result) {
    || result == SetupFailed
    || (result == TimedOut && c.met.Some? && c.met.value.alive)
    || (result == DeadOwner && c.met.Some? && !c.met.value.alive)
    || result == Malformed
  }

  /** A call that took its lock has run its operation exactly if it goes on to report that it completed. */
  predicate LeavesAsItWent(c: Call, result: Result) {
    c.took && ((result == Completed && c.ran) || (result == SetupFailed && !c.ran))
  }

  predicate StoryOk(c: Call) {
    match c.place
    case Syncing(_) => c.took && !c.ran
    case UnlinkingTemp(_, published, result) =>
      && c.took == published && !c.ran
      && if published then result == Completed || result == SetupFailed else RefusalEarned(c, result)
    case Running(_) => c.took && !c.ran
    case Reading(_, result) => LeavesAsItWent(c, result)
    case Comparing(_, _, result) => LeavesAsItWent(c, result)
    case Removing(_, result) => LeavesAsItWent(c, result)
    case Resyncing(result) => LeavesAsItWent(c, result)
    case Over(result) =>
      if c.took then LeavesAsItWent(c, result) || Unclean(result) else !c.ran && RefusalEarned(c, result)
    case _ => !c.took && !c.ran
  }

  /** Ends of a call that had the lock and did not leave it in order. */
  predicate Unclean(result: Result) {
    result == ReleaseFailed || result == ReleasedUnsynced || result == Disappeared || result == OwnershipChanged
    || result == Malformed
  }

  lemma {:induction false} StoryKeeps(d: Disk, t: Token, ev: Event)
    requires t in d.calls && StoryOk(d.calls[t])
    ensures var c := d.calls[t]; StoryOk(After(d, c, Advance(d, c.pid, t, c.place, ev)))
  {
  }

  lemma {:induction false} BegunOk(pid: Pid)
    ensures StoryOk(Begun(pid))
  {
  }

  lemma {:induction false} EveryStoryOk(disks: seq<Disk>, i: nat, t: Token)
    requires Behaviour(disks) && i < |disks| && t in disks[i].calls
    ensures StoryOk(disks[i].calls[t])
  {
    hide StoryOk, Advance;
    if i > 0 {
      assert NextAt(disks, i - 1);
      var cause :| Step(disks[i - 1], disks[i], cause);
      if t in disks[i - 1].calls {
        EveryStoryOk(disks, i - 1, t);
        if cause.Run? && cause.token == t { StoryKeeps(disks[i - 1], t, cause.ev); }
      } else {
        BegunOk(cause.pid);
      }
    }
  }

  /**
   What the end of a call means: it completed exactly if it took the lock, ran its operation and released the lock in
   order; it is refused for a live owner or a dead one only when it met that owner, and then it ran nothing; and a lock
   that it took and did not fail to release is no longer its own.
  */
  lemma {:induction false} EndsAsReported(disks: seq<Disk>, i: nat, t: Token)
    requires Behaviour(disks) && i < |disks| && t in disks[i].calls && disks[i].calls[t].place.Over?
    ensures var c := disks[i].calls[t];
      match c.place.result
      case Completed => c.took && c.ran && HolderOf(disks[i]) != Some(t)
      case SetupFailed => !c.ran && HolderOf(disks[i]) != Some(t)
      case TimedOut => !c.took && !c.ran && c.met.Some? && c.met.value.alive
      case DeadOwner => !c.took && !c.ran && c.met.Some? && !c.met.value.alive
      case ReleaseFailed => c.took
      case ReleasedUnsynced => c.took && HolderOf(disks[i]) != Some(t)
      case _ => false
  {
    EveryStoryOk(disks, i, t);
    OneHolderAndNoTampering(disks, i, t, t);
    EveryDiskKeeps(disks, i);
  }

  lemma {:induction false} OnlyRunningRuns(d: Disk, e: Disk, cause: Cause, t: Token)
    requires Step(d, e, cause) && t in d.calls && t in e.calls && !d.calls[t].ran && e.calls[t].ran
    ensures d.calls[t].place.Running? && e.calls[t].place.Reading?
  {
  }

  /** The operation runs only while its call holds the lock, from before it starts until after it ends. */
  lemma {:induction false} RunsInsideOnly(disks: seq<Disk>, i: nat, t: Token)
    requires Behaviour(disks) && i + 1 < |disks| && t in disks[i].calls && t in disks[i + 1].calls
    requires !disks[i].calls[t].ran && disks[i + 1].calls[t].ran
    ensures HolderOf(disks[i]) == Some(t) && HolderOf(disks[i + 1]) == Some(t)
  {
    hide DiskInv, Step;
    assert NextAt(disks, i);
    var cause :| Step(disks[i], disks[i + 1], cause);
    OnlyRunningRuns(disks[i], disks[i + 1], cause, t);
    EveryDiskKeeps(disks, i);
    EveryDiskKeeps(disks, i + 1);
    InsideIsHolder(disks[i], t);
    InsideIsHolder(disks[i + 1], t);
  }

  /** A contender that inspects a lock always finds a complete owner record: publication by hard link never shows a
      partial one. */
  lemma {:induction false} PublishedOwnerIsComplete(disks: seq<Disk>, i: nat)
    requires Behaviour(disks) && i < |disks|
    ensures disks[i].lock.Some? ==> Publication(disks[i]).Some?
  {
    EveryDiskKeeps(disks, i);
  }
}
