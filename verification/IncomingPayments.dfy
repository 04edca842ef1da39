/**
 Waiting for an incoming payment: newest-first paged scans of the explorer feed, incremental polls above a moving floor,
 and the confirming rescan. Feeds are read as snapshots; pages and failures are chosen by the environment.
*/
module IncomingPayments {
  import opened Options

  const POLL_PAGE_SIZE: nat := 50
  const RESCAN_OVERLAP_MS: int := 300_000
  const FULL_RESCAN_INTERVAL_MS: int := 30_000
  const NANOS_PER_MILLI: int := 1_000_000

  datatype Kind = TokenTransfer | Mint | Burn | Other

  /** A feed row; addresses and token ids compare without regard to case and are modelled as numbers. */
  datatype Row = Row(hash: nat, opIndex: nat, kind: Kind, from: nat, to: nat, token: nat,
                     amount: nat, timestampNs: int) {
    /** The submission time floored to milliseconds. */
    function Ms(): int { timestampNs / NANOS_PER_MILLI }
  }

  datatype Criteria = Criteria(address: nat, amount: nat, token: nat, from: Option<nat>,
                               sinceMs: int, sinceNs: Option<int>) {
    function SinceNs(): int { sinceNs.GetOr(sinceMs * NANOS_PER_MILLI) }

    /** `sinceNs` is the same instant as `sinceMs`, only finer. */
    predicate Consistent() { SinceNs() / NANOS_PER_MILLI == sinceMs }
  }

  predicate Matches(t: Row, c: Criteria) {
    && (t.kind == TokenTransfer || t.kind == Mint)
    && t.to == c.address
    && t.from != c.address
    && t.amount == c.amount
    && t.token == c.token
    && (c.from == None || c.from == Some(t.from))
    && t.timestampNs >= c.SinceNs()
  }

  type Feed = seq<Row>

  ghost predicate NewestFirst(feed: Feed) {
    forall i, j :: 0 <= i < j < |feed| ==> feed[i].timestampNs >= feed[j].timestampNs
  }

  ghost predicate HasMatch(feed: Feed, c: Criteria) {
    exists i :: 0 <= i < |feed| && Matches(feed[i], c)
  }

  ghost predicate HasMatchFrom(feed: Feed, c: Criteria, floorMs: int) {
    exists i :: 0 <= i < |feed| && Matches(feed[i], c) && feed[i].Ms() >= floorMs
  }

  /** `m` is the earliest matching row; among equally early ones, the first in feed order. */
  ghost predicate IsEarliest(feed: Feed, c: Criteria, m: Option<Row>) {
    match m
    case None => !HasMatch(feed, c)
    case Some(t) => exists i :: 0 <= i < |feed| && feed[i] == t && EarliestAt(feed, c, i)
  }

  ghost predicate EarliestAt(feed: Feed, c: Criteria, i: int)
    requires 0 <= i < |feed|
  {
    && Matches(feed[i], c)
    && (forall j :: 0 <= j < |feed| && Matches(feed[j], c) ==>
          feed[i].timestampNs <= feed[j].timestampNs && (j < i ==> feed[i].timestampNs < feed[j].timestampNs))
  }

  function Newest(feed: Feed): Option<int> {
    if feed == [] then None else Some(feed[0].Ms())
  }

  /** Rows from `read` on are older than the floor. */
  ghost predicate BelowFloor(feed: Feed, read: nat, floorMs: int) {
    forall i :: read <= i < |feed| ==> feed[i].Ms() < floorMs
  }

  lemma {:induction false} OlderRowsAreOlderInMs(feed: Feed, i: nat, j: nat)
    requires NewestFirst(feed) && i <= j < |feed|
    ensures feed[j].Ms() <= feed[i].Ms()
  {
  }

  /** One page of the feed at a cursor: as many rows as the explorer cares to send, perhaps none, or a failure. */
  method ListTransfers(feed: Feed, cursor: nat) returns (ok: bool, next: nat)
    requires cursor <= |feed|
    ensures ok ==> cursor <= next <= |feed| && next - cursor <= POLL_PAGE_SIZE
  {
    ok := *;
    next := *;
    if !(cursor <= next <= |feed| && next - cursor <= POLL_PAGE_SIZE) {
      next := cursor;
    }
  }

  ghost predicate BestSoFar(feed: Feed, c: Criteria, read: nat, best: Option<Row>)
    requires read <= |feed|
  {
    IsEarliest(feed[..read], c, best)
  }

  lemma {:induction false} BestExtends(feed: Feed, c: Criteria, read: nat, best: Option<Row>)
    requires read < |feed| && BestSoFar(feed, c, read, best)
    ensures var t := feed[read];
            BestSoFar(feed, c, read + 1,
                      if Matches(t, c) && (best == None || t.timestampNs < best.value.timestampNs) then Some(t)
                      else best)
  {
    var old', new' := feed[..read], feed[..read + 1];
    assert new' == old' + [feed[read]];
    if best.Some? {
      var i :| 0 <= i < read && old'[i] == best.value && EarliestAt(old', c, i);
      if Matches(feed[read], c) && feed[read].timestampNs < best.value.timestampNs {
        assert EarliestAt(new', c, read);
      } else {
        assert EarliestAt(new', c, i);
      }
    } else if Matches(feed[read], c) {
      assert EarliestAt(new', c, read);
    }
  }

  /** The best row of some prefix of the feed that leaves out only rows older than the floor. */
  ghost predicate Scanned(feed: Feed, c: Criteria, floorMs: int, earliest: Option<Row>) {
    exists read: nat :: read <= |feed| && BelowFloor(feed, read, floorMs) && BestSoFar(feed, c, read, earliest)
  }

  /** Read the feed newest-first, page by page, until a page reaches below the floor or the feed ends. How many pages
      without rows the caller's time-out leaves room for is up to the environment. */
  method ScanIncoming(feed: Feed, c: Criteria, floorMs: int)
    returns (ok: bool, earliest: Option<Row>, newestMs: Option<int>)
    requires NewestFirst(feed)
    ensures ok ==> Scanned(feed, c, floorMs, earliest) && newestMs == Newest(feed)
  {
    var cursor := 0;
    var patience: nat := *;
    earliest, newestMs, ok := None, None, true;
    while true
      invariant 0 <= cursor <= |feed| && BestSoFar(feed, c, cursor, earliest)
      invariant newestMs == if cursor == 0 then None else Newest(feed)
      decreases |feed| - cursor, patience
    {
      var next;
      ok, next := ListTransfers(feed, cursor);
      if !ok { return; }
      for i := cursor to next
        invariant BestSoFar(feed, c, i, earliest)
      {
        BestExtends(feed, c, i, earliest);
        if Matches(feed[i], c) && (earliest == None || feed[i].timestampNs < earliest.value.timestampNs) {
          earliest := Some(feed[i]);
        }
      }
      if newestMs == None && next > cursor { newestMs := Some(feed[cursor].Ms()); }
      var passedFloor := next > cursor && feed[next - 1].Ms() < floorMs;
      if passedFloor || next == |feed| {
        forall i | next <= i < |feed|
          ensures feed[i].Ms() < floorMs
        {
          OlderRowsAreOlderInMs(feed, next - 1, i);
        }
        assert BelowFloor(feed, next, floorMs);
        return;
      }
      if next == cursor {
        if patience == 0 { return false, None, None; }
        patience := patience - 1;
      }
      cursor := next;
    }
  }

  /** A scan down to `since` has seen every row that can match. */
  lemma {:induction false} FullScanSeesAll(feed: Feed, c: Criteria, m: Option<Row>)
    requires c.Consistent() && Scanned(feed, c, c.sinceMs, m)
    ensures IsEarliest(feed, c, m)
  {
    var read: nat :| read <= |feed| && BelowFloor(feed, read, c.sinceMs) && BestSoFar(feed, c, read, m);
    forall i | read <= i < |feed|
      ensures !Matches(feed[i], c)
    {
      assert feed[i].Ms() < c.SinceNs() / NANOS_PER_MILLI;
    }
    if m.Some? {
      var i :| 0 <= i < read && feed[..read][i] == m.value && EarliestAt(feed[..read], c, i);
      assert feed[i] == m.value;
      forall j | 0 <= j < |feed| && Matches(feed[j], c)
        ensures feed[i].timestampNs <= feed[j].timestampNs && (j < i ==> feed[i].timestampNs < feed[j].timestampNs)
      {
        assert feed[..read][j] == feed[j];
      }
      assert EarliestAt(feed, c, i);
    } else {
      assert forall i :: 0 <= i < read ==> feed[..read][i] == feed[i];
    }
  }

  // --- feeds over time ---

  /** Rows never vanish, and a row that appears late is at most the overlap behind the newest row then visible. */
  ghost predicate Timely(before: Feed, after: Feed) {
    && (forall t :: t in before ==> t in after)
    && (before != [] ==> forall t :: t in after && t !in before ==> t.Ms() >= before[0].Ms() - RESCAN_OVERLAP_MS)
  }

  /** Timeliness from poll to poll adds up, so polls that failed in between do not matter. */
  lemma {:induction false} TimelyIsTransitive(a: Feed, b: Feed, c: Feed)
    requires NewestFirst(a) && NewestFirst(b) && Timely(a, b) && Timely(b, c)
    ensures Timely(a, c)
  {
    if a != [] {
      assert a[0] in b;
      var i :| 0 <= i < |b| && b[i] == a[0];
      OlderRowsAreOlderInMs(b, 0, i);
    }
  }

  lemma {:induction false} MatchSurvives(before: Feed, after: Feed, c: Criteria)
    requires HasMatch(before, c) && forall t :: t in before ==> t in after
    ensures HasMatch(after, c)
  {
    var i :| 0 <= i < |before| && Matches(before[i], c);
    assert before[i] in after;
  }

  /** The floor is safe for the rows already read without a match: any later match lies above it. */
  ghost predicate FloorOk(seen: Feed, c: Criteria, floorMs: int) {
    && !HasMatch(seen, c)
    && floorMs >= c.sinceMs
    && (if seen == [] then floorMs == c.sinceMs
        else floorMs == c.sinceMs || floorMs <= seen[0].Ms() - RESCAN_OVERLAP_MS)
  }

  /** Under timeliness, what lies above the floor decides whether the whole feed holds a match. */
  lemma {:induction false} IncrementalMeansFull(seen: Feed, feed: Feed, c: Criteria, floorMs: int)
    requires c.Consistent() && FloorOk(seen, c, floorMs) && Timely(seen, feed)
    ensures HasMatchFrom(feed, c, floorMs) <==> HasMatch(feed, c)
  {
    if HasMatch(feed, c) {
      var i :| 0 <= i < |feed| && Matches(feed[i], c);
      assert feed[i].timestampNs / NANOS_PER_MILLI >= c.SinceNs() / NANOS_PER_MILLI;
      assert feed[i] !in seen;
      assert feed[i].Ms() >= floorMs;
    }
  }

  /** One poll's surroundings: the clock, the feed it scans, and the feed its confirming rescan would see. */
  datatype PollInput = PollInput(now: int, feed: Feed, later: Feed)

  ghost predicate WellFormedPoll(p: PollInput) {
    NewestFirst(p.feed) && NewestFirst(p.later) && forall t :: t in p.feed ==> t in p.later
  }

  /** A scan finds a match if there is one from the floor on, and only if the feed holds one. */
  lemma {:induction false} ScannedFinds(feed: Feed, c: Criteria, floorMs: int, m: Option<Row>)
    requires Scanned(feed, c, floorMs, m)
    ensures HasMatchFrom(feed, c, floorMs) ==> m.Some?
    ensures m.Some? ==> HasMatch(feed, c)
  {
    var read: nat :| read <= |feed| && BelowFloor(feed, read, floorMs) && BestSoFar(feed, c, read, m);
    if m.Some? {
      var i :| 0 <= i < read && feed[..read][i] == m.value && EarliestAt(feed[..read], c, i);
      assert Matches(feed[i], c);
    } else {
      assert forall i :: 0 <= i < read ==> feed[..read][i] == feed[i];
    }
  }

  method FullScan(feed: Feed, c: Criteria) returns (ok: bool, found: Option<Row>, newestMs: Option<int>)
    requires NewestFirst(feed) && c.Consistent()
    ensures ok ==> IsEarliest(feed, c, found) && newestMs == Newest(feed)
  {
    ok, found, newestMs := ScanIncoming(feed, c, c.sinceMs);
    if ok { FullScanSeesAll(feed, c, found); }
  }

  /** A scan above the floor; a match is confirmed by a scan of the whole window before it is returned. */
  method ConfirmedScan(p: PollInput, c: Criteria, floorMs: int)
    returns (ok: bool, found: Option<Row>, newestMs: Option<int>)
    requires WellFormedPoll(p) && c.Consistent()
    ensures ok ==> newestMs == Newest(p.feed)
    ensures ok && found.Some? ==> HasMatch(p.feed, c) && IsEarliest(p.later, c, found)
    ensures ok && HasMatchFrom(p.feed, c, floorMs) ==> found.Some?
  {
    ok, found, newestMs := ScanIncoming(p.feed, c, floorMs);
    if !ok { return; }
    ScannedFinds(p.feed, c, floorMs, found);
    if found.Some? {
      var confirmed, newest';
      ok, confirmed, newest' := FullScan(p.later, c);
      MatchSurvives(p.feed, p.later, c);
      if confirmed.Some? { found := confirmed; }
    }
  }

  /** The rows that are not the payment asked for, each reason by itself. */
  predicate Misses(t: Row, c: Criteria) {
    || t.kind == Burn || t.kind == Other
    || t.to != c.address || t.from == c.address
    || t.amount < c.amount || t.amount > c.amount
    || t.token != c.token
    || (c.from.Some? && t.from != c.from.value)
    || t.timestampNs < (if c.sinceNs.Some? then c.sinceNs.value else c.sinceMs * 1_000_000)
  }

  /** A row matches exactly if there is no reason against it. */
  lemma {:induction false} NoneMatches(feed: Feed, c: Criteria)
    ensures HasMatch(feed, c) <==> exists t :: t in feed && !Misses(t, c)
  {
    assert forall t :: Matches(t, c) <==> !Misses(t, c);
    if HasMatch(feed, c) {
      var i :| 0 <= i < |feed| && Matches(feed[i], c);
      assert feed[i] in feed;
    }
  }

  lemma {:induction false} EarliestIsDue(feed: Feed, c: Criteria, m: Option<Row>)
    requires IsEarliest(feed, c, m)
    ensures m.Some? ==> !Misses(m.value, c)
    ensures m.Some? <==> HasMatch(feed, c)
  {
  }

  /** Never below `since`, and the overlap behind the newest row. */
  function Floor(sinceMs: int, newestMs: int): int {
    if sinceMs > newestMs - RESCAN_OVERLAP_MS then sinceMs else newestMs - RESCAN_OVERLAP_MS
  }

  /** After a poll without a match, the floor behind its newest row is safe. */
  lemma {:induction false} FloorMoves(seen: Feed, feed: Feed, c: Criteria, floorMs: int)
    requires FloorOk(seen, c, floorMs) && Timely(seen, feed) && !HasMatch(feed, c)
    ensures FloorOk(feed, c, if feed == [] then floorMs else Floor(c.sinceMs, feed[0].Ms()))
  {
    assert seen != [] ==> seen[0] in feed;
  }

  class Watcher {
    const criteria: Criteria
    const deadlineMs: int
    var floorMs: int
    var lastFullScanMs: Option<int>
    /** The feed of the last successful poll. */
    ghost var seen: Feed
    /** So far every feed has been timely and no poll has found a payment. */
    ghost var timely: bool

    ghost predicate Valid()
      reads this
    {
      && criteria.Consistent()
      && NewestFirst(seen)
      && floorMs >= criteria.sinceMs
      && (timely ==> FloorOk(seen, criteria, floorMs))
    }

    constructor (criteria: Criteria, deadlineMs: int)
      requires criteria.Consistent()
      ensures Valid() && this.criteria == criteria && this.deadlineMs == deadlineMs && timely && seen == []
              && lastFullScanMs == None
    {
      this.criteria, this.deadlineMs := criteria, deadlineMs;
      floorMs, lastFullScanMs := criteria.sinceMs, None;
      seen, timely := [], true;
    }

    predicate MustScanFully(now: int)
      reads this
    {
      || lastFullScanMs == None
      || now - lastFullScanMs.value >= FULL_RESCAN_INTERVAL_MS
      || deadlineMs - now <= FULL_RESCAN_INTERVAL_MS
    }

    /** One poll. A payment it returns is the earliest match of the whole feed it was confirmed on; it returns one
        exactly when a full scan would find one, always when it scans fully and else as long as feeds have been
        timely. It scans fully at first, half a minute after the last full scan, and in the last half minute. */
    method Poll(p: PollInput) returns (ok: bool, found: Option<Row>)
      requires Valid() && WellFormedPoll(p)
      modifies this
      ensures Valid()
      ensures old(MustScanFully(p.now)) <==>
        old(lastFullScanMs) == None || p.now >= old(lastFullScanMs).value + 30_000 || p.now >= deadlineMs - 30_000
      ensures !ok ==> found == None && unchanged(this)
      ensures ok ==> seen == p.feed && timely == (found == None && old(timely) && Timely(old(seen), p.feed))
      ensures found.Some? ==> ok && !Misses(found.value, criteria)
                              && (IsEarliest(p.feed, criteria, found) || IsEarliest(p.later, criteria, found))
      ensures ok && (old(MustScanFully(p.now)) || (old(timely) && Timely(old(seen), p.feed)))
              ==> (found.Some? <==> exists t :: t in p.feed && !Misses(t, criteria))
      ensures ok && old(MustScanFully(p.now)) ==> IsEarliest(p.feed, criteria, found)
      ensures ok ==> lastFullScanMs == if old(MustScanFully(p.now)) || found.Some? then Some(p.now)
                                       else old(lastFullScanMs)
      ensures ok ==> floorMs == if p.feed == [] then old(floorMs)
                                else if p.feed[0].Ms() - 300_000 < criteria.sinceMs then criteria.sinceMs
                                else p.feed[0].Ms() - 300_000
    {
      hide Timely, FloorOk, IsEarliest, HasMatch, HasMatchFrom, NewestFirst, Misses;
      NoneMatches(p.feed, criteria);
      var full := MustScanFully(p.now);
      var newestMs;
      if full {
        ok, found, newestMs := FullScan(p.feed, criteria);
      } else {
        if timely && Timely(seen, p.feed) { IncrementalMeansFull(seen, p.feed, criteria, floorMs); }
        ok, found, newestMs := ConfirmedScan(p, criteria, floorMs);
      }
      if !ok { return false, None; }
      if found.Some? { EarliestIsDue(if IsEarliest(p.feed, criteria, found) then p.feed
                                     else p.later, criteria, found); }
      if full { EarliestIsDue(p.feed, criteria, found); }
      if found == None && timely && Timely(seen, p.feed) { FloorMoves(seen, p.feed, criteria, floorMs); }
      if newestMs.Some? {
        floorMs := Floor(criteria.sinceMs, newestMs.value);
      }
      if full || found.Some? { lastFullScanMs := Some(p.now); }
      timely := found == None && timely && Timely(seen, p.feed);
      seen := p.feed;
    }

    /** Poll until a payment is found or the inputs, and with them the time, run out. */
    method Wait(polls: seq<PollInput>) returns (found: Option<Row>, ghost answered: seq<bool>)
      requires Valid() && seen == [] && timely
      requires forall i :: 0 <= i < |polls| ==> WellFormedPoll(polls[i])
      modifies this
      ensures |answered| <= |polls|
      ensures found.Some? ==> !Misses(found.value, criteria)
      ensures found.Some? ==> exists i :: 0 <= i < |polls|
                                          && (IsEarliest(polls[i].feed, criteria, found)
                                              || IsEarliest(polls[i].later, criteria, found))
      ensures found == None ==> |answered| == |polls|
      ensures found == None && TimelyThroughout(polls) ==> forall i :: 0 <= i < |polls| && answered[i]
                                                               ==> !HasMatch(polls[i].feed, criteria)
    {
      answered := [];
      for i := 0 to |polls|
        invariant Valid() && |answered| == i
        invariant seen == [] || exists k :: 0 <= k < i && seen == polls[k].feed
        invariant TimelyThroughout(polls) ==> timely && forall m :: 0 <= m < i && answered[m]
                                                            ==> !HasMatch(polls[m].feed, criteria)
      {
        if TimelyThroughout(polls) && seen != [] {
          ghost var k :| 0 <= k < i && seen == polls[k].feed;
          TimelyBetween(polls, k, i);
        }
        var ok;
        ok, found := Poll(polls[i]);
        answered := answered + [ok];
        if found.Some? { return; }
      }
      found := None;
    }
  }

  /** From each poll to the next, failed or not, the feed evolves in a timely way. */
  ghost predicate TimelyThroughout(polls: seq<PollInput>) {
    forall i :: 0 <= i < |polls| - 1 ==> Timely(polls[i].feed, polls[i + 1].feed)
  }

  lemma {:induction false} TimelyBetween(polls: seq<PollInput>, i: nat, j: nat)
    requires TimelyThroughout(polls) && i < j < |polls|
    requires forall m :: 0 <= m < |polls| ==> WellFormedPoll(polls[m])
    ensures Timely(polls[i].feed, polls[j].feed)
  {
    if i + 1 < j {
      TimelyBetween(polls, i, j - 1);
      assert WellFormedPoll(polls[i]) && WellFormedPoll(polls[j - 1]);
      assert Timely(polls[j - 1].feed, polls[j - 1 + 1].feed);
      TimelyIsTransitive(polls[i].feed, polls[j - 1].feed, polls[j].feed);
    }
  }
}
