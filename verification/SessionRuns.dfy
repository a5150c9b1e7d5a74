/** What the session manager keeps over every run: events alternate, registrations leave once,
    counts match the streams, and nothing outlives a shutdown. */
module SessionRuns {
  import opened Bytes
  import opened Counting
  import opened Messages
  import opened Sessions

  // ---------------------------------------------------------------- tier entries

  /** In how many ways entry e is in the table or has left it. */
  ghost function Ways(m: Manager, e: nat): nat {
    Bit(InTable(m, e)) + Bit(e in m.unregistered) + multiset(m.owed)[e] + multiset(m.stopped)[e]
  }

  ghost predicate EntriesOk(m: Manager) {
    && (forall p | p in m.tiers ::
          m.tiers[p] < |m.entries| && m.entries[m.tiers[p]].peer == p && m.entries[m.tiers[p]].accepted)
    && (forall e: nat :: Ways(m, e) == Bit(e < |m.entries|))
    && (forall e | e in m.unregistered :: e < |m.entries| && m.entries[e].accepted)
  }

  /** An entry is in the table exactly under the peer that registered it. */
  lemma InTableAt(m: Manager, e: nat)
    requires forall p | p in m.tiers :: m.tiers[p] < |m.entries| && m.entries[m.tiers[p]].peer == p
    ensures InTable(m, e) <==> e < |m.entries| && m.entries[e].peer in m.tiers && m.tiers[m.entries[e].peer] == e
  {
  }

  lemma RegisterEntries(m: Manager, p: Peer, tier: Tier)
    requires EntriesOk(m)
    ensures EntriesOk(Register(m, p, tier))
  {
    var t := Register(m, p, tier);
    forall e: nat ensures Ways(t, e) == Bit(e < |t.entries|) {
      assert Ways(m, e) == Bit(e < |m.entries|);
      InTableAt(m, e);
      InTableAt(t, e);
    }
  }

  lemma UnregisterEntries(m: Manager, p: Peer, entry: Option<nat>)
    requires EntriesOk(m)
    ensures EntriesOk(Unregister(m, p, entry))
  {
    var t := Unregister(m, p, entry);
    forall e: nat ensures Ways(t, e) == Bit(e < |t.entries|) {
      assert Ways(m, e) == Bit(e < |m.entries|);
      InTableAt(m, e);
      InTableAt(t, e);
    }
  }

  lemma RemoveEntries(m: Manager, p: Peer)
    requires EntriesOk(m)
    ensures EntriesOk(Remove(m, p))
  {
    var t := Remove(m, p);
    forall e: nat ensures Ways(t, e) == Bit(e < |t.entries|) {
      assert Ways(m, e) == Bit(e < |m.entries|);
      InTableAt(m, e);
      InTableAt(t, e);
    }
  }

  lemma ShutdownEntries(m: Manager, order: seq<nat>)
    requires EntriesOk(m) && Lists(m, order)
    ensures EntriesOk(Shutdown(m, order))
  {
    var t := Shutdown(m, order);
    forall e: nat ensures Ways(t, e) == Bit(e < |t.entries|) {
      assert Ways(m, e) == Bit(e < |m.entries|);
      assert multiset(order)[e] == Bit(InTable(m, e));
    }
  }

  lemma CallStopEntries(m: Manager, k: nat)
    requires EntriesOk(m)
    ensures EntriesOk(CallStop(m, k))
  {
    if k < |m.owed| {
      var t := CallStop(m, k);
      assert m.owed == m.owed[..k] + [m.owed[k]] + m.owed[k + 1..];
      forall e: nat ensures Ways(t, e) == Bit(e < |t.entries|) {
        assert Ways(m, e) == Bit(e < |m.entries|);
        assert InTable(t, e) <==> InTable(m, e);
      }
    }
  }

  lemma StreamEntries(m: Manager, p: Peer)
    requires EntriesOk(m)
    ensures EntriesOk(Begin(m, p)) && EntriesOk(End(m, p))
  {
    SameEntries(m, Begin(m, p));
    SameEntries(m, End(m, p));
  }

  lemma SameEntries(m: Manager, t: Manager)
    requires EntriesOk(m) && t.tiers == m.tiers && t.entries == m.entries && t.unregistered == m.unregistered
    requires t.owed == m.owed && t.stopped == m.stopped
    ensures EntriesOk(t)
  {
    forall e: nat ensures Ways(t, e) == Bit(e < |t.entries|) {
      assert Ways(m, e) == Bit(e < |m.entries|);
    }
  }

  lemma NextEntries(m: Manager, op: Op)
    requires EntriesOk(m) && Legal(m, op)
    ensures EntriesOk(Next(m, op))
  {
    match op
    case DoRegister(p, tier) => RegisterEntries(m, p, tier);
    case DoUnregister(p, entry) => UnregisterEntries(m, p, entry);
    case DoBegin(p) => StreamEntries(m, p);
    case DoEnd(p) => StreamEntries(m, p);
    case DoRemove(p) => RemoveEntries(m, p);
    case DoShutdown(order) => ShutdownEntries(m, order);
    case DoCallStop(k) => CallStopEntries(m, k);
  }

  // ---------------------------------------------------------------- sessions and events

  /** Whether the last event of peer p is that it connected. */
  function On(events: seq<Event>, p: Peer): bool {
    if events == [] then false
    else
      var last := events[|events| - 1];
      if last.peer == p then last.Connected? else On(events[..|events| - 1], p)
  }

  /** The events of peer p are CONNECTED, DISCONNECT, CONNECTED, ... */
  predicate Alternates(events: seq<Event>, p: Peer) {
    events == [] ||
    var front, last := events[..|events| - 1], events[|events| - 1];
    Alternates(front, p) && (last.peer == p ==> (last.Connected? <==> !On(front, p)))
  }

  lemma EventSnoc(events: seq<Event>, e: Event, p: Peer)
    ensures On(events + [e], p) == if e.peer == p then e.Connected? else On(events, p)
    ensures Alternates(events + [e], p) <==>
      Alternates(events, p) && (e.peer == p ==> (e.Connected? <==> !On(events, p)))
  {
    assert (events + [e])[..|events|] == events;
  }

  ghost predicate PeerOk(m: Manager, p: Peer) {
    && Alternates(m.events, p)
    && (!m.closing ==> (On(m.events, p) <==> p in m.sessions))
    && (p in m.sessions ==> m.sessions[p].streams >= 1)
    && (m.closing ==> m.sessions == map[] && m.tiers == map[])
  }

  lemma NextPeer(m: Manager, op: Op, p: Peer)
    requires PeerOk(m, p)
    ensures PeerOk(Next(m, op), p)
  {
    match op
    case DoBegin(q) => BeginPeer(m, q, p);
    case DoEnd(q) => EndPeer(m, q, p);
    case DoRemove(q) => RemovePeerOk(m, q, p);
    case _ =>
  }

  lemma BeginPeer(m: Manager, q: Peer, p: Peer)
    requires PeerOk(m, p)
    ensures PeerOk(Begin(m, q), p)
  {
    EventSnoc(m.events, Connected(q, TierOf(m, q)), p);
  }

  lemma EndPeer(m: Manager, q: Peer, p: Peer)
    requires PeerOk(m, p)
    ensures PeerOk(End(m, q), p)
  {
    EventSnoc(m.events, Disconnected(q), p);
  }

  lemma RemovePeerOk(m: Manager, q: Peer, p: Peer)
    requires PeerOk(m, p)
    ensures PeerOk(Remove(m, q), p)
  {
    EventSnoc(m.events, Disconnected(q), p);
  }

  lemma {:induction false} RunOk(ops: seq<Op>, p: Peer)
    requires LegalRun(NEW, ops)
    ensures EntriesOk(After(NEW, ops)) && PeerOk(After(NEW, ops), p)
  {
    if ops != [] {
      RunOk(ops[..|ops| - 1], p);
      NextEntries(After(NEW, ops[..|ops| - 1]), ops[|ops| - 1]);
      NextPeer(After(NEW, ops[..|ops| - 1]), ops[|ops| - 1], p);
    }
  }

  // ---------------------------------------------------------------- main results

  /** Each peer's events alternate, starting with CONNECTED, and until a shutdown the last
      one says exactly whether the peer has a session. */
  lemma EventsAlternate(ops: seq<Op>, p: Peer)
    requires LegalRun(NEW, ops)
    ensures var m := After(NEW, ops);
      Alternates(m.events, p) && (!m.closing ==> (On(m.events, p) <==> p in m.sessions))
  {
    RunOk(ops, p);
  }

  /** Every entry ever made is at any moment in exactly one situation: in the table, taken out
      by its owner, or having its stop called, once; a refused entry has its stop called. */
  lemma EntryLeavesOnce(ops: seq<Op>, e: nat)
    requires LegalRun(NEW, ops) && e < |After(NEW, ops).entries|
    ensures var m := After(NEW, ops);
      && Ways(m, e) == 1
      && multiset(m.owed)[e] + multiset(m.stopped)[e] <= 1
      && (!m.entries[e].accepted ==> multiset(m.owed)[e] + multiset(m.stopped)[e] == 1)
  {
    RunOk(ops, 0);
    var m := After(NEW, ops);
    assert Ways(m, e) == Bit(e < |m.entries|);
    if !m.entries[e].accepted {
      InTableAt(m, e);
    }
  }

  /** What is decided about an entry stays decided. */
  lemma NextKeeps(m: Manager, op: Op, e: nat)
    ensures var t := Next(m, op);
      && m.unregistered <= t.unregistered
      && multiset(m.owed)[e] + multiset(m.stopped)[e] <= multiset(t.owed)[e] + multiset(t.stopped)[e]
      && |m.entries| <= |t.entries|
  {
    if op.DoCallStop? && op.k < |m.owed| {
      assert m.owed == m.owed[..op.k] + [m.owed[op.k]] + m.owed[op.k + 1..];
    }
  }

  /** An entry that has left the table never comes back to it. */
  lemma LeftForGood(before: seq<Op>, after: seq<Op>, e: nat)
    requires LegalRun(NEW, before + after)
    requires LegalRun(NEW, before) && e < |After(NEW, before).entries| && !InTable(After(NEW, before), e)
    ensures var m := After(NEW, before + after); e < |m.entries| && !InTable(m, e)
  {
    RunOk(before + after, 0);
    RunOk(before, 0);
    Decided(before, after, e);
    assert Ways(After(NEW, before), e) == 1;
    assert Ways(After(NEW, before + after), e) == 1;
  }

  lemma {:induction false} Decided(before: seq<Op>, after: seq<Op>, e: nat)
    ensures var m, t := After(NEW, before), After(NEW, before + after);
      && m.unregistered <= t.unregistered
      && multiset(m.owed)[e] + multiset(m.stopped)[e] <= multiset(t.owed)[e] + multiset(t.stopped)[e]
      && |m.entries| <= |t.entries|
  {
    if after == [] {
      assert before + after == before;
    } else {
      var k := |after| - 1;
      Decided(before, after[..k], e);
      assert (before + after)[..|before + after| - 1] == before + after[..k];
      NextKeeps(After(NEW, before + after[..k]), after[k], e);
    }
  }

  /** The four causes for which entry e, registered by peer p, leaves the table. */
  predicate Evicts(m: Manager, op: Op, p: Peer, e: nat) {
    match op
    case DoUnregister(q, entry) => q == p && entry == Some(e)
    case DoRemove(q) => q == p && p in m.sessions
    case DoShutdown(_) => true
    case DoRegister(q, _) => q == p
    case _ => false
  }

  lemma LeavesTable(m: Manager, op: Op, e: nat)
    requires EntriesOk(m) && PeerOk(m, 0) && InTable(m, e)
    ensures e < |m.entries| && (!InTable(Next(m, op), e) <==> Evicts(m, op, m.entries[e].peer, e))
  {
    InTableAt(m, e);
    var t, p := Next(m, op), m.entries[e].peer;
    if p in t.tiers && t.tiers[p] == e {
      assert InTable(t, e);
    }
    if InTable(t, e) {
      var q :| q in t.tiers && t.tiers[q] == e;
      assert q in m.tiers && m.tiers[q] == e;
    }
  }

  /** An entry in the table leaves it by one of the four causes and by no other: its owner's
      unregister, the removal of its own peer's session, a replacement for that peer or a
      shutdown. Nobody else's stale unregister evicts it. */
  lemma OnlyOwnCausesEvict(ops: seq<Op>, op: Op, e: nat)
    requires LegalRun(NEW, ops) && Legal(After(NEW, ops), op) && InTable(After(NEW, ops), e)
    ensures var m := After(NEW, ops);
      e < |m.entries| && (!InTable(Next(m, op), e) <==> Evicts(m, op, m.entries[e].peer, e))
  {
    RunOk(ops, 0);
    LeavesTable(After(NEW, ops), op, e);
  }

  /** Once a shutdown has begun there is no session and no registered tier, nothing new is
      admitted, nothing more is reported, and no handler is added. */
  lemma {:induction false} NothingOutlivesShutdown(before: seq<Op>, after: seq<Op>)
    requires LegalRun(NEW, before + after) && LegalRun(NEW, before) && After(NEW, before).closing
    ensures var m, t := After(NEW, before), After(NEW, before + after);
      && t.closing && t.sessions == map[] && t.tiers == map[] && t.events == m.events && t.handlers <= m.handlers
  {
    RunOk(before, 0);
    if after == [] {
      assert before + after == before;
    } else {
      var k := |after| - 1;
      assert (before + after)[..|before + after| - 1] == before + after[..k];
      NothingOutlivesShutdown(before, after[..k]);
    }
  }

  // ---------------------------------------------------------------- stream counts

  function Count(m: Manager, p: Peer): int {
    if p in m.sessions then m.sessions[p].streams else 0
  }

  /** Streams of peer p begun, that is, BeginStream calls that returned true. */
  function Begun(ops: seq<Op>, p: Peer): nat {
    if ops == [] then 0
    else
      var front := ops[..|ops| - 1];
      Begun(front, p) + Bit(ops[|ops| - 1] == DoBegin(p) && !After(NEW, front).closing)
  }

  function Ended(ops: seq<Op>, p: Peer): nat {
    if ops == [] then 0 else Ended(ops[..|ops| - 1], p) + Bit(ops[|ops| - 1] == DoEnd(p))
  }

  /** No stream ends that did not begin. */
  predicate Paired(ops: seq<Op>, p: Peer) {
    Ended(ops, p) <= Begun(ops, p) && (ops == [] || Paired(ops[..|ops| - 1], p))
  }

  /** The last operation tore a live session of p down from outside. */
  predicate Torn(ops: seq<Op>, p: Peer) {
    ops != [] && p in After(NEW, ops[..|ops| - 1]).sessions
    && (ops[|ops| - 1] == DoRemove(p) || ops[|ops| - 1].DoShutdown?)
  }

  predicate NeverTorn(ops: seq<Op>, p: Peer) {
    !Torn(ops, p) && (ops == [] || NeverTorn(ops[..|ops| - 1], p))
  }

  /** The session's count was right after every operation so far. */
  predicate AlwaysRight(ops: seq<Op>, p: Peer) {
    Count(After(NEW, ops), p) == Begun(ops, p) - Ended(ops, p) && (ops == [] || AlwaysRight(ops[..|ops| - 1], p))
  }

  /** A session's count is begun minus ended streams after every operation if and only if no
      Remove and no Shutdown ever hit a live session of that peer. */
  lemma {:induction false} CountExactly(ops: seq<Op>, p: Peer)
    requires LegalRun(NEW, ops) && Paired(ops, p)
    ensures AlwaysRight(ops, p) <==> NeverTorn(ops, p)
  {
    if ops != [] {
      var front, last := ops[..|ops| - 1], ops[|ops| - 1];
      CountExactly(front, p);
      RunOk(front, p);
      if AlwaysRight(front, p) {
        CountStep(front, last, p);
      }
    }
  }

  lemma CountStep(front: seq<Op>, last: Op, p: Peer)
    requires PeerOk(After(NEW, front), p) && Count(After(NEW, front), p) == Begun(front, p) - Ended(front, p)
    requires Ended(front + [last], p) <= Begun(front + [last], p)
    ensures var ops := front + [last];
      Count(After(NEW, ops), p) == Begun(ops, p) - Ended(ops, p) <==> !Torn(ops, p)
  {
    var ops := front + [last];
    assert ops[..|ops| - 1] == front;
  }

  function AllBegun(ops: seq<Op>): nat {
    if ops == [] then 0
    else
      var front := ops[..|ops| - 1];
      AllBegun(front) + Bit(ops[|ops| - 1].DoBegin? && !After(NEW, front).closing)
  }

  function AllEnded(ops: seq<Op>): nat {
    if ops == [] then 0 else AllEnded(ops[..|ops| - 1]) + Bit(ops[|ops| - 1].DoEnd?)
  }

  /** What Shutdown waits for is exactly the streams begun and not ended, removals or not. */
  lemma {:induction false} HandlersExactly(ops: seq<Op>)
    ensures After(NEW, ops).handlers == AllBegun(ops) - AllEnded(ops)
  {
    if ops != [] {
      HandlersExactly(ops[..|ops| - 1]);
    }
  }

  /** Shutdown returns once every handler is done. */
  predicate CanReturn(m: Manager) {
    m.closing && m.handlers == 0
  }

  predicate AllPaired(ops: seq<Op>) {
    AllEnded(ops) <= AllBegun(ops) && (ops == [] || AllPaired(ops[..|ops| - 1]))
  }

  /** When a shutdown can return, every stream that was ever begun has ended, and none begins
      or ends afterwards, so it can return from then on. */
  lemma {:induction false} ShutdownReturnsLast(before: seq<Op>, after: seq<Op>)
    requires AllPaired(before + after) && CanReturn(After(NEW, before))
    ensures AllBegun(before) == AllEnded(before)
    ensures CanReturn(After(NEW, before + after))
    ensures AllBegun(before + after) == AllBegun(before) && AllEnded(before + after) == AllEnded(before)
  {
    HandlersExactly(before);
    if after == [] {
      assert before + after == before;
    } else {
      var k := |after| - 1;
      assert (before + after)[..|before + after| - 1] == before + after[..k];
      ShutdownReturnsLast(before, after[..k]);
      HandlersExactly(before + after);
    }
  }
}
