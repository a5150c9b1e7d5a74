/** How a multiplexer lets go of a flow: what a tombstone guards against and for how long,
    and how a FIN's retransmission ends. Each result is about every legal run of one
    multiplexer, whatever its peer and its channel do. */
module FlowTeardown {
  import opened Bytes
  import opened Counting
  import opened FlowTable
  import opened FlowInvariant

  function After(m: Mux, events: seq<Event>): Mux {
    if events == [] then m else Next(After(m, events[..|events| - 1]), events[|events| - 1])
  }

  // ---------------------------------------------------------------- tombstones

  /** The event would make a full tombstone table give up an entry. */
  predicate Overflows(m: Mux, e: Event) {
    match e
    case DoHandle(Fin(id), _, _) => Full(m, id)
    case DoMaintain(_, now) => |LiveTombstones(m, now).Keys + Idle(m, now)| > m.cfg.maxTombstones
    case _ => false
  }

  function TimeOf(e: Event): Bytes.Option<int> {
    match e
    case DoOpen(t) => Some(t)
    case DoHandle(_, t, _) => Some(t)
    case DoSend(_, _, t) => Some(t)
    case DoClose(_, t) => Some(t)
    case DoDataPart(_, _, _, t) => Some(t)
    case DoClosePart(_, _, t) => Some(t)
    case DoMaintain(_, t) => Some(t)
    case _ => None
  }

  /** A legal event at a moment in [from, until) that does not overflow the tombstones. */
  ghost predicate Mild(m: Mux, e: Event, from: int, until: int) {
    Legal(m, e) && !Overflows(m, e) && (TimeOf(e).Some? ==> from <= TimeOf(e).value < until)
  }

  ghost predicate MildRun(m: Mux, events: seq<Event>, from: int, until: int) {
    events == [] ||
    (MildRun(m, events[..|events| - 1], from, until) &&
     Mild(After(m, events[..|events| - 1]), events[|events| - 1], from, until))
  }

  ghost predicate Calm(m: Mux, e: Event, from: int, until: int) {
    Mild(m, e, from, until) && !e.DoShutAll?
  }

  /** The ID was the peer's to open, its flow is gone and its tombstone lasts until `until`. */
  predicate Guarded(m: Mux, id: Id, until: int) {
    !Local(m.cfg, id) && Local(m.cfg, m.next) && id !in m.flows && id in m.tombstones && m.tombstones[id] >= until
  }

  lemma NotFull(m: Mux, id: Id, all: set<Id>)
    requires m.tombstones.Keys <= all && id in all && |all| <= m.cfg.maxTombstones
    ensures !Full(m, id)
  {
    if id !in m.tombstones {
      SubsetSize(m.tombstones.Keys + {id}, all);
      assert |m.tombstones.Keys + {id}| == |m.tombstones.Keys| + 1;
    }
  }

  lemma {:induction false} ReapGuarded(m: Mux, order: seq<(Id, Id)>, now: int, id: Id, until: int, all: set<Id>)
    requires Guarded(m, id, until) && until <= now + m.cfg.ttl
    requires m.tombstones.Keys <= all && |all| <= m.cfg.maxTombstones
    requires forall k | 0 <= k < |order| :: order[k].0 in all
    ensures Guarded(Reap(m, order, now), id, until)
    ensures Reap(m, order, now).tombstones.Keys <= all && Reap(m, order, now).cfg == m.cfg
  {
    if order != [] {
      var k := |order| - 1;
      ReapGuarded(m, order[..k], now, id, until, all);
      var r := Reap(m, order[..k], now);
      NotFull(Drop(r, order[k].0), order[k].0, all);
    }
  }

  lemma GuardKept(m: Mux, e: Event, id: Id, from: int, until: int)
    requires GoodConfig(m.cfg) && Guarded(m, id, until) && Calm(m, e, from, until) && until <= from + m.cfg.ttl
    ensures Guarded(Next(m, e), id, until) && Next(m, e).cfg == m.cfg
  {
    match e
    case DoMaintain(order, now) => MaintainKeepsGuard(m, order, now, id, from, until);
    case DoHandle(frame, now, victim) => HandleKeepsGuard(m, frame, now, victim, id, from, until);
    case _ =>
  }

  lemma HandleKeepsGuard(m: Mux, frame: Frame, now: int, victim: Id, id: Id, from: int, until: int)
    requires Guarded(m, id, until) && until <= from + m.cfg.ttl && Calm(m, DoHandle(frame, now, victim), from, until)
    ensures var m' := Next(m, DoHandle(frame, now, victim)); Guarded(m', id, until) && m'.cfg == m.cfg
  {
  }

  lemma MaintainKeepsGuard(m: Mux, order: seq<(Id, Id)>, now: int, id: Id, from: int, until: int)
    requires GoodConfig(m.cfg) && Guarded(m, id, until) && until <= from + m.cfg.ttl
    requires Calm(m, DoMaintain(order, now), from, until)
    ensures Guarded(Maintain(m, order, now), id, until) && Maintain(m, order, now).cfg == m.cfg
  {
    var all := LiveTombstones(m, now).Keys + Idle(m, now);
    ReapGuarded(Swept(m, now), order, now, id, until, all);
    ReapFixed(Swept(m, now), order, now);
  }

  /** A received FIN starts the guard. */
  lemma FinGuards(m: Mux, id: Id, now: int, victim: Id)
    requires !Local(m.cfg, id) && Local(m.cfg, m.next)
    ensures Guarded(Next(m, DoHandle(Fin(id), now, victim)), id, now + m.cfg.ttl)
  {
  }

  lemma ReapOneGuards(m: Mux, id: Id, now: int, victim: Id)
    requires !Local(m.cfg, id) && Local(m.cfg, m.next)
    ensures Guarded(ReapOne(m, id, now, victim), id, now + m.cfg.ttl)
  {
  }

  lemma ReapOneKeepsGuard(m: Mux, id: Id, now: int, victim: Id, guarded: Id, until: int)
    requires Guarded(m, guarded, until) && until <= now + m.cfg.ttl && !Full(Drop(m, id), id)
    ensures Guarded(ReapOne(m, id, now, victim), guarded, until)
  {
  }

  lemma {:induction false} ReapStartsGuard(m: Mux, order: seq<(Id, Id)>, now: int, id: Id, all: set<Id>, k: nat)
    requires !Local(m.cfg, id) && Local(m.cfg, m.next)
    requires m.tombstones.Keys <= all && |all| <= m.cfg.maxTombstones
    requires forall j | 0 <= j < |order| :: order[j].0 in all
    requires k < |order| && order[k].0 == id
    ensures Guarded(Reap(m, order, now), id, now + m.cfg.ttl)
  {
    var n := |order| - 1;
    var front, last := order[..n], order[n];
    var r := Reap(m, front, now);
    assert Reap(m, order, now) == ReapOne(r, last.0, now, last.1);
    assert r.cfg == m.cfg && r.next == m.next by { ReapFixed(m, front, now); }
    if k < n {
      assert Guarded(r, id, now + m.cfg.ttl) by {
        assert front[k] == order[k];
        ReapStartsGuard(m, front, now, id, all, k);
      }
      assert r.tombstones.Keys <= all by { ReapKeys(m, front, now, all); }
      assert Guarded(ReapOne(r, last.0, now, last.1), id, now + m.cfg.ttl) by {
        NotFull(Drop(r, last.0), last.0, all);
        ReapOneKeepsGuard(r, last.0, now, last.1, id, now + m.cfg.ttl);
      }
    } else {
      ReapOneGuards(r, id, now, last.1);
    }
  }

  lemma {:induction false} ReapKeys(m: Mux, order: seq<(Id, Id)>, now: int, all: set<Id>)
    requires m.tombstones.Keys <= all && forall j | 0 <= j < |order| :: order[j].0 in all
    ensures Reap(m, order, now).tombstones.Keys <= all
  {
    if order != [] {
      ReapKeys(m, order[..|order| - 1], now, all);
    }
  }

  /** An idle reap that does not overflow the table starts the guard too. */
  lemma IdleReapGuards(m: Mux, e: Event, id: Id)
    requires e.DoMaintain? && Legal(m, e) && !Overflows(m, e) && id in Idle(m, e.now)
    requires !Local(m.cfg, id) && Local(m.cfg, m.next)
    ensures Guarded(Next(m, e), id, e.now + m.cfg.ttl)
  {
    var k :| 0 <= k < |e.order| && e.order[k].0 == id;
    ReapStartsGuard(Swept(m, e.now), e.order, e.now, id, LiveTombstones(m, e.now).Keys + Idle(m, e.now), k);
  }

  /** Nothing can bring the flow back: a tombstone guards its ID, or the mux is closed. */
  predicate Gone(m: Mux, id: Id, until: int) {
    id !in m.flows && (m.closed || Guarded(m, id, until))
  }

  lemma ClosedCreatesNothing(m: Mux, e: Event, id: Id)
    requires m.closed && id !in m.flows && Legal(m, e)
    ensures Next(m, e).closed && id !in Next(m, e).flows && Next(m, e).cfg == m.cfg
  {
  }

  lemma StaysGone(m: Mux, e: Event, id: Id, from: int, until: int)
    requires GoodConfig(m.cfg) && Gone(m, id, until) && Mild(m, e, from, until) && until <= from + m.cfg.ttl
    ensures Gone(Next(m, e), id, until) && Next(m, e).cfg == m.cfg
  {
    if m.closed {
      ClosedCreatesNothing(m, e, id);
    } else if !e.DoShutAll? {
      GuardKept(m, e, id, from, until);
    }
  }

  lemma {:induction false} RunStaysGone(m: Mux, events: seq<Event>, id: Id, from: int, until: int)
    requires GoodConfig(m.cfg) && Gone(m, id, until) && MildRun(m, events, from, until) && until <= from + m.cfg.ttl
    ensures Gone(After(m, events), id, until) && After(m, events).cfg == m.cfg
  {
    if events != [] {
      var k := |events| - 1;
      RunStaysGone(m, events[..k], id, from, until);
      StaysGone(After(m, events[..k]), events[k], id, from, until);
    }
  }

  /** The event is a FIN for this flow, or a maintenance pass that finds it idle and does not
      overflow the tombstones. */
  predicate TakesOut(m: Mux, e: Event, id: Id, now: int) {
    (e.DoHandle? && e.frame == Fin(id) && e.now == now) ||
    (e.DoMaintain? && e.now == now && id in Idle(m, now) && !Overflows(m, e))
  }

  lemma TakenOutIsGone(m: Mux, e: Event, id: Id, now: int)
    requires Legal(m, e) && TakesOut(m, e, id, now) && !Local(m.cfg, id) && Local(m.cfg, m.next)
    ensures Gone(Next(m, e), id, now + m.cfg.ttl) && Next(m, e).cfg == m.cfg
  {
    assert Next(m, e).cfg == m.cfg by { NextFixed(m, e); }
    if e.DoMaintain? {
      assert Guarded(Next(m, e), id, now + m.cfg.ttl) by { IdleReapGuards(m, e, id); }
    } else {
      assert Guarded(Next(m, e), id, now + m.cfg.ttl) by { FinGuards(m, id, now, e.victim); }
    }
  }

  /** Once a FIN or an idle reap has taken out a flow of the peer's, the peer has no flow under
      that ID for the TTL, whatever DATA comes late, in every run of legal events that does
      not overflow the tombstones, whether or not the mux is shut down on the way. */
  lemma RetiredStaysGone(m: Mux, e: Event, t: Mux, id: Id, now: int, until: int, events: seq<Event>)
    requires Ok(m) && Legal(m, e) && TakesOut(m, e, id, now) && t == Next(m, e) && until == now + m.cfg.ttl
    requires !Local(m.cfg, id) && Local(m.cfg, m.next)
    requires MildRun(t, events, now, until)
    ensures id !in After(t, events).flows
  {
    assert Gone(t, id, until) && t.cfg == m.cfg by { TakenOutIsGone(m, e, id, now); }
    RunStaysGone(t, events, id, now, until);
  }

  // ---------------------------------------------------------------- when a guard can be lost

  /** The same event, up to the choices the map iterations make. */
  predicate SameUpToChoice(e: Event, e': Event) {
    match e
    case DoHandle(Fin(id), now, _) => e'.DoHandle? && e'.frame == Fin(id) && e'.now == now
    case DoMaintain(_, now) => e'.DoMaintain? && e'.now == now
    case _ => e' == e
  }

  /** The guard was lost on the way, or every one of n retirements found room. */
  predicate Overrun(m: Mux, r: Mux, n: nat, id: Id) {
    id !in r.tombstones || |r.tombstones| == |m.tombstones| + n
  }

  lemma RetiringOne(m: Mux, r: Mux, x: Id, now: int, id: Id, n: nat) returns (victim: Id)
    requires Ok(r) && x !in r.tombstones && x != id && Overrun(m, r, n, id)
    ensures Eviction(Drop(r, x), x, victim) && Overrun(m, ReapOne(r, x, now, victim), n + 1, id)
    ensures ReapOne(r, x, now, victim).tombstones.Keys <= r.tombstones.Keys + {x}
  {
    victim := id;
    if Full(Drop(r, x), x) && id !in r.tombstones {
      assert r.tombstones.Keys != {};
      victim :| victim in r.tombstones;
    }
    var kept := if Full(Drop(r, x), x) then r.tombstones - {victim} else r.tombstones;
    assert ReapOne(r, x, now, victim).tombstones == kept[x := now + r.cfg.ttl];
    InsertSize(r.tombstones, x, now + r.cfg.ttl);
  }

  /** order retires these flows one after the other and gives up id as soon as anything has
      to be. */
  ghost predicate Retires(m: Mux, ids: set<Id>, order: seq<(Id, Id)>, now: int, id: Id) {
    && Enumerates(order, ids) && Victims(m, order, now)
    && Overrun(m, Reap(m, order, now), |ids|, id)
    && Reap(m, order, now).tombstones.Keys <= m.tombstones.Keys + ids
  }

  lemma RetiringNext(m: Mux, ids: set<Id>, front: seq<(Id, Id)>, x: Id, now: int, id: Id) returns (order: seq<(Id, Id)>)
    requires Ok(m) && Retires(m, ids, front, now, id) && x !in ids && x !in m.tombstones && x != id
    ensures Retires(m, ids + {x}, order, now, id)
  {
    var r := Reap(m, front, now);
    assert Ok(r) by { ReapOk(m, front, now); }
    assert x !in r.tombstones;
    var victim := RetiringOne(m, r, x, now, id, |ids|);
    order := front + [(x, victim)];
    assert Victims(m, order, now) && Reap(m, order, now) == ReapOne(r, x, now, victim) by {
      ReapSnoc(m, front, x, victim, now);
    }
    assert Enumerates(order, ids + {x}) by { EnumerateSnoc(front, ids, x, victim); }
    assert |ids + {x}| == |ids| + 1;
  }

  lemma {:induction false} Retiring(m: Mux, ids: set<Id>, now: int, id: Id) returns (order: seq<(Id, Id)>)
    requires Ok(m) && id in m.tombstones && ids !! m.tombstones.Keys
    ensures Retires(m, ids, order, now, id)
    decreases |ids|
  {
    if ids == {} {
      order := [];
    } else {
      var x :| x in ids;
      var rest := ids - {x};
      assert x !in m.tombstones && x != id && x !in rest && rest + {x} == ids;
      var front := Retiring(m, rest, now, id);
      order := RetiringNext(m, rest, front, x, now, id);
    }
  }

  /** A maintenance pass that overflows the tombstones can give up any guard. */
  lemma MaintenanceCanUnguard(m: Mux, now: int, id: Id) returns (order: seq<(Id, Id)>)
    requires Ok(m) && !m.closed && id in LiveTombstones(m, now)
    requires |LiveTombstones(m, now).Keys + Idle(m, now)| > m.cfg.maxTombstones
    ensures Legal(m, DoMaintain(order, now)) && id !in Next(m, DoMaintain(order, now)).tombstones
  {
    var swept, idle := Swept(m, now), Idle(m, now);
    assert Ok(swept) by { SweptOk(m, now); }
    order := Retiring(swept, idle, now, id);
    var r := Reap(swept, order, now);
    assert |r.tombstones| <= m.cfg.maxTombstones by {
      ReapOk(swept, order, now);
      ReapFixed(swept, order, now);
    }
    OverflowSize(m, now);
  }

  lemma OverflowSize(m: Mux, now: int)
    requires |LiveTombstones(m, now).Keys + Idle(m, now)| > m.cfg.maxTombstones
    ensures |Swept(m, now).tombstones| + |Idle(m, now)| > m.cfg.maxTombstones
  {
    var live, idle := LiveTombstones(m, now), Idle(m, now);
    assert |live.Keys + idle| <= |live.Keys| + |idle|;
    assert |live| == |live.Keys|;
  }

  lemma OverflowUnguards(m: Mux, e: Event, id: Id, until: int) returns (e': Event)
    requires Ok(m) && !m.closed && Guarded(m, id, until) && Overflows(m, e) && TimeOf(e).value < until
    ensures SameUpToChoice(e, e') && Legal(m, e') && id !in Next(m, e').tombstones
  {
    if e.DoMaintain? {
      var order := MaintenanceCanUnguard(m, e.now, id);
      e' := DoMaintain(order, e.now);
    } else {
      e' := DoHandle(e.frame, e.now, id);
    }
  }

  /** Exactly when a guard can be lost: a live multiplexer keeps it through an event within
      the TTL, whatever the map iterations choose, if and only if the event does not overflow
      the tombstones, be it a FIN or a maintenance pass. */
  lemma OverflowExactly(m: Mux, e: Event, id: Id, from: int, until: int)
    requires Ok(m) && !m.closed && Guarded(m, id, until) && until <= from + m.cfg.ttl && !e.DoShutAll?
    requires TimeOf(e).Some? ==> from <= TimeOf(e).value < until
    ensures (forall e' | SameUpToChoice(e, e') && Legal(m, e') :: Guarded(Next(m, e'), id, until)) <==> !Overflows(m, e)
  {
    if Overflows(m, e) {
      var e' := OverflowUnguards(m, e, id, until);
      assert !Guarded(Next(m, e'), id, until);
    } else {
      forall e' | SameUpToChoice(e, e') && Legal(m, e') ensures Guarded(Next(m, e'), id, until) {
        GuardKept(m, e', id, from, until);
      }
    }
  }

  // ---------------------------------------------------------------- when DATA recreates a flow

  /** DATA for an ID without a flow makes one exactly for a peer's ID that no tombstone
      guards, while the backlog has room. */
  lemma RecreatesExactly(m: Mux, id: Id, now: int, p: Octets)
    requires !m.closed && id !in m.flows && p != []
    ensures id in Next(m, DoHandle(Data(id, p), now, 0)).flows <==>
      !Local(m.cfg, id) && id !in m.tombstones && |m.inbound| < BACKLOG
  {
  }

  lemma TwoEvents(m: Mux, e: Event, f: Event)
    ensures After(m, [e, f]) == Next(Next(m, e), f)
  {
    assert [e, f][..1] == [e] && [e][..0] == [];
    assert After(m, [e]) == Next(m, e);
  }

  /** An overflow does let late DATA back in: some choice of it is followed by DATA that
      recreates the flow. */
  lemma OverflowCanUnguard(m: Mux, e: Event, id: Id, until: int, now: int, p: Octets)
    requires Ok(m) && !m.closed && Guarded(m, id, until) && Overflows(m, e) && TimeOf(e).value < until
    requires |m.inbound| < BACKLOG && p != []
    ensures exists e' ::
      SameUpToChoice(e, e') && Legal(m, e') && id in After(m, [e', DoHandle(Data(id, p), now, 0)]).flows
  {
    var e' := OverflowUnguards(m, e, id, until);
    var t := Next(m, e');
    OverflowKeeps(m, e', id);
    RecreatesExactly(t, id, now, p);
    TwoEvents(m, e', DoHandle(Data(id, p), now, 0));
  }

  lemma OverflowKeeps(m: Mux, e: Event, id: Id)
    requires Legal(m, e) && Overflows(m, e) && id !in m.flows
    ensures var t := Next(m, e); t.cfg == m.cfg && t.closed == m.closed && t.inbound == m.inbound && id !in t.flows
  {
    if e.DoMaintain? {
      ReapFixed(Swept(m, e.now), e.order, e.now);
      if id in Next(m, e).flows {
        ReapFlows(Swept(m, e.now), e.order, e.now, id);
      }
    }
  }

  /** A local close adds no tombstone, so DATA right after it recreates the flow exactly if
      the ID is the peer's and the backlog has room. */
  lemma CloseLetsDataInExactly(m: Mux, id: Id, now: int, p: Octets)
    requires Ok(m) && id in m.flows && p != []
    ensures id in After(m, [DoClose(id, now), DoHandle(Data(id, p), now, 0)]).flows <==>
      !Local(m.cfg, id) && |m.inbound| < BACKLOG
  {
    TwoEvents(m, DoClose(id, now), DoHandle(Data(id, p), now, 0));
    RecreatesExactly(Next(m, DoClose(id, now)), id, now, p);
  }

  ghost predicate AllLegal(m: Mux, events: seq<Event>) {
    events == [] ||
    (AllLegal(m, events[..|events| - 1]) && Legal(After(m, events[..|events| - 1]), events[|events| - 1]))
  }

  /** Some event of the run opens a flow under this ID locally. */
  predicate Opened(m: Mux, events: seq<Event>, id: Id) {
    events != [] &&
    (Opened(m, events[..|events| - 1], id) ||
     (events[|events| - 1].DoOpen? && After(m, events[..|events| - 1]).next == id))
  }

  /** An ID of a side's own parity has a flow again only if that side opens it again: no DATA,
      however late and however often repeated, recreates it. */
  lemma {:induction false} OwnStaysClosed(m: Mux, events: seq<Event>, id: Id)
    requires Local(m.cfg, id) && id !in m.flows && AllLegal(m, events)
    ensures After(m, events).cfg == m.cfg && (id in After(m, events).flows ==> Opened(m, events, id))
  {
    if events != [] {
      var front, e := events[..|events| - 1], events[|events| - 1];
      OwnStaysClosed(m, front, id);
      var t := After(m, front);
      NextFixed(t, e);
      if id !in t.flows && id in Next(t, e).flows {
        OwnCreated(t, e, id);
      }
    }
  }

  lemma OwnCreated(m: Mux, e: Event, id: Id)
    requires Legal(m, e) && Local(m.cfg, id) && id !in m.flows && id in Next(m, e).flows
    ensures e.DoOpen? && m.next == id
  {
    if e.DoMaintain? {
      ReapFlows(Swept(m, e.now), e.order, e.now, id);
    }
  }

  function Accepts(n: nat): seq<Event> {
    if n == 0 then [] else Accepts(n - 1) + [DoAccept]
  }

  lemma {:induction false} AcceptsDrain(m: Mux, n: nat, id: Id)
    requires n <= |m.inbound|
    ensures AllLegal(m, Accepts(n)) && !Opened(m, Accepts(n), id)
    ensures After(m, Accepts(n)) == m.(inbound := m.inbound[n..])
  {
    if n > 0 {
      AcceptsDrain(m, n - 1, id);
      var a := After(m, Accepts(n - 1));
      assert a.inbound[1..] == m.inbound[n..];
      assert Legal(a, DoAccept) && Next(a, DoAccept) == m.(inbound := m.inbound[n..]);
      RunSnoc(m, Accepts(n - 1), DoAccept, id);
    }
  }

  /** Whether a local close guards its ID, over runs: nothing that follows, short of opening
      it again, brings the flow back if and only if the ID is of the side's own parity. */
  lemma CloseGuardsExactly(m: Mux, id: Id, now: int)
    requires Ok(m) && id in m.flows
    ensures var t := Next(m, DoClose(id, now));
      (forall events | AllLegal(t, events) && !Opened(t, events, id) :: id !in After(t, events).flows)
      <==> Local(m.cfg, id)
  {
    var t := Next(m, DoClose(id, now));
    if Local(m.cfg, id) {
      forall events | AllLegal(t, events) && !Opened(t, events, id) ensures id !in After(t, events).flows {
        OwnStaysClosed(t, events, id);
      }
    } else {
      CloseDoesNotGuard(t, id, now);
    }
  }

  /** The run that brings a peer's flow back: whatever waits is accepted, then late DATA. */
  lemma CloseDoesNotGuard(t: Mux, id: Id, now: int)
    requires !Local(t.cfg, id) && !t.closed && id !in t.flows && id !in t.tombstones
    ensures exists events :: AllLegal(t, events) && !Opened(t, events, id) && id in After(t, events).flows
  {
    var n := |t.inbound|;
    AcceptsDrain(t, n, id);
    var late := DoHandle(Data(id, [0]), now, 0);
    var a := After(t, Accepts(n));
    assert id in Next(a, late).flows by { RecreatesExactly(a, id, now, [0]); }
    RunSnoc(t, Accepts(n), late, id);
    assert id in After(t, Accepts(n) + [late]).flows;
  }

  lemma RunSnoc(m: Mux, events: seq<Event>, e: Event, id: Id)
    ensures After(m, events + [e]) == Next(After(m, events), e)
    ensures AllLegal(m, events + [e]) <==> AllLegal(m, events) && Legal(After(m, events), e)
    ensures !e.DoOpen? ==> (Opened(m, events + [e], id) <==> Opened(m, events, id))
  {
    var longer := events + [e];
    assert longer[..|longer| - 1] == events && longer[|longer| - 1] == e;
  }

  /** A whole run in which it happens: the peer's first flow arrives, is closed here, and is
      back with the next DATA, duplicated or late. */
  lemma ClosedFlowComesBack(cfg: Config, p: Octets)
    requires GoodConfig(cfg) && p != []
    ensures var id := if cfg.dialing then 1 else 0;
      var data := DoHandle(Data(id, p), 0, 0);
      && AllLegal(New(cfg), [data, DoClose(id, 0), data])
      && id in After(New(cfg), [data]).flows && id !in After(New(cfg), [data, DoClose(id, 0)]).flows
      && id in After(New(cfg), [data, DoClose(id, 0), data]).flows
  {
    var id := if cfg.dialing then 1 else 0;
    var data, close := DoHandle(Data(id, p), 0, 0), DoClose(id, 0);
    var m := New(cfg);
    ThreeEvents(m, data, close, data);
    assert [data][..0] == [];
    var m1 := Next(m, data);
    assert id in m1.flows && |m1.inbound| == 1 && m1.tombstones == map[] && !m1.closed && m1.cfg == cfg by {
      RecreatesExactly(m, id, 0, p);
    }
    RecreatesExactly(Next(m1, close), id, 0, p);
  }

  lemma ThreeEvents(m: Mux, e: Event, f: Event, g: Event)
    ensures After(m, [e]) == Next(m, e) && After(m, [e, f]) == Next(Next(m, e), f)
    ensures After(m, [e, f, g]) == Next(Next(Next(m, e), f), g)
    ensures AllLegal(m, [e, f, g]) <==> Legal(m, e) && Legal(Next(m, e), f) && Legal(Next(Next(m, e), f), g)
  {
    RunSnoc(m, [], e, 0);
    RunSnoc(m, [e], f, 0);
    RunSnoc(m, [e, f], g, 0);
    assert [] + [e] == [e] && [e] + [f] == [e, f] && [e, f] + [g] == [e, f, g];
  }

  // ---------------------------------------------------------------- pending FINs

  /** The event starts the FIN of `id` over again. */
  predicate Restarts(m: Mux, e: Event, id: Id) {
    match e
    case DoClose(closed, _) => closed == id
    case DoClosePart(Finishing, closed, _) => closed == id
    case DoMaintain(_, now) => id in Idle(m, now)
    case _ => false
  }

  ghost predicate LegalRun(m: Mux, events: seq<Event>, id: Id) {
    events == [] ||
    (LegalRun(m, events[..|events| - 1], id) &&
     Legal(After(m, events[..|events| - 1]), events[|events| - 1]) &&
     !Restarts(After(m, events[..|events| - 1]), events[|events| - 1], id))
  }

  /** How many passes of the run sent the FIN of `id` again. */
  function Retransmissions(m: Mux, events: seq<Event>, id: Id): nat {
    if events == [] then 0 else
      var before, e := After(m, events[..|events| - 1]), events[|events| - 1];
      Retransmissions(m, events[..|events| - 1], id) + (if e.DoMaintain? && Retried(before, id, e.now) then 1 else 0)
  }

  /** How many passes of the run found the FIN of `id` due. */
  function DuePasses(m: Mux, events: seq<Event>, id: Id): nat {
    if events == [] then 0 else
      var before, e := After(m, events[..|events| - 1]), events[|events| - 1];
      DuePasses(m, events[..|events| - 1], id) + (if e.DoMaintain? && Due(before, id, e.now) then 1 else 0)
  }

  lemma {:induction false} ReapKeepsPending(m: Mux, order: seq<(Id, Id)>, now: int, id: Id)
    requires forall k | 0 <= k < |order| :: order[k].0 != id
    ensures id in Reap(m, order, now).pending <==> id in m.pending
    ensures id in m.pending ==> Reap(m, order, now).pending[id] == m.pending[id]
  {
    if order != [] {
      ReapKeepsPending(m, order[..|order| - 1], now, id);
    }
  }

  lemma PendingStep(m: Mux, e: Event, id: Id)
    requires Legal(m, e) && !Restarts(m, e, id)
    ensures id in Next(m, e).pending ==> id in m.pending
    ensures id in Next(m, e).pending ==>
              Next(m, e).pending[id].retries ==
                m.pending[id].retries + (if e.DoMaintain? && Due(m, id, e.now) then 1 else 0)
    ensures e.DoMaintain? && Due(m, id, e.now) ==> (id in Next(m, e).pending <==> Retried(m, id, e.now))
  {
    match e
    case DoMaintain(order, now) => MaintainPending(m, order, now, id);
    case DoHandle(frame, now, victim) => HandlePending(m, frame, now, victim, id);
    case _ => OtherPending(m, e, id);
  }

  lemma OtherPending(m: Mux, e: Event, id: Id)
    requires !e.DoMaintain? && !e.DoHandle? && !Restarts(m, e, id)
    ensures id in Next(m, e).pending ==> id in m.pending && Next(m, e).pending[id] == m.pending[id]
  {
  }

  lemma HandlePending(m: Mux, frame: Frame, now: int, victim: Id, id: Id)
    ensures var t := Next(m, DoHandle(frame, now, victim));
      id in t.pending ==> id in m.pending && t.pending[id] == m.pending[id]
  {
  }

  lemma MaintainPending(m: Mux, order: seq<(Id, Id)>, now: int, id: Id)
    requires Legal(m, DoMaintain(order, now)) && id !in Idle(m, now)
    ensures var t := Next(m, DoMaintain(order, now));
      && (id in t.pending <==> id in m.pending && (Due(m, id, now) ==> Retried(m, id, now)))
      && (id in t.pending ==> t.pending[id].retries == m.pending[id].retries + (if Due(m, id, now) then 1 else 0))
  {
    ReapKeepsPending(Swept(m, now), order, now, id);
  }

  /** A FIN awaiting acknowledgement is sent again at most finCount times in all, and the
      pass after that removes it: in any run that does not start it over, however many
      maintenance passes find it due, whatever else happens in between. */
  lemma {:induction false} PendingDrains(m: Mux, events: seq<Event>, id: Id)
    requires id in m.pending && m.pending[id].retries <= m.cfg.finCount && LegalRun(m, events, id)
    ensures var r, left := After(m, events), m.cfg.finCount - m.pending[id].retries;
      && r.cfg == m.cfg
      && Retransmissions(m, events, id) <= left
      && DuePasses(m, events, id) <= left + 1
      && (DuePasses(m, events, id) > left ==> id !in r.pending)
      && (id in r.pending ==> r.pending[id].retries == m.pending[id].retries + Retransmissions(m, events, id)
                              && DuePasses(m, events, id) == Retransmissions(m, events, id))
  {
    if events != [] {
      var k := |events| - 1;
      PendingDrains(m, events[..k], id);
      PendingStep(After(m, events[..k]), events[k], id);
      NextFixed(After(m, events[..k]), events[k]);
    }
  }
}
