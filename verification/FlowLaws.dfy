/** What one event does to each flow, tombstone and pending FIN of a multiplexer: exactly when
    a flow begins and ends, what its reader's queue holds and in which order, what keeps it
    alive, and what is sent. Then what follows over every legal run. */
module FlowLaws {
  import opened Bytes
  import opened FlowTable
  import opened FlowInvariant
  import opened FlowTeardown

  /** Payload p arrives on flow id. */
  predicate Arrives(e: Event, id: Id, p: Octets) {
    || (e.DoHandle? && e.frame == Data(id, p) && p != [])
    || (e.DoDataPart? && e.part.Putting? && e.id == id && e.payload == p)
  }

  function Arrival(e: Event, id: Id): (p: Option<Octets>)
    ensures forall q :: Arrives(e, id, q) <==> p == Some(q)
  {
    if e.DoHandle? && e.frame.Data? && e.frame.id == id && e.frame.payload != [] then Some(e.frame.payload)
    else if e.DoDataPart? && e.part.Putting? && e.id == id then Some(e.payload)
    else None
  }

  /** A local open under this ID. */
  predicate Opens(m: Mux, e: Event, id: Id) {
    e.DoOpen? && m.next == id && !m.closed
  }

  // ---------------------------------------------------------------- where flows begin and end

  /** The events that make a flow where there is none: a local open, and DATA from the peer, as
      a whole or up to its lookup, for an ID of the peer's half that no tombstone guards. */
  predicate Begins(m: Mux, e: Event, id: Id) {
    !m.closed &&
    match e
    case DoOpen(_) => m.next == id
    case DoHandle(Data(x, p), _, _) =>
      x == id && p != [] && (id % 2 == 0) != m.cfg.dialing && id !in m.tombstones && |m.inbound| < BACKLOG
    case DoDataPart(LookingUp, x, _, _) => x == id && (id % 2 == 0) != m.cfg.dialing && id !in m.tombstones
    case _ => false
  }

  lemma FlowBegins(m: Mux, e: Event, id: Id)
    requires Legal(m, e) && id !in m.flows
    ensures id in Next(m, e).flows <==> Begins(m, e, id)
    ensures Begins(m, e, id) ==>
      Next(m, e).flows[id] == Flow(if e.DoHandle? then [e.frame.payload] else [], TimeOf(e).value)
  {
    if e.DoMaintain? && id in Next(m, e).flows {
      ReapFlows(Swept(m, e.now), e.order, e.now, id);
    }
  }

  /** The events that take a flow out: the peer's FIN, a local close, a shutdown, an offer that
      finds the backlog full, and a maintenance pass that finds it idle. */
  predicate Ends(m: Mux, e: Event, id: Id)
    requires id in m.flows
  {
    match e
    case DoHandle(Fin(x), _, _) => x == id
    case DoClose(x, _) => x == id
    case DoClosePart(Detaching, x, _) => x == id
    case DoDataPart(Offering, x, _, _) => x == id && |m.inbound| >= BACKLOG
    case DoMaintain(_, now) => now - m.flows[id].lastActivity >= m.cfg.idle
    case DoShutAll => true
    case _ => false
  }

  predicate Spares(order: seq<(Id, Id)>, id: Id) {
    forall k | 0 <= k < |order| :: order[k].0 != id
  }

  lemma SparesSnoc(order: seq<(Id, Id)>, id: Id)
    requires order != []
    ensures Spares(order, id) <==> Spares(order[..|order| - 1], id) && order[|order| - 1].0 != id
  {
    var front := order[..|order| - 1];
    assert forall k | 0 <= k < |front| :: front[k] == order[k];
  }

  lemma {:induction false} ReapTakes(m: Mux, order: seq<(Id, Id)>, now: int, id: Id)
    ensures id in Reap(m, order, now).flows <==> id in m.flows && Spares(order, id)
    ensures id in Reap(m, order, now).flows ==> Reap(m, order, now).flows[id] == m.flows[id]
  {
    if order != [] {
      ReapTakes(m, order[..|order| - 1], now, id);
      SparesSnoc(order, id);
    }
  }

  lemma MaintainFlows(m: Mux, order: seq<(Id, Id)>, now: int, id: Id)
    requires Legal(m, DoMaintain(order, now)) && id in m.flows
    ensures id !in Maintain(m, order, now).flows <==> now - m.flows[id].lastActivity >= m.cfg.idle
    ensures id in Maintain(m, order, now).flows ==> Maintain(m, order, now).flows[id] == m.flows[id]
  {
    ReapTakes(Swept(m, now), order, now, id);
    if now - m.flows[id].lastActivity >= m.cfg.idle {
      assert id in Idle(m, now);
    }
  }

  lemma FlowEnds(m: Mux, e: Event, id: Id)
    requires Legal(m, e) && id in m.flows
    ensures id !in Next(m, e).flows <==> Ends(m, e, id)
  {
    match e
    case DoMaintain(order, now) => MaintainFlows(m, order, now, id);
    case DoHandle(frame, now, victim) => HandleEnds(m, frame, now, victim, id);
    case DoDataPart(_, _, _, _) => PartEnds(m, e, id);
    case _ =>
  }

  lemma HandleEnds(m: Mux, frame: Frame, now: int, victim: Id, id: Id)
    requires id in m.flows
    ensures id !in Next(m, DoHandle(frame, now, victim)).flows <==> frame == Fin(id)
  {
  }

  lemma PartEnds(m: Mux, e: Event, id: Id)
    requires e.DoDataPart? && id in m.flows
    ensures id !in Next(m, e).flows <==> Ends(m, e, id)
  {
  }

  /** What becomes of a flow that stays: a payload that arrives goes to the end of its queue,
      unless FLOW_QUEUE are waiting already; a reader takes the head; and only what arrives or
      is sent on it counts as activity. Events of other flows leave it alone. */
  lemma FlowStays(m: Mux, e: Event, id: Id)
    requires Legal(m, e) && id in m.flows && !Ends(m, e, id) && !Opens(m, e, id) && !m.closed
    ensures id in Next(m, e).flows
    ensures var f, g, p := m.flows[id], Next(m, e).flows[id], Arrival(e, id);
      && g.queue == (if p.Some? && |f.queue| < FLOW_QUEUE then f.queue + [p.value]
                     else if e == DoRecv(id) then f.queue[1..] else f.queue)
      && g.lastActivity == (if p.Some? || (e.DoSend? && e.id == id) then TimeOf(e).value else f.lastActivity)
  {
    if e.DoMaintain? {
      MaintainFlows(m, e.order, e.now, id);
    } else if e.DoDataPart? {
      PartStays(m, e, id);
    }
  }

  lemma PartStays(m: Mux, e: Event, id: Id)
    requires e.DoDataPart? && id in m.flows && !Ends(m, e, id) && !m.closed
    ensures id in Next(m, e).flows
    ensures var f, g, p := m.flows[id], Next(m, e).flows[id], Arrival(e, id);
      && g.queue == (if p.Some? && |f.queue| < FLOW_QUEUE then f.queue + [p.value] else f.queue)
      && g.lastActivity == (if p.Some? then TimeOf(e).value else f.lastActivity)
  {
  }

  /** Accepted flows come out in the order they were offered, each offered as it is made. */
  lemma InboundExactly(m: Mux, e: Event)
    requires Legal(m, e)
    ensures var t := Next(m, e).inbound;
      match e
      case DoAccept => t == m.inbound[1..]
      case DoHandle(Data(id, _), _, _) => t == m.inbound + (if id !in m.flows && Begins(m, e, id) then [id] else [])
      case DoDataPart(Offering, id, _, _) => t == m.inbound + (if |m.inbound| < BACKLOG then [id] else [])
      case _ => t == m.inbound
  {
    if e.DoMaintain? {
      ReapFixed(Swept(m, e.now), e.order, e.now);
    }
  }

  /** A multiplexer is closed by its shutdown only, and then for good. */
  lemma ClosedExactly(m: Mux, e: Event)
    requires Legal(m, e)
    ensures Next(m, e).closed <==> m.closed || e.DoShutAll?
    ensures e.DoShutAll? ==> Next(m, e).flows == map[] && Next(m, e).pending == map[] && Next(m, e).tombstones == map[]
  {
    if e.DoMaintain? {
      ReapFixed(Swept(m, e.now), e.order, e.now);
    }
  }

  // ---------------------------------------------------------------- what is sent

  /** The FIN of a flow goes out when it is closed here, when a pass reaps it, and when a pass
      finds it due and not yet sent the configured number of times again. */
  predicate SendsFin(m: Mux, e: Event, id: Id) {
    match e
    case DoClose(x, _) => x == id
    case DoClosePart(Finishing, x, _) => x == id
    case DoMaintain(_, now) =>
      || (id in m.flows && now - m.flows[id].lastActivity >= m.cfg.idle)
      || (id in m.pending && m.pending[id].next <= now && m.pending[id].retries < m.cfg.finCount)
    case _ => false
  }

  /** Nothing else sends one; every FIN received is acknowledged, and nothing else is; and data
      goes out as it is sent. */
  lemma EmitsExactly(m: Mux, e: Event, id: Id, p: Octets)
    requires Legal(m, e)
    ensures Fin(id) in Emitted(m, e) <==> SendsFin(m, e, id)
    ensures FinAck(id) in Emitted(m, e) <==> e.DoHandle? && e.frame == Fin(id)
    ensures Data(id, p) in Emitted(m, e) <==> e.DoSend? && e.id == id && e.payload == p
  {
    if e.DoMaintain? {
      MaintainEmits(m, e.order, e.now, id);
    }
  }

  lemma MaintainEmits(m: Mux, order: seq<(Id, Id)>, now: int, id: Id)
    requires Legal(m, DoMaintain(order, now))
    ensures Fin(id) in Emitted(m, DoMaintain(order, now)) <==> SendsFin(m, DoMaintain(order, now), id)
  {
    assert id in Idle(m, now) <==> id in m.flows && now - m.flows[id].lastActivity >= m.cfg.idle;
    if id in Idle(m, now) {
      var k :| 0 <= k < |order| && order[k].0 == id;
      assert Fin(order[k].0) in Emitted(m, DoMaintain(order, now));
    }
  }

  // ---------------------------------------------------------------- tombstones and pending FINs

  /** A pass at this time finds the flow idle. */
  predicate IdleAt(m: Mux, id: Id, now: int) {
    id in m.flows && now - m.flows[id].lastActivity >= m.cfg.idle
  }

  lemma {:induction false} ReapTombstones(m: Mux, order: seq<(Id, Id)>, now: int, id: Id, all: set<Id>)
    requires m.tombstones.Keys <= all && |all| <= m.cfg.maxTombstones
    requires forall k | 0 <= k < |order| :: order[k].0 in all
    ensures var t := Reap(m, order, now);
      && t.tombstones.Keys <= all && t.cfg == m.cfg
      && (id in t.tombstones <==> id in m.tombstones || !Spares(order, id))
      && (id in t.tombstones ==>
            t.tombstones[id] == if Spares(order, id) then m.tombstones[id] else now + m.cfg.ttl)
  {
    if order != [] {
      var front, last := order[..|order| - 1], order[|order| - 1];
      ReapTombstones(m, front, now, id, all);
      SparesSnoc(order, id);
      NotFull(Drop(Reap(m, front, now), last.0), last.0, all);
    }
  }

  /** A flow's ID is guarded from the FIN or the pass that takes it out, for the TTL from then;
      a pass lifts the guards whose time has come; nothing else sets or lifts one, short of a
      shutdown, as long as the table does not overflow. */
  lemma TombstonesExactly(m: Mux, e: Event, id: Id)
    requires Legal(m, e) && !Overflows(m, e) && (e.DoMaintain? ==> Ok(m))
    ensures var t := Next(m, e).tombstones;
      match e
      case DoHandle(Fin(x), now, _) =>
        && (id in t <==> id in m.tombstones || id == x)
        && (id in t ==> t[id] == if id == x then now + m.cfg.ttl else m.tombstones[id])
      case DoMaintain(_, now) =>
        && (id in t <==> IdleAt(m, id, now) || (id in m.tombstones && now < m.tombstones[id]))
        && (id in t ==> t[id] == if IdleAt(m, id, now) then now + m.cfg.ttl else m.tombstones[id])
      case DoShutAll => t == map[]
      case _ => t == m.tombstones
  {
    match e
    case DoMaintain(order, now) => MaintainTombstones(m, order, now, id);
    case DoHandle(frame, now, victim) => HandleTombstones(m, frame, now, victim);
    case _ => OtherTombstones(m, e);
  }

  lemma FinTombstones(m: Mux, id: Id, now: int, victim: Id)
    requires !Full(m, id)
    ensures HandleFin(m, id, now, victim).tombstones == m.tombstones[id := now + m.cfg.ttl]
  {
  }

  lemma DataTombstones(m: Mux, id: Id, p: Octets, now: int)
    ensures HandleData(m, id, p, now).tombstones == m.tombstones
  {
  }

  lemma HandleTombstones(m: Mux, frame: Frame, now: int, victim: Id)
    requires !(frame.Fin? && Full(m, frame.id))
    ensures Next(m, DoHandle(frame, now, victim)).tombstones ==
      if frame.Fin? then m.tombstones[frame.id := now + m.cfg.ttl] else m.tombstones
  {
    match frame
    case Fin(id) => FinTombstones(m, id, now, victim);
    case Data(id, p) => DataTombstones(m, id, p, now);
    case FinAck(_) =>
  }

  lemma OtherTombstones(m: Mux, e: Event)
    requires !e.DoMaintain? && !e.DoHandle?
    ensures Next(m, e).tombstones == if e.DoShutAll? then map[] else m.tombstones
  {
    if e.DoDataPart? {
      PartTombstones(m, e);
    }
  }

  lemma PartTombstones(m: Mux, e: Event)
    requires e.DoDataPart?
    ensures Next(m, e).tombstones == m.tombstones
  {
    match e.part
    case LookingUp =>
    case Offering =>
    case Putting =>
  }

  lemma OrderSpares(m: Mux, order: seq<(Id, Id)>, now: int, id: Id)
    requires Enumerates(order, Idle(m, now))
    ensures Spares(order, id) <==> !IdleAt(m, id, now)
  {
    assert id in Idle(m, now) <==> IdleAt(m, id, now);
  }

  lemma MaintainTombstones(m: Mux, order: seq<(Id, Id)>, now: int, id: Id)
    requires Ok(m) && Legal(m, DoMaintain(order, now)) && !Overflows(m, DoMaintain(order, now))
    ensures var t := Maintain(m, order, now).tombstones;
      && (id in t <==> IdleAt(m, id, now) || (id in m.tombstones && now < m.tombstones[id]))
      && (id in t ==> t[id] == if IdleAt(m, id, now) then now + m.cfg.ttl else m.tombstones[id])
  {
    var all := LiveTombstones(m, now).Keys + Idle(m, now);
    OrderSpares(m, order, now, id);
    ReapTombstones(Swept(m, now), order, now, id, all);
  }

  function TimeOr(e: Event): int {
    if TimeOf(e).Some? then TimeOf(e).value else 0
  }

  /** A FIN is recorded to be sent again when its flow is closed here, if there is room; it is
      forgotten when it is acknowledged, and when everything is shut down. Other events of
      other flows leave it as it is. */
  lemma PendingExactly(m: Mux, e: Event, id: Id)
    requires Legal(m, e) && !e.DoMaintain?
    ensures var t, again := Next(m, e).pending, Pending(TimeOr(e) + m.cfg.finInterval, 0);
      match e
      case DoHandle(FinAck(x), _, _) => t == m.pending - {x}
      case DoClose(x, _) =>
        t == if !m.closed && |m.pending| < m.cfg.maxPending then m.pending[x := again] else m.pending
      case DoClosePart(Finishing, x, _) =>
        t == if !m.closed && |m.pending| < m.cfg.maxPending then m.pending[x := again] else m.pending
      case DoShutAll => t == map[]
      case _ => t == m.pending
  {
    match e
    case DoHandle(frame, now, victim) => HandlePendingExactly(m, frame, now, victim);
    case DoClose(_, _) => ClosePendingExactly(m, e);
    case DoClosePart(_, _, _) => ClosePendingExactly(m, e);
    case _ => OtherPendingExactly(m, e);
  }

  lemma HandlePendingExactly(m: Mux, frame: Frame, now: int, victim: Id)
    ensures Next(m, DoHandle(frame, now, victim)).pending ==
      if frame.FinAck? then m.pending - {frame.id} else m.pending
  {
  }

  lemma ClosePendingExactly(m: Mux, e: Event)
    requires e.DoClose? || e.DoClosePart?
    ensures Next(m, e).pending ==
      if (e.DoClose? || e.step.Finishing?) && !m.closed && |m.pending| < m.cfg.maxPending
      then m.pending[e.id := Pending(e.now + m.cfg.finInterval, 0)] else m.pending
  {
  }

  lemma OtherPendingExactly(m: Mux, e: Event)
    requires !e.DoMaintain? && !e.DoHandle? && !e.DoClose? && !e.DoClosePart?
    ensures Next(m, e).pending == if e.DoShutAll? then map[] else m.pending
  {
  }

  /** What a pass does to it, unless it starts it by reaping the flow: not yet due it stays as
      it is; due, it counts one more time sent and waits for the next interval, or is given up
      when it has been sent as often as configured. */
  lemma PendingPass(m: Mux, order: seq<(Id, Id)>, now: int, id: Id)
    requires Legal(m, DoMaintain(order, now)) && !IdleAt(m, id, now)
    ensures var t := Next(m, DoMaintain(order, now)).pending;
      && (id !in m.pending ==> id !in t)
      && (id in m.pending ==>
            var p := m.pending[id];
            && (p.next > now ==> id in t && t[id] == p)
            && (p.next <= now ==> (id in t <==> p.retries < m.cfg.finCount))
            && (p.next <= now && id in t ==> t[id] == Pending(now + m.cfg.finInterval, p.retries + 1)))
  {
    OrderSpares(m, order, now, id);
    ReapSparesPending(Swept(m, now), order, now, id);
  }

  lemma {:induction false} ReapSparesPending(m: Mux, order: seq<(Id, Id)>, now: int, id: Id)
    requires Spares(order, id)
    ensures id in Reap(m, order, now).pending <==> id in m.pending
    ensures id in m.pending ==> Reap(m, order, now).pending[id] == m.pending[id]
  {
    ReapKeepsPending(m, order, now, id);
  }

  /** Reaping a flow records its FIN, as long as there is room for all of them. */
  lemma PendingReaped(m: Mux, order: seq<(Id, Id)>, now: int, id: Id)
    requires Legal(m, DoMaintain(order, now)) && IdleAt(m, id, now) && |m.pending| + |order| <= m.cfg.maxPending
    ensures var t := Next(m, DoMaintain(order, now)).pending;
      id in t && t[id] == Pending(now + m.cfg.finInterval, 0)
  {
    OrderSpares(m, order, now, id);
    SubmapSize(RetriedPending(m, now), m.pending);
    ReapRecords(Swept(m, now), order, now, id);
  }

  lemma {:induction false} ReapRecords(m: Mux, order: seq<(Id, Id)>, now: int, id: Id)
    requires |m.pending| + |order| <= m.cfg.maxPending
    ensures var t := Reap(m, order, now);
      && |t.pending| <= |m.pending| + |order| && t.cfg == m.cfg
      && (!Spares(order, id) ==> id in t.pending && t.pending[id] == Pending(now + m.cfg.finInterval, 0))
  {
    if order != [] {
      var front, last := order[..|order| - 1], order[|order| - 1];
      ReapRecords(m, front, now, id);
      SparesSnoc(order, id);
      InsertSize(Reap(m, front, now).pending, last.0, Pending(now + m.cfg.finInterval, 0));
    }
  }
}
