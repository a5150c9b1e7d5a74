/** What every locked region of one multiplexer keeps: bounded tables, flows disjoint from
    tombstones, bounded retransmission, and no ID it was not given. */
module FlowInvariant {
  import opened Bytes
  import opened Counting
  import opened FlowTable

  ghost predicate PendingBounded(cfg: Config, pending: map<Id, Pending>) {
    |pending| <= cfg.maxPending && forall id | id in pending :: pending[id].retries <= cfg.finCount
  }

  ghost predicate TombstonesBounded(cfg: Config, tombstones: map<Id, int>) {
    |tombstones| <= cfg.maxTombstones
  }

  ghost predicate Apart(flows: map<Id, Flow>, tombstones: map<Id, int>) {
    forall id | id in flows :: id !in tombstones
  }

  ghost predicate Ok(m: Mux) {
    && GoodConfig(m.cfg)
    && PendingBounded(m.cfg, m.pending) && TombstonesBounded(m.cfg, m.tombstones) && Apart(m.flows, m.tombstones)
    && (m.closed ==> m.flows == map[])
  }

  /** How far each half of the ID space has been allocated. */
  datatype Limits = Limits(even: Id, odd: Id)

  predicate Below(id: Id, limits: Limits) {
    id < if id % 2 == 0 then limits.even else limits.odd
  }

  /** Every ID this multiplexer remembers has been allocated. */
  ghost predicate Within(m: Mux, limits: Limits) {
    && (forall id | id in m.flows :: Below(id, limits))
    && (forall id | id in m.pending :: Below(id, limits))
    && (forall id | id in m.tombstones :: Below(id, limits))
  }

  // ---------------------------------------------------------------- sizes of finite maps

  lemma InsertSize<V>(m: map<Id, V>, id: Id, v: V)
    ensures |m[id := v]| == |m| + (if id in m then 0 else 1)
  {
    assert m[id := v].Keys == m.Keys + {id};
    if id in m {
      assert m.Keys + {id} == m.Keys;
    }
    assert |m| == |m.Keys| && |m[id := v]| == |m[id := v].Keys|;
  }

  lemma RemoveSize<V>(m: map<Id, V>, id: Id)
    ensures |m - {id}| == |m| - (if id in m then 1 else 0)
  {
    assert (m - {id}).Keys == m.Keys - {id};
    assert |m| == |m.Keys| && |m - {id}| == |(m - {id}).Keys|;
  }

  lemma SubmapSize<V, W>(m: map<Id, V>, n: map<Id, W>)
    requires m.Keys <= n.Keys
    ensures |m| <= |n|
  {
    SubsetSize(m.Keys, n.Keys);
    assert |m| == |m.Keys| && |n| == |n.Keys|;
  }

  // ---------------------------------------------------------------- the pieces

  lemma TombstoneOk(m: Mux, id: Id, until: int, victim: Id)
    requires Ok(m) && Eviction(m, id, victim) && id !in m.flows
    ensures Ok(AddTombstone(m, id, until, victim))
  {
    GuardingBounded(m.cfg, m.tombstones, Full(m, id), id, until, victim);
    assert Apart(m.flows, Guarding(m.tombstones, Full(m, id), id, until, victim));
  }

  lemma GuardingBounded(cfg: Config, tombstones: map<Id, int>, full: bool, id: Id, until: int, victim: Id)
    requires TombstonesBounded(cfg, tombstones) && cfg.maxTombstones > 0
    requires full <==> id !in tombstones && |tombstones| >= cfg.maxTombstones
    requires full ==> victim in tombstones
    ensures TombstonesBounded(cfg, Guarding(tombstones, full, id, until, victim))
  {
    RemoveSize(tombstones, victim);
    InsertSize(if full then tombstones - {victim} else tombstones, id, until);
  }

  lemma BeginningBounded(cfg: Config, pending: map<Id, Pending>, id: Id, now: int)
    requires PendingBounded(cfg, pending)
    ensures PendingBounded(cfg, Beginning(cfg, pending, id, now))
  {
    InsertSize(pending, id, Pending(now + cfg.finInterval, 0));
  }

  lemma PendingOk(m: Mux, id: Id, now: int)
    requires Ok(m)
    ensures Ok(AddPending(m, id, now))
  {
    BeginningBounded(m.cfg, m.pending, id, now);
  }

  lemma DropOk(m: Mux, id: Id)
    requires Ok(m)
    ensures Ok(Drop(m, id))
  {
  }

  lemma DropCommutes(m: Mux, id: Id, until: int, victim: Id)
    ensures Drop(AddTombstone(m, id, until, victim), id) == AddTombstone(Drop(m, id), id, until, victim)
  {
  }

  lemma SweptOk(m: Mux, now: int)
    requires Ok(m)
    ensures Ok(Swept(m, now))
  {
    SubmapSize(LiveTombstones(m, now), m.tombstones);
    SubmapSize(RetriedPending(m, now), m.pending);
  }

  lemma RetireOk(m: Mux, id: Id, now: int, victim: Id)
    requires Ok(m) && Eviction(m, id, victim) && id !in m.flows
    ensures Ok(Retire(m, id, now, victim))
  {
    TombstoneOk(m, id, now + m.cfg.ttl, victim);
    BeginningBounded(m.cfg, m.pending, id, now);
  }

  lemma RetireWithin(m: Mux, id: Id, now: int, victim: Id, limits: Limits)
    requires Within(m, limits) && Below(id, limits)
    ensures Within(Retire(m, id, now, victim), limits)
  {
  }

  lemma ReapOneOk(m: Mux, id: Id, now: int, victim: Id)
    requires Ok(m) && Eviction(Drop(m, id), id, victim)
    ensures Ok(ReapOne(m, id, now, victim))
  {
    DropOk(m, id);
    RetireOk(Drop(m, id), id, now, victim);
  }

  lemma {:induction false} ReapOk(m: Mux, order: seq<(Id, Id)>, now: int)
    requires Ok(m) && Victims(m, order, now)
    ensures Ok(Reap(m, order, now))
  {
    if order != [] {
      var k := |order| - 1;
      ReapOk(m, order[..k], now);
      ReapOneOk(Reap(m, order[..k], now), order[k].0, now, order[k].1);
    }
  }

  lemma {:induction false} ReapWithin(m: Mux, order: seq<(Id, Id)>, now: int, limits: Limits)
    requires Within(m, limits) && forall k | 0 <= k < |order| :: Below(order[k].0, limits)
    ensures Within(Reap(m, order, now), limits)
  {
    if order != [] {
      var k := |order| - 1;
      ReapWithin(m, order[..k], now, limits);
      RetireWithin(Drop(Reap(m, order[..k], now), order[k].0), order[k].0, now, order[k].1, limits);
    }
  }

  lemma {:induction false} ReapFixed(m: Mux, order: seq<(Id, Id)>, now: int)
    ensures var r := Reap(m, order, now);
            r.cfg == m.cfg && r.next == m.next && r.closed == m.closed && r.inbound == m.inbound
  {
    if order != [] {
      ReapFixed(m, order[..|order| - 1], now);
    }
  }

  lemma ReapSnoc(m: Mux, order: seq<(Id, Id)>, id: Id, victim: Id, now: int)
    ensures Reap(m, order + [(id, victim)], now) == ReapOne(Reap(m, order, now), id, now, victim)
    ensures Victims(m, order, now) && Eviction(Drop(Reap(m, order, now), id), id, victim) ==>
              Victims(m, order + [(id, victim)], now)
  {
    var longer := order + [(id, victim)];
    assert longer[..|longer| - 1] == order;
  }

  lemma {:induction false} ReapFlows(m: Mux, order: seq<(Id, Id)>, now: int, id: Id)
    requires id in Reap(m, order, now).flows
    ensures id in m.flows && Reap(m, order, now).flows[id] == m.flows[id]
  {
    if order != [] {
      ReapFlows(m, order[..|order| - 1], now, id);
    }
  }

  lemma EnumerateSnoc(order: seq<(Id, Id)>, ids: set<Id>, id: Id, victim: Id)
    requires Enumerates(order, ids) && id !in ids
    ensures Enumerates(order + [(id, victim)], ids + {id})
  {
    var longer := order + [(id, victim)];
    forall x | x in ids + {id} ensures exists k :: 0 <= k < |longer| && longer[k].0 == x {
      if x == id {
        assert longer[|order|].0 == x;
      } else {
        var k :| 0 <= k < |order| && order[k].0 == x;
        assert longer[k].0 == x;
      }
    }
  }

  lemma DataOk(m: Mux, id: Id, payload: Octets, now: int)
    requires Ok(m)
    ensures Ok(HandleData(m, id, payload, now))
  {
  }

  // ---------------------------------------------------------------- one event

  /** The ID an event brings to a multiplexer has been allocated. */
  predicate BringsBelow(m: Mux, e: Event, limits: Limits) {
    match e
    case DoOpen(_) => Below(m.next, limits)
    case DoHandle(frame, _, _) => Below(frame.id, limits)
    case DoDataPart(_, id, _, _) => Below(id, limits)
    case DoClosePart(_, id, _) => Below(id, limits)
    case _ => true
  }

  lemma NextOk(m: Mux, e: Event)
    requires Ok(m) && Legal(m, e)
    requires e.DoOpen? ==> m.next !in m.tombstones
    ensures Ok(Next(m, e))
  {
    match e
    case DoHandle(Data(id, payload), now, _) => DataOk(m, id, payload, now);
    case DoHandle(Fin(id), now, victim) => FinOk(m, id, now, victim);
    case DoHandle(FinAck(id), _, _) =>
      RemoveSize(m.pending, id);
    case DoClose(id, now) =>
      DropOk(m, id);
      PendingOk(Drop(m, id), id, now);
    case DoMaintain(order, now) =>
      SweptOk(m, now);
      ReapOk(Swept(m, now), order, now);
    case DoOpen(now) => OpenOk(m, now);
    case DoDataPart(_, id, _, _) => DataPartOk(m, e);
    case DoClosePart(Detaching, id, _) => DropOk(m, id);
    case DoClosePart(Finishing, id, now) => PendingOk(m, id, now);
    case _ =>
  }

  lemma DataPartOk(m: Mux, e: Event)
    requires Ok(m) && e.DoDataPart?
    ensures Ok(Next(m, e))
  {
  }

  lemma OpenOk(m: Mux, now: int)
    requires Ok(m) && m.next !in m.tombstones
    ensures Ok(Open(m, now))
  {
  }

  lemma FinOk(m: Mux, id: Id, now: int, victim: Id)
    requires Ok(m) && Eviction(m, id, victim)
    ensures Ok(HandleFin(m, id, now, victim))
  {
    DropCommutes(m, id, now + m.cfg.ttl, victim);
    DropOk(m, id);
    TombstoneOk(Drop(m, id), id, now + m.cfg.ttl, victim);
  }

  /** A multiplexer only ever remembers IDs it already knew, allocates or is sent. */
  lemma NextWithin(m: Mux, e: Event, limits: Limits)
    requires Legal(m, e) && Within(m, limits) && BringsBelow(m, e, limits)
    ensures Within(Next(m, e), limits)
  {
    match e
    case DoMaintain(order, now) => ReapWithin(Swept(m, now), order, now, limits);
    case DoHandle(frame, now, victim) => HandleWithin(m, frame, now, victim, limits);
    case DoDataPart(_, _, _, _) => PartWithin(m, e, limits);
    case DoClosePart(_, _, _) => PartWithin(m, e, limits);
    case _ =>
  }

  lemma HandleWithin(m: Mux, frame: Frame, now: int, victim: Id, limits: Limits)
    requires Within(m, limits) && Below(frame.id, limits)
    ensures Within(Next(m, DoHandle(frame, now, victim)), limits)
  {
  }

  lemma PartWithin(m: Mux, e: Event, limits: Limits)
    requires (e.DoDataPart? || e.DoClosePart?) && Within(m, limits) && BringsBelow(m, e, limits)
    ensures Within(Next(m, e), limits)
  {
  }

  lemma EmittedBelow(m: Mux, e: Event, f: Frame, limits: Limits)
    requires Legal(m, e) && Within(m, limits) && BringsBelow(m, e, limits)
    requires f in Emitted(m, e) && !e.DoSend?
    ensures Below(f.id, limits) && !f.Data?
  {
  }

  lemma NextFixed(m: Mux, e: Event)
    requires Legal(m, e)
    ensures Next(m, e).cfg == m.cfg
    ensures Next(m, e).next == if e.DoOpen? && !m.closed then (m.next + 2) % U32_LIMIT else m.next
    ensures m.closed ==> Next(m, e).closed
  {
    if e.DoMaintain? {
      ReapFixed(Swept(m, e.now), e.order, e.now);
    }
  }
}
