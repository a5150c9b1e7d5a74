/** The multiplexer itself: one object per mux and one per flow, updated in place. Each
    method is one locked region of internal/flowmux/flowmux.go and is proved to do exactly
    what FlowTable says that region does, so the results about FlowTable's runs are results
    about this class. */
module FlowMux {
  import opened Bytes
  import opened FlowTable
  import opened FlowInvariant

  const HEADER: nat := 5

  /** A message is the flow ID, the frame kind and the payload. */
  function Encode(f: Frame): Octets
    requires f.id < U32_LIMIT
  {
    U32(f.id) + match f
      case Data(_, payload) => [0] + payload
      case Fin(_) => [1]
      case FinAck(_) => [2]
  }

  /** What a message means; None is a message the receiver drops. */
  function Decode(msg: Octets): Option<Frame> {
    if |msg| < HEADER then None
    else
      var id, kind, payload := FromU32(msg[..4]), msg[4], msg[HEADER..];
      if kind == 1 && payload == [] then Some(Fin(id))
      else if kind == 2 && payload == [] then Some(FinAck(id))
      else if kind == 0 && payload != [] then Some(Data(id, payload))
      else None
  }

  lemma DecodeInverse(f: Frame)
    requires f.id < U32_LIMIT && (f.Data? ==> f.payload != [])
    ensures Decode(Encode(f)) == Some(f)
    ensures |Encode(f)| == HEADER + (if f.Data? then |f.payload| else 0)
  {
    var msg := Encode(f);
    assert msg[..4] == U32(f.id);
    U32Inverse(f.id, []);
    assert U32(f.id) + [] == U32(f.id);
    if f.Data? {
      assert msg[HEADER..] == f.payload;
    }
  }

  /** Conversely a message that decodes is, octet for octet, the message of its frame. */
  lemma DecodeCanonical(msg: Octets)
    requires Decode(msg).Some?
    ensures var f := Decode(msg).value; f.id < U32_LIMIT && (f.Data? ==> f.payload != []) && Encode(f) == msg
  {
    U32Canonical(msg[..4]);
    assert msg[..4][..4] == msg[..4];
    assert U32(FromU32(msg[..4])) == msg[..4];
    assert msg == msg[..4] + [msg[4]] + msg[HEADER..];
  }

  /** An ID as the wire carries it. */
  type WireId = id: Id | id < U32_LIMIT

  datatype Cause = EndOfFlow | Closed | ChannelFailed

  class Conn {
    const id: WireId
    var packets: seq<Octets>
    var cause: Option<Cause>
    var lastActivity: int

    constructor (id: WireId, now: int)
      ensures this.id == id && packets == [] && cause == None && lastActivity == now
    {
      this.id, packets, cause, lastActivity := id, [], None, now;
    }

    /** Ends the flow with a cause, once. */
    method Shut(why: Cause)
      modifies this`cause
      ensures cause == if old(cause) == None then Some(why) else old(cause)
    {
      if cause == None {
        cause := Some(why);
      }
    }

    /** What a reader is handed: queued payloads first and in order, and the cause only
        after them. A call with neither would block. */
    method Recv() returns (r: Option<Octets>)
      requires packets != [] || cause.Some?
      modifies this`packets
      ensures old(packets) != [] ==> r == Some(old(packets)[0]) && packets == old(packets)[1..]
      ensures old(packets) == [] ==> r == None && packets == []
    {
      if packets == [] {
        return None;
      }
      r := Some(packets[0]);
      packets := packets[1..];
    }
  }

  function IdsOf(conns: seq<Conn>): seq<WireId> {
    seq<WireId>(|conns|, i requires 0 <= i < |conns| => conns[i].id)
  }

  /** The FIN messages of a list of flows. */
  function Fins(ids: seq<WireId>): seq<Octets> {
    seq(|ids|, i requires 0 <= i < |ids| => Encode(Fin(ids[i])))
  }

  class Table {
    const cfg: Config
    var next: Id
    var closed: bool
    var flows: map<Id, Conn>
    var pending: map<Id, Pending>
    var tombstones: map<Id, int>
    var inbound: seq<Conn>
    var wire: seq<Octets>  // every message handed to the channel

    ghost predicate Valid()
      reads this, flows.Values
    {
      && next < U32_LIMIT
      && (forall id | id in flows :: flows[id].id == id && flows[id].cause == None)
      && (forall id | id in pending :: id < U32_LIMIT)
    }

    ghost function View(): Mux
      reads this, flows.Values
    {
      Mux(cfg, next, closed, map id | id in flows :: Flow(flows[id].packets, flows[id].lastActivity),
          pending, tombstones, IdsOf(inbound))
    }

    constructor (cfg: Config)
      ensures Valid() && View() == New(cfg) && wire == []
    {
      this.cfg, next, closed := cfg, if cfg.dialing then 0 else 1, false;
      flows, pending, tombstones, inbound, wire := map[], map[], map[], [], [];
    }

    method OpenStream(now: int) returns (f: Conn?)
      requires Valid()
      modifies this`next, this`flows
      ensures Valid() && View() == Open(old(View()), now)
      ensures if old(closed) then f == null else fresh(f) && f.id == old(next) && f.id in flows && flows[f.id] == f
    {
      if closed {
        return null;
      }
      f := new Conn(next, now);
      flows := flows[next := f];
      next := (next + 2) % U32_LIMIT;
    }

    method SendControl(f: Frame)
      requires f.id < U32_LIMIT
      modifies this`wire
      ensures wire == old(wire) + [Encode(f)]
    {
      wire := wire + [Encode(f)];
    }

    method PutTombstone(id: Id, until: int) returns (ghost victim: Id)
      requires cfg.maxTombstones > 0
      modifies this`tombstones
      ensures Eviction(old(View()), id, victim) && View() == AddTombstone(old(View()), id, until, victim)
    {
      victim := 0;
      if id !in tombstones && |tombstones| >= cfg.maxTombstones {
        assert tombstones.Keys != {};
        var evict :| evict in tombstones;
        tombstones := tombstones - {evict};
        victim := evict;
      }
      tombstones := tombstones[id := until];
    }

    method PutPending(id: Id, now: int)
      modifies this`pending
      ensures View() == AddPending(old(View()), id, now)
    {
      if |pending| < cfg.maxPending {
        pending := pending[id := Pending(now + cfg.finInterval, 0)];
      }
    }

    /** Removes f only if it is still the flow registered under its ID. */
    method Remove(f: Conn)
      requires Valid()
      modifies this`flows
      ensures Valid() && f !in flows.Values
      ensures View() == if f.id in old(flows) && old(flows)[f.id] == f then Drop(old(View()), f.id) else old(View())
    {
      if f.id in flows && flows[f.id] == f {
        flows := flows - {f.id};
      }
    }

    /** Takes the flow of an ID out of the table, if it has one. */
    method Take(id: Id) returns (f: Conn?)
      requires Valid()
      modifies this`flows
      ensures Valid() && View() == Drop(old(View()), id) && flows == old(flows) - {id}
      ensures if id in old(flows) then f == old(flows)[id] && f !in flows.Values else f == null
    {
      f := null;
      if id in flows {
        f := flows[id];
        flows := flows - {id};
      }
    }

    /** takeAndTombstone. */
    method TakeAndTombstone(id: Id, now: int) returns (f: Conn?, ghost victim: Id)
      requires Valid() && cfg.maxTombstones > 0
      modifies this`flows, this`tombstones
      ensures Valid() && Eviction(old(View()), id, victim)
      ensures View() == FlowTable.HandleFin(old(View()), id, now, victim)
      ensures if id in old(flows) then f == old(flows)[id] && f !in flows.Values else f == null
    {
      victim := PutTombstone(id, now + cfg.ttl);
      f := Take(id);
    }

    /** End a flow that has left the table; the table does not notice. */
    method ShutDetached(f: Conn, why: Cause)
      requires Valid() && f !in flows.Values
      modifies f`cause
      ensures Valid() && View() == old(View())
      ensures f.cause == if old(f.cause) == None then Some(why) else old(f.cause)
    {
      f.Shut(why);
    }

    /** handle, for a FIN: guard the ID, take the flow, end it, acknowledge. */
    method HandleFin(id: Id, now: int) returns (ghost victim: Id)
      requires Valid() && cfg.maxTombstones > 0 && id < U32_LIMIT
      modifies this, flows.Values
      ensures Valid() && Eviction(old(View()), id, victim)
      ensures View() == FlowTable.HandleFin(old(View()), id, now, victim)
      ensures wire == old(wire) + [Encode(FinAck(id))]
      ensures id in old(flows) ==> old(flows)[id].cause == Some(EndOfFlow)
    {
      var f;
      f, victim := TakeAndTombstone(id, now);
      Acknowledge(f, id);
    }

    /** Ends the flow a FIN took out, if there was one, and acknowledges the FIN either way. */
    method Acknowledge(f: Conn?, id: WireId)
      requires Valid() && (f != null ==> f !in flows.Values)
      modifies this`wire, (if f == null then {} else {f})`cause
      ensures Valid() && View() == old(View()) && wire == old(wire) + [Encode(FinAck(id))]
      ensures f != null ==> f.cause == if old(f.cause) == None then Some(EndOfFlow) else old(f.cause)
    {
      if f != null {
        ShutDetached(f, EndOfFlow);
      }
      ghost var m := View();
      SendControl(FinAck(id));
      assert View() == m;
    }

    /** deliver: touch the flow and queue the payload unless the reader has fallen behind. */
    method Deliver(f: Conn, payload: Octets, now: int)
      requires Valid() && f.id in flows && flows[f.id] == f
      modifies f`packets, f`lastActivity
      ensures Valid() && View() == FlowTable.Deliver(old(View()), f.id, payload, now)
    {
      ghost var m := View();
      f.lastActivity := now;
      if |f.packets| < FLOW_QUEUE {
        f.packets := f.packets + [payload];
      }
      assert View().flows == m.flows[f.id := Flow(f.packets, now)];
    }

    /** A flow the peer has just started, offered to AcceptStream if there is room. */
    method Create(id: WireId, payload: Octets, now: int)
      requires Valid() && Creates(View(), id)
      modifies this`flows, this`inbound
      ensures Valid() && View() == FlowTable.HandleData(old(View()), id, payload, now)
    {
      var f := Register(id, now);
      if |inbound| < BACKLOG {
        Offer(f);
        Deliver(f, payload, now);
      } else {
        Remove(f);
        assert (old(View()).flows[id := Flow([], now)]) - {id} == old(View()).flows;
      }
    }

    /** lookupOrCreate, for an ID with no flow. */
    method Register(id: WireId, now: int) returns (f: Conn)
      requires Valid() && id !in flows
      modifies this`flows
      ensures Valid() && fresh(f) && f.id == id && flows == old(flows)[id := f]
      ensures View() == var m := old(View()); m.(flows := m.flows[id := Flow([], now)])
    {
      f := new Conn(id, now);
      flows := flows[id := f];
    }

    method Offer(f: Conn)
      requires Valid()
      modifies this`inbound
      ensures Valid() && View() == var m := old(View()); m.(inbound := m.inbound + [f.id])
    {
      inbound := inbound + [f];
      assert IdsOf(inbound) == IdsOf(old(inbound)) + [f.id];
    }

    method HandleData(id: WireId, payload: Octets, now: int)
      requires Valid()
      modifies this, flows.Values
      ensures Valid() && View() == FlowTable.HandleData(old(View()), id, payload, now) && wire == old(wire)
    {
      if closed {
        return;
      }
      if id in flows {
        Deliver(flows[id], payload, now);
        return;
      }
      if id in tombstones || (id % 2 == 0) == cfg.dialing {
        return;
      }
      Create(id, payload, now);
    }

    /** Sorts one channel message into its flow. */
    method Handle(msg: Octets, now: int) returns (ghost victim: Id)
      requires Valid() && cfg.maxTombstones > 0
      modifies this, flows.Values
      ensures Valid()
      ensures match Decode(msg)
              case None => View() == old(View()) && wire == old(wire)
              case Some(f) =>
                && Legal(old(View()), DoHandle(f, now, victim))
                && View() == Next(old(View()), DoHandle(f, now, victim))
                && wire == old(wire) + (if f.Fin? then [Encode(FinAck(f.id))] else [])
    {
      victim := 0;
      if |msg| < HEADER {
        return;
      }
      var id, kind, payload := FromU32(msg[..4]), msg[4], msg[HEADER..];
      if kind == 1 {
        if payload == [] {
          victim := HandleFin(id, now);
        }
      } else if kind == 2 {
        if payload == [] {
          pending := pending - {id};
        }
      } else if kind == 0 && payload != [] {
        HandleData(id, payload, now);
      }
    }

    /** AcceptStream with a flow waiting. */
    method Accept() returns (f: Conn)
      requires Valid() && inbound != []
      modifies this`inbound
      ensures Valid() && f == old(inbound)[0] && View() == Next(old(View()), DoAccept)
    {
      f := inbound[0];
      inbound := inbound[1..];
      assert IdsOf(inbound) == IdsOf(old(inbound))[1..];
    }

    method Touch(f: Conn, now: int)
      requires Valid()
      modifies f`lastActivity
      ensures Valid()
      ensures View() ==
        if f.id in flows && flows[f.id] == f then FlowTable.Touch(old(View()), f.id, now) else old(View())
    {
      if f.id in flows && flows[f.id] == f {
        f.lastActivity := now;
      }
    }

    /** flow.send. A closed flow sends nothing; otherwise the channel is handed one DATA
        message and may refuse it, which leaves the flow's idle clock alone. */
    method Send(f: Conn, payload: Octets, now: int, accepted: bool) returns (ok: bool)
      requires Valid()
      modifies this`wire, f`lastActivity
      ensures Valid() && (ok <==> accepted && old(f.cause) == None)
      ensures wire == if old(f.cause).Some? then old(wire) else old(wire) + [Encode(Data(f.id, payload))]
      ensures View() ==
        if ok && f.id in flows && flows[f.id] == f then FlowTable.Touch(old(View()), f.id, now) else old(View())
    {
      if f.cause.Some? {
        return false;
      }
      wire := wire + [Encode(Data(f.id, payload))];
      if !accepted {
        return false;
      }
      Touch(f, now);
      ok := true;
    }

    /** The first half of flow.close: out of the table and ended. */
    method Detach(f: Conn)
      requires Valid() && f.cause == None
      modifies this`flows, f`cause
      ensures Valid() && f.cause == Some(Closed)
      ensures View() == if f.id in old(flows) && old(flows)[f.id] == f then Drop(old(View()), f.id) else old(View())
    {
      Remove(f);
      ShutDetached(f, Closed);
    }

    /** The second half of flow.close: beginFIN. */
    method BeginFin(id: Id, now: int)
      requires Valid() && id < U32_LIMIT
      modifies this`pending, this`wire
      ensures Valid() && View() == if closed then old(View()) else AddPending(old(View()), id, now)
      ensures wire == old(wire) + [Encode(Fin(id))]
    {
      if !closed {
        PutPending(id, now);
      }
      SendControl(Fin(id));
    }

    /** flow.close: the first close takes the flow out and begins its FIN; no tombstone. */
    method CloseFlow(f: Conn, now: int)
      requires Valid()
      modifies this`flows, this`pending, this`wire, f`cause
      ensures Valid() && f.cause.Some?
      ensures old(f.cause).Some? ==> View() == old(View()) && wire == old(wire) && f.cause == old(f.cause)
      ensures old(f.cause) == None ==> f.cause == Some(Closed) && wire == old(wire) + [Encode(Fin(f.id))]
      ensures old(f.cause) == None ==>
        View() == if f.id in old(flows) && old(flows)[f.id] == f then Close(old(View()), f.id, now)
                  else if closed then old(View()) else AddPending(old(View()), f.id, now)
    {
      if f.cause.Some? {
        return;
      }
      Detach(f);
      BeginFin(f.id, now);
    }

    method ShutAll(why: Cause)
      requires Valid()
      modifies this, flows.Values
      ensures Valid() && View() == FlowTable.ShutAll(old(View())) && wire == old(wire)
      ensures forall id | id in old(flows) :: old(flows)[id].cause == Some(why)
    {
      var live := flows.Values;
      closed, flows, pending, tombstones := true, map[], map[], map[];
      var left := live;
      while left != {}
        invariant left <= live
        invariant Valid() && View() == FlowTable.ShutAll(old(View())) && wire == old(wire)
        invariant forall f | f in left :: f.cause == None
        invariant forall f | f in live && f !in left :: f.cause == Some(why)
        decreases left
        modifies live
      {
        var f :| f in left;
        f.Shut(why);
        left := left - {f};
      }
    }

    // -------------------------------------------------------------- maintenance

    method SweepTombstones(now: int)
      modifies this`tombstones
      ensures tombstones == LiveTombstones(old(View()), now)
    {
      ghost var was := tombstones;
      var todo := tombstones.Keys;
      while todo != {}
        invariant todo <= was.Keys
        invariant tombstones == map id | id in was && (id in todo || now < was[id]) :: was[id]
        decreases todo
      {
        var id :| id in todo;
        todo := todo - {id};
        if tombstones[id] <= now {
          tombstones := tombstones - {id};
        }
      }
    }

    /** Retries each FIN that is due, or gives it up once it has been retried enough. */
    method SweepPending(now: int) returns (retry: seq<WireId>)
      requires Valid()
      modifies this`pending
      ensures Valid() && pending == RetriedPending(old(View()), now)
      ensures forall id :: id in retry <==> Retried(old(View()), id, now)
    {
      ghost var m := View();
      retry := [];
      var todo := pending.Keys;
      while todo != {}
        invariant todo <= m.pending.Keys
        invariant pending == map id | id in m.pending && (id in todo || id in RetriedPending(m, now)) ::
                               if id in todo then m.pending[id] else RetriedPending(m, now)[id]
        invariant forall id :: id in retry <==> id !in todo && Retried(m, id, now)
        decreases todo
      {
        var id :| id in todo;
        todo := todo - {id};
        if pending[id].next <= now {
          if pending[id].retries >= cfg.finCount {
            pending := pending - {id};
          } else {
            pending := pending[id := Pending(now + cfg.finInterval, pending[id].retries + 1)];
            retry := retry + [id];
          }
        }
      }
    }

    method Guard(id: WireId, now: int) returns (ghost victim: Id)
      requires Valid() && cfg.maxTombstones > 0
      modifies this`tombstones, this`pending
      ensures Valid() && Eviction(old(View()), id, victim) && View() == Retire(old(View()), id, now, victim)
    {
      victim := PutTombstone(id, now + cfg.ttl);
      PutPending(id, now);
    }

    /** Takes out one idle flow, guards its ID and begins its FIN. */
    method ReapFlow(f: Conn, now: int) returns (ghost victim: Id)
      requires Valid() && cfg.maxTombstones > 0 && f.id in flows && flows[f.id] == f
      modifies this`flows, this`tombstones, this`pending
      ensures Valid() && flows == old(flows) - {f.id}
      ensures Eviction(Drop(old(View()), f.id), f.id, victim) && View() == ReapOne(old(View()), f.id, now, victim)
    {
      var taken := Take(f.id);
      victim := Guard(f.id, now);
    }

    /** The loop over the flow table: every flow in it is visited once, in some order. */
    method ReapIdle(now: int) returns (idle: seq<Conn>, ghost order: seq<(Id, Id)>)
      requires Valid() && cfg.maxTombstones > 0
      modifies this`flows, this`tombstones, this`pending
      ensures Valid() && View() == Reap(old(View()), order, now)
      ensures Enumerates(order, Idle(old(View()), now)) && Victims(old(View()), order, now)
      ensures |idle| == |order|
      ensures forall k | 0 <= k < |idle| ::
                idle[k].id == order[k].0 && idle[k].id in old(flows) && old(flows)[idle[k].id] == idle[k]
      ensures forall id | id in flows ::
        id in old(flows) && flows[id] == old(flows)[id] && id !in Idle(old(View()), now)
    {
      ghost var m, table := View(), flows;
      ghost var reaped: set<Id> := {};
      idle, order := [], [];
      var todo := flows.Keys;
      while todo != {}
        invariant Valid() && View() == Reap(m, order, now) && Victims(m, order, now)
        invariant Visiting(table, flows, Idle(m, now), idle, order, reaped, todo)
        decreases todo
      {
        var id :| id in todo;
        var f := flows[id];
        assert id in Idle(m, now) <==> now - f.lastActivity >= cfg.idle;
        if now - f.lastActivity >= cfg.idle {
          ghost var before := flows;
          ghost var victim := ReapFlow(f, now);
          ReapSnoc(m, order, id, victim, now);
          VisitIdle(table, before, Idle(m, now), idle, order, reaped, todo, id, victim);
          order, idle, reaped := order + [(id, victim)], idle + [f], reaped + {id};
        }
        todo := todo - {id};
      }
      assert reaped == Idle(m, now);
    }

    /** Ends the reaped flows, telling the peer of each. */
    method ShutIdle(idle: seq<Conn>)
      requires Valid() && forall k | 0 <= k < |idle| :: idle[k] !in flows.Values && idle[k].cause == None
      modifies this`wire, idle`cause
      ensures Valid() && View() == old(View())
      ensures wire == old(wire) + Fins(IdsOf(idle))
      ensures forall f | f in idle :: f.cause == Some(Closed)
    {
      assert old(View()) == View();
      for n := 0 to |idle|
        invariant Valid() && View() == old(View())
        invariant wire == old(wire) + Fins(IdsOf(idle[..n]))
        invariant forall k | 0 <= k < |idle| :: idle[k].cause == Some(Closed) || (k >= n && idle[k].cause == None)
      {
        ShutDetached(idle[n], Closed);
        SendControl(Fin(idle[n].id));
        assert Fins(IdsOf(idle[..n + 1])) == Fins(IdsOf(idle[..n])) + [Encode(Fin(idle[n].id))];
      }
      assert idle[..|idle|] == idle;
    }

    method Refin(ids: seq<WireId>)
      modifies this`wire
      ensures wire == old(wire) + Fins(ids)
    {
      for n := 0 to |ids|
        invariant wire == old(wire) + Fins(ids[..n])
      {
        SendControl(Fin(ids[n]));
        assert Fins(ids[..n + 1]) == Fins(ids[..n]) + [Encode(Fin(ids[n]))];
      }
      assert ids[..|ids|] == ids;
    }

    /** Both control tables are swept. */
    method SweepControl(now: int) returns (retry: seq<WireId>)
      requires Valid()
      modifies this`tombstones, this`pending
      ensures Valid() && View() == Swept(old(View()), now)
      ensures forall id :: id in retry <==> Retried(old(View()), id, now)
    {
      SweepTombstones(now);
      retry := SweepPending(now);
    }

    /** What maintenance does under the lock. */
    method Sweep(now: int) returns (idle: seq<Conn>, retry: seq<WireId>, ghost order: seq<(Id, Id)>)
      requires Valid() && cfg.maxTombstones > 0 && !closed
      modifies this`tombstones, this`pending, this`flows
      ensures Valid() && Maintained(old(View()), View(), IdsOf(idle), retry, order, now)
      ensures forall k | 0 <= k < |idle| ::
                idle[k].id in old(flows) && old(flows)[idle[k].id] == idle[k] && idle[k] !in flows.Values
    {
      ghost var m := View();
      retry := SweepControl(now);
      idle, order := ReapIdle(now);
      PassMaintained(m, View(), IdsOf(idle), retry, order, now);
    }

    /** One maintenance pass: drop expired tombstones, retry or give up due FINs, reap idle
        flows; then, outside the lock, end what was reaped and send every FIN. */
    method Maintain(now: int) returns (idle: seq<Conn>, retry: seq<WireId>, ghost order: seq<(Id, Id)>)
      requires Valid() && cfg.maxTombstones > 0
      modifies this`tombstones, this`pending, this`flows, this`wire, flows.Values`cause
      ensures Valid()
      ensures old(closed) ==> View() == old(View()) && wire == old(wire)
      ensures !old(closed) ==>
                && Maintained(old(View()), View(), IdsOf(idle), retry, order, now)
                && (forall k | 0 <= k < |idle| :: idle[k].cause == Some(Closed))
                && wire == old(wire) + Fins(IdsOf(idle)) + Fins(retry)
    {
      idle, retry, order := [], [], [];
      if closed {
        return;
      }
      idle, retry, order := Sweep(now);
      assert forall k | 0 <= k < |idle| :: old(flows)[idle[k].id] == idle[k] && idle[k].cause == None;
      ShutIdle(idle);
      Refin(retry);
    }
  }

  /** A maintenance pass took m to m', reaping idle in order and retrying exactly the due
      FINs that have retries left. */
  ghost predicate Maintained(m: Mux, m': Mux, idle: seq<WireId>, retry: seq<WireId>, order: seq<(Id, Id)>, now: int) {
    && Legal(m, DoMaintain(order, now)) && m' == Next(m, DoMaintain(order, now))
    && |idle| == |order| && (forall k | 0 <= k < |idle| :: idle[k] == order[k].0)
    && (forall id :: id in retry <==> Retried(m, id, now))
  }

  lemma PassMaintained(m: Mux, m': Mux, idle: seq<WireId>, retry: seq<WireId>, order: seq<(Id, Id)>, now: int)
    requires !m.closed && m' == Reap(Swept(m, now), order, now)
    requires Enumerates(order, Idle(Swept(m, now), now)) && Victims(Swept(m, now), order, now)
    requires |idle| == |order| && forall k | 0 <= k < |idle| :: idle[k] == order[k].0
    requires forall id :: id in retry <==> Retried(m, id, now)
    ensures Maintained(m, m', idle, retry, order, now)
  {
    assert Idle(Swept(m, now), now) == Idle(m, now) by { SweptIdle(m, now); }
    assert Legal(m, DoMaintain(order, now));
  }

  lemma SweptIdle(m: Mux, now: int)
    ensures Idle(Swept(m, now), now) == Idle(m, now)
  {
  }

  /** Mid-way through the flow table: todo is not yet visited, and of what was visited
      exactly the idle flows are gone. */
  ghost predicate Visiting(table: map<Id, Conn>, flows: map<Id, Conn>, due: set<Id>, idle: seq<Conn>,
                           order: seq<(Id, Id)>, reaped: set<Id>, todo: set<Id>)
  {
    && todo <= flows.Keys
    && (forall id | id in flows :: id in table && flows[id] == table[id] && (id in todo || id !in due))
    && |idle| == |order|
    && (forall k | 0 <= k < |idle| :: idle[k].id == order[k].0 && idle[k].id in table && table[idle[k].id] == idle[k])
    && Enumerates(order, reaped) && reaped <= due && reaped !! todo
    && (forall id | id in due :: id in reaped || id in todo)
  }

  lemma VisitIdle(table: map<Id, Conn>, flows: map<Id, Conn>, due: set<Id>, idle: seq<Conn>,
                  order: seq<(Id, Id)>, reaped: set<Id>, todo: set<Id>, id: Id, victim: Id)
    requires Visiting(table, flows, due, idle, order, reaped, todo) && id in todo && id in due && flows[id].id == id
    ensures Visiting(table, flows - {id}, due, idle + [flows[id]], order + [(id, victim)], reaped + {id}, todo - {id})
  {
    EnumerateSnoc(order, reaped, id, victim);
  }
}
