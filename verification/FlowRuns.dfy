/** Two honest multiplexers over a channel that loses, duplicates and reorders: any frame
    either side ever sent may be delivered to the other at any later moment, any number of
    times, or never. */
module FlowRuns {
  import opened Bytes
  import opened FlowTable
  import opened FlowInvariant

  /** One side: its multiplexer, every frame it ever sent, every ID it ever had a flow for,
      what its application wrote, what was ever put in a reader's queue and what its readers
      were handed. */
  datatype Endpoint = Endpoint(
    mux: Mux,
    opens: nat,
    sent: set<Frame>,
    handles: set<Id>,
    written: set<(Id, Octets)>,
    arrived: set<(Id, Octets)>,
    read: seq<(Id, Octets)>)

  datatype System = System(dialer: Endpoint, accepter: Endpoint, now: int)

  datatype Action =
    | Advance(d: nat)
    | At(dialing: bool, event: Event)
    | Drain(dialing: bool, id: Id, payload: Octets)  // a reader of a flow that left the table

  /** Fewer opens than this keep a uint32 from wrapping onto an ID in use. */
  const MAX_OPENS: nat := 0x8000_0000

  function Time(e: Event, now: int): bool {
    match e
    case DoOpen(t) => t == now
    case DoHandle(_, t, _) => t == now
    case DoSend(_, _, t) => t == now
    case DoClose(_, t) => t == now
    case DoDataPart(_, _, _, t) => t == now
    case DoClosePart(_, _, t) => t == now
    case DoMaintain(_, t) => t == now
    case _ => true
  }

  /** An event of `self` while `peer` is at the other end. */
  ghost predicate Enabled(self: Endpoint, peer: Endpoint, e: Event, now: int) {
    && Legal(self.mux, e) && Time(e, now)
    && (e.DoHandle? ==> e.frame in peer.sent)
    && (e.DoDataPart? ==> Data(e.id, e.payload) in peer.sent)
    && (e.DoSend? || e.DoClosePart? ==> e.id in self.handles)
    && (e.DoOpen? ==> self.opens + 1 < MAX_OPENS)
  }

  function Moved(self: Endpoint, e: Event): Endpoint {
    var m := Next(self.mux, e);
    var sent := self.sent + Emitted(self.mux, e);
    var s := self.(mux := m, sent := sent, handles := self.handles + m.flows.Keys);
    match e
    case DoOpen(_) => s.(opens := if self.mux.closed then s.opens else s.opens + 1)
    case DoSend(id, payload, _) => s.(written := s.written + {(id, payload)})
    case DoRecv(id) =>
      if id in self.mux.flows && self.mux.flows[id].queue != [] then
        s.(read := s.read + [(id, self.mux.flows[id].queue[0])])
      else s
    case DoHandle(Data(id, payload), _, _) =>
      if id in m.flows then s.(arrived := s.arrived + {(id, payload)}) else s
    case DoDataPart(Putting, id, payload, _) => s.(arrived := s.arrived + {(id, payload)})
    case _ => s
  }

  /** A flow that was closed or reaped still hands its reader what was queued before. */
  function Drained(s: Endpoint, id: Id, payload: Octets): Endpoint {
    if (id, payload) in s.arrived then s.(read := s.read + [(id, payload)]) else s
  }

  ghost function Act(x: System, a: Action): System {
    match a
    case Advance(d) => x.(now := x.now + d)
    case At(true, e) =>
      if Enabled(x.dialer, x.accepter, e, x.now) then x.(dialer := Moved(x.dialer, e)) else x
    case At(false, e) =>
      if Enabled(x.accepter, x.dialer, e, x.now) then x.(accepter := Moved(x.accepter, e)) else x
    case Drain(true, id, p) => x.(dialer := Drained(x.dialer, id, p))
    case Drain(false, id, p) => x.(accepter := Drained(x.accepter, id, p))
  }

  function Fresh(cfg: Config): Endpoint {
    Endpoint(New(cfg), 0, {}, {}, {}, {}, [])
  }

  ghost function Run(dialer: Config, accepter: Config, actions: seq<Action>): System {
    if actions == [] then System(Fresh(dialer), Fresh(accepter), 0)
    else Act(Run(dialer, accepter, actions[..|actions| - 1]), actions[|actions| - 1])
  }

  // ---------------------------------------------------------------- the invariant

  function LimitsOf(x: System): Limits {
    Limits(x.dialer.mux.next, x.accepter.mux.next)
  }

  ghost predicate EndpointWithin(s: Endpoint, limits: Limits) {
    && Within(s.mux, limits)
    && (forall f | f in s.sent :: Below(f.id, limits))
    && (forall id | id in s.handles :: Below(id, limits))
  }

  ghost predicate Allocated(s: Endpoint) {
    s.opens < MAX_OPENS && s.mux.next == 2 * s.opens + (if s.mux.cfg.dialing then 0 else 1)
  }

  /** What sits in a reader's queue, or was read, the peer sent on that flow; and what was
      sent as data was written. */
  ghost predicate Honest(self: Endpoint, peer: Endpoint) {
    && (forall id: Id, p | id in self.mux.flows && p in self.mux.flows[id].queue :: Data(id, p) in peer.sent)
    && (forall q | q in self.arrived :: Data(q.0, q.1) in peer.sent)
    && (forall k | 0 <= k < |self.read| :: Data(self.read[k].0, self.read[k].1) in peer.sent)
    && (forall f | f in self.sent && f.Data? :: (f.id, f.payload) in self.written)
  }

  /** What holds of one side of the channel, given the other. */
  ghost predicate SideInv(self: Endpoint, peer: Endpoint, limits: Limits) {
    Ok(self.mux) && Allocated(self) && EndpointWithin(self, limits) && Honest(self, peer)
  }

  ghost predicate Inv(x: System) {
    && x.dialer.mux.cfg.dialing && !x.accepter.mux.cfg.dialing
    && SideInv(x.dialer, x.accepter, LimitsOf(x))
    && SideInv(x.accepter, x.dialer, LimitsOf(x))
  }

  // ---------------------------------------------------------------- one side moves

  lemma WithinGrows(s: Endpoint, before: Limits, after: Limits)
    requires EndpointWithin(s, before) && before.even <= after.even && before.odd <= after.odd
    ensures EndpointWithin(s, after)
  {
  }

  /** The limits once this side has moved. */
  function Grown(s: Endpoint, e: Event, limits: Limits): Limits {
    var next := Next(s.mux, e).next;
    if s.mux.cfg.dialing then Limits(next, limits.odd) else Limits(limits.even, next)
  }

  lemma NextAllocated(self: Endpoint, peer: Endpoint, e: Event, now: int)
    requires Enabled(self, peer, e, now) && Allocated(self)
    ensures Allocated(Moved(self, e)) && Next(self.mux, e).next >= self.mux.next
    ensures Next(self.mux, e).cfg == self.mux.cfg
    ensures e.DoOpen? && !self.mux.closed ==> Next(self.mux, e).next == self.mux.next + 2
  {
    NextFixed(self.mux, e);
  }

  lemma OpenedBelow(self: Endpoint, e: Event, limits: Limits)
    requires Allocated(self) && e.DoOpen? && !self.mux.closed && self.opens + 1 < MAX_OPENS
    ensures Below(self.mux.next, Grown(self, e, limits))
  {
  }

  lemma EmittedWithin(m: Mux, e: Event, limits: Limits)
    requires Legal(m, e) && Within(m, limits) && BringsBelow(m, e, limits) && (e.DoSend? ==> Below(e.id, limits))
    ensures forall f | f in Emitted(m, e) :: Below(f.id, limits)
  {
    forall f | f in Emitted(m, e) ensures Below(f.id, limits) {
      if !e.DoSend? {
        EmittedBelow(m, e, f, limits);
      }
    }
  }

  lemma MovedWithin(self: Endpoint, peer: Endpoint, e: Event, now: int, limits: Limits)
    requires Enabled(self, peer, e, now) && Allocated(self)
    requires EndpointWithin(self, limits) && EndpointWithin(peer, limits)
    requires (if self.mux.cfg.dialing then limits.even else limits.odd) == self.mux.next
    ensures EndpointWithin(Moved(self, e), Grown(self, e, limits))
  {
    NextAllocated(self, peer, e, now);
    var grown := Grown(self, e, limits);
    WithinGrows(self, limits, grown);
    if e.DoOpen? && self.mux.closed {
      assert Next(self.mux, e) == self.mux;
    } else {
      assert BringsBelow(self.mux, e, grown) by {
        if e.DoOpen? {
          OpenedBelow(self, e, limits);
        }
      }
      NextWithin(self.mux, e, grown);
      EmittedWithin(self.mux, e, grown);
    }
  }

  // ---------------------------------------------------------------- what queues hold

  predicate Delivers(e: Event, id: Id, p: Octets) {
    (e.DoHandle? && e.frame == Data(id, p)) || (e.DoDataPart? && e.id == id && e.payload == p)
  }

  /** A payload is in a queue after an event only if it was before, or has just arrived on
      that very flow. */
  lemma QueueOrigin(m: Mux, e: Event, id: Id, p: Octets)
    requires Legal(m, e) && id in Next(m, e).flows && p in Next(m, e).flows[id].queue
    ensures (id in m.flows && p in m.flows[id].queue) || Delivers(e, id, p)
  {
    if e.DoMaintain? {
      ReapFlows(Swept(m, e.now), e.order, e.now, id);
    } else if e.DoDataPart? {
      PartOrigin(m, e, id, p);
    }
  }

  lemma PartOrigin(m: Mux, e: Event, id: Id, p: Octets)
    requires e.DoDataPart? && id in Next(m, e).flows && p in Next(m, e).flows[id].queue
    ensures (id in m.flows && p in m.flows[id].queue) || Delivers(e, id, p)
  {
  }

  /** Only a send puts data on the wire. */
  lemma EmittedData(m: Mux, e: Event, f: Frame)
    requires f in Emitted(m, e) && f.Data?
    ensures e.DoSend? && f == Data(e.id, e.payload)
  {
  }

  lemma MovedHonest(self: Endpoint, peer: Endpoint, e: Event, now: int)
    requires Enabled(self, peer, e, now) && Honest(self, peer) && Honest(peer, self)
    ensures Honest(Moved(self, e), peer) && Honest(peer, Moved(self, e))
  {
    var s := Moved(self, e);
    forall id: Id, p | id in s.mux.flows && p in s.mux.flows[id].queue ensures Data(id, p) in peer.sent {
      QueueOrigin(self.mux, e, id, p);
    }
    forall f | f in s.sent && f.Data? ensures (f.id, f.payload) in s.written {
      if f !in self.sent {
        EmittedData(self.mux, e, f);
      }
    }
  }

  lemma AllocatedLocal(s: Endpoint)
    requires Allocated(s)
    ensures Local(s.mux.cfg, s.mux.next)
  {
  }

  lemma MovedOk(self: Endpoint, e: Event, limits: Limits)
    requires Ok(self.mux) && Legal(self.mux, e) && EndpointWithin(self, limits)
    requires (if self.mux.cfg.dialing then limits.even else limits.odd) == self.mux.next
    requires Local(self.mux.cfg, self.mux.next)
    ensures Ok(Moved(self, e).mux)
  {
    assert !Below(self.mux.next, limits);
    NextOk(self.mux, e);
  }

  lemma MovedAllocated(self: Endpoint, peer: Endpoint, e: Event, now: int)
    requires Enabled(self, peer, e, now) && Allocated(self)
    ensures Allocated(Moved(self, e)) && Moved(self, e).mux.cfg == self.mux.cfg
  {
    NextAllocated(self, peer, e, now);
  }

  /** The side that moved keeps its half of the invariant. */
  lemma MoverInv(self: Endpoint, peer: Endpoint, e: Event, now: int, limits: Limits)
    requires SideInv(self, peer, limits) && EndpointWithin(peer, limits) && Honest(peer, self)
    requires Enabled(self, peer, e, now)
    requires (if self.mux.cfg.dialing then limits.even else limits.odd) == self.mux.next
    ensures SideInv(Moved(self, e), peer, Grown(self, e, limits)) && Moved(self, e).mux.cfg == self.mux.cfg
  {
    var s := Moved(self, e);
    assert Ok(s.mux) by {
      AllocatedLocal(self);
      MovedOk(self, e, limits);
    }
    assert Allocated(s) && s.mux.cfg == self.mux.cfg by { MovedAllocated(self, peer, e, now); }
    assert EndpointWithin(s, Grown(self, e, limits)) by { MovedWithin(self, peer, e, now, limits); }
    assert Honest(s, peer) by { MovedHonest(self, peer, e, now); }
  }

  /** The side that did not move keeps its own. */
  lemma WatcherInv(self: Endpoint, peer: Endpoint, e: Event, now: int, limits: Limits)
    requires SideInv(peer, self, limits) && Honest(self, peer) && Allocated(self)
    requires Enabled(self, peer, e, now)
    requires (if self.mux.cfg.dialing then limits.even else limits.odd) == self.mux.next
    ensures SideInv(peer, Moved(self, e), Grown(self, e, limits))
  {
    NextAllocated(self, peer, e, now);
    WithinGrows(peer, limits, Grown(self, e, limits));
    MovedHonest(self, peer, e, now);
  }

  lemma DialerInv(x: System, e: Event)
    requires Inv(x) && Enabled(x.dialer, x.accepter, e, x.now)
    ensures Inv(x.(dialer := Moved(x.dialer, e)))
  {
    MoverInv(x.dialer, x.accepter, e, x.now, LimitsOf(x));
    WatcherInv(x.dialer, x.accepter, e, x.now, LimitsOf(x));
  }

  lemma AccepterInv(x: System, e: Event)
    requires Inv(x) && Enabled(x.accepter, x.dialer, e, x.now)
    ensures Inv(x.(accepter := Moved(x.accepter, e)))
  {
    MoverInv(x.accepter, x.dialer, e, x.now, LimitsOf(x));
    WatcherInv(x.accepter, x.dialer, e, x.now, LimitsOf(x));
  }

  lemma ActInv(x: System, a: Action)
    requires Inv(x)
    ensures Inv(Act(x, a))
  {
    match a
    case At(true, e) =>
      if Enabled(x.dialer, x.accepter, e, x.now) {
        DialerInv(x, e);
      }
    case At(false, e) =>
      if Enabled(x.accepter, x.dialer, e, x.now) {
        AccepterInv(x, e);
      }
    case Drain(_, _, _) =>
    case Advance(_) =>
  }

  lemma {:induction false} RunInv(dialer: Config, accepter: Config, actions: seq<Action>)
    requires GoodConfig(dialer) && GoodConfig(accepter) && dialer.dialing && !accepter.dialing
    ensures Inv(Run(dialer, accepter, actions))
  {
    if actions != [] {
      var k := |actions| - 1;
      RunInv(dialer, accepter, actions[..k]);
      ActInv(Run(dialer, accepter, actions[..k]), actions[k]);
    }
  }

  // ---------------------------------------------------------------- main results

  function Side(x: System, dialing: bool): Endpoint {
    if dialing then x.dialer else x.accepter
  }

  lemma NextUnknown(s: Endpoint, id: Id, limits: Limits)
    requires EndpointWithin(s, limits) && !Below(id, limits)
    ensures id !in s.mux.flows && id !in s.mux.pending && id !in s.mux.tombstones && id !in s.handles
    ensures forall f | f in s.sent :: f.id != id
  {
  }

  /** The ID a side would open next is in neither side's tables and on no wire, so opening
      never takes over a live flow or a tombstone. */
  lemma OpenNeverCollides(dialer: Config, accepter: Config, actions: seq<Action>, dialing: bool, other: bool)
    requires GoodConfig(dialer) && GoodConfig(accepter) && dialer.dialing && !accepter.dialing
    ensures var x := Run(dialer, accepter, actions);
            var id, s := Side(x, dialing).mux.next, Side(x, other);
      && id !in s.mux.flows && id !in s.mux.pending && id !in s.mux.tombstones && id !in s.handles
      && (forall f | f in s.sent :: f.id != id)
  {
    RunInv(dialer, accepter, actions);
    InvUnknown(Run(dialer, accepter, actions), dialing, other);
  }

  lemma InvUnknown(x: System, dialing: bool, other: bool)
    requires Inv(x)
    ensures var id, s := Side(x, dialing).mux.next, Side(x, other);
      && id !in s.mux.flows && id !in s.mux.pending && id !in s.mux.tombstones && id !in s.handles
      && (forall f | f in s.sent :: f.id != id)
  {
    assert EndpointWithin(Side(x, other), LimitsOf(x));
    assert !Below(Side(x, dialing).mux.next, LimitsOf(x)) by { assert Allocated(Side(x, dialing)); }
    NextUnknown(Side(x, other), Side(x, dialing).mux.next, LimitsOf(x));
  }

  /** In every reachable state each side's flows and tombstones are disjoint, both control
      tables respect their limits, no pending FIN was retried more often than configured,
      and a closed side has no flow. */
  lemma TablesBounded(dialer: Config, accepter: Config, actions: seq<Action>, dialing: bool)
    requires GoodConfig(dialer) && GoodConfig(accepter) && dialer.dialing && !accepter.dialing
    ensures var m := Side(Run(dialer, accepter, actions), dialing).mux;
      && m.flows.Keys !! m.tombstones.Keys
      && |m.pending| <= m.cfg.maxPending && |m.tombstones| <= m.cfg.maxTombstones
      && (forall id | id in m.pending :: m.pending[id].retries <= m.cfg.finCount)
      && (m.closed ==> m.flows == map[])
  {
    RunInv(dialer, accepter, actions);
  }

  /** Whatever is read from a flow is, octet for octet, something the peer wrote to the flow
      of the same ID. */
  lemma ReadWasWritten(dialer: Config, accepter: Config, actions: seq<Action>, dialing: bool)
    requires GoodConfig(dialer) && GoodConfig(accepter) && dialer.dialing && !accepter.dialing
    ensures var x := Run(dialer, accepter, actions);
      forall k | 0 <= k < |Side(x, dialing).read| :: Side(x, dialing).read[k] in Side(x, !dialing).written
  {
    RunInv(dialer, accepter, actions);
    var x := Run(dialer, accepter, actions);
    var self, peer := Side(x, dialing), Side(x, !dialing);
    forall k | 0 <= k < |self.read| ensures self.read[k] in peer.written {
      assert Data(self.read[k].0, self.read[k].1) in peer.sent;
    }
  }
}
