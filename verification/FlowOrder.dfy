/** What a reader of a flow is handed and in which order, and what keeps a flow alive: over
    every legal run of one multiplexer, told from the history of that run. */
module FlowOrder {
  import opened Bytes
  import opened FlowTable
  import opened FlowInvariant
  import opened FlowTeardown
  import opened FlowLaws

  // ---------------------------------------------------------------- first in, first out

  /** Whether e starts flow id anew. */
  predicate Starts(m: Mux, e: Event, id: Id) {
    id !in m.flows || Opens(m, e, id)
  }

  /** What arrived on flow id, since it began, while fewer than FLOW_QUEUE payloads waited. */
  function Kept(m: Mux, events: seq<Event>, id: Id): seq<Octets> {
    if events == [] then (if id in m.flows then m.flows[id].queue else [])
    else
      var front, e := events[..|events| - 1], events[|events| - 1];
      var t := After(m, front);
      if id !in Next(t, e).flows then []
      else if Starts(t, e, id) then (if Arrival(e, id).Some? then [Arrival(e, id).value] else [])
      else Kept(m, front, id)
           + (if Arrival(e, id).Some? && |t.flows[id].queue| < FLOW_QUEUE then [Arrival(e, id).value] else [])
  }

  /** Everything that arrived on it since it began. */
  function Came(m: Mux, events: seq<Event>, id: Id): seq<Octets> {
    if events == [] then (if id in m.flows then m.flows[id].queue else [])
    else
      var front, e := events[..|events| - 1], events[|events| - 1];
      var t := After(m, front);
      if id !in Next(t, e).flows then []
      else (if Starts(t, e, id) then [] else Came(m, front, id))
           + (if Arrival(e, id).Some? then [Arrival(e, id).value] else [])
  }

  /** What its reader has been handed since it began, in order. */
  function Handed(m: Mux, events: seq<Event>, id: Id): seq<Octets> {
    if events == [] then []
    else
      var front, e := events[..|events| - 1], events[|events| - 1];
      var t := After(m, front);
      if id !in Next(t, e).flows || Starts(t, e, id) then []
      else Handed(m, front, id)
           + (if e == DoRecv(id) && t.flows[id].queue != [] then [t.flows[id].queue[0]] else [])
  }

  /** s is t with some of its elements left out. */
  predicate Within<T(==)>(s: seq<T>, t: seq<T>) {
    s == [] ||
    (t != [] &&
     (Within(s, t[..|t| - 1]) || (s[|s| - 1] == t[|t| - 1] && Within(s[..|s| - 1], t[..|t| - 1]))))
  }

  ghost predicate Live(m: Mux) {
    m.closed ==> m.flows == map[]
  }

  lemma NextLive(m: Mux, e: Event)
    requires Live(m) && Legal(m, e)
    ensures Live(Next(m, e))
  {
    ClosedExactly(m, e);
    if m.closed && Next(m, e).flows != map[] {
      var id :| id in Next(m, e).flows;
      FlowBegins(m, e, id);
    }
  }

  lemma OpenStarts(m: Mux, e: Event, id: Id)
    requires Opens(m, e, id)
    ensures id in Next(m, e).flows && Next(m, e).flows[id].queue == [] && Arrival(e, id) == None
  {
  }

  /** First in, first out: what the reader of a flow has been handed, then what is queued, is
      what arrived on it while there was room, in the order it arrived. */
  ghost predicate InOrder(m: Mux, events: seq<Event>, id: Id) {
    id in After(m, events).flows ==>
      Handed(m, events, id) + After(m, events).flows[id].queue == Kept(m, events, id)
  }

  lemma {:induction false} RunLive(m: Mux, events: seq<Event>)
    requires Live(m) && AllLegal(m, events)
    ensures Live(After(m, events))
  {
    if events != [] {
      RunLive(m, events[..|events| - 1]);
      NextLive(After(m, events[..|events| - 1]), events[|events| - 1]);
    }
  }

  lemma LegalFront(m: Mux, events: seq<Event>)
    requires AllLegal(m, events) && events != []
    ensures AllLegal(m, events[..|events| - 1]) && Legal(After(m, events[..|events| - 1]), events[|events| - 1])
  {
  }

  /** So it is after any run: nothing is dropped while fewer than FLOW_QUEUE are waiting, and
      nothing overtakes. */
  lemma {:induction false} ReadsInOrder(m: Mux, events: seq<Event>, id: Id)
    requires Live(m) && AllLegal(m, events)
    ensures InOrder(m, events, id)
  {
    if events == [] {
      assert Handed(m, events, id) == [];
    } else {
      var front, e := events[..|events| - 1], events[|events| - 1];
      LegalFront(m, events);
      RunLive(m, front);
      ReadsInOrder(m, front, id);
      OrderStep(m, front, e, id);
      assert front + [e] == events;
    }
  }

  /** The same when the flow was there and stays: only the ends of the queue move. */
  lemma OrderMoves(handed: seq<Octets>, queue: seq<Octets>, kept: seq<Octets>, p: Option<Octets>, taken: bool)
    requires handed + queue == kept && (taken ==> queue != [] && p == None)
    ensures
      (handed + if taken then [queue[0]] else [])
      + (if p.Some? then queue + [p.value] else if taken then queue[1..] else queue)
      == kept + if p.Some? then [p.value] else []
  {
    if taken {
      assert handed + [queue[0]] + queue[1..] == handed + queue;
    } else if p.Some? {
      assert handed + [] + (queue + [p.value]) == handed + queue + [p.value];
    }
  }

  /** What arrives on a flow that has room for it. */
  function Room(f: Flow, e: Event, id: Id): Option<Octets> {
    if |f.queue| < FLOW_QUEUE then Arrival(e, id) else None
  }

  lemma HistorySnoc(m: Mux, front: seq<Event>, e: Event, id: Id)
    requires var t := After(m, front); id in Next(t, e).flows && !Starts(t, e, id)
    ensures var f := After(m, front).flows[id];
      && Handed(m, front + [e], id) ==
         Handed(m, front, id) + (if e == DoRecv(id) && f.queue != [] then [f.queue[0]] else [])
      && Kept(m, front + [e], id) ==
         Kept(m, front, id) + (if Room(f, e, id).Some? then [Room(f, e, id).value] else [])
  {
    assert (front + [e])[..|front + [e]| - 1] == front;
  }

  lemma StaysInOrder(m: Mux, front: seq<Event>, e: Event, id: Id)
    requires var t := After(m, front);
      && Live(t) && Legal(t, e) && id in Next(t, e).flows && !Starts(t, e, id)
      && Handed(m, front, id) + t.flows[id].queue == Kept(m, front, id)
    ensures Handed(m, front + [e], id) + Next(After(m, front), e).flows[id].queue == Kept(m, front + [e], id)
  {
    var t := After(m, front);
    HistorySnoc(m, front, e, id);
    QueueMoves(t, e, id);
    var queue, p, taken := t.flows[id].queue, Room(t.flows[id], e, id), e == DoRecv(id) && t.flows[id].queue != [];
    OrderMoves(Handed(m, front, id), queue, Kept(m, front, id), p, taken);
  }

  lemma QueueMoves(t: Mux, e: Event, id: Id)
    requires Live(t) && Legal(t, e) && id in Next(t, e).flows && !Starts(t, e, id)
    ensures var queue, p := t.flows[id].queue, Room(t.flows[id], e, id);
      Next(t, e).flows[id].queue ==
        if p.Some? then queue + [p.value] else if e == DoRecv(id) && queue != [] then queue[1..] else queue
  {
    FlowEnds(t, e, id);
    FlowStays(t, e, id);
  }

  lemma OrderStep(m: Mux, front: seq<Event>, e: Event, id: Id)
    requires Live(After(m, front)) && Legal(After(m, front), e) && InOrder(m, front, id)
    ensures InOrder(m, front + [e], id)
  {
    var t := After(m, front);
    assert (front + [e])[..|front + [e]| - 1] == front;
    if id !in Next(t, e).flows {
    } else if id !in t.flows {
      FlowBegins(t, e, id);
    } else if Opens(t, e, id) {
      OpenStarts(t, e, id);
    } else {
      StaysInOrder(m, front, e, id);
    }
  }

  lemma {:induction false} WithinSnoc<T>(s: seq<T>, t: seq<T>, x: T)
    requires Within(s, t)
    ensures Within(s, t + [x]) && Within(s + [x], t + [x])
  {
    assert (t + [x])[..|t|] == t && (s + [x])[..|s|] == s;
  }

  /** In particular they are a subsequence of all that arrived. */
  lemma {:induction false} KeptArrived(m: Mux, events: seq<Event>, id: Id)
    ensures Within(Kept(m, events, id), Came(m, events, id))
  {
    if events == [] {
      WithinSelf(Kept(m, events, id));
    } else {
      var front, e := events[..|events| - 1], events[|events| - 1];
      KeptArrived(m, front, id);
      ArrivedStep(Kept(m, front, id), Came(m, front, id), Arrival(e, id));
    }
  }

  lemma ArrivedStep(kept: seq<Octets>, came: seq<Octets>, p: Option<Octets>)
    requires Within(kept, came)
    ensures kept + [] == kept && came + [] == came
    ensures p.Some? ==>
      && Within(kept, came + [p.value]) && Within(kept + [p.value], came + [p.value])
      && [] + [p.value] == [p.value] && Within([p.value], [p.value])
  {
    if p.Some? {
      WithinSnoc(kept, came, p.value);
      WithinSelf([p.value]);
    }
  }

  lemma {:induction false} WithinSelf<T>(s: seq<T>)
    ensures Within(s, s)
  {
    if s != [] {
      WithinSelf(s[..|s| - 1]);
    }
  }

  // ---------------------------------------------------------------- what keeps a flow alive

  /** Somebody means flow id to go: its FIN, its close, an offer nobody takes, a shutdown. */
  predicate Dismissed(m: Mux, e: Event, id: Id) {
    id in m.flows && Ends(m, e, id) && !e.DoMaintain?
  }

  ghost predicate Undismissed(m: Mux, events: seq<Event>, id: Id, from: int, until: int) {
    events == [] ||
    var front, e := events[..|events| - 1], events[|events| - 1];
    && Undismissed(m, front, id, from, until)
    && Legal(After(m, front), e) && !Dismissed(After(m, front), e, id) && !Opens(After(m, front), e, id)
    && (TimeOf(e).Some? ==> from <= TimeOf(e).value < until)
  }

  /** A flow that was active at some moment is not reaped before the idle time is over, in any
      run that does not close it otherwise, whatever else happens; and what arrives or is sent
      on it then keeps it for the idle time from there. */
  lemma {:induction false} ActiveStays(m: Mux, events: seq<Event>, id: Id, from: int, until: int)
    requires Live(m) && id in m.flows && m.flows[id].lastActivity >= from && until <= from + m.cfg.idle
    requires Undismissed(m, events, id, from, until)
    ensures var t := After(m, events); t.cfg == m.cfg && Live(t) && id in t.flows && t.flows[id].lastActivity >= from
  {
    if events != [] {
      var front, e := events[..|events| - 1], events[|events| - 1];
      ActiveStays(m, front, id, from, until);
      var t := After(m, front);
      NextLive(t, e);
      NextFixed(t, e);
      FlowEnds(t, e, id);
      FlowStays(t, e, id);
    }
  }

  /** And a flow nothing arrived on and nothing was sent on for the idle time goes with the next
      pass: out of the table, guarded for the TTL, and announced to the peer. */
  lemma IdleGoes(m: Mux, order: seq<(Id, Id)>, now: int, id: Id)
    requires Ok(m) && Legal(m, DoMaintain(order, now)) && !Overflows(m, DoMaintain(order, now))
    requires id in m.flows && now - m.flows[id].lastActivity >= m.cfg.idle
    ensures var t := Next(m, DoMaintain(order, now));
      && id !in t.flows && id in t.tombstones && t.tombstones[id] == now + m.cfg.ttl
      && Fin(id) in Emitted(m, DoMaintain(order, now))
  {
    FlowEnds(m, DoMaintain(order, now), id);
    TombstonesExactly(m, DoMaintain(order, now), id);
    EmitsExactly(m, DoMaintain(order, now), id, []);
  }

  // ---------------------------------------------------------------- an acknowledged FIN

  /** Somewhere in the run the FIN of `id` is sent. */
  predicate SendsFinIn(m: Mux, events: seq<Event>, id: Id) {
    events != [] &&
    (SendsFinIn(m, events[..|events| - 1], id)
     || Fin(id) in Emitted(After(m, events[..|events| - 1]), events[|events| - 1]))
  }

  /** Once the peer has acknowledged a FIN it is never sent again, however many passes follow,
      unless the flow is closed or reaped anew. */
  lemma {:induction false} AckedIsSilent(m: Mux, events: seq<Event>, id: Id, now: int)
    requires var t := Next(m, DoHandle(FinAck(id), now, 0)); LegalRun(t, events, id)
    ensures var t := Next(m, DoHandle(FinAck(id), now, 0));
      !SendsFinIn(t, events, id) && id !in After(t, events).pending
  {
    var t := Next(m, DoHandle(FinAck(id), now, 0));
    if events == [] {
      PendingExactly(m, DoHandle(FinAck(id), now, 0), id);
    } else {
      var front, e := events[..|events| - 1], events[|events| - 1];
      AckedIsSilent(m, front, id, now);
      var u := After(t, front);
      EmitsExactly(u, e, id, []);
      PendingStep(u, e, id);
      assert e.DoMaintain? ==> (IdleAt(u, id, e.now) <==> id in Idle(u, e.now));
    }
  }
}
