/** Both multiplexers together: what a reader is handed, in order, is what the peer wrote, and a
    close on one side ends the flow on the other. */
module FlowDelivery {
  import opened Bytes
  import opened FlowTable
  import opened FlowInvariant
  import opened FlowRuns
  import T = FlowTeardown
  import L = FlowLaws
  import O = FlowOrder

  // ---------------------------------------------------------------- one side of a run

  /** The event an action makes happen on a side, if it does. */
  ghost function EventOf(x: System, a: Action, dialing: bool): seq<Event> {
    if a.At? && a.dialing == dialing && Enabled(Side(x, dialing), Side(x, !dialing), a.event, x.now) then [a.event]
    else []
  }

  /** What happened on one side of a run. */
  ghost function EventsOf(dialer: Config, accepter: Config, actions: seq<Action>, dialing: bool): seq<Event> {
    if actions == [] then []
    else
      var front, a := actions[..|actions| - 1], actions[|actions| - 1];
      EventsOf(dialer, accepter, front, dialing) + EventOf(Run(dialer, accepter, front), a, dialing)
  }

  function ConfigOf(dialer: Config, accepter: Config, dialing: bool): Config {
    if dialing then dialer else accepter
  }

  lemma ActEvent(x: System, a: Action, dialing: bool)
    ensures var e := EventOf(x, a, dialing);
      Side(Act(x, a), dialing).mux == if e == [] then Side(x, dialing).mux else Next(Side(x, dialing).mux, e[0])
    ensures Side(x, !dialing).sent <= Side(Act(x, a), !dialing).sent
  {
  }

  lemma RunSnoc(m: Mux, events: seq<Event>, e: seq<Event>)
    requires |e| <= 1 && T.AllLegal(m, events) && (e != [] ==> Legal(T.After(m, events), e[0]))
    ensures T.After(m, events + e) == if e == [] then T.After(m, events) else Next(T.After(m, events), e[0])
    ensures T.AllLegal(m, events + e)
  {
    if e == [] {
      assert events + e == events;
    } else {
      assert e == [e[0]];
      T.RunSnoc(m, events, e[0], 0);
    }
  }

  /** Each side of a run of both is a legal run of its own, whatever the other does; so all
      that is proved of one multiplexer's runs holds of it. */
  lemma {:induction false} SideIsARun(dialer: Config, accepter: Config, actions: seq<Action>, dialing: bool)
    ensures var events, m := EventsOf(dialer, accepter, actions, dialing), New(ConfigOf(dialer, accepter, dialing));
      T.AllLegal(m, events) && Side(Run(dialer, accepter, actions), dialing).mux == T.After(m, events)
  {
    if actions != [] {
      var front, a := actions[..|actions| - 1], actions[|actions| - 1];
      SideIsARun(dialer, accepter, front, dialing);
      var x := Run(dialer, accepter, front);
      ActEvent(x, a, dialing);
      var m := New(ConfigOf(dialer, accepter, dialing));
      RunSnoc(m, EventsOf(dialer, accepter, front, dialing), EventOf(x, a, dialing));
    }
  }

  // ---------------------------------------------------------------- order and origin

  lemma ArrivalWasSent(x: System, a: Action, dialing: bool, id: Id, p: Octets)
    requires EventOf(x, a, dialing) != [] && L.Arrives(EventOf(x, a, dialing)[0], id, p)
    ensures Data(id, p) in Side(x, !dialing).sent
  {
  }

  lemma CameSnoc(m: Mux, events: seq<Event>, e: Event, id: Id, p: Octets)
    requires p in O.Came(m, events + [e], id)
    ensures p in O.Came(m, events, id) || L.Arrives(e, id, p)
  {
    assert (events + [e])[..|events + [e]| - 1] == events;
  }

  lemma {:induction false} CameFromPeer(dialer: Config, accepter: Config, actions: seq<Action>, dialing: bool,
                                        id: Id, p: Octets)
    requires p in O.Came(New(ConfigOf(dialer, accepter, dialing)), EventsOf(dialer, accepter, actions, dialing), id)
    ensures Data(id, p) in Side(Run(dialer, accepter, actions), !dialing).sent
  {
    if actions != [] {
      var front, a := actions[..|actions| - 1], actions[|actions| - 1];
      var m, events := New(ConfigOf(dialer, accepter, dialing)), EventsOf(dialer, accepter, front, dialing);
      var x := Run(dialer, accepter, front);
      var e := EventOf(x, a, dialing);
      ActEvent(x, a, dialing);
      if e == [] {
        assert events + e == events;
        CameFromPeer(dialer, accepter, front, dialing, id, p);
      } else {
        assert e == [e[0]];
        CameSnoc(m, events, e[0], id, p);
        if L.Arrives(e[0], id, p) {
          ArrivalWasSent(x, a, dialing, id, p);
        } else {
          CameFromPeer(dialer, accepter, front, dialing, id, p);
        }
      }
    }
  }

  /** In every run of both sides, over a channel that loses, repeats and reorders: what the
      reader of a live flow has been handed, then what is queued for it, is what arrived on the
      flow while there was room, in the order it arrived; and whatever arrived the peer wrote
      to the flow of the same ID. */
  lemma DeliveredInOrder(dialer: Config, accepter: Config, actions: seq<Action>, dialing: bool, id: Id)
    requires GoodConfig(dialer) && GoodConfig(accepter) && dialer.dialing && !accepter.dialing
    requires id in Side(Run(dialer, accepter, actions), dialing).mux.flows
    ensures var events, m := EventsOf(dialer, accepter, actions, dialing), New(ConfigOf(dialer, accepter, dialing));
            var x := Run(dialer, accepter, actions);
      && O.Handed(m, events, id) + Side(x, dialing).mux.flows[id].queue == O.Kept(m, events, id)
      && O.Within(O.Kept(m, events, id), O.Came(m, events, id))
      && forall p | p in O.Came(m, events, id) :: (id, p) in Side(x, !dialing).written
  {
    var events, m := EventsOf(dialer, accepter, actions, dialing), New(ConfigOf(dialer, accepter, dialing));
    var x := Run(dialer, accepter, actions);
    SideIsARun(dialer, accepter, actions, dialing);
    O.ReadsInOrder(m, events, id);
    O.KeptArrived(m, events, id);
    RunInv(dialer, accepter, actions);
    forall p | p in O.Came(m, events, id) ensures (id, p) in Side(x, !dialing).written {
      CameFromPeer(dialer, accepter, actions, dialing, id, p);
      assert Honest(Side(x, !dialing), Side(x, dialing));
    }
  }

  // ---------------------------------------------------------------- a close reaches the peer

  /** The event happens on a side. */
  ghost function Happens(x: System, dialing: bool, e: Event): System {
    Act(x, At(dialing, e))
  }

  lemma ActAt(x: System, dialing: bool, e: Event)
    requires Enabled(Side(x, dialing), Side(x, !dialing), e, x.now)
    ensures var y := Happens(x, dialing, e);
      Side(y, dialing) == Moved(Side(x, dialing), e) && Side(y, !dialing) == Side(x, !dialing) && y.now == x.now
  {
  }

  /** Closing a flow: the FIN is on the wire. */
  lemma CloseSends(s: Endpoint, id: Id, now: int)
    requires id in s.mux.flows
    ensures var t := Moved(s, DoClose(id, now)); id !in t.mux.flows && Fin(id) in t.sent && t.mux.cfg == s.mux.cfg
  {
  }

  lemma FinEnds(s: Endpoint, id: Id, now: int, victim: Id)
    ensures var t := Moved(s, DoHandle(Fin(id), now, victim)); id !in t.mux.flows && FinAck(id) in t.sent
  {
  }

  lemma AckForgets(s: Endpoint, id: Id, now: int)
    ensures var t := Moved(s, DoHandle(FinAck(id), now, 0));
      id !in t.mux.pending && t.mux.flows == s.mux.flows
  {
  }

  lemma SomeVictim(m: Mux, id: Id) returns (victim: Id)
    requires Ok(m)
    ensures Eviction(m, id, victim)
  {
    victim := 0;
    if Full(m, id) {
      assert m.tombstones.Keys != {};
      victim :| victim in m.tombstones;
    }
  }

  /** Wherever a run stands, a close here, its FIN delivered to the peer and the peer's
      acknowledgement delivered back leave the flow gone on both sides and nothing to send
      again: each step is enabled by the one before. */
  lemma CloseReachesPeer(dialer: Config, accepter: Config, actions: seq<Action>, dialing: bool, id: Id)
    requires GoodConfig(dialer) && GoodConfig(accepter) && dialer.dialing && !accepter.dialing
    requires id in Side(Run(dialer, accepter, actions), dialing).mux.flows
    ensures exists victim ::
      var x := Run(dialer, accepter, actions);
      var closed := Happens(x, dialing, DoClose(id, x.now));
      var ended := Happens(closed, !dialing, DoHandle(Fin(id), x.now, victim));
      var acked := Happens(ended, dialing, DoHandle(FinAck(id), x.now, 0));
      && id !in Side(acked, dialing).mux.flows && id !in Side(acked, !dialing).mux.flows
      && id !in Side(acked, dialing).mux.pending
  {
    RunInv(dialer, accepter, actions);
    var x := Run(dialer, accepter, actions);
    ActAt(x, dialing, DoClose(id, x.now));
    CloseSends(Side(x, dialing), id, x.now);
    var closed := Happens(x, dialing, DoClose(id, x.now));
    var victim := SomeVictim(Side(closed, !dialing).mux, id);
    ActAt(closed, !dialing, DoHandle(Fin(id), x.now, victim));
    FinEnds(Side(closed, !dialing), id, x.now, victim);
    var ended := Happens(closed, !dialing, DoHandle(Fin(id), x.now, victim));
    ActAt(ended, dialing, DoHandle(FinAck(id), x.now, 0));
    AckForgets(Side(ended, dialing), id, x.now);
    var acked := Happens(ended, dialing, DoHandle(FinAck(id), x.now, 0));
    assert id !in Side(acked, dialing).mux.flows && id !in Side(acked, !dialing).mux.flows;
  }
}
