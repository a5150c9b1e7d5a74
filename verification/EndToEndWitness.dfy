/** A run of both whole stacks in which a datagram gets through: what is proved about reading
    is not about an empty set of runs. */
module EndToEndWitness {
  import opened Bytes
  import opened EndToEnd
  import F = Framing
  import T = FlowTable
  import M = FlowMux
  import N = FlowRuns
  import R = Reassembly
  import C = ReassemblyRuns
  import Delivery = ReassemblyDelivery

  ghost predicate Reached(d: T.Config, a: T.Config, x: Stack) {
    exists moves :: Run(d, a, moves) == x
  }

  lemma ReachedNext(d: T.Config, a: T.Config, x: Stack, m: Move)
    requires Reached(d, a, x)
    ensures Reached(d, a, Do(x, m))
  {
    var moves :| Run(d, a, moves) == x;
    var longer := moves + [m];
    assert longer[..|longer| - 1] == moves;
    assert Run(d, a, longer) == Do(x, m);
  }

  /** The accepter has seen nothing yet, and nobody has sent a fragment. */
  ghost predicate Fresh(x: Stack, a: T.Config) {
    x.net.now == 0 && x.net.accepter == N.Fresh(a) && x.accepter == FRESH
  }

  lemma Opens(d: T.Config, a: T.Config) returns (x: Stack)
    requires d.dialing
    ensures Reached(d, a, x) && Fresh(x, a) && x.dialer == FRESH && 0 in x.net.dialer.handles && x.dialerWrote == {}
  {
    var start := Run(d, a, []);
    assert Reached(d, a, start);
    var m := Local(true, T.DoOpen(0));
    ReachedNext(d, a, start, m);
    DoNet(start, m);
    x := Do(start, m);
    assert 0 in T.Next(start.net.dialer.mux, T.DoOpen(0)).flows;
  }

  lemma Writes(d: T.Config, a: T.Config, x: Stack, p: Octets) returns (y: Stack)
    requires Reached(d, a, x) && Fresh(x, a) && x.dialer == FRESH && 0 in x.net.dialer.handles
    requires |p| <= F.MAX_DATAGRAM
    ensures Reached(d, a, y) && Fresh(y, a) && y.dialer == FRESH && (0, p) in y.dialerWrote
    ensures T.Data(0, F.Framed(p)) in y.net.dialer.sent
  {
    var m := Write(true, 0, p);
    ReachedNext(d, a, x, m);
    DoStack(x, m);
    y := Do(x, m);
    var e := T.DoSend(0, F.Framed(p), 0);
    assert N.Enabled(x.net.dialer, x.net.accepter, e, 0);
    assert y.net.dialer == N.Moved(x.net.dialer, e);
  }

  lemma Transmits(d: T.Config, a: T.Config, x: Stack, f: T.Frame) returns (y: Stack)
    requires Reached(d, a, x) && Fresh(x, a) && x.dialer == FRESH && f in x.net.dialer.sent && f.id < U32_LIMIT
    requires |M.Encode(f)| <= R.MAX_MESSAGE
    ensures Reached(d, a, y) && Fresh(y, a) && y.net == x.net && y.dialerWrote == x.dialerWrote
    ensures y.dialer == Codec(1, map[1 := M.Encode(f)], C.EMPTY)
  {
    var m := Transmit(true, f);
    ReachedNext(d, a, x, m);
    DoStack(x, m);
    y := Do(x, m);
  }

  /** The accepter's mux, new, makes a flow of the first payload of a peer's ID. */
  lemma FirstPayload(a: T.Config, p: Octets)
    requires !a.dialing && p != []
    ensures var t := T.Next(T.New(a), T.DoHandle(T.Data(0, p), 0, 0)); 0 in t.flows && t.flows[0].queue == [p]
  {
  }

  /** Handed that payload, the accepter's flow has it queued. */
  lemma Handed(a: T.Config, net: N.System, p: Octets)
    requires net.now == 0 && net.accepter == N.Fresh(a) && !a.dialing && p != [] && T.Data(0, p) in net.dialer.sent
    ensures var after := N.Act(net, N.At(false, T.DoHandle(T.Data(0, p), 0, 0)));
      after.now == 0 && 0 in after.accepter.mux.flows && after.accepter.mux.flows[0].queue == [p]
  {
    var e := T.DoHandle(T.Data(0, p), 0, 0);
    assert N.Enabled(net.accepter, net.dialer, e, 0);
    assert N.Act(net, N.At(false, e)).accepter == N.Moved(net.accepter, e);
    FirstPayload(a, p);
  }

  /** The dialler's first message is on its way, and the accepter holds its k first fragments. */
  ghost predicate PartWay(x: Stack, message: Octets, k: nat) {
    && |message| <= R.MAX_MESSAGE && x.net.now == 0
    && x.dialer == Codec(1, map[1 := message], C.EMPTY)
    && x.accepter == Codec(0, map[], Delivery.Halfway(message, 1, 0, k))
  }

  lemma FragmentTaken(x: Stack, message: Octets, k: nat)
    requires PartWay(x, message, k) && k < R.Count(|message|)
    ensures var a := Delivery.InOrder(1, k, 0);
      && CanArrive(x, false, a)
      && Taken(x, false, a) ==
         if k + 1 < R.Count(|message|) then R.Step(Delivery.Halfway(message, 1, 0, k + 1), None)
         else R.Step(C.EMPTY, Some(message))
  {
    var messages: C.Messages := map[1 := message];
    Delivery.HalfwayChosen(messages, 1, 0, k);
    Delivery.NextInOrder(messages, 1, 0, k);
  }

  /** One fragment after the other arrives, until only the last is missing. */
  lemma {:induction false} FragmentsArrive(d: T.Config, a: T.Config, x: Stack, message: Octets, k: nat)
    returns (y: Stack)
    requires Reached(d, a, x) && PartWay(x, message, 0) && k < R.Count(|message|)
    ensures Reached(d, a, y) && PartWay(y, message, k) && y.net == x.net && y.dialerWrote == x.dialerWrote
  {
    if k == 0 {
      y := x;
    } else {
      var z := FragmentsArrive(d, a, x, message, k - 1);
      var m := Arrive(false, Delivery.InOrder(1, k - 1, 0), 0);
      ReachedNext(d, a, z, m);
      DoStack(z, m);
      FragmentTaken(z, message, k - 1);
      y := Do(z, m);
    }
  }

  lemma ArrivesAs(x: Stack, a: C.Arrival, message: Octets)
    requires CanArrive(x, false, a) && Taken(x, false, a) == R.Step(C.EMPTY, Some(message))
    ensures Do(x, Arrive(false, a, 0)) == Passed(Holding(x, false, C.EMPTY), false, Some(message), 0)
  {
    DoStack(x, Arrive(false, a, 0));
  }

  lemma PassedAs(x: Stack, message: Octets, f: T.Frame)
    requires M.Decode(message) == Some(f)
    ensures Passed(x, false, Some(message), 0) == x.(net := N.Act(x.net, N.At(false, T.DoHandle(f, x.net.now, 0))))
  {
  }

  /** The message completed goes to the accepter's multiplexer as the frame it carries. */
  lemma LastIsHanded(x: Stack, f: T.Frame)
    requires f.id < U32_LIMIT && (f.Data? ==> f.payload != [])
    requires var message := M.Encode(f); PartWay(x, message, R.Count(|message|) - 1)
    ensures var m := Arrive(false, Delivery.InOrder(1, R.Count(|M.Encode(f)|) - 1, 0), 0);
      && Do(x, m).net == N.Act(x.net, N.At(false, T.DoHandle(f, 0, 0))) && Do(x, m).dialerWrote == x.dialerWrote
  {
    var message := M.Encode(f);
    var a := Delivery.InOrder(1, R.Count(|message|) - 1, 0);
    FragmentTaken(x, message, R.Count(|message|) - 1);
    ArrivesAs(x, a, message);
    M.DecodeInverse(f);
    PassedAs(Holding(x, false, C.EMPTY), message, f);
  }

  lemma LastArrives(d: T.Config, a: T.Config, x: Stack, p: Octets) returns (y: Stack)
    requires Reached(d, a, x) && x.net.accepter == N.Fresh(a) && !a.dialing && p != []
    requires T.Data(0, p) in x.net.dialer.sent
    requires var message := M.Encode(T.Data(0, p)); PartWay(x, message, R.Count(|message|) - 1)
    ensures Reached(d, a, y) && y.net.now == 0 && y.dialerWrote == x.dialerWrote
    ensures 0 in y.net.accepter.mux.flows && y.net.accepter.mux.flows[0].queue == [p]
  {
    var message := M.Encode(T.Data(0, p));
    var m := Arrive(false, Delivery.InOrder(1, R.Count(|message|) - 1, 0), 0);
    ReachedNext(d, a, x, m);
    y := Do(x, m);
    LastIsHanded(x, T.Data(0, p));
    Handed(a, x.net, p);
  }

  lemma Receives(d: T.Config, a: T.Config, x: Stack, p: Octets) returns (y: Stack)
    requires Reached(d, a, x) && 0 in x.net.accepter.mux.flows && x.net.accepter.mux.flows[0].queue == [p]
    ensures Reached(d, a, y) && ReadOn(y.net.accepter, 0, p) && y.dialerWrote == x.dialerWrote
  {
    var m := Local(false, T.DoRecv(0));
    ReachedNext(d, a, x, m);
    DoNet(x, m);
    y := Do(x, m);
    var e := T.DoRecv(0);
    assert N.Enabled(x.net.accepter, x.net.dialer, e, x.net.now);
    assert y.net.accepter == N.Moved(x.net.accepter, e);
    var read := y.net.accepter.read;
    assert read[|read| - 1] == (0, p);
  }

  /** Whatever the two sides' settings, every datagram the framing accepts can get through,
      however many fragments it takes: there is a run in which the dialler's application writes
      it to its first flow and the accepter's reader of that flow is handed it, and reads it. */
  lemma DatagramGetsThrough(d: T.Config, a: T.Config, p: Octets)
    requires T.GoodConfig(d) && T.GoodConfig(a) && d.dialing && !a.dialing && |p| <= F.MAX_DATAGRAM
    ensures exists moves ::
      && ReadOn(N.Side(Run(d, a, moves).net, false), 0, F.Framed(p)) && (0, p) in Wrote(Run(d, a, moves), true)
    ensures F.Calls(F.Stream([], [F.Framed(p)], false), 1, F.MAX_DATAGRAM).results == [Some(p)]
  {
    var f := T.Data(0, F.Framed(p));
    EveryPayloadFits(0, p);
    var message := M.Encode(f);
    var first := Opens(d, a);
    var written := Writes(d, a, first, p);
    var sent := Transmits(d, a, written, f);
    assert PartWay(sent, message, 0);
    var most := FragmentsArrive(d, a, sent, message, R.Count(|message|) - 1);
    var arrived := LastArrives(d, a, most, F.Framed(p));
    var x := Receives(d, a, arrived, F.Framed(p));
    var moves :| Run(d, a, moves) == x;
    assert ReadOn(N.Side(Run(d, a, moves).net, false), 0, F.Framed(p));
    ReadsOnlyWhatWasWritten(d, a, moves, false, 0, [F.Framed(p)], 1, F.MAX_DATAGRAM, 0);
    var results := F.Calls(F.Stream([], [F.Framed(p)], false), 1, F.MAX_DATAGRAM).results;
    FramedIsFrame(results[0].value);
    FramedIsFrame(p);
  }
}
