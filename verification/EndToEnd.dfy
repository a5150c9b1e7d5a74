/** The whole datagram stack on both sides: applications write datagrams to flows, the
    framing and the multiplexer turn them into messages, the codec fragments those, and the
    QUIC datagram channel loses, repeats and reorders the fragments as it likes. */
module EndToEnd {
  import opened Bytes
  import F = Framing
  import T = FlowTable
  import M = FlowMux
  import N = FlowRuns
  import R = Reassembly
  import C = ReassemblyRuns

  /** One side's codec: the messages it has sent, by message ID, and its reassembler. */
  datatype Codec = Codec(nextID: nat, messages: C.Messages, state: R.State)

  /** The two multiplexers and codecs, and every datagram each application wrote. */
  datatype Stack = Stack(net: N.System, dialer: Codec, accepter: Codec,
                         dialerWrote: set<(T.Id, Octets)>, accepterWrote: set<(T.Id, Octets)>)

  datatype Move =
    | Tick(d: nat)
    | Local(dialing: bool, event: T.Event)                 // an event of a multiplexer of its own accord
    | Write(dialing: bool, id: T.Id, payload: Octets)      // writeDatagram on flow id
    | Transmit(dialing: bool, frame: T.Frame)              // the codec is handed a frame the multiplexer sent
    | Arrive(dialing: bool, fragment: C.Arrival, victim: T.Id)  // a fragment of a message of the peer
    | Drain(dialing: bool, id: T.Id, message: Octets)

  function CodecOf(x: Stack, dialing: bool): Codec {
    if dialing then x.dialer else x.accepter
  }

  function WithCodec(x: Stack, dialing: bool, c: Codec): Stack {
    if dialing then x.(dialer := c) else x.(accepter := c)
  }

  function Wrote(x: Stack, dialing: bool): set<(T.Id, Octets)> {
    if dialing then x.dialerWrote else x.accepterWrote
  }

  function WithWrote(x: Stack, dialing: bool, w: set<(T.Id, Octets)>): Stack {
    if dialing then x.(dialerWrote := w) else x.(accepterWrote := w)
  }

  /** Send: the message gets the next ID, unless it is too large. */
  function Sent(c: Codec, message: Octets): Codec {
    if |message| > R.MAX_MESSAGE || c.nextID + 1 >= U32_LIMIT then c
    else c.(nextID := c.nextID + 1, messages := c.messages[c.nextID + 1 := message])
  }

  predicate OwnAccord(e: T.Event) {
    !e.DoHandle? && !e.DoDataPart? && !e.DoSend?
  }

  /** The message a codec has completed goes to its multiplexer. */
  ghost function Passed(x: Stack, dialing: bool, message: Option<Octets>, victim: T.Id): Stack {
    if message == None || M.Decode(message.value) == None then x
    else x.(net := N.Act(x.net, N.At(dialing, T.DoHandle(M.Decode(message.value).value, x.net.now, victim))))
  }

  function Written(x: Stack, net: N.System, dialing: bool, id: T.Id, p: Octets): Stack {
    WithWrote(x.(net := net), dialing, Wrote(x, dialing) + {(id, p)})
  }

  ghost function Writing(x: Stack, dialing: bool, id: T.Id, p: Octets): Stack {
    if |p| > F.MAX_DATAGRAM then x
    else Written(x, N.Act(x.net, N.At(dialing, T.DoSend(id, F.Framed(p), x.net.now))), dialing, id, p)
  }

  ghost function Transmitting(x: Stack, dialing: bool, f: T.Frame): Stack {
    if f in N.Side(x.net, dialing).sent && f.id < U32_LIMIT then
      WithCodec(x, dialing, Sent(CodecOf(x, dialing), M.Encode(f)))
    else x
  }

  /** A fragment the peer's codec sent, and choices this side's reassembler can make. */
  ghost predicate CanArrive(x: Stack, dialing: bool, a: C.Arrival) {
    var self, peer := CodecOf(x, dialing), CodecOf(x, !dialing);
    C.Addressed(peer.messages, a) && R.Chosen(self.state, C.Carried(peer.messages, a), a.now, a.choice)
  }

  function Taken(x: Stack, dialing: bool, a: C.Arrival): R.Step
    requires C.Addressed(CodecOf(x, !dialing).messages, a)
  {
    C.Take(CodecOf(x, dialing).state, CodecOf(x, !dialing).messages, a)
  }

  function Holding(x: Stack, dialing: bool, s: R.State): Stack {
    WithCodec(x, dialing, CodecOf(x, dialing).(state := s))
  }

  ghost function Arriving(x: Stack, dialing: bool, a: C.Arrival, victim: T.Id): Stack {
    if !CanArrive(x, dialing, a) then x
    else
      var step := Taken(x, dialing, a);
      Passed(Holding(x, dialing, step.state), dialing, step.message, victim)
  }

  ghost function Do(x: Stack, m: Move): Stack {
    match m
    case Tick(d) => x.(net := N.Act(x.net, N.Advance(d)))
    case Local(dialing, e) => if OwnAccord(e) then x.(net := N.Act(x.net, N.At(dialing, e))) else x
    case Write(dialing, id, p) => Writing(x, dialing, id, p)
    case Transmit(dialing, f) => Transmitting(x, dialing, f)
    case Arrive(dialing, a, victim) => Arriving(x, dialing, a, victim)
    case Drain(dialing, id, p) => x.(net := N.Act(x.net, N.Drain(dialing, id, p)))
  }

  const FRESH := Codec(0, map[], C.EMPTY)

  ghost function Run(dialer: T.Config, accepter: T.Config, moves: seq<Move>): Stack {
    if moves == [] then Stack(N.Run(dialer, accepter, []), FRESH, FRESH, {}, {})
    else Do(Run(dialer, accepter, moves[..|moves| - 1]), moves[|moves| - 1])
  }

  // ---------------------------------------------------------------- the invariant

  /** Every message the codec sent is, octet for octet, a frame its multiplexer sent. */
  ghost predicate Truthful(c: Codec, sent: set<T.Frame>) {
    && c.nextID < U32_LIMIT
    && forall id | id in c.messages ::
         id <= c.nextID && M.Decode(c.messages[id]).Some? && M.Decode(c.messages[id]).value in sent
  }

  /** What the reassembler holds are parts of the peer's messages. */
  ghost predicate Holds(c: Codec, peer: Codec) {
    C.Ok(c.state) && C.Faithful(c.state, peer.messages)
  }

  /** Everything written to the multiplexer is the frame of a datagram the application wrote
      to that flow. */
  ghost predicate Wrapped(written: set<(T.Id, Octets)>, wrote: set<(T.Id, Octets)>) {
    forall w | w in written :: IsFrame(w.1) && (w.0, w.1[2..]) in wrote
  }

  predicate IsFrame(m: Octets) {
    2 <= |m| <= 2 + F.MAX_DATAGRAM && m == F.Framed(m[2..])
  }

  ghost predicate SideOk(x: Stack, dialing: bool) {
    && Truthful(CodecOf(x, dialing), N.Side(x.net, dialing).sent)
    && Holds(CodecOf(x, dialing), CodecOf(x, !dialing))
    && Wrapped(N.Side(x.net, dialing).written, Wrote(x, dialing))
  }

  ghost predicate Inv(x: Stack) {
    N.Inv(x.net) && SideOk(x, true) && SideOk(x, false)
  }

  // ---------------------------------------------------------------- sizes

  /** Every datagram the framing accepts makes a message the codec accepts, and the largest
      one fills the codec's limit exactly. */
  lemma EveryPayloadFits(id: T.Id, payload: Octets)
    requires id < U32_LIMIT && |payload| <= F.MAX_DATAGRAM
    ensures |M.Encode(T.Data(id, F.Framed(payload)))| <= R.MAX_MESSAGE
    ensures |M.Encode(T.Data(id, F.Framed(payload)))| == R.MAX_MESSAGE <==> |payload| == F.MAX_DATAGRAM
  {
    M.DecodeInverse(T.Data(id, F.Framed(payload)));
  }

  lemma FramedIsFrame(p: Octets)
    requires |p| <= F.MAX_DATAGRAM
    ensures IsFrame(F.Framed(p)) && F.Framed(p)[2..] == p
  {
  }

  // ---------------------------------------------------------------- each move keeps it

  lemma TruthfulGrows(c: Codec, sent: set<T.Frame>, more: set<T.Frame>)
    requires Truthful(c, sent) && sent <= more
    ensures Truthful(c, more)
  {
  }

  /** A multiplexer event only ever adds to what its side sent and, unless it is a send, adds
      nothing to what was written. */
  lemma ActGrows(net: N.System, a: N.Action, dialing: bool)
    requires N.Inv(net)
    ensures var s, s' := N.Side(net, dialing), N.Side(N.Act(net, a), dialing);
      && s.sent <= s'.sent
      && (forall w | w in s'.written ::
            || w in s.written
            || (a.At? && a.dialing == dialing && a.event.DoSend? && w == (a.event.id, a.event.payload)))
  {
  }

  lemma NetMovesSide(x: Stack, a: N.Action, dialing: bool)
    requires N.Inv(x.net) && SideOk(x, dialing) && (a.At? ==> !a.event.DoSend?)
    ensures SideOk(x.(net := N.Act(x.net, a)), dialing)
  {
    ActGrows(x.net, a, dialing);
    TruthfulGrows(CodecOf(x, dialing), N.Side(x.net, dialing).sent, N.Side(N.Act(x.net, a), dialing).sent);
  }

  lemma NetMoves(x: Stack, a: N.Action)
    requires Inv(x) && (a.At? ==> !a.event.DoSend?)
    ensures Inv(x.(net := N.Act(x.net, a)))
  {
    N.ActInv(x.net, a);
    NetMovesSide(x, a, true);
    NetMovesSide(x, a, false);
  }

  lemma WrappedGrows(written: set<(T.Id, Octets)>, written': set<(T.Id, Octets)>, wrote: set<(T.Id, Octets)>,
                     id: T.Id, p: Octets)
    requires Wrapped(written, wrote) && |p| <= F.MAX_DATAGRAM
    requires forall w | w in written' :: w in written || w == (id, F.Framed(p))
    ensures Wrapped(written', wrote + {(id, p)})
  {
    FramedIsFrame(p);
  }

  lemma WriteSide(x: Stack, dialing: bool, id: T.Id, p: Octets, side: bool)
    requires N.Inv(x.net) && SideOk(x, side) && |p| <= F.MAX_DATAGRAM
    ensures SideOk(Written(x, N.Act(x.net, N.At(dialing, T.DoSend(id, F.Framed(p), x.net.now))), dialing, id, p), side)
  {
    var a := N.At(dialing, T.DoSend(id, F.Framed(p), x.net.now));
    ActGrows(x.net, a, side);
    var s, s' := N.Side(x.net, side), N.Side(N.Act(x.net, a), side);
    TruthfulGrows(CodecOf(x, side), s.sent, s'.sent);
    if side == dialing {
      WrappedGrows(s.written, s'.written, Wrote(x, side), id, p);
    }
  }

  lemma WriteInv(x: Stack, dialing: bool, id: T.Id, p: Octets)
    requires Inv(x)
    ensures Inv(Writing(x, dialing, id, p))
  {
    if |p| > F.MAX_DATAGRAM {
      return;
    }
    var a := N.At(dialing, T.DoSend(id, F.Framed(p), x.net.now));
    var y := Written(x, N.Act(x.net, a), dialing, id, p);
    assert N.Inv(y.net) by { N.ActInv(x.net, a); }
    assert SideOk(y, true) by { WriteSide(x, dialing, id, p, true); }
    assert SideOk(y, false) by { WriteSide(x, dialing, id, p, false); }
  }

  lemma SentTruthful(c: Codec, sent: set<T.Frame>, f: T.Frame)
    requires Truthful(c, sent) && f in sent && f.id < U32_LIMIT && (f.Data? ==> f.payload != [])
    ensures Truthful(Sent(c, M.Encode(f)), sent)
  {
    M.DecodeInverse(f);
  }

  lemma SentHeld(c: Codec, peer: Codec, message: Octets)
    requires Holds(c, peer) && forall id | id in peer.messages :: id <= peer.nextID
    ensures Holds(c, Sent(peer, message))
  {
    var peer' := Sent(peer, message);
    forall id | id in c.state.partial
      ensures id in peer'.messages && C.FaithfulPart(c.state.partial[id], peer'.messages[id])
    {
      assert id in peer.messages && peer'.messages[id] == peer.messages[id];
    }
  }

  lemma SentData(x: Stack, dialing: bool, f: T.Frame)
    requires Inv(x) && f in N.Side(x.net, dialing).sent && f.Data?
    ensures f.payload != []
  {
    var s := N.Side(x.net, dialing);
    assert (f.id, f.payload) in s.written;
  }

  lemma TransmitInv(x: Stack, dialing: bool, f: T.Frame)
    requires Inv(x)
    ensures Inv(Transmitting(x, dialing, f))
  {
    if f !in N.Side(x.net, dialing).sent || f.id >= U32_LIMIT {
      return;
    }
    if f.Data? {
      SentData(x, dialing, f);
    }
    SentTruthful(CodecOf(x, dialing), N.Side(x.net, dialing).sent, f);
    SentHeld(CodecOf(x, !dialing), CodecOf(x, dialing), M.Encode(f));
  }

  lemma TakenSide(x: Stack, dialing: bool, a: C.Arrival)
    requires SideOk(x, dialing) && CanArrive(x, dialing, a)
    ensures SideOk(Holding(x, dialing, Taken(x, dialing, a).state), dialing)
    ensures Taken(x, dialing, a).message.Some? ==>
      Taken(x, dialing, a).message.value == CodecOf(x, !dialing).messages[a.id]
  {
    C.TakeFaithful(CodecOf(x, dialing).state, CodecOf(x, !dialing).messages, a);
  }

  /** Nothing of the other side depends on what this side's reassembler holds. */
  lemma HoldingSide(x: Stack, dialing: bool, s: R.State)
    requires SideOk(x, !dialing)
    ensures SideOk(Holding(x, dialing, s), !dialing)
  {
  }

  lemma HeldInv(x: Stack, dialing: bool, a: C.Arrival)
    requires Inv(x) && CanArrive(x, dialing, a)
    ensures Inv(Holding(x, dialing, Taken(x, dialing, a).state))
    ensures Holding(x, dialing, Taken(x, dialing, a).state).net == x.net
  {
    TakenSide(x, dialing, a);
    HoldingSide(x, dialing, Taken(x, dialing, a).state);
    assert SideOk(x, dialing) && SideOk(x, !dialing);
  }

  lemma PassedInv(x: Stack, dialing: bool, message: Option<Octets>, victim: T.Id)
    requires Inv(x)
    ensures Inv(Passed(x, dialing, message, victim))
  {
    if message.Some? && M.Decode(message.value).Some? {
      NetMoves(x, N.At(dialing, T.DoHandle(M.Decode(message.value).value, x.net.now, victim)));
    }
  }

  lemma ArriveInv(x: Stack, dialing: bool, a: C.Arrival, victim: T.Id)
    requires Inv(x)
    ensures Inv(Arriving(x, dialing, a, victim))
  {
    if !CanArrive(x, dialing, a) {
      return;
    }
    HeldInv(x, dialing, a);
    PassedInv(Holding(x, dialing, Taken(x, dialing, a).state), dialing, Taken(x, dialing, a).message, victim);
  }

  /** What each move is, on its own. */
  lemma DoNet(x: Stack, m: Move)
    requires m.Tick? || m.Local? || m.Drain?
    ensures m.Tick? ==> Do(x, m) == x.(net := N.Act(x.net, N.Advance(m.d)))
    ensures m.Local? ==> Do(x, m) == if OwnAccord(m.event) then x.(net := N.Act(x.net, N.At(m.dialing, m.event))) else x
    ensures m.Drain? ==> Do(x, m) == x.(net := N.Act(x.net, N.Drain(m.dialing, m.id, m.message)))
  {
  }

  lemma DoStack(x: Stack, m: Move)
    requires m.Write? || m.Transmit? || m.Arrive?
    ensures m.Write? ==> Do(x, m) == Writing(x, m.dialing, m.id, m.payload)
    ensures m.Transmit? ==> Do(x, m) == Transmitting(x, m.dialing, m.frame)
    ensures m.Arrive? ==> Do(x, m) == Arriving(x, m.dialing, m.fragment, m.victim)
  {
  }

  lemma NetMoveInv(x: Stack, m: Move)
    requires Inv(x) && (m.Tick? || m.Local? || m.Drain?)
    ensures Inv(Do(x, m))
  {
    DoNet(x, m);
    match m
    case Tick(d) => NetMoves(x, N.Advance(d));
    case Local(dialing, e) => if OwnAccord(e) { NetMoves(x, N.At(dialing, e)); }
    case Drain(dialing, id, p) => NetMoves(x, N.Drain(dialing, id, p));
  }

  lemma DoInv(x: Stack, m: Move)
    requires Inv(x)
    ensures Inv(Do(x, m))
  {
    if m.Tick? || m.Local? || m.Drain? {
      NetMoveInv(x, m);
    } else {
      DoStack(x, m);
      match m
      case Write(dialing, id, p) => WriteInv(x, dialing, id, p);
      case Transmit(dialing, f) => TransmitInv(x, dialing, f);
      case Arrive(dialing, a, victim) => ArriveInv(x, dialing, a, victim);
    }
  }

  lemma {:induction false} RunInv(dialer: T.Config, accepter: T.Config, moves: seq<Move>)
    requires T.GoodConfig(dialer) && T.GoodConfig(accepter) && dialer.dialing && !accepter.dialing
    ensures Inv(Run(dialer, accepter, moves))
  {
    if moves == [] {
      N.RunInv(dialer, accepter, []);
    } else {
      RunInv(dialer, accepter, moves[..|moves| - 1]);
      DoInv(Run(dialer, accepter, moves[..|moves| - 1]), moves[|moves| - 1]);
    }
  }

  /** Whatever the channel did, a message the reassembler completes is, octet for octet, one
      the peer's codec was given, and decodes to a frame the peer's multiplexer sent. */
  lemma CompletedWasSent(dialer: T.Config, accepter: T.Config, moves: seq<Move>, dialing: bool, a: C.Arrival)
    requires T.GoodConfig(dialer) && T.GoodConfig(accepter) && dialer.dialing && !accepter.dialing
    requires CanArrive(Run(dialer, accepter, moves), dialing, a)
    ensures var x := Run(dialer, accepter, moves);
      var message := Taken(x, dialing, a).message;
      message.Some? ==>
        && message.value == CodecOf(x, !dialing).messages[a.id]
        && M.Decode(message.value).Some? && M.Decode(message.value).value in N.Side(x.net, !dialing).sent
  {
    var x := Run(dialer, accepter, moves);
    RunInv(dialer, accepter, moves);
    assert SideOk(x, dialing) && SideOk(x, !dialing);
    TakenSide(x, dialing, a);
  }

  // ---------------------------------------------------------------- the reader

  ghost predicate ReadOn(s: N.Endpoint, id: T.Id, message: Octets) {
    exists k :: 0 <= k < |s.read| && s.read[k] == (id, message)
  }

  lemma ReadIsFrame(x: Stack, dialing: bool, id: T.Id, message: Octets)
    requires Inv(x) && ReadOn(N.Side(x.net, dialing), id, message)
    ensures IsFrame(message) && (id, message[2..]) in Wrote(x, !dialing)
  {
    var s, peer := N.Side(x.net, dialing), N.Side(x.net, !dialing);
    var k :| 0 <= k < |s.read| && s.read[k] == (id, message);
    assert T.Data(s.read[k].0, s.read[k].1) in peer.sent;
    assert (id, message) in peer.written;
  }

  function ItemsOf(messages: seq<Octets>): seq<F.Item>
    requires forall k | 0 <= k < |messages| :: IsFrame(messages[k])
  {
    if messages == [] then []
    else
      assert IsFrame(messages[0]);
      var first: F.Item := Some(messages[0][2..]);
      [first] + ItemsOf(messages[1..])
  }

  lemma {:induction false} ItemsAreMessages(messages: seq<Octets>)
    requires forall k | 0 <= k < |messages| :: IsFrame(messages[k])
    ensures F.Messages(ItemsOf(messages)) == messages
    ensures |F.Payloads(ItemsOf(messages))| == |messages|
  {
    if messages != [] {
      ItemsAreMessages(messages[1..]);
      var items := ItemsOf(messages);
      assert items[1..] == ItemsOf(messages[1..]);
      assert [messages[0]] + messages[1..] == messages;
    }
  }

  lemma {:induction false} PayloadOf(messages: seq<Octets>, k: nat)
    requires forall k | 0 <= k < |messages| :: IsFrame(messages[k])
    requires k < |messages|
    ensures k < |F.Payloads(ItemsOf(messages))| && F.Payloads(ItemsOf(messages))[k] == messages[k][2..]
  {
    var items := ItemsOf(messages);
    assert items[1..] == ItemsOf(messages[1..]);
    if k > 0 {
      PayloadOf(messages[1..], k - 1);
    }
  }

  /** End-to-end integrity. Take any run of both stacks over any channel, and the messages
      a reader of flow `id` was handed, in order. Call k of readDatagram returns the payload
      of message k, and that is, octet for octet, a datagram the peer's application passed to
      writeDatagram on the flow of the same ID; calls past the last message fail. */
  lemma ReadsOnlyWhatWasWritten(dialer: T.Config, accepter: T.Config, moves: seq<Move>, dialing: bool,
                                id: T.Id, messages: seq<Octets>, calls: nat, buffer: nat, k: nat)
    requires T.GoodConfig(dialer) && T.GoodConfig(accepter) && dialer.dialing && !accepter.dialing
    requires forall j | 0 <= j < |messages| ::
      ReadOn(N.Side(Run(dialer, accepter, moves).net, dialing), id, messages[j])
    requires F.MAX_DATAGRAM <= buffer && k < calls
    ensures var results := F.Calls(F.Stream([], messages, false), calls, buffer).results;
      && |results| == calls
      && (k < |messages| ==>
            && results[k].Some? && |results[k].value| <= F.MAX_DATAGRAM && F.Framed(results[k].value) == messages[k]
            && (id, results[k].value) in Wrote(Run(dialer, accepter, moves), !dialing))
      && (k >= |messages| ==> results[k] == None)
  {
    var x := Run(dialer, accepter, moves);
    RunInv(dialer, accepter, moves);
    forall j | 0 <= j < |messages| ensures IsFrame(messages[j]) && (id, messages[j][2..]) in Wrote(x, !dialing) {
      ReadIsFrame(x, dialing, id, messages[j]);
    }
    ItemsAreMessages(messages);
    F.NeverDesynchronises(ItemsOf(messages), calls, buffer, k);
    if k < |messages| {
      PayloadOf(messages, k);
    }
  }
}
