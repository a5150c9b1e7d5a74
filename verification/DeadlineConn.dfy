/** A punched conn with deadlines (internal/nat/deadline.go): one pump goroutine that moves
    datagrams from the substrate into a pool of recycled buffers, any number of Read calls, and
    the read deadline. Every channel operation and every locked region is one step. */
module DeadlineConn {
  import opened Bytes
  import opened Counting
  import D = Deadlines

  const MTU: nat := 8192
  const BUFFERS: nat := 8  // both channels hold this many

  datatype Pump =
    | Waiting             // for a free buffer
    | InSubstrate(buf: nat)
    | Offering(buf: nat)  // a datagram to the packets channel
    | Exited

  datatype Outcome = Datagram(data: Octets) | Expired | Stopped

  /** Where one Read call is; room is the caller's buffer. */
  datatype Read =
    | Entered(room: nat)
    | Checking(room: nat, ch: nat)
    | Parked(room: nat, ch: nat)
    | Draining(room: nat)
    | Copying(room: nat, buf: nat, data: Octets)  // data is what was taken from the channel
    | Returned(outcome: Outcome)

  datatype Conn = Conn(
    dir: D.Deadline, now: int,
    free: seq<nat>, packets: seq<nat>,
    mem: seq<Octets>,          // what each buffer holds
    pump: Pump, done: bool,
    dropped: Option<nat>,      // the buffer an exiting pump held
    lost: Option<Octets>,      // the datagram it was offering
    accepted: seq<Octets>,     // every datagram the substrate gave the pump
    handed: seq<Octets>,       // every datagram taken from the packets channel
    calls: map<nat, Read>)

  datatype Act =
    | PumpTake | PumpRead(data: Octets) | PumpFail | PumpOffer | PumpStop | Stop
    | Enter(r: nat, room: nat)
    | Capture(r: nat) | Check(r: nat)
    | TakePacket(r: nat) | SeeExpired(r: nat) | SeeStopped(r: nat)
    | Drain(r: nat) | Copy(r: nat)
    | Timing(e: D.Event)

  function PumpBuffer(p: Pump): Option<nat> {
    match p
    case InSubstrate(b) => Some(b)
    case Offering(b) => Some(b)
    case _ => None
  }

  // ---------------------------------------------------------------- steps

  /** A step of the pump, or of stop; one that is not enabled changes nothing. */
  function PumpStep(c: Conn, a: Act): Conn {
    match a
    case PumpTake =>
      if c.pump.Waiting? && c.free != [] then c.(pump := InSubstrate(c.free[0]), free := c.free[1..]) else c
    case PumpRead(data) =>
      if c.pump.InSubstrate? && c.pump.buf < |c.mem| && |data| <= MTU then
        c.(pump := Offering(c.pump.buf), mem := c.mem[c.pump.buf := data], accepted := c.accepted + [data])
      else c
    case PumpFail =>
      if c.pump.InSubstrate? then c.(pump := Exited, dropped := Some(c.pump.buf)) else c
    case PumpOffer =>
      if c.pump.Offering? && |c.packets| < BUFFERS then c.(pump := Waiting, packets := c.packets + [c.pump.buf]) else c
    case PumpStop =>
      if c.done && c.pump.Waiting? then c.(pump := Exited)
      else if c.done && c.pump.Offering? && c.pump.buf < |c.mem| then
        c.(pump := Exited, dropped := Some(c.pump.buf), lost := Some(c.mem[c.pump.buf]))
      else c
    case Stop => c.(done := true)
    case _ => c
  }

  function Reading(c: Conn, r: nat, read: Read): Conn {
    c.(calls := c.calls[r := read])
  }

  function Taking(c: Conn, r: nat, room: nat): Conn {
    if c.packets == [] || c.packets[0] >= |c.mem| then c
    else
      var b := c.packets[0];
      Reading(c.(packets := c.packets[1..], handed := c.handed + [c.mem[b]]), r, Copying(room, b, c.mem[b]))
  }

  /** What read r may do next, and what that does. */
  function ReadStep(c: Conn, r: nat, a: Act): Conn {
    if r !in c.calls then c
    else
      match c.calls[r]
      case Entered(room) =>
        if a.Capture? then Reading(c.(dir := D.Capture(c.dir)), r, Checking(room, c.dir.expired)) else c
      case Checking(room, ch) =>
        if a.Check? then Reading(c, r, if ch in c.dir.closed then Returned(Expired) else Parked(room, ch)) else c
      case Parked(room, ch) =>
        if a.TakePacket? then Taking(c, r, room)
        else if a.SeeExpired? && ch in c.dir.closed then Reading(c, r, Returned(Expired))
        else if a.SeeStopped? && c.pump.Exited? then Reading(c, r, Draining(room))
        else c
      case Draining(room) =>
        if !a.Drain? then c
        else if c.packets != [] then Taking(c, r, room)
        else Reading(c, r, Returned(Stopped))
      case Copying(room, b, _) =>
        if a.Copy? && |c.free| < BUFFERS && b < |c.mem| then
          Reading(c.(free := c.free + [b]), r, Returned(Datagram(c.mem[b][..Min(room, |c.mem[b]|)])))
        else c
      case Returned(_) => c
  }

  function ReaderOf(a: Act): Option<nat> {
    match a
    case Capture(r) => Some(r)
    case Check(r) => Some(r)
    case TakePacket(r) => Some(r)
    case SeeExpired(r) => Some(r)
    case SeeStopped(r) => Some(r)
    case Drain(r) => Some(r)
    case Copy(r) => Some(r)
    case _ => None
  }

  function TimingStep(c: Conn, e: D.Event): Conn {
    if e.Look? then c
    else var x := D.Next(D.Clocked(c.dir, c.now), e); c.(dir := x.d, now := x.now)
  }

  function Next(c: Conn, a: Act): Conn {
    if a.Timing? then TimingStep(c, a.e)
    else if a.Enter? then (if a.r in c.calls then c else Reading(c, a.r, Entered(a.room)))
    else if ReaderOf(a).Some? then ReadStep(c, ReaderOf(a).value, a)
    else PumpStep(c, a)
  }

  const INITIAL_FREE: seq<nat> := [0, 1, 2, 3, 4, 5, 6, 7]

  function New(now: int): Conn {
    Conn(D.NEW, now, INITIAL_FREE, [], [[], [], [], [], [], [], [], []], Waiting, false, None, None, [], [], map[])
  }

  function Run(now: int, acts: seq<Act>): Conn {
    if acts == [] then New(now) else Next(Run(now, acts[..|acts| - 1]), acts[|acts| - 1])
  }

  // ---------------------------------------------------------------- where the buffers are

  predicate Holds(read: Read, b: nat) {
    read.Copying? && read.buf == b
  }

  ghost predicate Held(calls: map<nat, Read>, b: nat) {
    exists r :: r in calls && Holds(calls[r], b)
  }

  /** In how many places buffer b is. */
  ghost function Places(c: Conn, b: nat): nat {
    multiset(c.free)[b] + multiset(c.packets)[b] + Bit(PumpBuffer(c.pump) == Some(b)) + Bit(c.dropped == Some(b))
    + Bit(Held(c.calls, b))
  }

  ghost predicate OneHolder(calls: map<nat, Read>) {
    forall r, q | r in calls && q in calls && calls[r].Copying? && calls[q].Copying? && calls[r].buf == calls[q].buf ::
      r == q
  }

  predicate Within(s: seq<nat>) {
    forall i | 0 <= i < |s| :: s[i] < BUFFERS
  }

  ghost predicate Ranges(c: Conn) {
    && Within(c.free) && Within(c.packets) && |c.mem| == BUFFERS
    && (PumpBuffer(c.pump).Some? ==> PumpBuffer(c.pump).value < BUFFERS)
    && (c.dropped.Some? ==> c.pump.Exited?)
    && (forall r | r in c.calls && c.calls[r].Copying? :: c.calls[r].buf < BUFFERS)
  }

  ghost predicate Conserved(c: Conn) {
    Ranges(c) && OneHolder(c.calls) && forall b | 0 <= b < BUFFERS :: Places(c, b) == 1
  }

  lemma HeldElsewhere(calls: map<nat, Read>, r: nat, read: Read, b: nat)
    requires OneHolder(calls)
    ensures Held(calls[r := read], b) <==> Holds(read, b) || (Held(calls, b) && !(r in calls && Holds(calls[r], b)))
  {
    var calls' := calls[r := read];
    if Held(calls', b) && !Holds(read, b) {
      var q :| q in calls' && Holds(calls'[q], b);
      assert q in calls && Holds(calls[q], b);
    }
    if Held(calls, b) && !(r in calls && Holds(calls[r], b)) {
      var q :| q in calls && Holds(calls[q], b);
      assert q in calls' && Holds(calls'[q], b);
    }
    if Holds(read, b) {
      assert r in calls' && Holds(calls'[r], b);
    }
  }

  lemma HeadTail(s: seq<nat>, b: nat)
    requires s != []
    ensures multiset(s)[b] == multiset(s[1..])[b] + Bit(s[0] == b)
  {
    assert s == [s[0]] + s[1..];
  }

  lemma Snoc(s: seq<nat>, x: nat, b: nat)
    ensures multiset(s + [x])[b] == multiset(s)[b] + Bit(x == b)
  {
  }

  /** A read that neither takes nor gives back a buffer. */
  lemma ReadingConserved(c: Conn, r: nat, read: Read)
    requires Conserved(c) && !read.Copying? && (r in c.calls ==> !c.calls[r].Copying?)
    ensures Conserved(Reading(c, r, read))
  {
    forall b | 0 <= b < BUFFERS ensures Places(Reading(c, r, read), b) == 1 {
      HeldElsewhere(c.calls, r, read, b);
      assert Places(c, b) == 1;
    }
  }

  lemma NotHeld(c: Conn, b: nat)
    requires Conserved(c) && b < BUFFERS && b in c.packets
    ensures !Held(c.calls, b)
  {
    assert multiset(c.packets)[b] > 0;
    assert Places(c, b) == 1;
  }

  lemma TakingConserved(c: Conn, r: nat, room: nat)
    requires Conserved(c) && r in c.calls && !c.calls[r].Copying?
    ensures Conserved(Taking(c, r, room))
  {
    if c.packets != [] {
      var t := Taking(c, r, room);
      var x := c.packets[0];
      NotHeld(c, x);
      forall q | q in c.calls && c.calls[q].Copying? ensures c.calls[q].buf != x {
        assert !Holds(c.calls[q], x);
      }
      forall b | 0 <= b < BUFFERS ensures Places(t, b) == 1 {
        HeadTail(c.packets, b);
        HeldElsewhere(c.calls, r, t.calls[r], b);
        assert Places(c, b) == 1;
      }
    }
  }

  lemma CopyConserved(c: Conn, r: nat)
    requires Conserved(c) && r in c.calls && c.calls[r].Copying?
    ensures Conserved(ReadStep(c, r, Copy(r)))
  {
    var t := ReadStep(c, r, Copy(r));
    if |c.free| < BUFFERS {
      var x := c.calls[r].buf;
      assert Holds(c.calls[r], x);
      forall b | 0 <= b < BUFFERS ensures Places(t, b) == 1 {
        Snoc(c.free, x, b);
        HeldElsewhere(c.calls, r, t.calls[r], b);
        assert Places(c, b) == 1;
      }
    }
  }

  lemma ReadStepConserved(c: Conn, r: nat, a: Act)
    requires Conserved(c)
    ensures Conserved(ReadStep(c, r, a))
  {
    if r in c.calls {
      match c.calls[r]
      case Entered(room) => if a.Capture? {
        ReadingConserved(c, r, Checking(room, c.dir.expired));
        SamePool(Reading(c, r, Checking(room, c.dir.expired)), ReadStep(c, r, a));
      }
      case Checking(room, ch) =>
        if a.Check? { ReadingConserved(c, r, if ch in c.dir.closed then Returned(Expired) else Parked(room, ch)); }
      case Parked(room, ch) =>
        ReadingConserved(c, r, Returned(Expired));
        ReadingConserved(c, r, Draining(room));
        TakingConserved(c, r, room);
      case Draining(room) =>
        ReadingConserved(c, r, Returned(Stopped));
        TakingConserved(c, r, room);
      case Copying(_, _, _) => if a.Copy? { assert ReadStep(c, r, a) == ReadStep(c, r, Copy(r)); CopyConserved(c, r); }
      case Returned(_) =>
    }
  }

  /** The pool does not depend on the deadline. */
  lemma SamePool(c: Conn, c': Conn)
    requires Conserved(c)
    requires c'.free == c.free && c'.packets == c.packets && c'.pump == c.pump && c'.dropped == c.dropped
    requires c'.calls == c.calls && c'.mem == c.mem
    ensures Conserved(c')
  {
    forall b | 0 <= b < BUFFERS ensures Places(c', b) == 1 {
      assert Places(c, b) == 1;
    }
  }

  lemma PumpTakeConserved(c: Conn)
    requires Conserved(c) && c.pump.Waiting? && c.free != []
    ensures Conserved(PumpStep(c, PumpTake))
  {
    var t := PumpStep(c, PumpTake);
    forall b | 0 <= b < BUFFERS ensures Places(t, b) == 1 {
      assert Places(c, b) == 1;
      HeadTail(c.free, b);
    }
  }

  lemma PumpOfferConserved(c: Conn)
    requires Conserved(c) && c.pump.Offering? && |c.packets| < BUFFERS
    ensures Conserved(PumpStep(c, PumpOffer))
  {
    var t := PumpStep(c, PumpOffer);
    forall b | 0 <= b < BUFFERS ensures Places(t, b) == 1 {
      assert Places(c, b) == 1;
      Snoc(c.packets, c.pump.buf, b);
    }
  }

  /** The pump reads into its buffer, or leaves with it. */
  lemma PumpHolds(c: Conn, t: Conn)
    requires Conserved(c) && t.free == c.free && t.packets == c.packets && t.calls == c.calls && |t.mem| == |c.mem|
    requires c.dropped == None
    requires if t.pump.Exited? then t.dropped == PumpBuffer(c.pump)
             else PumpBuffer(t.pump) == PumpBuffer(c.pump) && t.dropped == None
    ensures Conserved(t)
  {
    forall b | 0 <= b < BUFFERS ensures Places(t, b) == 1 {
      assert Places(c, b) == 1;
    }
  }

  lemma PumpStepConserved(c: Conn, a: Act)
    requires Conserved(c)
    ensures Conserved(PumpStep(c, a))
  {
    var t := PumpStep(c, a);
    if a.Stop? {
      SamePool(c, t);
    } else if t != c {
      match a
      case PumpTake => PumpTakeConserved(c);
      case PumpOffer => PumpOfferConserved(c);
      case _ => PumpHolds(c, t);
    }
  }

  lemma NextConserved(c: Conn, a: Act)
    requires Conserved(c)
    ensures Conserved(Next(c, a))
  {
    if a.Timing? {
      SamePool(c, Next(c, a));
    } else if a.Enter? {
      if a.r !in c.calls {
        ReadingConserved(c, a.r, Entered(a.room));
      }
    } else if ReaderOf(a).Some? {
      ReadStepConserved(c, ReaderOf(a).value, a);
    } else {
      PumpStepConserved(c, a);
    }
  }

  // ---------------------------------------------------------------- room in the channels

  /** Distinct numbers below n, one of them missing, are fewer than n. */
  lemma {:induction false} Fewer(s: seq<nat>, n: nat, missing: nat)
    requires missing < n && missing !in s && forall i | 0 <= i < |s| :: s[i] < n && multiset(s)[s[i]] == 1
    ensures |s| < n
  {
    SeqSet(s);
    var there := set i | 0 <= i < |s| :: s[i];
    assert there <= Below(n) - {missing};
    SubsetSize(there, Below(n) - {missing});
  }

  function Below(n: nat): (all: set<nat>)
    ensures |all| == n && forall i :: i in all <==> 0 <= i < n
  {
    if n == 0 then {} else Below(n - 1) + {n - 1}
  }

  lemma {:induction false} SeqSet(s: seq<nat>)
    requires forall i | 0 <= i < |s| :: multiset(s)[s[i]] == 1
    ensures |set i | 0 <= i < |s| :: s[i]| == |s|
  {
    if s != [] {
      var t, x := s[1..], s[0];
      assert s == [x] + t;
      forall i | 0 <= i < |t| ensures multiset(t)[t[i]] == 1 && t[i] != x {
        assert t[i] == s[i + 1] && t[i] in multiset(t);
        assert multiset(s)[t[i]] == multiset(t)[t[i]] + Bit(x == t[i]);
      }
      SeqSet(t);
      assert (set i | 0 <= i < |s| :: s[i]) == {x} + (set i | 0 <= i < |t| :: t[i]);
    }
  }

  lemma FreeOnce(c: Conn, s: seq<nat>)
    requires Conserved(c) && (s == c.free || s == c.packets)
    ensures forall i | 0 <= i < |s| :: s[i] < BUFFERS && multiset(s)[s[i]] == 1
  {
    forall i | 0 <= i < |s| ensures s[i] < BUFFERS && multiset(s)[s[i]] == 1 {
      assert s[i] in multiset(s);
      assert Places(c, s[i]) == 1;
    }
  }

  /** Giving a buffer back never blocks, and neither does handing a datagram on: whoever
      holds a buffer knows its channel is not full. */
  lemma NeverBlocks(c: Conn, r: nat)
    requires Conserved(c)
    ensures r in c.calls && c.calls[r].Copying? ==> |c.free| < BUFFERS
    ensures c.pump.Offering? ==> |c.packets| < BUFFERS
  {
    if r in c.calls && c.calls[r].Copying? {
      var b := c.calls[r].buf;
      assert Holds(c.calls[r], b);
      assert Places(c, b) == 1;
      FreeOnce(c, c.free);
      Fewer(c.free, BUFFERS, b);
    }
    if c.pump.Offering? {
      var b := c.pump.buf;
      assert Places(c, b) == 1;
      FreeOnce(c, c.packets);
      Fewer(c.packets, BUFFERS, b);
    }
  }
}
