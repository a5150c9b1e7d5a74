/** What each Read of a punched conn returns, and that it does return it: over every run, told
    from the history of that run. */
module DeadlineReads {
  import opened Bytes
  import opened Counting
  import opened DeadlineConn
  import opened DeadlineConnRuns
  import D = Deadlines

  // ---------------------------------------------------------------- the history of a run

  /** The read that took each datagram handed out, in the order they were. */
  function Takers(now: int, acts: seq<Act>): seq<nat> {
    if acts == [] then []
    else
      var front, a := acts[..|acts| - 1], acts[|acts| - 1];
      Takers(now, front) + Taker(Run(now, front), a)
  }

  function Taker(c: Conn, a: Act): seq<nat> {
    if ReaderOf(a).Some? && Next(c, a).handed != c.handed then [ReaderOf(a).value] else []
  }

  /** The room read r had, if it was called. */
  function RoomOf(now: int, acts: seq<Act>, r: nat): Option<nat> {
    if acts == [] then None
    else
      var front, a := acts[..|acts| - 1], acts[|acts| - 1];
      if Calls(Run(now, front), a, r) then Some(a.room) else RoomOf(now, front, r)
  }

  predicate Calls(c: Conn, a: Act, r: nat)
    ensures Calls(c, a, r) ==> a.Enter?
  {
    a.Enter? && a.r == r && r !in c.calls
  }

  /** The channel read r looked at, if it has looked at one. */
  function LookedAt(now: int, acts: seq<Act>, r: nat): Option<nat> {
    if acts == [] then None
    else
      var front, a := acts[..|acts| - 1], acts[|acts| - 1];
      if Looks(Run(now, front), a, r) then Some(Run(now, front).dir.expired) else LookedAt(now, front, r)
  }

  predicate Looks(c: Conn, a: Act, r: nat) {
    a == Capture(r) && r in c.calls && c.calls[r].Entered?
  }

  /** Read r took datagram number k, and no other. */
  predicate TookAt(takers: seq<nat>, r: nat, k: nat) {
    k < |takers| && takers[k] == r && r !in takers[..k] && r !in takers[k + 1..]
  }

  ghost predicate Took(takers: seq<nat>, handed: seq<Octets>, r: nat, data: Octets) {
    exists k: nat :: TookAt(takers, r, k) && k < |handed| && handed[k] == data
  }

  function Cut(data: Octets, room: nat): Octets {
    data[..Min(room, |data|)]
  }

  ghost predicate TookCut(takers: seq<nat>, handed: seq<Octets>, r: nat, room: nat, data: Octets) {
    exists k: nat :: TookAt(takers, r, k) && k < |handed| && Cut(handed[k], room) == data
  }

  /** What the history says of read r, by where the read is. */
  ghost predicate Told(c: Conn, takers: seq<nat>, room: Option<nat>, looked: Option<nat>, r: nat) {
    && |takers| == |c.handed|
    && if r !in c.calls then r !in takers && room == None && looked == None
       else
         && room.Some?
         && match c.calls[r]
            case Entered(n) => r !in takers && room == Some(n) && looked == None
            case Checking(n, ch) => r !in takers && room == Some(n) && looked == Some(ch)
            case Parked(n, ch) => r !in takers && room == Some(n) && looked == Some(ch)
            case Draining(n) => r !in takers && room == Some(n)
            case Copying(n, _, data) => room == Some(n) && Took(takers, c.handed, r, data)
            case Returned(Datagram(data)) => TookCut(takers, c.handed, r, room.value, data)
            case Returned(Expired) => r !in takers && looked.Some? && looked.value in c.dir.closed
            case Returned(Stopped) => r !in takers
  }

  // ---------------------------------------------------------------- each step keeps it

  lemma TookMore(takers: seq<nat>, handed: seq<Octets>, r: nat, q: nat, data: Octets)
    requires q != r && |takers| == |handed|
    ensures forall d | Took(takers, handed, r, d) :: Took(takers + [q], handed + [data], r, d)
    ensures forall room, d | TookCut(takers, handed, r, room, d) :: TookCut(takers + [q], handed + [data], r, room, d)
  {
    forall k: nat | TookAt(takers, r, k) ensures TookAt(takers + [q], r, k) && (handed + [data])[k] == handed[k] {
      assert (takers + [q])[..k] == takers[..k] && (takers + [q])[k + 1..] == takers[k + 1..] + [q];
    }
    forall d | Took(takers, handed, r, d) ensures Took(takers + [q], handed + [data], r, d) {
      var k: nat :| TookAt(takers, r, k) && k < |handed| && handed[k] == d;
      assert TookAt(takers + [q], r, k);
    }
    forall room, d | TookCut(takers, handed, r, room, d) ensures TookCut(takers + [q], handed + [data], r, room, d) {
      var k: nat :| TookAt(takers, r, k) && k < |handed| && Cut(handed[k], room) == d;
      assert TookAt(takers + [q], r, k);
    }
  }

  lemma TookLast(takers: seq<nat>, handed: seq<Octets>, r: nat, data: Octets)
    requires |takers| == |handed| && r !in takers
    ensures Took(takers + [r], handed + [data], r, data)
  {
    assert TookAt(takers + [r], r, |takers|);
  }

  /** Somebody else takes a datagram, or nobody does. */
  lemma OthersTold(c: Conn, t: Conn, more: seq<nat>, data: Octets, takers: seq<nat>, room: Option<nat>,
                   looked: Option<nat>, r: nat)
    requires Told(c, takers, room, looked, r)
    requires
      || (more == [] && t.handed == c.handed)
      || (|more| == 1 && more[0] != r && t.handed == c.handed + [data])
    requires r in t.calls <==> r in c.calls
    requires r in c.calls ==> t.calls[r] == c.calls[r]
    requires c.dir.closed <= t.dir.closed
    ensures Told(t, takers + more, room, looked, r)
  {
    if more != [] {
      assert more == [more[0]];
      TookMore(takers, c.handed, r, more[0], data);
    } else {
      assert takers + more == takers;
    }
  }

  /** What a step of another read, or of no read, does to read r and to what was handed out. */
  lemma OthersMove(c: Conn, a: Act, r: nat)
    requires ReaderOf(a) != Some(r) && !Calls(c, a, r)
    ensures r in Next(c, a).calls <==> r in c.calls
    ensures r in c.calls ==> Next(c, a).calls[r] == c.calls[r]
    ensures Taker(c, a) == [] ==> Next(c, a).handed == c.handed
    ensures Taker(c, a) != [] ==>
      c.packets != [] && c.packets[0] < |c.mem| && Next(c, a).handed == c.handed + [c.mem[c.packets[0]]]
  {
  }

  lemma OthersKeepTold(c: Conn, a: Act, takers: seq<nat>, room: Option<nat>, looked: Option<nat>, r: nat)
    requires Timed(c) && Told(c, takers, room, looked, r) && ReaderOf(a) != Some(r) && !Calls(c, a, r)
    ensures Told(Next(c, a), takers + Taker(c, a), room, looked, r)
  {
    OthersMove(c, a, r);
    ClosedStays(c, a);
    var data := if Taker(c, a) != [] then c.mem[c.packets[0]] else [];
    OthersTold(c, Next(c, a), Taker(c, a), data, takers, room, looked, r);
  }

  lemma TakingTold(c: Conn, r: nat, n: nat, takers: seq<nat>, looked: Option<nat>)
    requires Conserved(c) && c.packets != [] && |takers| == |c.handed| && r !in takers
    ensures Told(Taking(c, r, n), takers + [r], Some(n), looked, r)
    ensures Taking(c, r, n).handed != c.handed
  {
    TookLast(takers, c.handed, r, c.mem[c.packets[0]]);
    assert |Taking(c, r, n).handed| == |c.handed| + 1;
  }

  lemma CopyTold(c: Conn, r: nat, takers: seq<nat>, room: Option<nat>, looked: Option<nat>)
    requires Inv(c) && Told(c, takers, room, looked, r) && r in c.calls && c.calls[r].Copying?
    ensures Told(Next(c, Copy(r)), takers, room, looked, r) && Next(c, Copy(r)).handed == c.handed
  {
    NeverBlocks(c, r);
    var data := c.calls[r].data;
    assert c.mem[c.calls[r].buf] == data;
    var k: nat :| TookAt(takers, r, k) && k < |c.handed| && c.handed[k] == data;
    assert TookCut(takers, c.handed, r, room.value, Cut(data, room.value));
  }

  /** Its own steps, but for taking and copying a datagram. */
  lemma OwnTold(c: Conn, a: Act, takers: seq<nat>, room: Option<nat>, looked: Option<nat>, r: nat)
    requires Inv(c) && Told(c, takers, room, looked, r) && ReaderOf(a) == Some(r) && r in c.calls
    requires !c.calls[r].Copying? && !(c.calls[r].Parked? && a.TakePacket?)
    requires !(c.calls[r].Draining? && a.Drain? && c.packets != [])
    ensures Next(c, a).handed == c.handed
    ensures Told(Next(c, a), takers, room, if Looks(c, a, r) then Some(c.dir.expired) else looked, r)
  {
  }

  lemma ReaderTold(c: Conn, a: Act, takers: seq<nat>, room: Option<nat>, looked: Option<nat>, r: nat)
    requires Inv(c) && Told(c, takers, room, looked, r) && ReaderOf(a) == Some(r) && r in c.calls
    ensures Told(Next(c, a), takers + Taker(c, a), room, if Looks(c, a, r) then Some(c.dir.expired) else looked, r)
  {
    assert takers + [] == takers;
    var read := c.calls[r];
    if (read.Parked? && a.TakePacket?) || (read.Draining? && a.Drain?) {
      if c.packets != [] {
        TakingTold(c, r, read.room, takers, looked);
        assert Next(c, a) == Taking(c, r, read.room);
      } else if read.Draining? {
        OwnTold(c, a, takers, room, looked, r);
      }
    } else if read.Copying? {
      if a.Copy? {
        CopyTold(c, r, takers, room, looked);
      }
    } else {
      OwnTold(c, a, takers, room, looked, r);
    }
  }

  lemma {:induction false} RunTold(now: int, acts: seq<Act>, r: nat)
    ensures Told(Run(now, acts), Takers(now, acts), RoomOf(now, acts, r), LookedAt(now, acts, r), r)
  {
    if acts != [] {
      var front, a := acts[..|acts| - 1], acts[|acts| - 1];
      var c, takers := Run(now, front), Takers(now, front);
      var room, looked := RoomOf(now, front, r), LookedAt(now, front, r);
      RunTold(now, front, r);
      RunInv(now, front);
      if Calls(c, a, r) {
        assert Next(c, a) == Reading(c, r, Entered(a.room)) && takers + Taker(c, a) == takers;
      } else if ReaderOf(a) == Some(r) && r in c.calls {
        ReaderTold(c, a, takers, room, looked, r);
      } else if ReaderOf(a) == Some(r) {
        assert Next(c, a) == c && takers + Taker(c, a) == takers;
      } else {
        OthersKeepTold(c, a, takers, room, looked, r);
      }
    }
  }

  // ---------------------------------------------------------------- what a read returns

  /** A read that returned a datagram took exactly one of those handed out and returns that
      one, cut to the caller's buffer; no other read took it. */
  lemma ReturnsItsDatagram(now: int, acts: seq<Act>, r: nat, data: Octets)
    requires r in Run(now, acts).calls && Run(now, acts).calls[r] == Returned(Datagram(data))
    ensures RoomOf(now, acts, r).Some?
    ensures TookCut(Takers(now, acts), Run(now, acts).handed, r, RoomOf(now, acts, r).value, data)
    ensures |Takers(now, acts)| == |Run(now, acts).handed|
  {
    RunTold(now, acts, r);
  }

  /** A read that failed, or has not got that far, took none. */
  lemma OthersTookNone(now: int, acts: seq<Act>, r: nat)
    requires var c := Run(now, acts);
      r in c.calls ==> !c.calls[r].Copying? && !(c.calls[r].Returned? && c.calls[r].outcome.Datagram?)
    ensures r !in Takers(now, acts)
  {
    RunTold(now, acts, r);
  }

  /** The deadline error is returned only by a read that looked at a channel which is closed. */
  lemma ExpiredOnlyIfClosed(now: int, acts: seq<Act>, r: nat)
    requires r in Run(now, acts).calls && Run(now, acts).calls[r] == Returned(Expired)
    ensures var looked := LookedAt(now, acts, r);
      looked.Some? && looked.value in Run(now, acts).dir.closed && r !in Takers(now, acts)
  {
    RunTold(now, acts, r);
  }

  predicate NeverSet(acts: seq<Act>) {
    forall k | 0 <= k < |acts| :: !(acts[k].Timing? && acts[k].e.SetTo?)
  }

  lemma {:induction false} UnsetStaysOpen(now: int, acts: seq<Act>)
    requires NeverSet(acts)
    ensures var d := Run(now, acts).dir; d.closed == {} && d.armed == map[] && !d.fired
  {
    if acts != [] {
      var k := |acts| - 1;
      UnsetStaysOpen(now, acts[..k]);
      assert !(acts[k].Timing? && acts[k].e.SetTo?);
      UnsetStep(Run(now, acts[..k]), acts[k]);
    }
  }

  lemma UnsetStep(c: Conn, a: Act)
    requires c.dir.closed == {} && c.dir.armed == map[] && !c.dir.fired && !(a.Timing? && a.e.SetTo?)
    ensures var d := Next(c, a).dir; d.closed == {} && d.armed == map[] && !d.fired
  {
    if ReaderOf(a).Some? {
      ReadsLeaveOpen(c, ReaderOf(a).value, a);
    }
  }

  lemma ReadsLeaveOpen(c: Conn, r: nat, a: Act)
    ensures var d := ReadStep(c, r, a).dir; d.closed == c.dir.closed && d.armed == c.dir.armed && d.fired == c.dir.fired
  {
  }

  /** So a conn whose deadline nobody ever sets never reports that it passed. */
  lemma NeverExpiresUnset(now: int, acts: seq<Act>, r: nat)
    requires NeverSet(acts) && r in Run(now, acts).calls
    ensures Run(now, acts).calls[r] != Returned(Expired)
  {
    UnsetStaysOpen(now, acts);
    if Run(now, acts).calls[r] == Returned(Expired) {
      ExpiredOnlyIfClosed(now, acts, r);
    }
  }

  // ---------------------------------------------------------------- that it does

  lemma CopyReturns(c: Conn, r: nat)
    requires Inv(c) && r in c.calls && c.calls[r].Copying?
    ensures var t, read := Next(c, Copy(r)), c.calls[r];
      && r in t.calls && t.calls[r] == Returned(Datagram(Cut(read.data, read.room)))
      && t.packets == c.packets && t.free == c.free + [read.buf]
  {
    NeverBlocks(c, r);
  }

  lemma TakesHead(c: Conn, r: nat)
    requires Conserved(c) && r in c.calls && c.packets != []
    ensures var t, read, b := Taking(c, r, 0), c.calls[r], c.packets[0];
      && (read.Parked? ==> Next(c, TakePacket(r)) == Taking(c, r, read.room))
      && (read.Draining? ==> Next(c, Drain(r)) == Taking(c, r, read.room))
      && forall room :: Taking(c, r, room).calls[r] == Copying(room, b, c.mem[b]) && t.packets == c.packets[1..]
  {
  }

  /** A read that waits takes the oldest datagram queued, and returns it. */
  lemma ParkedReads(c: Conn, r: nat)
    requires Inv(c) && r in c.calls && c.calls[r].Parked? && c.packets != []
    ensures var t := Next(Next(c, TakePacket(r)), Copy(r));
      && r in t.calls && t.calls[r] == Returned(Datagram(Cut(c.mem[c.packets[0]], c.calls[r].room)))
      && t.packets == c.packets[1..] && t.free == c.free + [c.packets[0]]
  {
    var t := Next(c, TakePacket(r));
    assert Inv(t) by { NextInv(c, TakePacket(r)); }
    TakesHead(c, r);
    assert t == Taking(c, r, c.calls[r].room);
    CopyReturns(t, r);
  }

  lemma LooksAndWaits(c: Conn, r: nat)
    requires D.Ok(c.dir, c.now) && r in c.calls && c.calls[r].Entered? && !c.dir.fired
    ensures var t := Next(Next(c, Capture(r)), Check(r));
      && r in t.calls && t.calls[r] == Parked(c.calls[r].room, c.dir.expired)
      && t.packets == c.packets && t.mem == c.mem && !t.dir.fired
  {
  }

  /** A read that starts while the deadline has not passed gets there: it looks at an open
      channel and waits, and with a datagram queued returns the oldest. */
  lemma EnteredReads(c: Conn, r: nat)
    requires Inv(c) && r in c.calls && c.calls[r].Entered? && !c.dir.fired && c.packets != []
    ensures var p := Next(Next(c, Capture(r)), Check(r));
            var t := Next(Next(p, TakePacket(r)), Copy(r));
      r in t.calls && t.calls[r] == Returned(Datagram(Cut(c.mem[c.packets[0]], c.calls[r].room)))
  {
    var p := Next(Next(c, Capture(r)), Check(r));
    assert Inv(p) by {
      NextInv(c, Capture(r));
      NextInv(Next(c, Capture(r)), Check(r));
    }
    LooksAndWaits(c, r);
    ParkedReads(p, r);
  }

  /** Once the pump is gone, a waiting read still gets what is queued, and the stop error when
      nothing is. */
  lemma StoppedReads(c: Conn, r: nat)
    requires Inv(c) && r in c.calls && c.calls[r].Parked? && c.pump.Exited?
    ensures var t := Next(Next(c, SeeStopped(r)), Drain(r));
      && r in t.calls
      && (c.packets == [] ==> t.calls[r] == Returned(Stopped))
      && (c.packets != [] ==> t.calls[r] == Copying(c.calls[r].room, c.packets[0], c.mem[c.packets[0]]))
  {
    var d := Next(c, SeeStopped(r));
    assert d == Reading(c, r, Draining(c.calls[r].room));
    assert Conserved(d) by { NextConserved(c, SeeStopped(r)); }
    if c.packets != [] {
      TakesHead(d, r);
    }
  }

  /** The pump takes a free buffer, fills it and queues it, one datagram after the other. */
  lemma PumpQueues(c: Conn, data: Octets)
    requires Inv(c) && c.pump.Waiting? && c.free != [] && |data| <= MTU
    ensures var t := Next(Next(Next(c, PumpTake), PumpRead(data)), PumpOffer);
      && Inv(t) && t.pump.Waiting? && t.accepted == c.accepted + [data] && t.handed == c.handed
      && t.packets == c.packets + [c.free[0]] && t.mem[c.free[0]] == data && t.free == c.free[1..]
  {
    var t1 := Next(c, PumpTake);
    NextInv(c, PumpTake);
    NextInv(t1, PumpRead(data));
    NeverBlocks(Next(t1, PumpRead(data)), 0);
    NextInv(Next(t1, PumpRead(data)), PumpOffer);
  }

  /** A substrate that fails ends the pump, and so does a stop, wherever the pump can see it;
      what it was offering then is lost, and nothing else is. */
  lemma PumpLeaves(c: Conn)
    requires Inv(c)
    ensures c.pump.InSubstrate? ==> Next(c, PumpFail).pump.Exited? && Next(c, PumpFail).lost == c.lost
    ensures c.done && c.pump.Waiting? ==> Next(c, PumpStop).pump.Exited? && Next(c, PumpStop).lost == c.lost
    ensures c.done && c.pump.Offering? ==>
      Next(c, PumpStop).pump.Exited? && Next(c, PumpStop).lost == Some(c.mem[c.pump.buf])
    ensures !c.done ==> Next(c, PumpStop) == c
    ensures Next(c, Stop).done && Next(c, Stop) == c.(done := true)
  {
  }

  /** Setting the deadline of the conn: one already past fires at once; one still to come has
      not fired, fires as soon as its timer runs at its time or later, and not a moment before;
      and none never fires. */
  lemma DeadlineArrives(c: Conn, at: Option<int>, wait: nat)
    requires Inv(c)
    ensures var s := Next(c, Timing(D.SetTo(at)));
            var late := Next(s, Timing(D.Advance(wait)));
            var t := Next(late, Timing(D.Callback(late.dir.gen)));
      && Inv(t) && late.now == c.now + wait
      && (s.dir.fired <==> at.Some? && at.value <= c.now)
      && (t.dir.fired <==> at.Some? && at.value <= c.now + wait)
      && t.packets == c.packets && t.calls == c.calls && t.free == c.free && t.mem == c.mem
  {
    var s := Next(c, Timing(D.SetTo(at)));
    var late := Next(s, Timing(D.Advance(wait)));
    NextInv(c, Timing(D.SetTo(at)));
    NextInv(s, Timing(D.Advance(wait)));
    NextInv(late, Timing(D.Callback(late.dir.gen)));
  }
}
