/** What every run of a punched conn keeps: each buffer in one place, datagrams handed out in
    the order the substrate gave them, the stop error last, and no read a past deadline does
    not release. */
module DeadlineConnRuns {
  import opened Bytes
  import opened Counting
  import opened DeadlineConn
  import D = Deadlines

  // ---------------------------------------------------------------- contents and order

  ghost function Contents(packets: seq<nat>, mem: seq<Octets>): seq<Octets>
    requires Within(packets) && |mem| == BUFFERS
  {
    if packets == [] then [] else [mem[packets[0]]] + Contents(packets[1..], mem)
  }

  lemma {:induction false} ContentsUpdate(packets: seq<nat>, mem: seq<Octets>, b: nat, v: Octets)
    requires Within(packets) && |mem| == BUFFERS && b < BUFFERS && b !in packets
    ensures Contents(packets, mem[b := v]) == Contents(packets, mem)
  {
    if packets != [] {
      ContentsUpdate(packets[1..], mem, b, v);
    }
  }

  lemma {:induction false} ContentsSnoc(packets: seq<nat>, mem: seq<Octets>, b: nat)
    requires Within(packets) && |mem| == BUFFERS && b < BUFFERS
    ensures Contents(packets + [b], mem) == Contents(packets, mem) + [mem[b]]
  {
    if packets == [] {
      assert packets + [b] == [b];
      assert [b][1..] == [];
    } else {
      ContentsSnoc(packets[1..], mem, b);
      assert (packets + [b])[1..] == packets[1..] + [b];
    }
  }

  /** The datagram between the substrate and the packets channel, if any. */
  ghost function Tail(c: Conn): seq<Octets>
    requires Ranges(c)
  {
    if c.pump.Offering? then [c.mem[c.pump.buf]] else if c.lost.Some? then [c.lost.value] else []
  }

  /** Nothing is lost, repeated, reordered or overwritten on the way to a read. */
  ghost predicate InOrder(c: Conn)
    requires Ranges(c)
  {
    && c.accepted == c.handed + Contents(c.packets, c.mem) + Tail(c)
    && (c.lost.Some? ==> c.pump.Exited?)
    && (forall r | r in c.calls && c.calls[r].Copying? ::
          c.mem[c.calls[r].buf] == c.calls[r].data && c.calls[r].data in c.handed)
  }

  /** The stop error is seen only once the pump is gone, and reported only when nothing is
      queued. */
  ghost predicate Drained(c: Conn) {
    && (forall r | r in c.calls && c.calls[r].Draining? :: c.pump.Exited?)
    && (forall r | r in c.calls && c.calls[r] == Returned(Stopped) :: c.pump.Exited? && c.packets == [])
  }

  predicate Waits(read: Read) {
    read.Checking? || read.Parked?
  }

  ghost predicate Timed(c: Conn) {
    D.Ok(c.dir, c.now) && forall r | r in c.calls && Waits(c.calls[r]) :: c.calls[r].ch in c.dir.captured
  }

  ghost predicate Inv(c: Conn) {
    Conserved(c) && InOrder(c) && Drained(c) && Timed(c)
  }

  // ---------------------------------------------------------------- order is kept

  lemma PumpBufferElsewhere(c: Conn)
    requires Conserved(c) && PumpBuffer(c.pump).Some?
    ensures PumpBuffer(c.pump).value !in c.packets && !Held(c.calls, PumpBuffer(c.pump).value)
  {
    var b := PumpBuffer(c.pump).value;
    assert Places(c, b) == 1;
    assert b in c.packets <==> multiset(c.packets)[b] > 0;
  }

  lemma PumpReadInOrder(c: Conn, data: Octets)
    requires Conserved(c) && InOrder(c) && c.pump.InSubstrate? && |data| <= MTU
    ensures InOrder(PumpStep(c, PumpRead(data)))
  {
    var b, t := c.pump.buf, PumpStep(c, PumpRead(data));
    PumpBufferElsewhere(c);
    ContentsUpdate(c.packets, c.mem, b, data);
    forall r | r in t.calls && t.calls[r].Copying?
      ensures t.mem[t.calls[r].buf] == t.calls[r].data && t.calls[r].data in t.handed
    {
      assert !Holds(c.calls[r], b);
    }
  }

  lemma PumpOfferInOrder(c: Conn)
    requires Conserved(c) && InOrder(c) && c.pump.Offering? && |c.packets| < BUFFERS
    ensures InOrder(PumpStep(c, PumpOffer))
  {
    ContentsSnoc(c.packets, c.mem, c.pump.buf);
    var t := PumpStep(c, PumpOffer);
    assert t.handed + Contents(t.packets, t.mem) + [] == c.handed + Contents(c.packets, c.mem) + [c.mem[c.pump.buf]];
  }

  lemma PumpStepInOrder(c: Conn, a: Act)
    requires Conserved(c) && InOrder(c)
    ensures Ranges(PumpStep(c, a)) && InOrder(PumpStep(c, a))
  {
    PumpStepConserved(c, a);
    if a.PumpRead? && c.pump.InSubstrate? && |a.data| <= MTU {
      PumpReadInOrder(c, a.data);
    } else if a.PumpOffer? && c.pump.Offering? && |c.packets| < BUFFERS {
      PumpOfferInOrder(c);
    }
  }

  lemma TakingInOrder(c: Conn, r: nat, room: nat)
    requires Conserved(c) && InOrder(c) && c.packets != []
    ensures Ranges(Taking(c, r, room)) && InOrder(Taking(c, r, room))
  {
    var t := Taking(c, r, room);
    assert c.handed + Contents(c.packets, c.mem) == t.handed + Contents(t.packets, t.mem);
    forall q | q in t.calls && t.calls[q].Copying?
      ensures t.mem[t.calls[q].buf] == t.calls[q].data && t.calls[q].data in t.handed
    {
      if q == r {
        assert t.handed[|c.handed|] == t.calls[r].data;
      } else {
        var k :| 0 <= k < |c.handed| && c.handed[k] == c.calls[q].data;
        assert t.handed[k] == t.calls[q].data;
      }
    }
  }

  lemma ReadStepInOrder(c: Conn, r: nat, a: Act)
    requires Conserved(c) && InOrder(c)
    ensures Ranges(ReadStep(c, r, a)) && InOrder(ReadStep(c, r, a))
  {
    ReadStepConserved(c, r, a);
    if r in c.calls && c.packets != []
       && ((c.calls[r].Parked? && a.TakePacket?) || (c.calls[r].Draining? && a.Drain?)) {
      TakingInOrder(c, r, c.calls[r].room);
    }
  }

  lemma NextInOrder(c: Conn, a: Act)
    requires Conserved(c) && InOrder(c)
    ensures Ranges(Next(c, a)) && InOrder(Next(c, a))
  {
    NextConserved(c, a);
    if ReaderOf(a).Some? {
      ReadStepInOrder(c, ReaderOf(a).value, a);
    } else if !a.Timing? && !a.Enter? {
      PumpStepInOrder(c, a);
    }
  }

  // ---------------------------------------------------------------- stopping and timing are kept

  lemma NextDrained(c: Conn, a: Act)
    requires Drained(c)
    ensures Drained(Next(c, a))
  {
  }

  lemma ReadStepTimed(c: Conn, r: nat, a: Act)
    requires Timed(c)
    ensures Timed(ReadStep(c, r, a))
  {
    D.NextOk(D.Clocked(c.dir, c.now), D.Look);
  }

  lemma NextTimed(c: Conn, a: Act)
    requires Timed(c)
    ensures Timed(Next(c, a))
  {
    if a.Timing? {
      if !a.e.Look? {
        D.NextOk(D.Clocked(c.dir, c.now), a.e);
      }
    } else if ReaderOf(a).Some? {
      ReadStepTimed(c, ReaderOf(a).value, a);
    }
  }

  lemma NextInv(c: Conn, a: Act)
    requires Inv(c)
    ensures Inv(Next(c, a))
  {
    assert Conserved(Next(c, a)) by { NextConserved(c, a); }
    assert InOrder(Next(c, a)) by { NextInOrder(c, a); }
    assert Drained(Next(c, a)) by { NextDrained(c, a); }
    assert Timed(Next(c, a)) by { NextTimed(c, a); }
  }

  lemma NewConserved(now: int)
    ensures Conserved(New(now))
  {
    var c := New(now);
    forall b | 0 <= b < BUFFERS ensures Places(c, b) == 1 {
      assert multiset(c.free) == multiset{0, 1, 2, 3, 4, 5, 6, 7};
    }
  }

  lemma {:induction false} RunInv(now: int, acts: seq<Act>)
    ensures Inv(Run(now, acts))
  {
    if acts == [] {
      NewConserved(now);
    } else {
      RunInv(now, acts[..|acts| - 1]);
      NextInv(Run(now, acts[..|acts| - 1]), acts[|acts| - 1]);
    }
  }

  // ---------------------------------------------------------------- main results

  /** Each of the eight buffers is always in exactly one place: free, queued, with the pump,
      with one read, or dropped by the pump as it left; so nothing that gives a buffer back
      or passes a datagram on ever blocks. */
  lemma BuffersConserved(now: int, acts: seq<Act>, b: nat, r: nat)
    requires b < BUFFERS
    ensures var c := Run(now, acts);
      && Places(c, b) == 1
      && (r in c.calls && c.calls[r].Copying? ==> |c.free| < BUFFERS)
      && (c.pump.Offering? ==> |c.packets| < BUFFERS)
  {
    RunInv(now, acts);
    NeverBlocks(Run(now, acts), r);
  }

  /** What was handed out, then what is queued, then what the pump holds or lost on its way
      out, is exactly what the substrate gave, in its order. */
  lemma SubstrateOrder(now: int, acts: seq<Act>)
    ensures var c := Run(now, acts);
      Ranges(c) && c.accepted == c.handed + Contents(c.packets, c.mem) + Tail(c)
  {
    RunInv(now, acts);
  }

  /** A read that took a datagram returns that datagram, cut to the caller's buffer: no
      queued datagram is overwritten before it is copied out. */
  lemma CopyReturnsWhatWasTaken(now: int, acts: seq<Act>, r: nat)
    requires r in Run(now, acts).calls && Run(now, acts).calls[r].Copying?
    ensures var c := Run(now, acts);
      var read := c.calls[r];
      && read.data in c.handed
      && Next(c, Copy(r)).calls[r] == Returned(Datagram(read.data[..Min(read.room, |read.data|)]))
  {
    RunInv(now, acts);
    NeverBlocks(Run(now, acts), r);
  }

  /** When a read reports why the substrate stopped, everything the pump queued has been
      handed out; only a datagram the pump was still offering when it was stopped is not. */
  lemma StopIsReportedLast(now: int, acts: seq<Act>, r: nat)
    requires r in Run(now, acts).calls && Run(now, acts).calls[r] == Returned(Stopped)
    ensures var c := Run(now, acts);
      c.pump.Exited? && c.accepted == c.handed + (if c.lost.Some? then [c.lost.value] else [])
  {
    RunInv(now, acts);
  }

  /** A read that looked at a deadline already passed: it will fail, whatever is queued. */
  predicate Doomed(c: Conn, r: nat) {
    r in c.calls && (c.calls[r] == Returned(Expired) || (c.calls[r].Checking? && c.calls[r].ch in c.dir.closed))
  }

  lemma ClosedStays(c: Conn, a: Act)
    requires Timed(c)
    ensures c.dir.closed <= Next(c, a).dir.closed
  {
    if a.Timing? && !a.e.Look? {
      D.NextOk(D.Clocked(c.dir, c.now), a.e);
    }
  }

  lemma DoomedStays(c: Conn, a: Act, r: nat)
    requires Inv(c) && Doomed(c, r)
    ensures Doomed(Next(c, a), r)
  {
    ClosedStays(c, a);
  }

  function After(c: Conn, acts: seq<Act>): Conn {
    if acts == [] then c else Next(After(c, acts[..|acts| - 1]), acts[|acts| - 1])
  }

  /** A read that starts after the deadline has passed takes no datagram, however many are
      waiting and however the rest is interleaved: it is about to return the deadline error,
      or has. */
  lemma {:induction false} PastDeadlineTakesNothing(c: Conn, r: nat, acts: seq<Act>)
    requires Inv(c) && c.dir.fired && r in c.calls && c.calls[r].Entered?
    ensures Inv(After(Next(c, Capture(r)), acts)) && Doomed(After(Next(c, Capture(r)), acts), r)
  {
    if acts == [] {
      NextInv(c, Capture(r));
    } else {
      var k := |acts| - 1;
      PastDeadlineTakesNothing(c, r, acts[..k]);
      DoomedStays(After(Next(c, Capture(r)), acts[..k]), acts[k], r);
      NextInv(After(Next(c, Capture(r)), acts[..k]), acts[k]);
    }
  }

  // ---------------------------------------------------------------- release

  function Left(read: Read): nat {
    match read
    case Entered(_) => 5
    case Checking(_, _) => 4
    case Parked(_, _) => 3
    case Draining(_) => 2
    case Copying(_, _, _) => 1
    case Returned(_) => 0
  }

  /** A step read r can take by itself once the deadline has passed. */
  function Escape(c: Conn, r: nat): Act
    requires r in c.calls
  {
    match c.calls[r]
    case Entered(_) => Capture(r)
    case Checking(_, _) => Check(r)
    case Parked(_, _) => SeeExpired(r)
    case Draining(_) => Drain(r)
    case _ => Copy(r)
  }

  /** Once the read deadline has passed, every Read that has not returned, wherever it is,
      has a step it can take at once, and that step brings it closer to returning. */
  lemma PastDeadlineReleases(c: Conn, r: nat)
    requires Inv(c) && c.dir.fired && r in c.calls && !c.calls[r].Returned?
    ensures var c' := Next(c, Escape(c, r));
      && Inv(c') && c'.dir.fired && r in c'.calls && Left(c'.calls[r]) < Left(c.calls[r])
  {
    NextInv(c, Escape(c, r));
    NeverBlocks(c, r);
    if c.calls[r].Parked? {
      assert c.calls[r].ch in c.dir.closed;
    }
  }

  lemma ReadsForward(c: Conn, q: nat, a: Act, r: nat)
    requires r in c.calls
    ensures var t := ReadStep(c, q, a);
      r in t.calls && Left(t.calls[r]) <= Left(c.calls[r]) && (q != r ==> t.calls[r] == c.calls[r])
    ensures c.dir.fired ==> ReadStep(c, q, a).dir.fired
  {
  }

  /** Its own steps never take it further away, and nobody else's step moves it at all; and
      unless someone moves the deadline, it stays passed. */
  lemma NobodyDelays(c: Conn, a: Act, r: nat)
    requires Inv(c) && r in c.calls
    ensures r in Next(c, a).calls && Left(Next(c, a).calls[r]) <= Left(c.calls[r])
    ensures ReaderOf(a) != Some(r) ==> Next(c, a).calls[r] == c.calls[r]
    ensures c.dir.fired && !(a.Timing? && a.e.SetTo?) ==> Next(c, a).dir.fired
  {
    if ReaderOf(a).Some? {
      ReadsForward(c, ReaderOf(a).value, a, r);
    }
  }
}
