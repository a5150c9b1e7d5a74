/** Every session ends: whatever the network, the engines and the timers do, the two sides
    together can take only so many steps that change anything, and as long as a side has not
    ended it has such a step. */
module ProtocolEnds {
  import opened Bytes
  import opened Messages
  import opened Cascade
  import opened Exchange
  import opened Protocol
  import opened ProtocolInvariant
  import opened ProtocolRuns

  function IoLeft(io: Io): nat {
    match io
    case Sending(_, _) => 2
    case Receiving(_) => 1
    case Done(_) => 0
  }

  function Rungs(s: Side): nat {
    if s.plan.Climb? then |s.plan.cascade| else 0
  }

  function RungsLeft(s: Side, i: nat): nat {
    if i < Rungs(s) then Rungs(s) - i else 0
  }

  /** Passes of the punch loop still to come after this one. */
  function PassesLeft(s: Side): nat {
    if s.attempt as int < Attempts(s.plan) then Attempts(s.plan) - s.attempt as int else 0
  }

  function PunchLeft(s: Side): nat {
    20 + 3 * Rungs(s) + 4 * PassesLeft(s)
  }

  /** How many program counters may still follow this one, until another frame is read. */
  function PcLeft(s: Side): nat {
    match s.pc
    case HelloWait => 2000
    case Gather => PunchLeft(s) + 4
    case InfoWait(_) => PunchLeft(s) + 3
    case Check => PunchLeft(s) + 2
    case OutcomeWait(_) => PunchLeft(s) + 1
    case RequestWait(i) => 3 * RungsLeft(s, i) + 3
    case Dialing(i) => 3 * RungsLeft(s, i) + 2
    case CommitWait(i) => 3 * RungsLeft(s, i) + 1
    case FloorWait => 1
    case AwaitRequest => if s.io.Receiving? then 5 else 8
    case AckWait(_) => 7
    case Serving(_) => 6
    case Active(_) => if s.io.Receiving? then 5 else 12
    case Tearing(_, next) => if s.io.Receiving? && next == None then 4 else 9
    case CommitAckWait(_) => 11
    case Committed(_) => 3
  }

  /** An ended side has only its exchange left in flight. */
  function Left(s: Side): nat {
    IoLeft(s.io) + (if s.ended.Some? then 0 else 3 + (if s.open.Some? then 1 else 0) + 4 * PcLeft(s))
  }

  // ---------------------------------------------------------------- process steps

  lemma PlanSmall(a: Hello, b: Hello)
    ensures PlanOf(a, b).Climb? ==> |PlanOf(a, b).cascade| <= 3
    ensures Attempts(PlanOf(a, b)) <= 255
  {
    AttemptsBounds(a.attempts, b.attempts);
  }

  lemma ReleaseLeft(s: Side, r: Result)
    requires s.ended == None
    ensures Left(s.Release()) == Left(s) && Left(s.Release().EndWith(r)) < Left(s)
  {
    SameLeft(s, s.Release());
  }

  lemma SameLeft(s: Side, s': Side)
    requires s'.pc == s.pc && s'.io == s.io && s'.plan == s.plan && s'.attempt == s.attempt
    requires s'.ended == s.ended && s'.open == s.open
    ensures Left(s') == Left(s)
  {
  }

  lemma HelloLeft(role: Role, s: Side, a: Act)
    requires s.ended == None && s.pc.HelloWait? && s.attempt == 1 && HelloStep(role, s, a) != s
    ensures Left(HelloStep(role, s, a)) < Left(s)
  {
    if a.Resume? {
      PlanSmall(s.hello, s.Reply().value.hello);
    }
  }

  lemma NextRungLeft(s: Side, i: nat)
    requires s.ended == None && s.open == None
    ensures Left(NextRung(s, i)) <= 2 + 3 + 4 * (3 * RungsLeft(s, i) + 3)
    ensures RungsLeft(s, i) == 0 ==> Left(NextRung(s, i)) <= 2 + 3 + 4
  {
  }

  lemma LandedLeft(role: Role, s: Side)
    requires s.ended == None && s.open == None && (s.pc.InfoWait? || s.pc.Check? || s.pc.OutcomeWait?)
    ensures Left(PunchLanded(role, s)) < Left(s) && Left(PunchMissed(role, s)) < Left(s)
  {
    var t := s.(verdict := Some(true), base := |s.sent|);
    if s.plan.Climb? && role == Client {
      NextRungLeft(t, 0);
    }
  }

  lemma OnceLeft(role: Role, s: Side, landed: bool)
    requires s.ended == None && s.open == None && (s.pc.InfoWait? || s.pc.Check?)
    ensures Left(AfterOnce(role, s, landed)) < Left(s)
  {
    LandedLeft(role, s);
  }

  lemma OutcomeLeft(role: Role, s: Side, agreed: bool)
    requires s.ended == None && s.open == None && s.pc.OutcomeWait? && Attempts(s.plan) <= 255
    ensures Left(AfterOutcome(role, s, agreed)) < Left(s)
  {
    LandedLeft(role, s);
    LandedLeft(role, s.Release());
  }

  lemma PunchPcLeft(role: Role, s: Side, a: Act)
    requires s.ended == None && s.open == None && PunchPc(s.pc) && Attempts(s.plan) <= 255 && PunchStep(role, s, a) != s
    ensures Left(PunchStep(role, s, a)) < Left(s)
  {
    ReleaseLeft(s, FailResult(role, s));
    match s.pc
    case Gather =>
    case InfoWait(_) => if a.Resume? { OnceLeft(role, s.Release(), false); }
    case Check => if a.Connected? { OnceLeft(role, if a.ok then s else s.Release(), a.ok); }
    case OutcomeWait(landed) =>
      if a.Resume? { OutcomeLeft(role, s, landed && s.Reply().value.OutcomeMsg? && s.Reply().value.ok); }
  }

  lemma DialingLeft(s: Side, a: Act)
    requires s.ended == None && s.pc.Dialing? && s.open.Some? && ClientStep(s, a) != s
    ensures Left(ClientStep(s, a)) < Left(s)
  {
    match a.outcome
    case CameUp =>
    case DidNotComeUp => NextRungLeft(CloseRung(s), s.pc.rung + 1);
    case SubstrateAbandoned => ReleaseLeft(CloseRung(s).(abandoned := true), Failed);
  }

  lemma ClientLeft(s: Side, a: Act)
    requires s.ended == None && ClientPc(s.pc) && ClientStep(s, a) != s
    requires s.pc.Dialing? ==> s.open.Some?
    ensures Left(ClientStep(s, a)) < Left(s)
  {
    ReleaseLeft(s, FailResult(Client, s));
    ReleaseLeft(s, OnFloor);
    ReleaseLeft(CloseRung(s), CommitUncertain);
    if s.pc.Dialing? {
      DialingLeft(s, a);
    }
  }

  lemma PendingLeft(s: Side, m: Message)
    requires s.ended == None && s.open == None && PcLeft(s) >= 8
    ensures Left(Pending(s, m)) < Left(s)
  {
    ReleaseLeft(s, HostDone);
  }

  lemma RequestLeft(s: Side, a: Act)
    requires s.ended == None && (s.pc.AwaitRequest? || s.pc.AckWait? || s.pc.Serving?) && HostStep(s, a) != s
    requires s.open.Some? <==> s.pc.Serving?
    requires s.pc.Serving? ==> s.io.Done?
    ensures Left(HostStep(s, a)) < Left(s)
  {
    ReleaseLeft(s, HostDone);
    ReleaseLeft(CloseRung(s), HostDone);
    if s.pc.AwaitRequest? && s.Reply().Some? {
      PendingLeft(s, s.Reply().value);
    }
  }

  lemma RungLeft(s: Side, a: Act)
    requires s.ended == None && (s.pc.Active? || s.pc.CommitAckWait? || s.pc.Committed?) && HostStep(s, a) != s
    ensures Left(HostStep(s, a)) < Left(s)
  {
    ReleaseLeft(CloseRung(s), HostDone);
  }

  lemma TearingLeft(s: Side, a: Act)
    requires s.ended == None && s.pc.Tearing? && HostStep(s, a) != s
    ensures Left(HostStep(s, a)) < Left(s)
  {
    var gone := RungGone(s, a.abandoned);
    ReleaseLeft(gone, HostDone);
    if s.pc.next.Some? {
      PendingLeft(gone, s.pc.next.value);
    }
  }

  /** A process step that changes anything brings its side closer to the end. */
  lemma StepLeft(role: Role, s: Side, a: Act)
    requires Local(role, s) && Step(role, s, a) != s
    ensures Left(Step(role, s, a)) < Left(s)
  {
    if s.pc.HelloWait? {
      HelloStart(role, s);
      HelloLeft(role, s, a);
    } else if PunchPc(s.pc) {
      PunchPcLeft(role, s, a);
    } else if role == Client {
      if s.pc.Dialing? {
        assert s.open.Some?;
      }
      ClientLeft(s, a);
    } else if s.pc.Tearing? {
      TearingLeft(s, a);
    } else if HoldsRung(s.pc) {
      RungLeft(s, a);
    } else {
      RequestLeft(s, a);
    }
  }

  lemma HelloStart(role: Role, s: Side)
    requires Local(role, s) && s.ended == None && s.pc.HelloWait?
    ensures s.attempt == 1
  {
  }

  // ---------------------------------------------------------------- exchange steps

  lemma PcAfterIo(s: Side, t: Side)
    requires t.pc == s.pc && t.plan == s.plan && t.attempt == s.attempt
    ensures PcLeft(t) <= PcLeft(s) + 7
    ensures !HostPc(s.pc) ==> PcLeft(t) == PcLeft(s)
    ensures !s.io.Receiving? ==> PcLeft(t) <= PcLeft(s)
  {
    if HostPc(s.pc) {
      HostPcAfterIo(s, t);
    }
  }

  lemma HostPcAfterIo(s: Side, t: Side)
    requires t.pc == s.pc && HostPc(s.pc)
    ensures PcLeft(t) <= PcLeft(s) + 7
    ensures !s.io.Receiving? ==> PcLeft(t) <= PcLeft(s)
  {
  }

  /** An exchange step that changes anything does too, except that a frame read by the host
      may set off another round of its service: that costs a frame in flight. */
  lemma SendLeft(s: Side, input: seq<Message>, output: seq<Message>, cut: bool)
    requires s.io.Sending?
    ensures var r := ExchangeStep(s, input, output, cut);
      && r.input == input && |output| <= |r.output| <= |output| + 1
      && (r.side == s ==> r.output == output) && (r.side != s ==> Left(r.side) < Left(s))
  {
    PcAfterIo(s, ExchangeStep(s, input, output, cut).side);
  }

  lemma ReceiveLeft(s: Side, input: seq<Message>, output: seq<Message>, cut: bool)
    requires s.io.Receiving? && input != []
    ensures var r := ExchangeStep(s, input, output, cut);
      && |r.input| == |input| - 1 && r.output == output
      && Left(r.side) < Left(s) + 30
      && (!HostPc(s.pc) ==> Left(r.side) < Left(s))
  {
    PcAfterIo(s, ExchangeStep(s, input, output, cut).side);
  }

  // ---------------------------------------------------------------- the session

  /** What is left of the whole session. A step of the client pays for the frame it may put
      on the stream, and a frame pays for the round of the host's service it may set off. */
  function Measure(x: System): nat {
    40 * Left(x.client) + 30 * |x.toHost| + Left(x.host)
  }

  lemma ClientExchangeLeft(x: System)
    requires Inv(x) && Next(x, Move(Client, Exchange)) != x
    ensures Measure(Next(x, Move(Client, Exchange))) < Measure(x)
  {
    if x.client.io.Sending? {
      SendLeft(x.client, x.toClient, x.toHost, x.toHostCut);
    } else if x.client.io.Receiving? && x.toClient != [] {
      ReceiveLeft(x.client, x.toClient, x.toHost, x.toHostCut);
      assert !HostPc(x.client.pc);
    }
  }

  lemma HostExchangeLeft(x: System)
    requires Inv(x) && Next(x, Move(Host, Exchange)) != x
    ensures Measure(Next(x, Move(Host, Exchange))) < Measure(x)
  {
    if x.host.io.Sending? {
      SendLeft(x.host, x.toHost, x.toClient, x.toClientCut);
    } else if x.host.io.Receiving? && x.toHost != [] {
      ReceiveLeft(x.host, x.toHost, x.toClient, x.toClientCut);
    }
  }

  /** Whether event e moves either side, or a frame. */
  predicate Moves(x: System, e: Event) {
    e.Move? && Next(x, e) != x
  }

  lemma ClientActLeft(x: System, a: Act)
    requires Local(Client, x.client) && !a.Exchange? && Next(x, Move(Client, a)) != x
    ensures Measure(Next(x, Move(Client, a))) < Measure(x)
  {
    var t := Step(Client, x.client, a);
    assert Next(x, Move(Client, a)) == x.(client := t);
    assert t != x.client;
    StepLeft(Client, x.client, a);
  }

  lemma HostActLeft(x: System, a: Act)
    requires Local(Host, x.host) && !a.Exchange? && Next(x, Move(Host, a)) != x
    ensures Measure(Next(x, Move(Host, a))) < Measure(x)
  {
    var t := Step(Host, x.host, a);
    assert Next(x, Move(Host, a)) == x.(host := t);
    assert t != x.host;
    StepLeft(Host, x.host, a);
  }

  lemma MoveLeft(x: System, e: Event)
    requires Inv(x) && Moves(x, e)
    ensures Measure(Next(x, e)) < Measure(x)
  {
    if e.role == Client {
      if e.act.Exchange? {
        ClientExchangeLeft(x);
      } else {
        ClientActLeft(x, e.act);
      }
    } else if e.act.Exchange? {
      HostExchangeLeft(x);
    } else {
      HostActLeft(x, e.act);
    }
  }

  /** A cut loses frames and adds none. */
  lemma CutLeft(x: System, sender: Role, keep: nat)
    ensures Measure(Next(x, Cut(sender, keep))) <= Measure(x)
  {
  }

  /** How many events of a run moved a side. */
  function Effective(client: Hello, host: Hello, events: seq<Event>): nat {
    if events == [] then 0
    else
      var front := events[..|events| - 1];
      Effective(client, host, front) + (if Moves(Run(client, host, front), events[|events| - 1]) then 1 else 0)
  }

  /** Termination: no run of a session, however long, holds more than a fixed number of
      events that move either side. */
  lemma {:induction false} EveryRunEnds(client: Hello, host: Hello, events: seq<Event>)
    ensures Effective(client, host, events) + Measure(Run(client, host, events)) <= Measure(Begin(client, host))
    ensures Effective(client, host, events) <= 330_000
  {
    if events != [] {
      var k := |events| - 1;
      EveryRunEnds(client, host, events[..k]);
      RunInv(client, host, events[..k]);
      var x, e := Run(client, host, events[..k]), events[k];
      if e.Cut? {
        CutLeft(x, e.sender, e.keep);
      } else if Next(x, e) != x {
        MoveLeft(x, e);
      }
    }
  }

  // ---------------------------------------------------------------- no side is ever stuck

  /** An act that moves a side wherever it stands: what it waits for from outside the stream,
      or the end of its patience. */
  function WayOn(s: Side): Act {
    match s.pc
    case Gather => Gathered(false, false, PunchInfo([], [], [], []))
    case Check => Connected(false)
    case Dialing(_) => Built(DidNotComeUp)
    case Serving(_) => Built(DidNotComeUp)
    case Active(_) => TierStopped
    case Committed(_) => TierStopped
    case Tearing(_, _) => TornDown(false)
    case _ => Timeout
  }

  lemma PunchMovesOn(role: Role, s: Side)
    requires s.ended == None && PunchPc(s.pc)
    ensures PunchStep(role, s, WayOn(s)) != s
  {
    var t := PunchStep(role, s, WayOn(s));
    if s.pc.Gather? {
      assert t.pc.InfoWait?;
    } else if s.pc.Check? {
      assert t.ended.Some? || t.pc.OutcomeWait?;
    } else {
      assert t.ended.Some?;
    }
  }

  lemma ClientMovesOn(s: Side)
    requires s.ended == None && ClientPc(s.pc)
    ensures ClientStep(s, WayOn(s)) != s
  {
    var t := ClientStep(s, WayOn(s));
    if s.pc.Dialing? {
      assert t.ended.Some? || t.pc.RequestWait? || t.pc.FloorWait?;
    } else {
      assert t.ended.Some?;
    }
  }

  lemma HostMovesOn(s: Side)
    requires s.ended == None && HostPc(s.pc)
    ensures HostStep(s, WayOn(s)) != s
  {
    var t := HostStep(s, WayOn(s));
    if s.pc.Serving? {
      assert t.pc.AwaitRequest?;
    } else if s.pc.Active? || s.pc.CommitAckWait? {
      assert t.pc.Tearing?;
    } else if s.pc.Tearing? {
      assert t.ended.Some? || t.pc.AckWait?;
    } else {
      assert t.ended.Some?;
    }
  }

  lemma WayOnMoves(x: System, role: Role)
    requires Inv(x) && SideOf(x, role).ended == None
    ensures var s := SideOf(x, role); Step(role, s, WayOn(s)) != s
  {
    var s := SideOf(x, role);
    if PunchPc(s.pc) {
      PunchMovesOn(role, s);
    } else if ClientPc(s.pc) {
      ClientMovesOn(s);
    } else if HostPc(s.pc) {
      HostMovesOn(s);
    }
  }

  /** In every reachable state each side that has not ended has an act that changes it. */
  lemma NeverStuck(client: Hello, host: Hello, events: seq<Event>, role: Role)
    requires SideOf(Run(client, host, events), role).ended == None
    ensures var s := SideOf(Run(client, host, events), role); Step(role, s, WayOn(s)) != s
  {
    RunInv(client, host, events);
    WayOnMoves(Run(client, host, events), role);
  }

  predicate BothEnded(x: System) {
    x.client.ended.Some? && x.host.ended.Some?
  }

  lemma MovesOn(client: Hello, host: Hello, events: seq<Event>, role: Role)
    requires SideOf(Run(client, host, events), role).ended == None
    ensures var x := Run(client, host, events);
      Measure(Next(x, Move(role, WayOn(SideOf(x, role))))) < Measure(x)
  {
    var x := Run(client, host, events);
    RunInv(client, host, events);
    NeverStuck(client, host, events, role);
    if role == Client {
      ClientActLeft(x, WayOn(x.client));
    } else {
      HostActLeft(x, WayOn(x.host));
    }
  }

  ghost predicate CanEnd(client: Hello, host: Hello, events: seq<Event>) {
    exists more :: BothEnded(Run(client, host, events + more))
  }

  lemma CanEndEarlier(client: Hello, host: Hello, events: seq<Event>, e: Event)
    requires CanEnd(client, host, events + [e])
    ensures CanEnd(client, host, events)
  {
    var more :| BothEnded(Run(client, host, events + [e] + more));
    var longer := [e] + more;
    Regroup(events, e, more);
    assert BothEnded(Run(client, host, events + longer));
  }

  lemma Regroup(events: seq<Event>, e: Event, more: seq<Event>)
    ensures events + ([e] + more) == events + [e] + more
  {
  }

  lemma OneMore(client: Hello, host: Hello, events: seq<Event>, e: Event)
    ensures Run(client, host, events + [e]) == Next(Run(client, host, events), e)
  {
    assert (events + [e])[..|events + [e]| - 1] == events;
  }

  /** So every run, wherever it stands, can be brought to an end on both sides; with
      EveryRunEnds, a run that is never held up for good does end. */
  lemma {:induction false} AlwaysFinishes(client: Hello, host: Hello, events: seq<Event>)
    ensures CanEnd(client, host, events)
    decreases Measure(Run(client, host, events))
  {
    var x := Run(client, host, events);
    if BothEnded(x) {
      assert events + [] == events;
      assert BothEnded(Run(client, host, events + []));
    } else {
      var role := if x.client.ended == None then Client else Host;
      var e := Move(role, WayOn(SideOf(x, role)));
      MovesOn(client, host, events, role);
      OneMore(client, host, events, e);
      AlwaysFinishes(client, host, events + [e]);
      CanEndEarlier(client, host, events, e);
    }
  }

  // ---------------------------------------------------------------- nobody needs a timeout

  /** Acts that break a wait off: a deadline, the tier's end, a rung that dies. */
  predicate BreaksOff(a: Act) {
    a.Timeout? || a.TierStopped? || a.RungDied?
  }

  /** Waiting on the stream, rather than on the punch, a rung being built or a teardown. */
  predicate Waits(pc: Pc) {
    !pc.Gather? && !pc.Check? && !pc.Dialing? && !pc.Serving? && !pc.Tearing? && !pc.Committed?
  }

  /** What moves a side on without breaking anything off. */
  function PatientAct(s: Side): (a: Act)
    requires !s.pc.Committed?
    ensures !BreaksOff(a)
  {
    if !Waits(s.pc) then WayOn(s) else if s.io.Done? then Resume else Exchange
  }

  lemma ReplyOfKind(role: Role, s: Side)
    requires Local(role, s) && s.ended == None && (s.pc.HelloWait? || PunchPc(s.pc)) && Waits(s.pc) && s.io.Done?
    ensures s.Reply().Some?
    ensures s.Reply().value.Kind() ==
      if s.pc.HelloWait? then HelloKind else if s.pc.InfoWait? then PunchInfoKind else OutcomeKind
  {
    assert Placed(TrackOf(s));
    assert s.Reply() == Some(s.got[|s.got| - 1]);
    assert s.got[|s.got| - 1].Kind() == KindAt(s.base, |s.got| - 1);
  }

  lemma ActiveReply(s: Side)
    requires Local(Host, s) && s.ended == None && s.pc.Active? && s.io.Done?
    ensures s.Reply().Some? && s.Reply().value.AttemptMsg?
  {
    assert Placed(TrackOf(s));
    assert s.got[|s.got| - 1].Kind() == KindAt(s.base, |s.got| - 1);
  }

  lemma PunchResumes(role: Role, s: Side)
    requires Local(role, s) && s.ended == None && (s.pc.HelloWait? || PunchPc(s.pc)) && Waits(s.pc) && s.io.Done?
    ensures Step(role, s, Resume) != s
  {
    ReplyOfKind(role, s);
    var t := Step(role, s, Resume);
    assert t.ended.Some? || t.pc != s.pc;
  }

  lemma ClientResumes(s: Side)
    requires Local(Client, s) && s.ended == None && ClientPc(s.pc) && Waits(s.pc) && s.io.Done?
    ensures ClientStep(s, Resume) != s
  {
    assert Placed(TrackOf(s));
    var t := ClientStep(s, Resume);
    assert t.ended.Some? || t.pc != s.pc;
  }

  lemma HostResumes(s: Side)
    requires Local(Host, s) && s.ended == None && HostPc(s.pc) && Waits(s.pc) && s.io.Done?
    ensures HostStep(s, Resume) != s
  {
    if s.pc.Active? {
      ActiveReply(s);
    } else {
      assert Placed(TrackOf(s));
    }
    var t := HostStep(s, Resume);
    assert t.ended.Some? || t.pc != s.pc;
  }

  /** A waiting side whose exchange has completed goes on with what it produced. */
  lemma ResumeMoves(role: Role, s: Side)
    requires Local(role, s) && s.ended == None && Waits(s.pc) && s.io.Done?
    ensures Step(role, s, Resume) != s
  {
    if s.pc.HelloWait? || PunchPc(s.pc) {
      PunchResumes(role, s);
    } else if role == Client {
      ClientResumes(s);
    } else {
      HostResumes(s);
    }
  }

  /** The exchange of a side can go on: its frame is one the encoder agrees to send, or
      there is a frame to read. */
  ghost predicate CanExchange(s: Side, input: seq<Message>) {
    (s.io.Sending? && Sendable(s.io.out)) || (s.io.Receiving? && input != [])
  }

  function InputOf(x: System, role: Role): seq<Message> {
    if role == Client then x.toClient else x.toHost
  }

  lemma ExchangeMoves(x: System, role: Role)
    requires CanExchange(SideOf(x, role), InputOf(x, role))
    ensures Next(x, Move(role, Exchange)) != x
  {
    assert SideOf(Next(x, Move(role, Exchange)), role).io != SideOf(x, role).io;
  }

  lemma ActMoves(x: System, role: Role, a: Act)
    requires Step(role, SideOf(x, role), a) != SideOf(x, role) && !a.Exchange?
    ensures Next(x, Move(role, a)) != x
  {
    assert SideOf(Next(x, Move(role, a)), role) == Step(role, SideOf(x, role), a);
  }

  lemma PatientMoves(x: System, role: Role)
    requires Inv(x) && SideOf(x, role).ended == None && !SideOf(x, role).pc.Committed?
    requires Waits(SideOf(x, role).pc) && !SideOf(x, role).io.Done? ==> CanExchange(SideOf(x, role), InputOf(x, role))
    ensures Next(x, Move(role, PatientAct(SideOf(x, role)))) != x
  {
    var s := SideOf(x, role);
    if !Waits(s.pc) {
      WayOnMoves(x, role);
      ActMoves(x, role, WayOn(s));
    } else if s.io.Done? {
      ResumeMoves(role, s);
      ActMoves(x, role, Resume);
    } else {
      ExchangeMoves(x, role);
    }
  }

  /** A side that waits for a frame. */
  predicate Reads(s: Side) {
    s.ended == None && Waits(s.pc) && s.io.Receiving?
  }

  lemma ClientReads(s: Side)
    requires Local(Client, s) && Reads(s)
    ensures |s.sent| == |s.got| + 1
  {
    assert Placed(TrackOf(s));
  }

  lemma HostReads(s: Side)
    requires Local(Host, s) && Reads(s)
    ensures |s.got| <= |s.sent|
  {
    assert Placed(TrackOf(s));
  }

  /** Over streams that lost nothing the two sides never both wait for a frame. */
  lemma SomeoneHasAFrame(x: System)
    requires Inv(x) && Reads(x.client) && Reads(x.host) && !x.toHostCut && !x.toClientCut
    ensures x.toClient != [] || x.toHost != []
  {
    ClientReads(x.client);
    HostReads(x.host);
  }

  lemma CommittedRead(s: Side)
    requires Local(Host, s) && s.ended == None && s.pc.Committed?
    ensures |s.sent| == |s.got| > 0 && IsCommit(s.got[|s.got| - 1])
  {
    assert Placed(TrackOf(s));
  }

  /** The frame before the one a client waits for an answer to is never a commit. */
  lemma CommitIsLast(s: Side)
    requires Local(Client, s) && Reads(s)
    ensures |s.sent| == |s.got| + 1
    ensures |s.got| > 0 ==> !IsCommit(s.sent[|s.got| - 1])
  {
    ClientReads(s);
    assert Placed(TrackOf(s));
  }

  /** So if the other side's last frame read was a commit, it has sent more than that client
      has decoded. */
  lemma CommittedAhead(c: Side, h: Side)
    requires Paired(c, h) && |c.sent| == |c.got| + 1 && |h.sent| == |h.got| > 0
    requires IsCommit(h.got[|h.got| - 1]) && (|c.got| > 0 ==> !IsCommit(c.sent[|c.got| - 1]))
    ensures |c.got| < |h.sent|
  {
    assert h.got[|h.got| - 1] == c.sent[|h.got| - 1];
  }

  /** The frame a client waits for is never one that a committed host has yet to send. */
  lemma CommittedSaysSo(x: System)
    requires Inv(x) && Reads(x.client) && !x.toClientCut && x.host.ended == None && x.host.pc.Committed?
    ensures x.toClient != []
  {
    CommitIsLast(x.client);
    CommittedRead(x.host);
    InvPaired(x);
    CommittedAhead(x.client, x.host);
  }

  /** Deadlock freedom: over streams that are not cut, as long as neither side has ended and
      what they are sending is something the encoder sends, some act that breaks nothing off
      changes the session. */
  lemma NoDeadlock(client: Hello, host: Hello, events: seq<Event>)
    requires var x := Run(client, host, events);
      && x.client.ended == None && x.host.ended == None && !x.toHostCut && !x.toClientCut
      && (x.client.io.Sending? ==> Sendable(x.client.io.out)) && (x.host.io.Sending? ==> Sendable(x.host.io.out))
    ensures var x := Run(client, host, events);
      exists role: Role, act: Act :: !BreaksOff(act) && Next(x, Move(role, act)) != x
  {
    var x := Run(client, host, events);
    RunInv(client, host, events);
    if !Reads(x.client) || x.toClient != [] {
      PatientMoves(x, Client);
    } else {
      if x.host.pc.Committed? {
        CommittedSaysSo(x);
      }
      if Reads(x.host) {
        SomeoneHasAFrame(x);
      }
      PatientMoves(x, Host);
    }
  }
}
