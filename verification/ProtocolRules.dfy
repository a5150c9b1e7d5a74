/** What each side of a session may do: which rungs a host serves, what a client may return,
    when either side connects, what may be put on a stream, and what an abandonment ends. */
module ProtocolRules {
  import opened Bytes
  import opened Messages
  import Codec
  import opened Cascade
  import opened Exchange
  import opened Protocol
  import I = ProtocolInvariant
  import opened ProtocolClimb
  import opened ProtocolRuns

  // ---------------------------------------------------------------- what each side keeps

  /** An upper tier of the plan. */
  predicate InPlan(plan: Plan, t: Tier) {
    plan.Climb? && t != LIBP2P && t in plan.cascade
  }

  /** A client asks for the rungs of its plan and for the floor, and commits only rungs. */
  predicate MayAsk(plan: Plan, m: Message) {
    m.AttemptMsg? ==> m == AttemptMsg(LIBP2P, false) || InPlan(plan, m.tier)
  }

  ghost predicate Asks(s: Side) {
    && (forall n | 0 <= n < |s.sent| :: MayAsk(s.plan, s.sent[n]))
    && (s.io.Sending? ==> MayAsk(s.plan, s.io.out))
    && (forall t | t in s.ups :: InPlan(s.plan, t))
  }

  /** A client falls back only if no tier is pinned, and fails only if one is, or if it has no
      plan. */
  predicate Returns(s: Side) {
    var pinned := s.plan.Climb? && s.plan.required;
    && (s.pc.FloorWait? ==> !pinned)
    && (s.ended == Some(OnFloor) ==> !pinned && s.plan != Refused)
    && (s.ended == Some(Failed) ==> pinned || s.plan == Refused)
    && (s.ended.Some? && s.ended.value.OnTier? ==> InPlan(s.plan, s.ended.value.tier))
  }

  function Serves(pc: Pc): Option<Tier> {
    match pc
    case AckWait(t) => Some(t)
    case Serving(t) => Some(t)
    case Active(t) => Some(t)
    case Tearing(t, _) => Some(t)
    case CommitAckWait(t) => Some(t)
    case Committed(t) => Some(t)
    case _ => None
  }

  ghost predicate Asked(got: seq<Message>, t: Tier) {
    t != LIBP2P && AttemptMsg(t, false) in got
  }

  /** A host builds only rungs it was asked for, and never the floor. */
  ghost predicate Answers(s: Side) {
    && (Serves(s.pc).Some? ==> Asked(s.got, Serves(s.pc).value))
    && (forall t | t in s.ups :: Asked(s.got, t))
  }

  /** Whoever connects has the peer's credentials of this very attempt, complete. */
  ghost predicate Connects(s: Side) {
    var n := 2 * s.attempt as int - 1;
    s.pc.Check? ==> 0 <= n < |s.got| && s.got[n].PunchInfoMsg? && s.got[n].info.Usable()
  }

  ghost predicate Keeps(role: Role, s: Side) {
    Connects(s) && AllSendable(s.sent) && if role == Client then Asks(s) && Returns(s) else Answers(s)
  }

  // ---------------------------------------------------------------- each step keeps it

  lemma RungInPlan(plan: Plan, i: nat)
    requires RungAt(plan, i) != LIBP2P
    ensures InPlan(plan, RungAt(plan, i))
  {
  }

  lemma NextRungAsks(s: Side, i: nat)
    requires Asks(s) && s.plan.Climb?
    ensures Asks(NextRung(s, i)) && Asks(GiveUp(s))
  {
    if RungAt(s.plan, i) != LIBP2P {
      RungInPlan(s.plan, i);
    }
  }

  lemma LandedAsks(s: Side)
    requires Asks(s)
    ensures Asks(PunchLanded(Client, s)) && Asks(PunchMissed(Client, s))
  {
    if s.plan.Climb? {
      NextRungAsks(s.(verdict := Some(true), base := |s.sent|), 0);
    }
  }

  lemma ReturnedAsks(s: Side, ok: bool)
    requires Asks(s)
    ensures Asks(AfterOnce(Client, s, ok)) && Asks(AfterOutcome(Client, s, ok))
  {
    LandedAsks(s);
    LandedAsks(s.Release());
  }

  lemma PunchAsks(s: Side, a: Act)
    requires Asks(s)
    ensures Asks(PunchStep(Client, s, a))
  {
    match s.pc
    case InfoWait(_) => ReturnedAsks(s.Release(), false);
    case Check => if a.Connected? { ReturnedAsks(if a.ok then s else s.Release(), a.ok); }
    case OutcomeWait(landed) =>
      if a.Resume? && s.Reply().Some? && s.Reply().value.OutcomeMsg? {
        ReturnedAsks(s, landed && s.Reply().value.ok);
      }
    case _ =>
  }

  lemma DialingAsks(s: Side, a: Act)
    requires Asks(s) && Climbs(s) && s.ended == None && s.pc.Dialing?
    ensures Asks(ClientStep(s, a))
  {
    NextRungAsks(CloseRung(s), s.pc.rung + 1);
    NextRungAsks(CloseRung(s).(abandoned := true), 0);
    assert TriedAt(s.plan, s.sent, s.base, s.pc.rung);
    assert InPlan(s.plan, RungAt(s.plan, s.pc.rung));
  }

  lemma ClientAsks(s: Side, a: Act)
    requires Asks(s) && Climbs(s) && s.ended == None && I.ClientPc(s.pc)
    ensures Asks(ClientStep(s, a))
  {
    if s.pc.Dialing? {
      DialingAsks(s, a);
    }
  }

  lemma NextRungReturns(s: Side, i: nat)
    requires s.ended == None && s.plan.Climb? && !s.pc.FloorWait?
    ensures Returns(NextRung(s, i)) && Returns(GiveUp(s))
  {
  }

  lemma LandedReturns(s: Side)
    requires s.ended == None && (s.plan.Climb? || s.plan.Probe?) && I.PunchPc(s.pc)
    ensures Returns(PunchLanded(Client, s)) && Returns(PunchMissed(Client, s))
  {
    if s.plan.Climb? {
      NextRungReturns(s.(verdict := Some(true), base := |s.sent|), 0);
    }
  }

  lemma ReturnedReturns(s: Side, ok: bool)
    requires s.ended == None && (s.plan.Climb? || s.plan.Probe?) && I.PunchPc(s.pc)
    ensures Returns(AfterOnce(Client, s, ok)) && Returns(AfterOutcome(Client, s, ok))
  {
    LandedReturns(s);
    LandedReturns(s.Release());
  }

  lemma PunchReturns(s: Side, a: Act)
    requires s.ended == None && (s.plan.Climb? || s.plan.Probe?) && I.PunchPc(s.pc)
    ensures Returns(PunchStep(Client, s, a))
  {
    match s.pc
    case InfoWait(_) => ReturnedReturns(s.Release(), false);
    case Check => if a.Connected? { ReturnedReturns(if a.ok then s else s.Release(), a.ok); }
    case OutcomeWait(landed) =>
      if a.Resume? && s.Reply().Some? && s.Reply().value.OutcomeMsg? {
        ReturnedReturns(s, landed && s.Reply().value.ok);
      }
    case _ =>
  }

  lemma ClientReturns(s: Side, a: Act)
    requires Returns(s) && Climbs(s) && s.ended == None && I.ClientPc(s.pc) && s.plan.Climb?
    ensures Returns(ClientStep(s, a))
  {
    if s.pc.Dialing? && a.Built? {
      NextRungReturns(CloseRung(s), s.pc.rung + 1);
      NextRungReturns(CloseRung(s).(abandoned := true), 0);
    } else if s.pc.CommitWait? {
      assert TriedAt(s.plan, s.sent, s.base, s.pc.rung);
    assert InPlan(s.plan, RungAt(s.plan, s.pc.rung));
    }
  }

  lemma ClientStepKeeps(s: Side, a: Act)
    requires I.Local(Client, s) && Climbs(s) && Asks(s) && Returns(s)
    ensures Asks(Step(Client, s, a)) && Returns(Step(Client, s, a))
  {
    if s.ended.Some? || s.pc.HelloWait? {
    } else if I.PunchPc(s.pc) {
      PunchAsks(s, a);
      PunchReturns(s, a);
    } else {
      ClientAsks(s, a);
      ClientReturns(s, a);
    }
  }

  lemma PendingAnswers(s: Side, m: Message)
    requires Answers(s) && m in s.got && s.ended == None
    ensures Answers(Pending(s, m))
  {
  }

  /** What the host is about to act on is a frame it decoded. */
  lemma InHand(s: Side)
    requires I.Local(Host, s) && s.ended == None
    ensures s.pc.AwaitRequest? && s.Reply().Some? ==> s.Reply().value in s.got
    ensures s.pc.Tearing? && s.pc.next.Some? ==> s.pc.next.value in s.got
  {
    if s.pc.AwaitRequest? || s.pc.Tearing? {
      assert I.Placed(I.TrackOf(s));
    }
  }

  lemma RequestAnswers(s: Side, a: Act)
    requires Answers(s) && s.ended == None && s.pc.AwaitRequest? && (s.Reply().Some? ==> s.Reply().value in s.got)
    ensures Answers(HostStep(s, a))
  {
    if a.Resume? && s.Reply().Some? {
      PendingAnswers(s, s.Reply().value);
    }
  }

  lemma TearingAnswers(s: Side, a: Act)
    requires Answers(s) && s.ended == None && s.pc.Tearing? && (s.pc.next.Some? ==> s.pc.next.value in s.got)
    ensures Answers(HostStep(s, a))
  {
    if a.TornDown? && s.pc.next.Some? {
      PendingAnswers(RungGone(s, a.abandoned), s.pc.next.value);
    }
  }

  lemma RungAnswers(s: Side, a: Act)
    requires Answers(s) && s.ended == None && I.HostPc(s.pc) && !s.pc.AwaitRequest? && !s.pc.Tearing?
    ensures Answers(HostStep(s, a))
  {
  }

  lemma HostStepAnswers(s: Side, a: Act)
    requires I.Local(Host, s) && Answers(s) && s.ended == None && I.HostPc(s.pc)
    ensures Answers(HostStep(s, a))
  {
    InHand(s);
    match s.pc
    case AwaitRequest => RequestAnswers(s, a);
    case Tearing(_, _) => TearingAnswers(s, a);
    case _ => RungAnswers(s, a);
  }

  lemma HostPunchAnswers(s: Side, a: Act)
    requires Answers(s) && I.PunchPc(s.pc)
    ensures Answers(PunchStep(Host, s, a))
  {
  }

  lemma HostStepKeeps(s: Side, a: Act)
    requires I.Local(Host, s) && Answers(s)
    ensures Answers(Step(Host, s, a))
  {
    if s.ended.Some? || s.pc.HelloWait? {
    } else if I.PunchPc(s.pc) {
      HostPunchAnswers(s, a);
    } else {
      HostStepAnswers(s, a);
    }
  }

  lemma StepConnects(role: Role, s: Side, a: Act)
    requires I.Local(role, s) && Connects(s)
    ensures Connects(Step(role, s, a))
  {
    if s.ended.Some? || s.pc.HelloWait? {
    } else if I.PunchPc(s.pc) {
      PunchConnects(role, s, a);
    } else {
      PastPunch(role, s, a);
    }
  }

  /** A reply to the swap of credentials is that of this attempt. */
  lemma InfoIsLatest(role: Role, s: Side)
    requires I.Local(role, s) && s.ended == None && s.pc.InfoWait? && s.Reply().Some?
    ensures var n := 2 * s.attempt as int - 1; 0 <= n < |s.got| && s.got[n] == s.Reply().value
  {
    assert I.Placed(I.TrackOf(s));
  }

  lemma InfoConnects(role: Role, s: Side, a: Act)
    requires s.ended == None && s.pc.InfoWait?
    requires s.Reply().Some? ==>
      var n := 2 * s.attempt as int - 1; 0 <= n < |s.got| && s.got[n] == s.Reply().value
    ensures Connects(PunchStep(role, s, a))
  {
  }

  lemma PunchConnects(role: Role, s: Side, a: Act)
    requires I.Local(role, s) && Connects(s) && s.ended == None && I.PunchPc(s.pc)
    ensures Connects(PunchStep(role, s, a))
  {
    if s.pc.InfoWait? {
      if s.Reply().Some? {
        InfoIsLatest(role, s);
      }
      InfoConnects(role, s, a);
    }
  }

  lemma PastPunch(role: Role, s: Side, a: Act)
    requires s.ended == None && !s.pc.HelloWait? && !I.PunchPc(s.pc)
    ensures !Step(role, s, a).pc.Check?
  {
  }

  lemma StepKeeps(role: Role, s: Side, a: Act)
    requires I.Local(role, s) && Keeps(role, s) && (role == Client ==> Climbs(s))
    ensures Keeps(role, Step(role, s, a))
  {
    StepConnects(role, s, a);
    StepExtends(role, s, a);
    if role == Client {
      ClientStepKeeps(s, a);
    } else {
      HostStepKeeps(s, a);
    }
  }

  lemma ExchangeGot(s: Side, input: seq<Message>, output: seq<Message>, cut: bool)
    requires Connects(s)
    ensures var t := ExchangeStep(s, input, output, cut).side;
      Connects(t) && s.got <= t.got && forall m | m in s.got :: m in t.got
  {
    var t := ExchangeStep(s, input, output, cut).side;
    assert forall n | 0 <= n < |s.got| :: t.got[n] == s.got[n];
  }

  lemma ExchangeAsks(s: Side, input: seq<Message>, output: seq<Message>, cut: bool)
    requires Asks(s) && Returns(s)
    ensures var t := ExchangeStep(s, input, output, cut).side; Asks(t) && Returns(t)
  {
  }

  lemma ExchangeKeeps(role: Role, s: Side, input: seq<Message>, output: seq<Message>, cut: bool)
    requires Keeps(role, s)
    ensures Keeps(role, ExchangeStep(s, input, output, cut).side)
  {
    var t := ExchangeStep(s, input, output, cut).side;
    ExchangeGot(s, input, output, cut);
    assert AllSendable(t.sent);
    if role == Client {
      ExchangeAsks(s, input, output, cut);
    } else {
      assert t.ups == s.ups && t.pc == s.pc;
    }
  }

  lemma ClientMoveKeeps(x: System, a: Act)
    requires I.Local(Client, x.client) && Climbs(x.client) && Keeps(Client, x.client)
    ensures Keeps(Client, Next(x, Move(Client, a)).client)
  {
    if a.Exchange? {
      ExchangeKeeps(Client, x.client, x.toClient, x.toHost, x.toHostCut);
    } else {
      StepKeeps(Client, x.client, a);
      assert Next(x, Move(Client, a)).client == Step(Client, x.client, a);
    }
  }

  lemma HostMoveKeeps(x: System, a: Act)
    requires I.Local(Host, x.host) && Keeps(Host, x.host)
    ensures Keeps(Host, Next(x, Move(Host, a)).host)
  {
    if a.Exchange? {
      ExchangeKeeps(Host, x.host, x.toHost, x.toClient, x.toClientCut);
    } else {
      StepKeeps(Host, x.host, a);
      assert Next(x, Move(Host, a)).host == Step(Host, x.host, a);
    }
  }

  lemma Elsewhere(x: System, e: Event, role: Role)
    requires e.Cut? || e.role != role
    ensures SideOf(Next(x, e), role) == SideOf(x, role)
  {
  }

  lemma {:induction false} RunKeeps(client: Hello, host: Hello, events: seq<Event>, role: Role)
    ensures Keeps(role, SideOf(Run(client, host, events), role))
  {
    if events != [] {
      var k := |events| - 1;
      var x, e := Run(client, host, events[..k]), events[k];
      assert Keeps(role, SideOf(x, role)) by { RunKeeps(client, host, events[..k], role); }
      assert I.Local(role, SideOf(x, role)) by { RunInv(client, host, events[..k]); }
      assert Climbs(x.client) by { RunClimbs(client, host, events[..k]); }
      if e.Cut? || e.role != role {
        Elsewhere(x, e, role);
      } else if role == Client {
        ClientMoveKeeps(x, e.act);
      } else {
        HostMoveKeeps(x, e.act);
      }
    }
  }

  // ---------------------------------------------------------------- main results

  /** A host builds only the rungs of the cascade the two sides agreed on, never the floor, and
      only such rungs ever come up on either side. */
  lemma OnlyAgreedRungs(client: Hello, host: Hello, events: seq<Event>, t: Tier)
    requires var x := Run(client, host, events);
      t in x.client.ups || t in x.host.ups || Serves(x.host.pc) == Some(t)
    ensures InPlan(PlanOf(client, host), t)
  {
    var x := Run(client, host, events);
    RunInv(client, host, events);
    RunKeeps(client, host, events, Client);
    RunKeeps(client, host, events, Host);
    if t !in x.client.ups {
      assert Asked(x.host.got, t);
      GotWasSent(x.host.got, x.toHost, x.client.sent, AttemptMsg(t, false));
      var n :| 0 <= n < |x.client.sent| && x.client.sent[n] == AttemptMsg(t, false);
      assert MayAsk(x.client.plan, x.client.sent[n]);
    }
    PlanSettled(client, host, events, Client);
  }

  /** What a client returns: the floor only if neither side pinned a tier, a plain failure only
      if one did or the two never agreed on a plan, and success only on an agreed rung. */
  lemma ReturnsByPolicy(client: Hello, host: Hello, events: seq<Event>)
    ensures var s := Run(client, host, events).client;
      && (s.ended == Some(OnFloor) ==> Unpinned(client, host))
      && (s.ended == Some(Failed) ==> !Unpinned(client, host) || s.plan == Refused)
      && (s.ended.Some? && s.ended.value.OnTier? ==> InPlan(PlanOf(client, host), s.ended.value.tier))
  {
    RunKeeps(client, host, events, Client);
    PlanExactly(client, host);
    if Run(client, host, events).client.plan != Refused {
      PlanSettled(client, host, events, Client);
    }
  }

  lemma PeerSent(x: System, role: Role, n: nat)
    requires Inv(x) && n < |SideOf(x, role).got|
    ensures n < |SideOf(x, Other(role)).sent| && SideOf(x, role).got[n] == SideOf(x, Other(role)).sent[n]
  {
    InvPaired(x);
  }

  /** A side connects only with credentials its peer sent in this attempt, all of them there. */
  lemma ConnectsToThePeer(client: Hello, host: Hello, events: seq<Event>, role: Role)
    requires SideOf(Run(client, host, events), role).pc.Check?
    ensures var s, peer := SideOf(Run(client, host, events), role), SideOf(Run(client, host, events), Other(role));
      var n := 2 * s.attempt as int - 1;
      0 <= n < |s.got| && n < |peer.sent| && s.got[n] == peer.sent[n]
      && s.got[n].PunchInfoMsg? && s.got[n].info.Usable()
  {
    var x := Run(client, host, events);
    assert Connects(SideOf(x, role)) by { RunKeeps(client, host, events, role); }
    RunInv(client, host, events);
    PeerSent(x, role, 2 * SideOf(x, role).attempt as int - 1);
  }

  function Other(role: Role): Role {
    if role == Client then Host else Client
  }

  /** The kinds a lockstep reader of the first n frames expects, one after the other. */
  function Expected(base: nat, n: nat): seq<Kind> {
    seq(n, k requires 0 <= k < n => I.KindAt(base, k))
  }

  lemma SentAsExpected(role: Role, s: Side)
    requires I.Local(role, s)
    ensures Kinds(s.sent) == Expected(s.base, |s.sent|)
  {
    assert I.Kinds(s.sent, s.base);
  }

  /** The streams as octets: what a side has sent is a concatenation of frames that decodes,
      read as the kinds a lockstep reader expects, to exactly the messages it sent, whatever
      follows. */
  lemma StreamsDecode(client: Hello, host: Hello, events: seq<Event>, role: Role, tail: Octets)
    ensures var s := SideOf(Run(client, host, events), role);
      && AllSendable(s.sent)
      && DecodeFrames(Expected(s.base, |s.sent|), Frames(s.sent) + tail) == Codec.Got(s.sent, tail)
  {
    var s := SideOf(Run(client, host, events), role);
    assert AllSendable(s.sent) by { RunKeeps(client, host, events, role); }
    assert Kinds(s.sent) == Expected(s.base, |s.sent|) by {
      RunInv(client, host, events);
      SentAsExpected(role, s);
    }
    FramesInverse(s.sent, tail);
  }

  // ---------------------------------------------------------------- abandonment

  /** The event tells a side that the rung it is building or holds took the substrate along. */
  predicate Abandons(s: Side, a: Act) {
    && s.ended == None && s.open.Some?
    && match a
       case Built(SubstrateAbandoned) => s.pc.Dialing? || s.pc.Serving?
       case RungDied(true) => s.pc.Active? || s.pc.CommitAckWait? || s.pc.Committed?
       case TornDown(true) => s.pc.Tearing?
       case _ => false
  }

  lemma ClientAbandons(s: Side, a: Act)
    requires s.ended == None && s.open.Some? && a == Built(SubstrateAbandoned) && s.pc.Dialing?
    ensures var t := ClientStep(s, a); t.abandoned && t.open == None && t.starts == s.starts
  {
  }

  lemma HostAbandons(s: Side, a: Act)
    requires Abandons(s, a) && I.HostPc(s.pc)
    ensures var t := HostStep(s, a); t.abandoned && t.open == None && t.starts == s.starts
  {
  }

  lemma StepAbandons(role: Role, s: Side, a: Act)
    requires I.Local(role, s) && Abandons(s, a)
    ensures var t := Step(role, s, a); t.abandoned && t.open == None && t.starts == s.starts
  {
    if role == Client {
      ClientAbandons(s, a);
    } else {
      HostAbandons(s, a);
    }
  }

  lemma AbandonedHasNone(role: Role, s: Side)
    requires I.Local(role, s) && s.abandoned
    ensures s.open == None
  {
  }

  /** From the moment a side is told so it has no rung, and it starts none ever again. */
  lemma AbandonmentIsFinal(client: Hello, host: Hello, before: seq<Event>, role: Role, a: Act, after: seq<Event>)
    requires Abandons(SideOf(Run(client, host, before), role), a)
    ensures var s := SideOf(Run(client, host, before), role);
            var t := SideOf(Run(client, host, before + [Move(role, a)] + after), role);
      t.open == None && t.starts == s.starts
  {
    var events := before + [Move(role, a)];
    var s := SideOf(Run(client, host, before), role);
    assert events[..|events| - 1] == before;
    assert SideOf(Run(client, host, events), role) == Step(role, s, a);
    assert I.Local(role, s) by { RunInv(client, host, before); }
    StepAbandons(role, s, a);
    NoRungAfterAbandonment(client, host, events, after, role);
    var t := SideOf(Run(client, host, events + after), role);
    assert I.Local(role, t) by { RunInv(client, host, events + after); }
    AbandonedHasNone(role, t);
  }

  /** A rung that dies under the host is gone at once, and so is one that did not come up. */
  lemma DeadRungIsGone(s: Side, a: Act)
    requires s.ended == None
    requires
      || (a.RungDied? && (s.pc.Active? || s.pc.CommitAckWait? || s.pc.Committed?))
      || (a == Built(DidNotComeUp) && s.pc.Serving?)
    ensures HostStep(s, a).open == None && HostStep(s, a).ended == None
  {
  }

  /** A stream that breaks delivers what was in flight up to any point, and nothing sent after
      it: which point is the network's choice, and neither side notices by itself. */
  lemma CutKeepsAFront(x: System, sender: Role, keep: nat)
    requires keep <= |InFlight(x, sender)|
    ensures var y := Next(x, Cut(sender, keep));
      && InFlight(y, sender) == InFlight(x, sender)[..keep] && InFlight(y, Other(sender)) == InFlight(x, Other(sender))
      && y.client == x.client && y.host == x.host
      && InFlight(Next(y, Move(sender, Exchange)), sender) == InFlight(y, sender)
  {
  }

  /** The frames on their way from a side. */
  function InFlight(x: System, sender: Role): seq<Message> {
    if sender == Client then x.toHost else x.toClient
  }
}
