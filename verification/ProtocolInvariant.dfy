/** The inductive invariant of the two-party session: what each side's program counter
    says about the frames it has sent and decoded, and how the two histories relate. */
module ProtocolInvariant {
  import opened Bytes
  import opened Messages
  import opened Cascade
  import opened Exchange
  import opened Protocol

  // ---------------------------------------------------------------- one side

  /** The kind of the n-th frame in either direction, given where the attempts begin. */
  function KindAt(base: nat, n: nat): Kind {
    if n == 0 then HelloKind
    else if base != 0 && n >= base then AttemptKind
    else if n % 2 == 1 then PunchInfoKind
    else OutcomeKind
  }

  ghost predicate Kinds(frames: seq<Message>, base: nat) {
    forall n | 0 <= n < |frames| :: frames[n].Kind() == KindAt(base, n)
  }

  /** The part of a side that says where it is in the exchange of frames. */
  datatype Track = Track(pc: Pc, io: Io, sent: seq<Message>, got: seq<Message>, attempt: Byte, base: nat, req: nat,
                         plan: Plan, hello: Hello)

  function TrackOf(s: Side): Track {
    Track(s.pc, s.io, s.sent, s.got, s.attempt, s.base, s.req, s.plan, s.hello)
  }

  /** A program counter agrees with the frames sent and decoded so far. */
  ghost predicate Placed(t: Track) {
    PunchPosition(t) && ClientPosition(t) && HostPosition(t)
  }

  /** A swap whose own frame is number n and whose reply is read as kind k. */
  ghost predicate SwapAt(s: Track, n: nat, k: Kind) {
    match s.io
    case Sending(m, reply) => m.Kind() == k && reply == Some(k) && |s.sent| == |s.got| == n
    case Receiving(k') => k' == k && |s.sent| == n + 1 && |s.got| == n
    case Done(r) => |s.sent| == |s.got| == n + 1 && r == Some(s.got[n])
  }

  /** Frame number n, sent or about to be sent, is m. */
  ghost predicate OutIs(s: Track, n: nat, m: Message) {
    if s.io.Sending? then s.io.out == m else n < |s.sent| && s.sent[n] == m
  }

  ghost predicate SentIs(s: Track, n: nat, m: Message) {
    n < |s.sent| && s.sent[n] == m
  }

  ghost predicate GotIs(s: Track, n: nat, m: Message) {
    n < |s.got| && s.got[n] == m
  }

  ghost predicate Quiet(s: Track, n: nat) {
    s.io.Done? && |s.sent| == |s.got| == n
  }

  ghost predicate PunchPosition(s: Track) {
    var r := s.attempt as int;
    match s.pc
    case HelloWait => SwapAt(s, 0, HelloKind) && OutIs(s, 0, HelloMsg(s.hello)) && r == 1
    case Gather => r >= 1 && Quiet(s, 2 * r - 1)
    case InfoWait(_) => r >= 1 && SwapAt(s, 2 * r - 1, PunchInfoKind)
    case Check => r >= 1 && Quiet(s, 2 * r)
    case OutcomeWait(landed) =>
      r >= 1 && SwapAt(s, 2 * r, OutcomeKind) && OutIs(s, 2 * r, OutcomeMsg(landed)) && Attempts(s.plan) >= 2
    case _ => true
  }

  ghost predicate ClientPosition(s: Track) {
    match s.pc
    case RequestWait(i) =>
      && SwapAt(s, s.base + i, AttemptKind) && OutIs(s, s.base + i, AttemptMsg(RungAt(s.plan, i), false))
    case Dialing(i) =>
      && Quiet(s, s.base + i + 1) && SentIs(s, s.base + i, AttemptMsg(RungAt(s.plan, i), false))
    case CommitWait(i) =>
      && SwapAt(s, s.base + i + 1, AttemptKind) && SentIs(s, s.base + i, AttemptMsg(RungAt(s.plan, i), false))
      && OutIs(s, s.base + i + 1, AttemptMsg(RungAt(s.plan, i), true))
    case FloorWait =>
      && |s.got| >= s.base
      && if s.io.Sending? then s.io == Sending(AttemptMsg(LIBP2P, false), None) && |s.sent| == |s.got|
         else s.io.Done? && |s.sent| == |s.got| + 1 && SentIs(s, |s.got|, AttemptMsg(LIBP2P, false))
    case _ => true
  }

  ghost predicate AwaitingCommit(s: Track) {
    var n := s.req;
    && |s.sent| == n + 1
    && if s.io.Receiving? then s.io.kind == AttemptKind && |s.got| == n + 1
       else |s.got| == n + 2 && s.io == Done(Some(s.got[n + 1]))
  }

  ghost predicate AckingCommit(s: Track, t: Tier) {
    var n := s.req;
    && |s.got| == n + 2 && GotIs(s, n + 1, AttemptMsg(t, true))
    && if s.io.Sending? then s.io == Sending(AttemptMsg(t, true), None) && |s.sent| == n + 1
       else s.io.Done? && |s.sent| == n + 2 && SentIs(s, n + 1, AttemptMsg(t, true))
  }

  ghost predicate Acked(s: Track, t: Tier) {
    SentIs(s, s.req, AttemptMsg(t, false)) && GotIs(s, s.req, AttemptMsg(t, false)) && s.req >= s.base
  }

  ghost predicate HostPosition(s: Track) {
    var n := s.req;
    match s.pc
    case AwaitRequest =>
      && |s.sent| >= s.base
      && if s.io.Receiving? then s.io.kind == AttemptKind && |s.got| == |s.sent|
         else |s.got| == |s.sent| + 1 && s.io == Done(Some(s.got[|s.sent|]))
    case AckWait(t) =>
      && n >= s.base && |s.got| == n + 1 && GotIs(s, n, AttemptMsg(t, false))
      && if s.io.Sending? then s.io == Sending(AttemptMsg(t, false), None) && |s.sent| == n
         else s.io.Done? && |s.sent| == n + 1 && SentIs(s, n, AttemptMsg(t, false))
    case Serving(t) => Acked(s, t) && Quiet(s, n + 1)
    case Active(t) => Acked(s, t) && AwaitingCommit(s)
    case Tearing(t, next) =>
      && Acked(s, t)
      && (next.Some? ==> |s.sent| == n + 1 && |s.got| == n + 2 && s.io.Done? && GotIs(s, n + 1, next.value)
                         && next.value.AttemptMsg? && !next.value.commit)
      && (next == None ==> AwaitingCommit(s) || AckingCommit(s, t))
    case CommitAckWait(t) => Acked(s, t) && AckingCommit(s, t)
    case Committed(t) => Acked(s, t) && AckingCommit(s, t) && s.io.Done?
    case _ => true
  }

  predicate PunchPc(pc: Pc) {
    pc.Gather? || pc.InfoWait? || pc.Check? || pc.OutcomeWait?
  }

  predicate ClientPc(pc: Pc) {
    pc.RequestWait? || pc.Dialing? || pc.CommitWait? || pc.FloorWait?
  }

  predicate HostPc(pc: Pc) {
    pc.AwaitRequest? || pc.AckWait? || pc.Serving? || pc.Active? || pc.Tearing? || pc.CommitAckWait? || pc.Committed?
  }

  /** A side that ended with no exchange in flight and no rung: nothing moves it again. */
  predicate Settled(s: Side) {
    s.ended.Some? && !s.ended.value.OnTier? && s.io.Done?
  }

  ghost predicate Position(role: Role, s: Side) {
    && (Settled(s) || Placed(TrackOf(s)))
    && (ClientPc(s.pc) ==> role == Client)
    && (HostPc(s.pc) ==> role == Host)
    && (ClientPc(s.pc) || HostPc(s.pc) ==> s.verdict == Some(true) && s.plan.Climb?)
    && (PunchPc(s.pc) ==> s.plan.Climb? || s.plan.Probe?)
    && (PunchPc(s.pc) && !Settled(s) ==> s.verdict == None)
    && (s.pc.HelloWait? ==> s.verdict == None && (s.ended == None ==> s.plan == Refused))
  }

  /** Round q was swapped and both sides reported a substrate. */
  ghost predicate Agreed(sent: seq<Message>, got: seq<Message>, q: nat) {
    && 2 * q < |sent| && 2 * q < |got|
    && sent[2 * q] == OutcomeMsg(true) && got[2 * q] == OutcomeMsg(true)
  }

  /** Round q was swapped and some side reported that its punch missed. */
  ghost predicate Missed(sent: seq<Message>, got: seq<Message>, q: nat) {
    2 * q < |sent| && 2 * q < |got| && !Agreed(sent, got, q)
  }

  /** Every round before round r missed. */
  ghost predicate MissedBefore(sent: seq<Message>, got: seq<Message>, r: nat) {
    forall q | 1 <= q < r :: Missed(sent, got, q)
  }

  ghost predicate Rounds(s: Side) {
    var r, total := s.attempt as int, Attempts(s.plan);
    && 1 <= r <= total <= 255
    && MissedBefore(s.sent, s.got, r)
    && (s.verdict == Some(true) ==>
          && s.base == (if total == 1 then 2 else 2 * r + 1)
          && |s.sent| >= s.base && |s.got| >= s.base
          && (total >= 2 ==> Agreed(s.sent, s.got, r)))
    && (s.verdict != Some(true) ==>
          && s.base == 0 && |s.got| <= |s.sent| <= |s.got| + 1 && |s.sent| <= 2 * r + 1
          && (total == 1 ==> |s.sent| <= 2))
    && (s.verdict == Some(false) ==>
          && s.ended.Some? && r == total && s.io.Done?
          && (total >= 2 ==> |s.sent| == |s.got| == 2 * r + 1 && !Agreed(s.sent, s.got, r)))
  }

  /** The plan is the one the two Hellos determine. */
  ghost predicate Planned(s: Side) {
    && (s.sent != [] ==> s.sent[0] == HelloMsg(s.hello))
    && (s.plan == Refused || s.plan == FloorOnly ==> |s.sent| <= 1)
    && (s.plan != Refused ==> |s.got| > 0 && s.got[0].HelloMsg? && s.plan == PlanOf(s.hello, s.got[0].hello))
  }

  /** The part of the invariant that does not mention the program counter. */
  ghost predicate Core(s: Side) {
    Kinds(s.sent, s.base) && Kinds(s.got, s.base) && Rounds(s) && Planned(s)
  }

  ghost predicate Balanced(s: Side) {
    s.agents.created == s.agents.closed + (if s.agents.held then 1 else 0)
  }

  ghost predicate AgentsOk(s: Side) {
    var held := s.agents.held;
    && Balanced(s)
    && (s.ended.Some? ==> (held <==> s.ended.value.OnTier?))
    && (s.ended == None ==>
          match s.pc
          case HelloWait => !held
          case Gather => !held
          case InfoWait(gathered) => gathered ==> held
          case OutcomeWait(landed) => landed <==> held
          case _ => held)
  }

  /** The tier of the rung this program counter is building or holding, if any. */
  function RungOf(s: Side): Option<Tier> {
    match s.pc
    case Dialing(i) => Some(RungAt(s.plan, i))
    case CommitWait(i) => Some(RungAt(s.plan, i))
    case Serving(t) => Some(t)
    case Active(t) => Some(t)
    case Tearing(t, _) => Some(t)
    case CommitAckWait(t) => Some(t)
    case Committed(t) => Some(t)
    case _ => None
  }

  ghost predicate RungsOk(role: Role, s: Side) {
    && (s.ended.Some? ==> (role == Host <==> s.ended == Some(HostDone)))
    && (s.ended.Some? && s.ended.value.OnTier? ==>
          && s.pc.CommitWait? && RungOf(s) == Some(s.ended.value.tier)
          && s.io == Done(Some(AttemptMsg(s.ended.value.tier, true))) && s.open.Some?)
    && (s.open.Some? ==> s.open == RungOf(s) && (s.ended == None || s.ended == Some(OnTier(s.open.value))))
    && (s.ended == None && (s.pc.Dialing? || s.pc.CommitWait? || s.pc.Serving?) ==> s.open.Some?)
    && (s.abandoned ==>
          && s.open == None && (s.ended.Some? ==> !s.ended.value.OnTier?)
          && (s.ended == None ==>
                s.pc.FloorWait? || s.pc.Active? || s.pc.Tearing? || s.pc.CommitAckWait? || s.pc.Committed?))
  }

  predicate IsCommit(m: Message) {
    m.AttemptMsg? && m.commit
  }

  /** Who may ever have put a Commit on the stream, and what it proves about its sender. */
  ghost predicate CommitsOk(role: Role, s: Side) {
    && (forall n | 0 <= n < |s.sent| && IsCommit(s.sent[n]) ::
          s.sent[n].tier in s.ups && (role == Client ==> s.pc.CommitWait? && RungOf(s) == Some(s.sent[n].tier)))
    && (s.io.Sending? && IsCommit(s.io.out) ==> s.io.out.tier in s.ups && (role == Client ==> s.pc.CommitWait?))
    && (s.pc.CommitWait? || s.pc.Active? || s.pc.Tearing? || s.pc.CommitAckWait? || s.pc.Committed? ==>
          RungOf(s).value in s.ups)
    && (s.pc.CommitAckWait? || s.pc.Committed? ==> AttemptMsg(s.pc.tier, true) in s.got)
    && (s.pc.CommitWait? && s.ended.Some? ==> s.ended.value.OnTier? || s.ended.value.CommitUncertain?)
    && (s.ended == Some(CommitUncertain) ==> s.pc.CommitWait?)
  }

  ghost predicate Local(role: Role, s: Side) {
    Core(s) && Position(role, s) && AgentsOk(s) && RungsOk(role, s) && CommitsOk(role, s)
  }

  lemma InitialLocal(role: Role, h: Hello)
    ensures Local(role, Initial(h))
  {
  }

  lemma PlanBounds(a: Hello, b: Hello)
    ensures 1 <= Attempts(PlanOf(a, b)) <= 255
    ensures PlanOf(a, b).Climb? ==> |PlanOf(a, b).cascade| > 0 && PlanOf(a, b).cascade[0] != LIBP2P
  {
    AttemptsBounds(a.attempts, b.attempts);
  }

  // ---------------------------------------------------------------- process steps keep it

  /** Moving on, while the punch has not failed, leaves the core as it is. */
  lemma SameCore(s: Side, s': Side)
    requires Core(s) && s.verdict != Some(false)
    requires s'.sent == s.sent && s'.got == s.got && s'.base == s.base && s'.attempt == s.attempt
    requires s'.plan == s.plan && s'.hello == s.hello && s'.verdict == s.verdict
    ensures Core(s')
  {
  }

  /** A side between rungs: the punch landed, no exchange is in flight, nothing is on the
      substrate and no commit was ever sent. */
  ghost predicate Between(s: Side) {
    && Core(s) && s.ended == None && s.verdict == Some(true) && s.plan.Climb? && s.io.Done?
    && Balanced(s) && s.agents.held && s.open == None
    && |s.sent| == |s.got|
    && (forall n | 0 <= n < |s.sent| :: !IsCommit(s.sent[n]))
    && (s.pc.Dialing? || s.pc.InfoWait? || s.pc.Check? || s.pc.OutcomeWait?)
  }

  lemma FloorLocal(s: Side)
    requires Between(s)
    ensures Local(Client, s.Start(FloorWait, AttemptMsg(LIBP2P, false), None))
  {
    SameCore(s, s.Start(FloorWait, AttemptMsg(LIBP2P, false), None));
  }

  lemma RequiredFailsLocal(s: Side)
    requires Between(s)
    ensures Local(Client, s.Release().EndWith(Failed))
  {
    SameCore(s, s.Release().EndWith(Failed));
  }

  lemma GiveUpLocal(s: Side)
    requires Between(s)
    ensures Local(Client, GiveUp(s))
  {
    FloorLocal(s);
    RequiredFailsLocal(s);
  }

  lemma NextRungLocal(s: Side, i: nat)
    requires Between(s) && |s.sent| == s.base + i && !s.abandoned
    ensures Local(Client, NextRung(s, i))
  {
    if RungAt(s.plan, i) == LIBP2P {
      GiveUpLocal(s);
    }
  }

  lemma ReleasedCore(s: Side, r: Result)
    requires Core(s) && s.ended == None
    ensures Core(s.Release().EndWith(r))
  {
  }

  /** Ending in place: whatever exchange is in flight stays in flight. */
  lemma ReleasedPosition(role: Role, s: Side, r: Result)
    requires Position(role, s) && s.ended == None && !r.OnTier?
    ensures Position(role, s.Release().EndWith(r))
  {
    assert TrackOf(s.Release().EndWith(r)) == TrackOf(s);
  }

  lemma ReleasedLocal(role: Role, s: Side, r: Result)
    requires Local(role, s) && s.ended == None && s.open == None
    requires !r.OnTier? && (role == Host <==> r.HostDone?) && (r.CommitUncertain? <==> s.pc.CommitWait?)
    ensures Local(role, s.Release().EndWith(r))
  {
    ReleasedCore(s, r);
    ReleasedPosition(role, s, r);
  }

  lemma AfterHelloLocal(role: Role, s: Side, peer: Hello)
    requires Local(role, s) && s.ended == None && s.pc.HelloWait? && s.Reply() == Some(HelloMsg(peer))
    ensures Local(role, AfterHello(role, s, peer))
  {
    PlanBounds(s.hello, peer);
  }

  lemma HelloStepLocal(role: Role, s: Side, a: Act)
    requires Local(role, s) && s.ended == None && s.pc.HelloWait?
    ensures Local(role, HelloStep(role, s, a))
  {
    if a.Timeout? {
      ReleasedLocal(role, s, if role == Host then HostDone else Failed);
    } else if a.Resume? && s.Reply().Some? && s.Reply().value.HelloMsg? {
      AfterHelloLocal(role, s, s.Reply().value.hello);
    }
  }

  /** A side whose punch pass just returned, landed telling how. */
  ghost predicate Returned(s: Side, landed: bool) {
    && Core(s) && s.ended == None && s.verdict == None && (s.plan.Climb? || s.plan.Probe?) && s.io.Done?
    && Balanced(s) && (s.agents.held <==> landed) && s.open == None && !s.abandoned
    && (forall n | 0 <= n < |s.sent| :: !IsCommit(s.sent[n]))
    && (s.plan.Climb? ==> RungAt(s.plan, 0) != LIBP2P)
    && (s.pc.InfoWait? || s.pc.Check? || s.pc.OutcomeWait?)
  }

  lemma PunchLandedLocal(role: Role, s: Side)
    requires Returned(s, true) && |s.sent| == |s.got|
    requires if Attempts(s.plan) == 1 then |s.sent| == 2
             else |s.sent| == 2 * s.attempt as int + 1 && Agreed(s.sent, s.got, s.attempt as int)
    ensures Local(role, PunchLanded(role, s))
  {
    var s' := s.(verdict := Some(true), base := |s.sent|);
    if s.plan.Climb? && role == Client {
      NextRungLocal(s', 0);
    }
  }

  lemma AfterOnceLocal(role: Role, s: Side, landed: bool)
    requires Returned(s, landed) && |s.sent| == |s.got| == 2 * s.attempt as int
    ensures Local(role, AfterOnce(role, s, landed))
  {
    if Attempts(s.plan) == 1 && landed {
      PunchLandedLocal(role, s);
    }
  }

  lemma NextAttemptLocal(role: Role, s: Side)
    requires Returned(s, false) && |s.sent| == |s.got| == 2 * s.attempt as int + 1
    requires s.attempt as int < Attempts(s.plan) && Missed(s.sent, s.got, s.attempt as int)
    ensures Local(role, s.(pc := Gather, attempt := (s.attempt as int + 1) % 256))
  {
  }

  lemma AfterOutcomeLocal(role: Role, s: Side, agreed: bool)
    requires Returned(s, s.agents.held) && |s.sent| == |s.got| == 2 * s.attempt as int + 1
    requires Attempts(s.plan) >= 2 && (agreed ==> s.agents.held)
    requires agreed <==> Agreed(s.sent, s.got, s.attempt as int)
    ensures Local(role, AfterOutcome(role, s, agreed))
  {
    if agreed {
      PunchLandedLocal(role, s);
    } else if s.attempt as int < Attempts(s.plan) {
      NextAttemptLocal(role, s.Release());
    } else {
      LastAttemptLocal(role, s.Release());
    }
  }

  lemma LastAttemptLocal(role: Role, s: Side)
    requires Returned(s, false) && |s.sent| == |s.got| == 2 * s.attempt as int + 1
    requires s.attempt as int == Attempts(s.plan) >= 2 && Missed(s.sent, s.got, s.attempt as int)
    ensures Local(role, PunchMissed(role, s))
  {
  }

  lemma GatherLocal(role: Role, s: Side, a: Act)
    requires Local(role, s) && s.ended == None && s.pc.Gather?
    ensures Local(role, PunchStep(role, s, a))
  {
  }

  /** A probe or a session that is punching has a cascade with an upper head, or none. */
  lemma ReturnedFrom(role: Role, s: Side, landed: bool)
    requires Local(role, s) && s.ended == None && s.io.Done? && (s.agents.held <==> landed)
    requires s.pc.InfoWait? || s.pc.Check? || s.pc.OutcomeWait?
    ensures Returned(s, landed)
  {
    if s.plan.Climb? {
      PlanBounds(s.hello, s.got[0].hello);
    }
  }

  lemma InfoWaitLocal(role: Role, s: Side, a: Act)
    requires Local(role, s) && s.ended == None && s.pc.InfoWait? && a.Resume?
    ensures Local(role, PunchStep(role, s, a))
  {
    if s.Reply().Some? && s.Reply().value.PunchInfoMsg? && !(s.pc.gathered && s.Reply().value.info.Usable()) {
      ReturnedFrom(role, s, s.agents.held);
      AfterOnceLocal(role, s.Release(), false);
    }
  }

  lemma CheckLocal(role: Role, s: Side, a: Act)
    requires Local(role, s) && s.ended == None && s.pc.Check?
    ensures Local(role, PunchStep(role, s, a))
  {
    if a.Connected? {
      ReturnedFrom(role, s, true);
      AfterOnceLocal(role, if a.ok then s else s.Release(), a.ok);
    }
  }

  lemma OutcomeWaitLocal(role: Role, s: Side, a: Act)
    requires Local(role, s) && s.ended == None && s.pc.OutcomeWait? && a.Resume?
    ensures Local(role, PunchStep(role, s, a))
  {
    if s.Reply().Some? && s.Reply().value.OutcomeMsg? {
      ReturnedFrom(role, s, s.agents.held);
      AfterOutcomeLocal(role, s, s.pc.landed && s.Reply().value.ok);
    }
  }

  lemma PunchStepLocal(role: Role, s: Side, a: Act)
    requires Local(role, s) && s.ended == None && PunchPc(s.pc)
    ensures Local(role, PunchStep(role, s, a))
  {
    if s.pc.Gather? {
      GatherLocal(role, s, a);
    } else if a.Timeout? && !s.pc.Check? {
      ReleasedLocal(role, s, FailResult(role, s));
    } else if s.pc.Check? {
      CheckLocal(role, s, a);
    } else if a.Resume? && s.pc.InfoWait? {
      InfoWaitLocal(role, s, a);
    } else if a.Resume? {
      OutcomeWaitLocal(role, s, a);
    }
  }

  lemma RequestWaitLocal(s: Side, a: Act)
    requires Local(Client, s) && s.ended == None && s.pc.RequestWait?
    ensures Local(Client, ClientStep(s, a))
  {
    if a.Timeout? || s.Reply() != Some(AttemptMsg(RungAt(s.plan, s.pc.rung), false)) {
      ReleasedLocal(Client, s, FailResult(Client, s));
    } else {
      AckedLocal(s);
    }
  }

  /** The host echoed the request, so the client starts to dial the rung. */
  lemma AckedLocal(s: Side)
    requires Local(Client, s) && s.ended == None && s.pc.RequestWait?
    requires s.Reply() == Some(AttemptMsg(RungAt(s.plan, s.pc.rung), false))
    ensures Local(Client, ClientStep(s, Resume))
  {
    SameCore(s, ClientStep(s, Resume));
  }

  lemma DialedLocal(s: Side)
    requires Local(Client, s) && s.ended == None && s.pc.Dialing?
    ensures Local(Client, ClientStep(s, Built(CameUp)))
  {
    var t, tier := ClientStep(s, Built(CameUp)), RungAt(s.plan, s.pc.rung);
    SameCore(s, t);
    CommittingPlaced(TrackOf(s), s.pc.rung);
    assert TrackOf(t) ==
      TrackOf(s).(pc := CommitWait(s.pc.rung), io := Sending(AttemptMsg(tier, true), Some(AttemptKind)));
  }

  lemma CommittingPlaced(t: Track, i: nat)
    requires ClientPosition(t) && t.pc == Dialing(i)
    ensures Placed(t.(pc := CommitWait(i), io := Sending(AttemptMsg(RungAt(t.plan, i), true), Some(AttemptKind))))
  {
  }

  /** A failed dial leaves the client between rungs, whether or not it lost its substrate. */
  lemma DialedBetween(s: Side)
    requires Local(Client, s) && s.ended == None && s.pc.Dialing?
    ensures Between(CloseRung(s)) && Between(CloseRung(s).(abandoned := true))
    ensures |s.sent| == s.base + s.pc.rung + 1 && !s.abandoned
  {
    SameCore(s, CloseRung(s));
    SameCore(s, CloseRung(s).(abandoned := true));
  }

  lemma DialDownLocal(s: Side)
    requires Local(Client, s) && s.ended == None && s.pc.Dialing?
    ensures Local(Client, NextRung(CloseRung(s), s.pc.rung + 1))
  {
    var down := CloseRung(s);
    assert Between(down) && |down.sent| == down.base + s.pc.rung + 1 && !down.abandoned by { DialedBetween(s); }
    NextRungLocal(down, s.pc.rung + 1);
  }

  lemma DialAbandonedLocal(s: Side)
    requires Local(Client, s) && s.ended == None && s.pc.Dialing?
    ensures Local(Client, GiveUp(CloseRung(s).(abandoned := true)))
  {
    var down := CloseRung(s).(abandoned := true);
    assert Between(down) by { DialedBetween(s); }
    GiveUpLocal(down);
  }

  lemma DialStep(s: Side, a: Act)
    requires s.pc.Dialing? && a.Built?
    ensures a.outcome.DidNotComeUp? ==> ClientStep(s, a) == NextRung(CloseRung(s), s.pc.rung + 1)
    ensures a.outcome.SubstrateAbandoned? ==> ClientStep(s, a) == GiveUp(CloseRung(s).(abandoned := true))
  {
  }

  lemma DialingLocal(s: Side, a: Act)
    requires Local(Client, s) && s.ended == None && s.pc.Dialing?
    ensures Local(Client, ClientStep(s, a))
  {
    if a == Built(CameUp) {
      DialedLocal(s);
    } else if a.Built? {
      DialStep(s, a);
      if a.outcome.DidNotComeUp? {
        DialDownLocal(s);
      } else {
        DialAbandonedLocal(s);
      }
    } else {
      assert ClientStep(s, a) == s;
    }
  }

  lemma CommitLostLocal(s: Side)
    requires Local(Client, s) && s.ended == None && s.pc.CommitWait?
    ensures Local(Client, CloseRung(s).Release().EndWith(CommitUncertain))
  {
    ReleasedCore(CloseRung(s), CommitUncertain);
    ReleasedPosition(Client, CloseRung(s), CommitUncertain);
  }

  lemma CommitAckedLocal(s: Side)
    requires Local(Client, s) && s.ended == None && s.pc.CommitWait?
    requires s.Reply() == Some(AttemptMsg(RungAt(s.plan, s.pc.rung), true))
    ensures Local(Client, s.EndWith(OnTier(RungAt(s.plan, s.pc.rung))))
  {
    assert TrackOf(s.EndWith(OnTier(RungAt(s.plan, s.pc.rung)))) == TrackOf(s);
  }

  lemma CommitWaitLocal(s: Side, a: Act)
    requires Local(Client, s) && s.ended == None && s.pc.CommitWait?
    ensures Local(Client, ClientStep(s, a))
  {
    if a.Resume? && s.Reply() == Some(AttemptMsg(RungAt(s.plan, s.pc.rung), true)) {
      CommitAckedLocal(s);
    } else {
      CommitLostLocal(s);
    }
  }

  lemma ClientStepLocal(s: Side, a: Act)
    requires Local(Client, s) && s.ended == None && ClientPc(s.pc)
    ensures Local(Client, ClientStep(s, a))
  {
    match s.pc
    case RequestWait(i) => RequestWaitLocal(s, a);
    case Dialing(i) => DialingLocal(s, a);
    case CommitWait(i) => CommitWaitLocal(s, a);
    case FloorWait => ReleasedLocal(Client, s, OnFloor);
  }

  /** A request in hand with no rung on the substrate: it ends the handler or is acked. */
  lemma PendingLocal(s: Side, m: Message)
    requires Local(Host, s) && s.ended == None && s.open == None && !s.abandoned
    requires if s.pc.Tearing? then s.pc.next == Some(m) else s.pc.AwaitRequest? && s.Reply() == Some(m)
    ensures Local(Host, Pending(s, m))
  {
    if !m.AttemptMsg? || m.tier == LIBP2P || m.commit {
      ReleasedLocal(Host, s, HostDone);
    }
  }

  lemma AwaitRequestLocal(s: Side, a: Act)
    requires Local(Host, s) && s.ended == None && s.pc.AwaitRequest?
    ensures Local(Host, HostStep(s, a))
  {
    if a.Timeout? {
      assert HostStep(s, a) == s.Release().EndWith(HostDone);
      ReleasedLocal(Host, s, HostDone);
    } else if a.Resume? && s.Reply().Some? {
      assert HostStep(s, a) == Pending(s, s.Reply().value);
      PendingLocal(s, s.Reply().value);
    } else {
      assert HostStep(s, a) == s;
    }
  }

  lemma AckWaitLocal(s: Side, a: Act)
    requires Local(Host, s) && s.ended == None && s.pc.AckWait?
    ensures Local(Host, HostStep(s, a))
  {
    if a.Timeout? {
      ReleasedLocal(Host, s, HostDone);
    }
  }

  lemma ServedLocal(s: Side)
    requires Local(Host, s) && s.ended == None && s.pc.Serving?
    ensures Local(Host, HostStep(s, Built(CameUp)))
  {
  }

  lemma NotServedLocal(s: Side)
    requires Local(Host, s) && s.ended == None && s.pc.Serving?
    ensures Local(Host, HostStep(s, Built(DidNotComeUp)))
  {
  }

  lemma AbandonedLocal(s: Side)
    requires Local(Host, s) && s.ended == None && s.pc.Serving?
    ensures Local(Host, HostStep(s, Built(SubstrateAbandoned)))
  {
    ReleasedCore(s, HostDone);
  }

  lemma ServingLocal(s: Side, a: Act)
    requires Local(Host, s) && s.ended == None && s.pc.Serving?
    ensures Local(Host, HostStep(s, a))
  {
    if a == Built(CameUp) {
      ServedLocal(s);
    } else if a == Built(DidNotComeUp) {
      NotServedLocal(s);
    } else if a.Built? {
      AbandonedLocal(s);
    }
  }

  predicate HoldsRung(pc: Pc) {
    pc.Active? || pc.Tearing? || pc.CommitAckWait? || pc.Committed?
  }

  lemma RungGoneLocal(s: Side, abandoned: bool)
    requires Local(Host, s) && s.ended == None && HoldsRung(s.pc)
    ensures Local(Host, RungGone(s, abandoned))
  {
    assert TrackOf(RungGone(s, abandoned)) == TrackOf(s);
  }

  /** serveRung gives up on its rung: the teardown starts with the read still in flight. */
  lemma ToTearingLocal(s: Side)
    requires Local(Host, s) && s.ended == None && (s.pc.Active? || s.pc.CommitAckWait?)
    ensures Local(Host, s.(pc := Tearing(s.pc.tier, None)))
  {
    var s' := s.(pc := Tearing(s.pc.tier, None));
    SameCore(s, s');
    TearingPlaced(TrackOf(s));
    assert TrackOf(s') == TrackOf(s).(pc := Tearing(s.pc.tier, None));
  }

  lemma TearingPlaced(t: Track)
    requires HostPosition(t) && (t.pc.Active? || t.pc.CommitAckWait?)
    ensures Placed(t.(pc := Tearing(t.pc.tier, None)))
  {
  }

  /** Another request instead of a commit: the rung goes, the request is kept. */
  lemma ReplacedLocal(s: Side, m: Message)
    requires Local(Host, s) && s.ended == None && s.pc.Active? && s.Reply() == Some(m) && m.AttemptMsg? && !m.commit
    ensures Local(Host, s.(pc := Tearing(s.pc.tier, Some(m))))
  {
    var s' := s.(pc := Tearing(s.pc.tier, Some(m)));
    SameCore(s, s');
    assert HostPosition(TrackOf(s'));
  }

  lemma CommitSeenLocal(s: Side, m: Message)
    requires Local(Host, s) && s.ended == None && s.pc.Active?
    requires s.Reply() == Some(m) && m == AttemptMsg(s.pc.tier, true)
    ensures Local(Host, s.Start(CommitAckWait(m.tier), AttemptMsg(m.tier, true), None))
  {
    var s' := s.Start(CommitAckWait(m.tier), AttemptMsg(m.tier, true), None);
    SameCore(s, s');
    AckingPlaced(TrackOf(s), m.tier);
    assert TrackOf(s') == TrackOf(s).(pc := CommitAckWait(m.tier), io := Sending(AttemptMsg(m.tier, true), None));
  }

  lemma AckingPlaced(t: Track, tier: Tier)
    requires HostPosition(t) && t.pc == Active(tier) && t.io == Done(Some(AttemptMsg(tier, true)))
    ensures Placed(t.(pc := CommitAckWait(tier), io := Sending(AttemptMsg(tier, true), None)))
  {
  }

  lemma ActiveReadLocal(s: Side, m: Message)
    requires Local(Host, s) && s.ended == None && s.pc.Active? && s.Reply() == Some(m)
    ensures Local(Host, HostStep(s, Resume))
  {
    if !m.AttemptMsg? {
      assert HostStep(s, Resume) == s;
    } else if !m.commit {
      assert HostStep(s, Resume) == s.(pc := Tearing(s.pc.tier, Some(m)));
      ReplacedLocal(s, m);
    } else if m.tier == s.pc.tier {
      assert HostStep(s, Resume) == s.Start(CommitAckWait(m.tier), AttemptMsg(m.tier, true), None);
      CommitSeenLocal(s, m);
    } else {
      assert HostStep(s, Resume) == s.(pc := Tearing(s.pc.tier, None));
      ToTearingLocal(s);
    }
  }

  lemma ActiveLocal(s: Side, a: Act)
    requires Local(Host, s) && s.ended == None && s.pc.Active?
    ensures Local(Host, HostStep(s, a))
  {
    if a.RungDied? {
      assert HostStep(s, a) == RungGone(s, a.abandoned);
      RungGoneLocal(s, a.abandoned);
    } else if a.TierStopped? {
      assert HostStep(s, a) == s.(pc := Tearing(s.pc.tier, None));
      ToTearingLocal(s);
    } else if a.Resume? && s.Reply().Some? {
      ActiveReadLocal(s, s.Reply().value);
    } else {
      assert HostStep(s, a) == s;
    }
  }

  lemma TearingLocal(s: Side, a: Act)
    requires Local(Host, s) && s.ended == None && s.pc.Tearing?
    ensures Local(Host, HostStep(s, a))
  {
    if a.TornDown? {
      RungGoneLocal(s, a.abandoned);
      var gone := RungGone(s, a.abandoned);
      ReleasedLocal(Host, gone, HostDone);
      if s.pc.next.Some? && !gone.abandoned {
        PendingLocal(gone, s.pc.next.value);
      }
    }
  }

  /** The acknowledgement is out: the rung is committed. */
  lemma AckSentLocal(s: Side)
    requires Local(Host, s) && s.ended == None && s.pc.CommitAckWait? && s.io.Done?
    ensures Local(Host, s.(pc := Committed(s.pc.tier)))
  {
    SameCore(s, s.(pc := Committed(s.pc.tier)));
  }

  lemma CommitAckWaitLocal(s: Side, a: Act)
    requires Local(Host, s) && s.ended == None && s.pc.CommitAckWait?
    ensures Local(Host, HostStep(s, a))
  {
    if a.RungDied? {
      assert HostStep(s, a) == RungGone(s, a.abandoned);
      RungGoneLocal(s, a.abandoned);
    } else if a.Timeout? {
      assert HostStep(s, a) == s.(pc := Tearing(s.pc.tier, None));
      ToTearingLocal(s);
    } else if a.Resume? && s.io.Done? {
      assert HostStep(s, a) == s.(pc := Committed(s.pc.tier));
      AckSentLocal(s);
    } else {
      assert HostStep(s, a) == s;
    }
  }

  lemma CommittedLocal(s: Side, a: Act)
    requires Local(Host, s) && s.ended == None && s.pc.Committed?
    ensures Local(Host, HostStep(s, a))
  {
    if a.RungDied? {
      RungGoneLocal(s, a.abandoned);
    } else if a.TierStopped? {
      RungGoneLocal(s, false);
      ReleasedLocal(Host, RungGone(s, false), HostDone);
    }
  }

  lemma HostStepLocal(s: Side, a: Act)
    requires Local(Host, s) && s.ended == None && HostPc(s.pc)
    ensures Local(Host, HostStep(s, a))
  {
    match s.pc
    case AwaitRequest => AwaitRequestLocal(s, a);
    case AckWait(t) => AckWaitLocal(s, a);
    case Serving(t) => ServingLocal(s, a);
    case Active(t) => ActiveLocal(s, a);
    case Tearing(t, next) => TearingLocal(s, a);
    case CommitAckWait(t) => CommitAckWaitLocal(s, a);
    case Committed(t) => CommittedLocal(s, a);
  }

  lemma StepLocal(role: Role, s: Side, a: Act)
    requires Local(role, s)
    ensures Local(role, Step(role, s, a))
  {
    if s.ended.Some? {
    } else if s.pc.HelloWait? {
      HelloStepLocal(role, s, a);
    } else if PunchPc(s.pc) {
      PunchStepLocal(role, s, a);
    } else if role == Client {
      ClientStepLocal(s, a);
    } else {
      HostStepLocal(s, a);
    }
  }

  // ---------------------------------------------------------------- exchange steps keep it

  lemma KindsAppend(frames: seq<Message>, base: nat, m: Message)
    requires Kinds(frames, base) && m.Kind() == KindAt(base, |frames|)
    ensures Kinds(frames + [m], base)
  {
  }

  /** Rounds already decided stay decided as the histories grow. */
  lemma RoundsGrow(sent: seq<Message>, got: seq<Message>, sent': seq<Message>, got': seq<Message>, r: nat)
    requires sent <= sent' && got <= got'
    ensures MissedBefore(sent, got, r) ==> MissedBefore(sent', got', r)
    ensures Agreed(sent, got, r) ==> Agreed(sent', got', r)
  {
    if MissedBefore(sent, got, r) {
      forall q | 1 <= q < r ensures Missed(sent', got', q) {
        assert Missed(sent, got, q);
        assert sent'[2 * q] == sent[2 * q] && got'[2 * q] == got[2 * q];
      }
    }
  }

  function SentNext(s: Side): Side
    requires s.io.Sending?
  {
    s.(io := if s.io.reply.Some? then Receiving(s.io.reply.value) else Done(None), sent := s.sent + [s.io.out])
  }

  function GotNext(s: Side, m: Message): Side {
    s.(io := Done(Some(m)), got := s.got + [m])
  }

  lemma SendKind(role: Role, s: Side)
    requires Local(role, s) && s.io.Sending?
    ensures s.io.out.Kind() == KindAt(s.base, |s.sent|)
    ensures s.pc.HelloWait? ==> s.io.out == HelloMsg(s.hello) && s.sent == []
  {
  }

  lemma SendCore(role: Role, s: Side)
    requires Local(role, s) && s.io.Sending?
    ensures Core(SentNext(s))
  {
    SendKind(role, s);
    KindsAppend(s.sent, s.base, s.io.out);
    RoundsGrow(s.sent, s.got, s.sent + [s.io.out], s.got, s.attempt as int);
  }

  function SentTrack(t: Track): Track
    requires t.io.Sending?
  {
    t.(io := if t.io.reply.Some? then Receiving(t.io.reply.value) else Done(None), sent := t.sent + [t.io.out])
  }

  lemma SendPunchPlaced(t: Track)
    requires PunchPosition(t) && t.io.Sending?
    ensures PunchPosition(SentTrack(t))
  {
  }

  lemma SendClientPlaced(t: Track)
    requires ClientPosition(t) && t.io.Sending?
    ensures ClientPosition(SentTrack(t))
  {
  }

  lemma SendHostPlaced(t: Track)
    requires HostPosition(t) && t.io.Sending?
    ensures HostPosition(SentTrack(t))
  {
  }

  lemma SendPlaced(role: Role, s: Side)
    requires Local(role, s) && s.io.Sending?
    ensures Placed(TrackOf(SentNext(s)))
  {
    SendPunchPlaced(TrackOf(s));
    SendClientPlaced(TrackOf(s));
    SendHostPlaced(TrackOf(s));
    assert TrackOf(SentNext(s)) == SentTrack(TrackOf(s));
  }

  lemma SendLocal(role: Role, s: Side)
    requires Local(role, s) && s.io.Sending?
    ensures Local(role, SentNext(s))
  {
    SendCore(role, s);
    SendPlaced(role, s);
    var s' := SentNext(s);
    assert forall n | 0 <= n < |s.sent| :: s'.sent[n] == s.sent[n];
  }

  lemma ReceiveKind(role: Role, s: Side)
    requires Local(role, s) && s.io.Receiving?
    ensures s.io.kind == KindAt(s.base, |s.got|)
  {
  }

  lemma ReceiveCore(role: Role, s: Side, m: Message)
    requires Local(role, s) && s.io.Receiving? && m.Kind() == s.io.kind
    ensures Core(GotNext(s, m))
  {
    ReceiveKind(role, s);
    KindsAppend(s.got, s.base, m);
    RoundsGrow(s.sent, s.got, s.sent, s.got + [m], s.attempt as int);
  }

  function GotTrack(t: Track, m: Message): Track {
    t.(io := Done(Some(m)), got := t.got + [m])
  }

  lemma ReceivePunchPlaced(t: Track, m: Message)
    requires PunchPosition(t) && t.io.Receiving?
    ensures PunchPosition(GotTrack(t, m))
  {
  }

  lemma ReceiveClientPlaced(t: Track, m: Message)
    requires ClientPosition(t) && t.io.Receiving?
    ensures ClientPosition(GotTrack(t, m))
  {
  }

  lemma ReceiveHostPlaced(t: Track, m: Message)
    requires HostPosition(t) && t.io.Receiving?
    ensures HostPosition(GotTrack(t, m))
  {
  }

  lemma ReceivePlaced(role: Role, s: Side, m: Message)
    requires Local(role, s) && s.io.Receiving? && m.Kind() == s.io.kind
    ensures Placed(TrackOf(GotNext(s, m)))
  {
    ReceivePunchPlaced(TrackOf(s), m);
    ReceiveClientPlaced(TrackOf(s), m);
    ReceiveHostPlaced(TrackOf(s), m);
    assert TrackOf(GotNext(s, m)) == GotTrack(TrackOf(s), m);
  }

  lemma ReceiveLocal(role: Role, s: Side, m: Message)
    requires Local(role, s) && s.io.Receiving? && m.Kind() == s.io.kind
    ensures Local(role, GotNext(s, m))
  {
    ReceiveCore(role, s, m);
    ReceivePlaced(role, s, m);
  }
}
