/** Which rungs are tried, in which order, by whom and why the climb stops: what every run of
    the two-party session says about the cascade the two Hellos agree on. */
module ProtocolClimb {
  import opened Bytes
  import opened Messages
  import opened Cascade
  import opened Protocol
  import opened ProtocolInvariant
  import opened ProtocolRuns

  // ---------------------------------------------------------------- the client's climb

  /** The first n rungs of the cascade are above the floor and were requested in their order,
      one frame each. */
  ghost predicate Tried(plan: Plan, sent: seq<Message>, base: nat, n: nat) {
    && plan.Climb? && n <= |plan.cascade|
    && forall k | 0 <= k < n :: TriedAt(plan, sent, base, k)
  }

  /** Rung k is above the floor and was requested in its turn. */
  predicate TriedAt(plan: Plan, sent: seq<Message>, base: nat, k: nat)
    requires plan.Climb? && k < |plan.cascade|
  {
    plan.cascade[k] != LIBP2P && base + k < |sent| && sent[base + k] == AttemptMsg(plan.cascade[k], false)
  }

  /** Above the first n rungs the cascade has only the floor, or nothing. */
  predicate Exhausted(plan: Plan, n: nat) {
    plan.Climb? ==> n == |plan.cascade| || (n < |plan.cascade| && plan.cascade[n] == LIBP2P)
  }

  /** Where a client is in its climb, and how many rungs it has begun to build. */
  ghost predicate Climbs(s: Side) {
    match s.pc
    case RequestWait(i) =>
      && s.starts == i && Tried(s.plan, s.sent, s.base, i)
      && i < |s.plan.cascade| && s.plan.cascade[i] != LIBP2P
    case Dialing(i) =>
      && s.starts == i + 1 && Tried(s.plan, s.sent, s.base, i + 1)
      && (s.ended == None ==> s.open == Some(s.plan.cascade[i]))
      && (s.ended.Some? ==> s.abandoned || Exhausted(s.plan, i + 1))
    case CommitWait(i) =>
      && s.starts == i + 1 && Tried(s.plan, s.sent, s.base, i + 1)
      && (s.ended == None ==> s.open == Some(s.plan.cascade[i]))
      && (s.ended.Some? && s.ended.value.OnTier? ==> s.ended == Some(OnTier(s.plan.cascade[i])))
    case FloorWait =>
      && Tried(s.plan, s.sent, s.base, s.starts) && (s.abandoned || Exhausted(s.plan, s.starts))
    case _ => s.starts == 0
  }

  lemma TriedMore(plan: Plan, sent: seq<Message>, base: nat, n: nat, m: Message)
    requires Tried(plan, sent, base, n)
    ensures Tried(plan, sent + [m], base, n)
  {
    forall k | 0 <= k < n ensures TriedAt(plan, sent + [m], base, k) {
      assert TriedAt(plan, sent, base, k);
    }
  }

  /** The request for the rung in hand is the next one of the cascade. */
  lemma TriedNext(s: Side)
    requires Local(Client, s) && Climbs(s) && s.ended == None && s.pc.RequestWait? && s.io.Done?
    ensures Tried(s.plan, s.sent, s.base, s.pc.rung + 1)
  {
    assert Placed(TrackOf(s));
    assert TriedAt(s.plan, s.sent, s.base, s.pc.rung);
  }

  lemma LandedClimbs(s: Side)
    requires s.starts == 0 && PunchPc(s.pc) && (s.plan.Climb? ==> s.plan.cascade != [] && s.plan.cascade[0] != LIBP2P)
    ensures Climbs(PunchLanded(Client, s)) && Climbs(PunchMissed(Client, s))
  {
    if s.plan.Climb? {
      assert RungAt(s.plan, 0) == s.plan.cascade[0];
      assert PunchLanded(Client, s).pc == RequestWait(0);
    } else {
      assert PunchLanded(Client, s).pc == s.pc;
    }
  }

  lemma PlanHasRung(s: Side)
    requires Local(Client, s) && s.plan.Climb?
    ensures s.plan.cascade != [] && s.plan.cascade[0] != LIBP2P
  {
    PlanBounds(s.hello, s.got[0].hello);
  }

  lemma ReturnedClimbs(s: Side, ok: bool)
    requires s.starts == 0 && PunchPc(s.pc) && (s.plan.Climb? ==> s.plan.cascade != [] && s.plan.cascade[0] != LIBP2P)
    ensures Climbs(AfterOnce(Client, s, ok)) && Climbs(AfterOutcome(Client, s, ok))
  {
    LandedClimbs(s);
    LandedClimbs(s.Release());
  }

  lemma PunchClimbs(s: Side, a: Act)
    requires s.ended == None && PunchPc(s.pc) && s.starts == 0
    requires s.plan.Climb? ==> s.plan.cascade != [] && s.plan.cascade[0] != LIBP2P
    ensures Climbs(PunchStep(Client, s, a))
  {
    match s.pc
    case Gather =>
    case InfoWait(_) => ReturnedClimbs(s.Release(), false);
    case Check => if a.Connected? { ReturnedClimbs(if a.ok then s else s.Release(), a.ok); }
    case OutcomeWait(landed) =>
      if a.Resume? && s.Reply().Some? && s.Reply().value.OutcomeMsg? {
        ReturnedClimbs(s, landed && s.Reply().value.ok);
      }
  }

  /** A client whose n-th rung did not come up, or left no substrate. */
  ghost predicate Failed(s: Side, n: nat) {
    && s.ended == None && s.open == None && s.starts == n && s.pc.Dialing? && s.pc.rung + 1 == n
    && Tried(s.plan, s.sent, s.base, n)
  }

  lemma FailedClimbs(s: Side, n: nat)
    requires Failed(s, n)
    ensures Climbs(NextRung(s, n)) && (s.abandoned ==> Climbs(GiveUp(s)))
  {
    assert RungAt(s.plan, n) == if n < |s.plan.cascade| then s.plan.cascade[n] else LIBP2P;
  }

  lemma DialingClimbs(s: Side, a: Act)
    requires Climbs(s) && s.ended == None && s.pc.Dialing?
    ensures Climbs(ClientStep(s, a))
  {
    if a.Built? {
      var n := s.pc.rung + 1;
      match a.outcome
      case CameUp =>
      case DidNotComeUp => FailedClimbs(CloseRung(s), n);
      case SubstrateAbandoned => FailedClimbs(CloseRung(s).(abandoned := true), n);
    }
  }

  lemma RequestClimbs(s: Side, a: Act)
    requires Climbs(s) && s.ended == None && s.pc.RequestWait?
    requires s.io.Done? ==> Tried(s.plan, s.sent, s.base, s.pc.rung + 1)
    ensures Climbs(ClientStep(s, a))
  {
  }

  lemma CommitClimbs(s: Side, a: Act)
    requires Climbs(s) && s.ended == None && s.pc.CommitWait?
    ensures Climbs(ClientStep(s, a))
  {
  }

  lemma FloorClimbs(s: Side, a: Act)
    requires Climbs(s) && s.ended == None && s.pc.FloorWait?
    ensures Climbs(ClientStep(s, a))
  {
  }

  lemma ClientClimbs(s: Side, a: Act)
    requires Local(Client, s) && Climbs(s) && s.ended == None && ClientPc(s.pc)
    ensures Climbs(ClientStep(s, a))
  {
    match s.pc
    case Dialing(_) => DialingClimbs(s, a);
    case RequestWait(_) =>
      if s.io.Done? {
        TriedNext(s);
      }
      RequestClimbs(s, a);
    case CommitWait(_) => CommitClimbs(s, a);
    case FloorWait => FloorClimbs(s, a);
  }

  lemma StepClimbs(s: Side, a: Act)
    requires Local(Client, s) && Climbs(s)
    ensures Climbs(Step(Client, s, a))
  {
    if s.ended.Some? {
    } else if s.pc.HelloWait? {
    } else if PunchPc(s.pc) {
      if s.plan.Climb? {
        PlanHasRung(s);
      }
      PunchClimbs(s, a);
    } else {
      ClientClimbs(s, a);
    }
  }

  lemma SentClimbs(s: Side)
    requires Climbs(s) && s.io.Sending?
    ensures Climbs(SentNext(s))
  {
    if s.pc.RequestWait? || s.pc.Dialing? || s.pc.CommitWait? || s.pc.FloorWait? {
      TriedMore(s.plan, s.sent, s.base, s.starts, s.io.out);
    }
  }

  lemma ExchangeClimbs(s: Side, input: seq<Message>, output: seq<Message>, cut: bool)
    requires Climbs(s)
    ensures Climbs(ExchangeStep(s, input, output, cut).side)
  {
    if s.io.Sending? {
      SentClimbs(s);
    }
  }

  lemma {:induction false} RunClimbs(client: Hello, host: Hello, events: seq<Event>)
    ensures Climbs(Run(client, host, events).client)
  {
    if events != [] {
      var k := |events| - 1;
      RunClimbs(client, host, events[..k]);
      RunInv(client, host, events[..k]);
      var x, e := Run(client, host, events[..k]), events[k];
      if e.Move? && e.role == Client {
        if e.act.Exchange? {
          ExchangeClimbs(x.client, x.toClient, x.toHost, x.toHostCut);
        } else {
          StepClimbs(x.client, e.act);
        }
      }
    }
  }

  /** How far a client has got: at its request for rung i it has begun to build i rungs, and
      while it dials rung i or waits for its commit, i + 1, that one being open; what it has
      requested are the rungs of the agreed cascade, from the first and in order; and when it
      has told the host that it takes the floor, or failed after a rung did not come up, it has
      tried every one of them, unless it saw its substrate abandoned. */
  lemma ClimbsInOrder(client: Hello, host: Hello, events: seq<Event>)
    ensures var s := Run(client, host, events).client;
      && (ClientPc(s.pc) ==> s.plan == PlanOf(client, host) && Tried(s.plan, s.sent, s.base, s.starts))
      && (s.pc.RequestWait? ==> s.starts == s.pc.rung && !Exhausted(s.plan, s.pc.rung))
      && (s.pc.Dialing? || s.pc.CommitWait? ==> s.starts == s.pc.rung + 1)
      && (s.ended == None && (s.pc.Dialing? || s.pc.CommitWait?) ==> s.open == Some(s.plan.cascade[s.pc.rung]))
      && (s.pc.FloorWait? || (s.pc.Dialing? && s.ended.Some?) ==> s.abandoned || Exhausted(s.plan, s.starts))
      && (!ClientPc(s.pc) ==> s.starts == 0)
  {
    RunClimbs(client, host, events);
    RunInv(client, host, events);
    if ClientPc(Run(client, host, events).client.pc) {
      PlanSettled(client, host, events, Client);
    }
  }
}
