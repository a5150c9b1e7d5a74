/** What holds in every state of every run of the two-party session. */
module ProtocolRuns {
  import opened Bytes
  import opened Messages
  import opened Cascade
  import opened Protocol
  import opened ProtocolInvariant

  /** What one side decoded, then what is still in flight, is what the other side sent, up
      to a cut. */
  ghost predicate Carried(sent: seq<Message>, inFlight: seq<Message>, got: seq<Message>, cut: bool) {
    && got + inFlight <= sent
    && (!cut ==> got + inFlight == sent)
  }

  ghost predicate Inv(x: System) {
    && Local(Client, x.client) && Local(Host, x.host)
    && Carried(x.client.sent, x.toHost, x.host.got, x.toHostCut)
    && Carried(x.host.sent, x.toClient, x.client.got, x.toClientCut)
    && !x.misread
  }

  // ---------------------------------------------------------------- agreement of the histories

  /** Two sides, each having decoded only what the other sent. */
  ghost predicate Paired(a: Side, b: Side) {
    a.got <= b.sent && b.got <= a.sent
  }

  /** Both Hellos crossed, so both sides decided the same plan. */
  lemma SamePlan(a: Side, b: Side)
    requires Core(a) && Core(b) && Paired(a, b) && a.plan != Refused && b.plan != Refused
    ensures a.plan == b.plan
  {
    assert a.got[0] == b.sent[0] && b.got[0] == a.sent[0];
    PlanSymmetric(a.hello, b.hello);
  }

  lemma SameRound(a: Side, b: Side, q: nat)
    requires Paired(a, b) && 2 * q < |a.got| && 2 * q < |b.got|
    ensures Agreed(a.sent, a.got, q) <==> Agreed(b.sent, b.got, q)
  {
    assert a.got[2 * q] == b.sent[2 * q] && b.got[2 * q] == a.sent[2 * q];
  }

  /** A round in which one side landed is one the other has not put behind it as missed. */
  lemma NotMissed(a: Side, b: Side)
    requires Core(a) && Core(b) && Paired(a, b) && a.plan == b.plan && Attempts(a.plan) >= 2
    requires a.verdict == Some(true)
    ensures b.verdict != Some(false) && b.attempt <= a.attempt
  {
    var q := a.attempt as int;
    assert q < b.attempt as int ==> Missed(b.sent, b.got, q);
    if 2 * q < |b.got| {
      SameRound(a, b, q);
    }
  }

  /** Once both punches landed, the attempts start at the same frame on both sides. */
  lemma SameBase(a: Side, b: Side)
    requires Core(a) && Core(b) && Paired(a, b) && a.plan != Refused && b.plan != Refused
    requires a.verdict == Some(true) && b.verdict == Some(true)
    ensures a.base == b.base && (Attempts(a.plan) >= 2 ==> a.attempt == b.attempt)
  {
    SamePlan(a, b);
    if Attempts(a.plan) >= 2 {
      NotMissed(a, b);
      NotMissed(b, a);
    }
  }

  // ---------------------------------------------------------------- lockstep

  /** Whatever side a is about to decode next, side b encoded as the type a expects. */
  lemma Lockstep(ra: Role, a: Side, rb: Role, b: Side)
    requires Local(ra, a) && Local(rb, b) && Paired(a, b)
    requires a.io.Receiving? && |a.got| < |b.sent|
    ensures b.sent[|a.got|].Kind() == a.io.kind
  {
    var n := |a.got|;
    ReceiveKind(ra, a);
    if n > 0 {
      SamePlan(a, b);
      var total := Attempts(a.plan);
      if a.verdict == b.verdict == Some(true) {
        SameBase(a, b);
      } else if b.verdict == Some(true) && n >= b.base && total >= 2 {
        NotMissed(b, a);
      } else if a.verdict == Some(true) && n >= a.base && total >= 2 {
        NotMissed(a, b);
      }
    }
  }

  lemma InvPaired(x: System)
    requires Inv(x)
    ensures Paired(x.client, x.host)
    ensures x.toHost != [] ==> |x.host.got| < |x.client.sent| && x.client.sent[|x.host.got|] == x.toHost[0]
    ensures x.toClient != [] ==> |x.client.got| < |x.host.sent| && x.host.sent[|x.client.got|] == x.toClient[0]
  {
    assert x.host.got <= x.host.got + x.toHost && x.client.got <= x.client.got + x.toClient;
    if x.toHost != [] {
      assert (x.host.got + x.toHost)[|x.host.got|] == x.toHost[0];
    }
    if x.toClient != [] {
      assert (x.client.got + x.toClient)[|x.client.got|] == x.toClient[0];
    }
  }

  lemma SendInv(ra: Role, a: Side, rb: Role, b: Side, output: seq<Message>, outCut: bool)
    requires Local(ra, a) && a.io.Sending? && Carried(a.sent, output, b.got, outCut)
    ensures Local(ra, SentNext(a))
    ensures Carried(a.sent + [a.io.out], if outCut then output else output + [a.io.out], b.got, outCut)
  {
    SendLocal(ra, a);
    assert b.got + (output + [a.io.out]) == (b.got + output) + [a.io.out];
  }

  lemma ReceiveCarried(sent: seq<Message>, input: seq<Message>, got: seq<Message>, cut: bool)
    requires Carried(sent, input, got, cut) && input != []
    ensures |got| < |sent| && sent[|got|] == input[0] && got <= sent
    ensures Carried(sent, input[1..], got + [input[0]], cut)
  {
    assert (got + input)[|got|] == input[0];
    assert got <= got + input;
    assert (got + [input[0]]) + input[1..] == got + input;
  }

  lemma ReceiveInv(ra: Role, a: Side, rb: Role, b: Side, m: Message)
    requires Local(ra, a) && Local(rb, b) && a.io.Receiving?
    requires Paired(a, b) && |a.got| < |b.sent| && b.sent[|a.got|] == m
    ensures Local(ra, GotNext(a, m)) && m.Kind() == a.io.kind
  {
    Lockstep(ra, a, rb, b);
    ReceiveLocal(ra, a, m);
  }

  /** An exchange step of side a, reading what b sent and writing to b. */
  lemma ExchangeInv(ra: Role, a: Side, rb: Role, b: Side, input: seq<Message>, output: seq<Message>,
                    inCut: bool, outCut: bool)
    requires Local(ra, a) && Local(rb, b)
    requires Carried(b.sent, input, a.got, inCut) && Carried(a.sent, output, b.got, outCut)
    ensures var r := ExchangeStep(a, input, output, outCut);
      && Local(ra, r.side) && !r.misread
      && Carried(b.sent, r.input, r.side.got, inCut) && Carried(r.side.sent, r.output, b.got, outCut)
  {
    if a.io.Sending? {
      SendInv(ra, a, rb, b, output, outCut);
    } else if a.io.Receiving? && input != [] {
      ReceiveCarried(b.sent, input, a.got, inCut);
      assert b.got <= b.got + output;
      ReceiveInv(ra, a, rb, b, input[0]);
    }
  }

  lemma CutCarried(sent: seq<Message>, inFlight: seq<Message>, got: seq<Message>, cut: bool, keep: nat)
    requires Carried(sent, inFlight, got, cut)
    ensures Carried(sent, if keep < |inFlight| then inFlight[..keep] else inFlight, got, true)
  {
    if keep < |inFlight| {
      assert got + inFlight == (got + inFlight[..keep]) + inFlight[keep..];
    }
  }

  /** What no process step undoes: frames, rungs that came up, an end, an abandonment; and
      after an abandonment no further rung is started. */
  predicate Extends(s: Side, s': Side) {
    && s'.sent == s.sent && s'.got == s.got && s'.hello == s.hello
    && s.ups <= s'.ups
    && (s.ended.Some? ==> s'.ended == s.ended)
    && (s.abandoned ==> s'.abandoned && s'.starts == s.starts)
  }

  lemma HelloExtends(role: Role, s: Side, a: Act)
    requires s.ended == None
    ensures Extends(s, HelloStep(role, s, a))
  {
  }

  lemma LandedExtends(role: Role, s: Side)
    requires s.ended == None
    ensures Extends(s, PunchLanded(role, s)) && Extends(s, PunchMissed(role, s))
  {
  }

  lemma ReturnedExtends(role: Role, s: Side, ok: bool)
    requires s.ended == None
    ensures Extends(s, AfterOnce(role, s, ok)) && Extends(s, AfterOutcome(role, s, ok))
  {
    LandedExtends(role, s);
    LandedExtends(role, s.Release());
  }

  lemma ReleaseExtends(s: Side, r: Result)
    requires s.ended == None
    ensures Extends(s, s.Release()) && Extends(s, s.Release().EndWith(r))
  {
  }

  lemma InfoWaitExtends(role: Role, s: Side, a: Act)
    requires s.ended == None && (s.pc.Gather? || s.pc.InfoWait?)
    ensures Extends(s, PunchStep(role, s, a))
  {
    ReleaseExtends(s, FailResult(role, s));
    ReturnedExtends(role, s.Release(), false);
  }

  lemma OutcomeExtends(role: Role, s: Side, a: Act)
    requires s.ended == None && (s.pc.Check? || s.pc.OutcomeWait?)
    ensures Extends(s, PunchStep(role, s, a))
  {
    ReleaseExtends(s, FailResult(role, s));
    if a.Connected? {
      ReturnedExtends(role, if a.ok then s else s.Release(), a.ok);
    } else if s.pc.OutcomeWait? && s.Reply().Some? && s.Reply().value.OutcomeMsg? {
      ReturnedExtends(role, s, s.pc.landed && s.Reply().value.ok);
    }
  }

  lemma PunchExtends(role: Role, s: Side, a: Act)
    requires s.ended == None && PunchPc(s.pc)
    ensures Extends(s, PunchStep(role, s, a))
  {
    if s.pc.Gather? || s.pc.InfoWait? {
      InfoWaitExtends(role, s, a);
    } else {
      OutcomeExtends(role, s, a);
    }
  }

  lemma ClientExtends(s: Side, a: Act)
    requires s.ended == None && (s.abandoned ==> !s.pc.RequestWait?)
    ensures Extends(s, ClientStep(s, a))
  {
  }

  lemma PendingExtends(s: Side, m: Message)
    requires s.ended == None
    ensures Extends(s, Pending(s, m))
  {
    ReleaseExtends(s, HostDone);
  }

  lemma RequestExtends(s: Side, a: Act)
    requires s.ended == None && (s.pc.AwaitRequest? || s.pc.AckWait? || s.pc.Serving?)
    requires s.abandoned ==> !s.pc.AckWait?
    ensures Extends(s, HostStep(s, a))
  {
    ReleaseExtends(s, HostDone);
    if s.pc.AwaitRequest? && s.Reply().Some? {
      PendingExtends(s, s.Reply().value);
    }
  }

  lemma TearingExtends(s: Side, a: Act)
    requires s.ended == None && s.pc.Tearing?
    ensures Extends(s, HostStep(s, a))
  {
    if a.TornDown? {
      var gone := RungGone(s, a.abandoned);
      assert Extends(s, gone);
      ReleaseExtends(gone, HostDone);
      if s.pc.next.Some? {
        PendingExtends(gone, s.pc.next.value);
      }
    }
  }

  lemma RungExtends(s: Side, a: Act)
    requires s.ended == None && (s.pc.Active? || s.pc.CommitAckWait? || s.pc.Committed?)
    ensures Extends(s, HostStep(s, a))
  {
    ReleaseExtends(CloseRung(s), HostDone);
  }

  lemma HostExtends(s: Side, a: Act)
    requires s.ended == None && (s.abandoned ==> !s.pc.AckWait?)
    ensures Extends(s, HostStep(s, a))
  {
    if s.pc.AwaitRequest? || s.pc.AckWait? || s.pc.Serving? {
      RequestExtends(s, a);
    } else if s.pc.Tearing? {
      TearingExtends(s, a);
    } else if HoldsRung(s.pc) {
      RungExtends(s, a);
    }
  }

  lemma StepExtends(role: Role, s: Side, a: Act)
    requires Local(role, s)
    ensures Extends(s, Step(role, s, a))
  {
    if s.ended.Some? {
    } else if s.pc.HelloWait? {
      HelloExtends(role, s, a);
    } else if PunchPc(s.pc) {
      PunchExtends(role, s, a);
    } else if role == Client {
      ClientExtends(s, a);
    } else {
      HostExtends(s, a);
    }
  }

  lemma ExchangesInv(x: System)
    requires Inv(x)
    ensures Inv(Next(x, Move(Client, Exchange))) && Inv(Next(x, Move(Host, Exchange)))
  {
    ExchangeInv(Client, x.client, Host, x.host, x.toClient, x.toHost, x.toClientCut, x.toHostCut);
    ExchangeInv(Host, x.host, Client, x.client, x.toHost, x.toClient, x.toHostCut, x.toClientCut);
  }

  lemma MovesInv(x: System, a: Act)
    requires Inv(x) && !a.Exchange?
    ensures Inv(x.(client := Step(Client, x.client, a))) && Inv(x.(host := Step(Host, x.host, a)))
  {
    StepLocal(Client, x.client, a);
    StepExtends(Client, x.client, a);
    StepLocal(Host, x.host, a);
    StepExtends(Host, x.host, a);
  }

  lemma MoveInv(x: System, role: Role, a: Act)
    requires Inv(x) && !a.Exchange?
    ensures Inv(Next(x, Move(role, a)))
  {
    MovesInv(x, a);
    if role == Client {
      assert Next(x, Move(role, a)) == x.(client := Step(Client, x.client, a));
    } else {
      assert Next(x, Move(role, a)) == x.(host := Step(Host, x.host, a));
    }
  }

  lemma NextInv(x: System, e: Event)
    requires Inv(x)
    ensures Inv(Next(x, e))
  {
    match e
    case Move(_, Exchange) => ExchangesInv(x);
    case Move(role, a) => MoveInv(x, role, a);
    case Cut(Client, keep) => CutCarried(x.client.sent, x.toHost, x.host.got, x.toHostCut, keep);
    case Cut(Host, keep) => CutCarried(x.host.sent, x.toClient, x.client.got, x.toClientCut, keep);
  }

  lemma {:induction false} RunInv(client: Hello, host: Hello, events: seq<Event>)
    ensures Inv(Run(client, host, events))
  {
    if events == [] {
      InitialLocal(Client, client);
      InitialLocal(Host, host);
    } else {
      var k := |events| - 1;
      RunInv(client, host, events[..k]);
      NextInv(Run(client, host, events[..k]), events[k]);
    }
  }

  // ---------------------------------------------------------------- main results

  /** Lockstep: in no run is a frame decoded as a type it was not encoded from, whatever
      either side's punch, rungs, deadlines and streams do. */
  lemma NeverMisread(client: Hello, host: Hello, events: seq<Event>)
    ensures !Run(client, host, events).misread
  {
    RunInv(client, host, events);
  }

  lemma GotWasSent(got: seq<Message>, inFlight: seq<Message>, sent: seq<Message>, m: Message)
    requires got + inFlight <= sent && m in got
    ensures m in sent
  {
    var n :| 0 <= n < |got| && got[n] == m;
    assert (got + inFlight)[n] == sent[n];
  }

  lemma SuccessFacts(s: Side)
    requires Local(Client, s) && s.ended.Some? && s.ended.value.OnTier?
    ensures var t := s.ended.value.tier;
            t in s.ups && AttemptMsg(t, true) in s.sent && AttemptMsg(t, true) in s.got
  {
    assert Placed(TrackOf(s));
    assert OutIs(TrackOf(s), s.base + s.pc.rung + 1, AttemptMsg(s.ended.value.tier, true));
    assert s.got[|s.got| - 1] == AttemptMsg(s.ended.value.tier, true);
  }

  /** Commit safety, the client's side: a client that returns success on a tier brought
      that tier up and asked to commit it, and the host brought it up too and acknowledged
      the commit. */
  lemma SuccessWasAcknowledged(client: Hello, host: Hello, events: seq<Event>)
    ensures var x := Run(client, host, events);
      x.client.ended.Some? && x.client.ended.value.OnTier? ==>
        var t := x.client.ended.value.tier;
        && t in x.client.ups && AttemptMsg(t, true) in x.client.sent
        && t in x.host.ups && AttemptMsg(t, true) in x.host.sent
  {
    RunInv(client, host, events);
    var x := Run(client, host, events);
    if x.client.ended.Some? && x.client.ended.value.OnTier? {
      SuccessFacts(x.client);
      GotWasSent(x.client.got, x.toClient, x.host.sent, AttemptMsg(x.client.ended.value.tier, true));
    }
  }

  /** Commit safety, the fallback: a client that settles on the floor, or returns any error
      but errRungCommit, never sent a commit and has none under way; so the host decoded
      none and is not committing. */
  lemma FloorWasNeverCommitted(client: Hello, host: Hello, events: seq<Event>)
    ensures var x := Run(client, host, events);
      x.client.ended == Some(OnFloor) || x.client.ended == Some(Failed) ==>
        && (forall m | m in x.client.sent :: !IsCommit(m))
        && (x.client.io.Sending? ==> !IsCommit(x.client.io.out))
        && (forall m | m in x.host.got :: !IsCommit(m))
        && !x.host.pc.CommitAckWait? && !x.host.pc.Committed?
  {
    RunInv(client, host, events);
    var x := Run(client, host, events);
    if x.client.ended == Some(OnFloor) || x.client.ended == Some(Failed) {
      forall m | m in x.host.got ensures !IsCommit(m) {
        GotWasSent(x.host.got, x.toHost, x.client.sent, m);
      }
    }
  }

  /** Commit safety, the host's side: a host that commits was asked to by a client whose
      rung was up, and whose only results from here are that tier or errRungCommit. */
  lemma HostCommitWasRequested(client: Hello, host: Hello, events: seq<Event>)
    ensures var x := Run(client, host, events);
      x.host.pc.CommitAckWait? || x.host.pc.Committed? ==>
        var t := x.host.pc.tier;
        && t in x.host.ups && t in x.client.ups && AttemptMsg(t, true) in x.client.sent
        && (x.client.ended == None || x.client.ended == Some(OnTier(t)) || x.client.ended == Some(CommitUncertain))
  {
    RunInv(client, host, events);
    var x := Run(client, host, events);
    if x.host.pc.CommitAckWait? || x.host.pc.Committed? {
      GotWasSent(x.host.got, x.toHost, x.client.sent, AttemptMsg(x.host.pc.tier, true));
      if x.client.ended.Some? && x.client.ended.value.OnTier? {
        OneCommit(x.client, x.host.pc.tier);
      }
    }
  }

  /** A client commits at most one tier, the one it returns. */
  lemma OneCommit(s: Side, t: Tier)
    requires Local(Client, s) && s.ended.Some? && s.ended.value.OnTier? && AttemptMsg(t, true) in s.sent
    ensures s.ended == Some(OnTier(t))
  {
    var n :| 0 <= n < |s.sent| && s.sent[n] == AttemptMsg(t, true);
  }

  /** The client's rung answers a request it sent, followed at most by a commit. */
  ghost predicate Requested(s: Side) {
    var n := s.base + (if s.pc.Dialing? || s.pc.CommitWait? then s.pc.rung else 0);
    && (s.pc.Dialing? || s.pc.CommitWait?) && s.verdict == Some(true) && s.plan.Climb? && s.open.Some?
    && n < |s.got| && n < |s.sent| <= n + 2
    && s.sent[n] == AttemptMsg(s.open.value, false)
    && (|s.sent| == n + 2 ==> IsCommit(s.sent[n + 1]))
  }

  lemma ClientRung(s: Side)
    requires Local(Client, s) && s.open.Some?
    ensures Requested(s)
  {
    assert Placed(TrackOf(s));
  }

  /** The host's rung answers a request it acknowledged, followed at most by a commit. */
  ghost predicate Echoed(s: Side) {
    var n := s.req;
    && s.verdict == Some(true) && s.plan.Climb? && s.open.Some?
    && s.base <= n < |s.got| && n < |s.sent| <= n + 2
    && s.got[n] == AttemptMsg(s.open.value, false)
    && (|s.sent| == n + 2 ==> n + 1 < |s.got| && IsCommit(s.got[n + 1]))
  }

  lemma HostRung(s: Side)
    requires Local(Host, s) && s.open.Some?
    ensures Echoed(s)
  {
    assert Placed(TrackOf(s));
  }

  /** Request n echoed to the client is the request r the host is acting on. */
  lemma SameRequest(c: Side, h: Side, n: nat, r: nat)
    requires Paired(c, h) && c.base == h.base
    requires c.base <= n < |c.got| && n < |c.sent| <= n + 2 && h.base <= r < |h.got| && r < |h.sent| <= r + 2
    requires !IsCommit(c.sent[n]) && !IsCommit(h.got[r])
    requires |c.sent| == n + 2 ==> IsCommit(c.sent[n + 1])
    requires |h.sent| == r + 2 ==> r + 1 < |h.got| && IsCommit(h.got[r + 1])
    ensures n == r && c.sent[n] == h.got[n]
  {
    assert h.got[r] == c.sent[r];
    assert n < |h.got| ==> h.got[n] == c.sent[n];
  }

  lemma Exclusive(c: Side, h: Side)
    requires Core(c) && Core(h) && Paired(c, h) && Requested(c) && Echoed(h)
    ensures c.open == h.open && h.req == c.base + c.pc.rung
  {
    SameBase(c, h);
    SameRequest(c, h, c.base + c.pc.rung, h.req);
  }

  /** Substrate exclusivity: at every moment at which both sides have a rung on the punched
      substrate it is the same rung, answering the same request. So while the client dials
      or holds a rung, the host has closed every other. */
  lemma OneRungAtATime(client: Hello, host: Hello, events: seq<Event>)
    ensures var x := Run(client, host, events);
      x.client.open.Some? && x.host.open.Some? ==>
        && x.client.open == x.host.open
        && (x.client.pc.Dialing? || x.client.pc.CommitWait?)
        && x.host.req == x.client.base + x.client.pc.rung
  {
    RunInv(client, host, events);
    var x := Run(client, host, events);
    if x.client.open.Some? && x.host.open.Some? {
      ClientRung(x.client);
      HostRung(x.host);
      InvPaired(x);
      Exclusive(x.client, x.host);
    }
  }

  /** Whatever else one event does, it starts no rung on a substrate seen abandoned. */
  predicate NoNewRung(s: Side, s': Side) {
    s.abandoned ==> s'.abandoned && s'.starts == s.starts
  }

  lemma ExchangeStarts(s: Side, input: seq<Message>, output: seq<Message>, cut: bool)
    ensures NoNewRung(s, ExchangeStep(s, input, output, cut).side)
  {
  }

  lemma StepStarts(role: Role, s: Side, a: Act)
    requires Local(role, s)
    ensures NoNewRung(s, Step(role, s, a))
  {
    StepExtends(role, s, a);
  }

  function SideOf(x: System, role: Role): Side {
    if role == Client then x.client else x.host
  }

  lemma NextStarts(x: System, e: Event, role: Role)
    requires Local(role, SideOf(x, role))
    ensures NoNewRung(SideOf(x, role), SideOf(Next(x, e), role))
  {
    if e.Move? && e.role == role {
      if e.act.Exchange? {
        ExchangeStarts(x.client, x.toClient, x.toHost, x.toHostCut);
        ExchangeStarts(x.host, x.toHost, x.toClient, x.toClientCut);
      } else {
        StepStarts(role, SideOf(x, role), e.act);
      }
    }
  }

  lemma LastEventStarts(client: Hello, host: Hello, events: seq<Event>, role: Role)
    requires events != []
    ensures NoNewRung(SideOf(Run(client, host, events[..|events| - 1]), role), SideOf(Run(client, host, events), role))
  {
    var y := Run(client, host, events[..|events| - 1]);
    assert Local(role, SideOf(y, role)) by { RunInv(client, host, events[..|events| - 1]); }
    NextStarts(y, events[|events| - 1], role);
  }

  /** Once a side sees its substrate abandoned it starts no further rung, however the run
      goes on. */
  lemma {:induction false} NoRungAfterAbandonment(client: Hello, host: Hello, before: seq<Event>, after: seq<Event>,
                                                  role: Role)
    ensures NoNewRung(SideOf(Run(client, host, before), role), SideOf(Run(client, host, before + after), role))
  {
    if after == [] {
      assert before + after == before;
    } else {
      var k := |after| - 1;
      var events := before + after;
      assert events[..|events| - 1] == before + after[..k];
      NoRungAfterAbandonment(client, host, before, after[..k], role);
      LastEventStarts(client, host, events, role);
    }
  }

  /** Resource conservation: every agent either side created it closed exactly once, except
      the one it still holds; and a side that ended holds one exactly when it is the client
      returning success. The punch counter never leaves 1..attempts, so it never wraps. */
  lemma AgentsConserved(client: Hello, host: Hello, events: seq<Event>, role: Role)
    ensures var x := Run(client, host, events);
            var s := SideOf(x, role);
      && s.agents.created == s.agents.closed + (if s.agents.held then 1 else 0)
      && (s.ended.Some? ==> (s.agents.held <==> s.ended.value.OnTier?))
      && 1 <= s.attempt as int <= Attempts(s.plan) <= 255
  {
    RunInv(client, host, events);
  }

  lemma VerdictsAgree(a: Side, b: Side)
    requires Core(a) && Core(b) && Paired(a, b) && a.plan != Refused && b.plan != Refused
    requires a.verdict.Some? && b.verdict.Some? && Attempts(a.plan) >= 2
    ensures a.verdict == b.verdict && a.attempt == b.attempt
  {
    SamePlan(a, b);
    if a.verdict.value && b.verdict.value {
      SameBase(a, b);
    } else if a.verdict.value {
      NotMissed(a, b);
    } else if b.verdict.value {
      NotMissed(b, a);
    }
  }

  lemma VerdictPlanned(role: Role, s: Side)
    requires Local(role, s) && s.verdict.Some?
    ensures s.plan == PlanOf(s.hello, s.got[0].hello) && (s.plan.Climb? || s.plan.Probe?)
  {
  }

  /** Punch agreement: when both punches returned of their own accord and at least two
      attempts were agreed, they returned on the same attempt with the same verdict. */
  lemma PunchesAgree(client: Hello, host: Hello, events: seq<Event>)
    ensures var x := Run(client, host, events);
      x.client.verdict.Some? && x.host.verdict.Some? && Attempts(x.client.plan) >= 2 ==>
        x.client.verdict == x.host.verdict && x.client.attempt == x.host.attempt
  {
    RunInv(client, host, events);
    var x := Run(client, host, events);
    if x.client.verdict.Some? && x.host.verdict.Some? && Attempts(x.client.plan) >= 2 {
      InvPaired(x);
      VerdictPlanned(Client, x.client);
      VerdictPlanned(Host, x.host);
      VerdictsAgree(x.client, x.host);
    }
  }

  // ---------------------------------------------------------------- the plan of a run

  lemma ExchangeHello(s: Side, input: seq<Message>, output: seq<Message>, cut: bool)
    ensures ExchangeStep(s, input, output, cut).side.hello == s.hello
  {
  }

  lemma NextHello(x: System, e: Event, role: Role)
    requires Local(role, SideOf(x, role))
    ensures SideOf(Next(x, e), role).hello == SideOf(x, role).hello
  {
    if e.Move? && e.role == role {
      if e.act.Exchange? {
        ExchangeHello(x.client, x.toClient, x.toHost, x.toHostCut);
        ExchangeHello(x.host, x.toHost, x.toClient, x.toClientCut);
      } else {
        var s := SideOf(x, role);
        assert Step(role, s, e.act).hello == s.hello by { StepExtends(role, s, e.act); }
      }
    }
  }

  lemma {:induction false} RunHellos(c: Hello, h: Hello, events: seq<Event>, role: Role)
    ensures SideOf(Run(c, h, events), role).hello == if role == Client then c else h
  {
    if events != [] {
      var k := |events| - 1;
      RunHellos(c, h, events[..k], role);
      var x := Run(c, h, events[..k]);
      assert Local(role, SideOf(x, role)) by { RunInv(c, h, events[..k]); }
      NextHello(x, events[k], role);
    }
  }

  /** A side that has decided a plan decided the one the two Hellos determine. */
  lemma PlanSettled(c: Hello, h: Hello, events: seq<Event>, role: Role)
    requires SideOf(Run(c, h, events), role).plan != Refused
    ensures SideOf(Run(c, h, events), role).plan == PlanOf(c, h)
  {
    RunInv(c, h, events);
    RunHellos(c, h, events, Client);
    RunHellos(c, h, events, Host);
    var x := Run(c, h, events);
    InvPaired(x);
    PlanSymmetric(c, h);
    if role == Client {
      assert x.client.got[0] == x.host.sent[0];
    } else {
      assert x.host.got[0] == x.client.sent[0];
    }
  }
}
