/** Runs that exist: with a single agreed attempt the outcome swap is skipped, and then, and
    only then, the two punches can disagree; and every climb can end in a committed tier. */
module ProtocolWitness {
  import opened Bytes
  import opened Messages
  import opened Cascade
  import opened Exchange
  import opened Protocol
  import opened ProtocolInvariant
  import opened ProtocolRuns

  ghost predicate Reached(client: Hello, host: Hello, x: System) {
    exists events :: Run(client, host, events) == x
  }

  lemma ReachedNext(client: Hello, host: Hello, x: System, e: Event)
    requires Reached(client, host, x)
    ensures Reached(client, host, Next(x, e))
  {
    var events :| Run(client, host, events) == x;
    var longer := events + [e];
    assert longer[..|longer| - 1] == events;
    assert Run(client, host, longer) == Next(x, e);
  }

  function Swapped(s: Side, m: Message): Side
    requires s.io.Sending?
  {
    s.(io := Done(Some(m)), sent := s.sent + [s.io.out], got := s.got + [m])
  }

  /** Both sides are about to swap a message of kind k over idle streams. */
  ghost predicate Swapping(x: System, k: Kind) {
    && x.toHost == x.toClient == [] && !x.toHostCut && !x.toClientCut && !x.misread
    && x.client.io.Sending? && x.client.io.reply == Some(k) && Sendable(x.client.io.out) && x.client.io.out.Kind() == k
    && x.host.io.Sending? && x.host.io.reply == Some(k) && Sendable(x.host.io.out) && x.host.io.out.Kind() == k
  }

  function AfterSwap(x: System): System
    requires x.client.io.Sending? && x.host.io.Sending?
  {
    x.(client := Swapped(x.client, x.host.io.out), host := Swapped(x.host, x.client.io.out))
  }

  lemma SwapReached(client: Hello, host: Hello, x: System, k: Kind)
    requires Reached(client, host, x) && Swapping(x, k)
    ensures Reached(client, host, AfterSwap(x))
  {
    var x1 := Next(x, Move(Client, Exchange));
    var x2 := Next(x1, Move(Host, Exchange));
    var x3 := Next(x2, Move(Client, Exchange));
    var x4 := Next(x3, Move(Host, Exchange));
    ReachedNext(client, host, x, Move(Client, Exchange));
    ReachedNext(client, host, x1, Move(Host, Exchange));
    ReachedNext(client, host, x2, Move(Client, Exchange));
    ReachedNext(client, host, x3, Move(Host, Exchange));
    assert x2.toHost == [x.client.io.out] && x2.toClient == [x.host.io.out];
    assert x4 == AfterSwap(x);
  }

  /** The same act by the client and then by the host. */
  lemma BothReached(client: Hello, host: Hello, x: System, a: Act)
    requires Reached(client, host, x) && !a.Exchange?
    ensures Reached(client, host, x.(client := Step(Client, x.client, a), host := Step(Host, x.host, a)))
  {
    ReachedNext(client, host, x, Move(Client, a));
    ReachedNext(client, host, Next(x, Move(Client, a)), Move(Host, a));
  }

  const INFO := PunchInfo([1], [1], [[1]], [])

  /** Both sides stand at pc, in step and with idle streams, having decided plan. */
  ghost predicate Both(x: System, pc: Pc, plan: Plan) {
    && x.client.pc == pc && x.host.pc == pc && x.client.ended == None && x.host.ended == None
    && x.client.plan == plan && x.host.plan == plan
    && x.toHost == [] && x.toClient == [] && !x.toHostCut && !x.toClientCut && !x.misread
  }

  lemma GatherReached(c: Hello, h: Hello)
    requires (PlanOf(c, h).Climb? || PlanOf(c, h).Probe?) && Sendable(HelloMsg(c)) && Sendable(HelloMsg(h))
    ensures exists x :: Reached(c, h, x) && Both(x, Gather, PlanOf(c, h))
  {
    var x0 := Begin(c, h);
    assert Run(c, h, []) == x0;
    SwapReached(c, h, x0, HelloKind);
    var x1 := AfterSwap(x0);
    BothReached(c, h, x1, Resume);
    PlanSymmetric(c, h);
    var x2 := x1.(client := Step(Client, x1.client, Resume), host := Step(Host, x1.host, Resume));
    assert Step(Client, x1.client, Resume) == AfterHello(Client, x1.client, h);
    assert Step(Host, x1.host, Resume) == AfterHello(Host, x1.host, c);
    assert Both(x2, Gather, PlanOf(c, h));
  }

  lemma InfoReached(c: Hello, h: Hello, x: System, plan: Plan)
    requires Reached(c, h, x) && Both(x, Gather, plan)
    ensures exists y :: Reached(c, h, y) && Both(y, InfoWait(true), plan)
                        && y.client.Reply() == y.host.Reply() == Some(PunchInfoMsg(INFO))
  {
    var g := Gathered(true, true, INFO);
    BothReached(c, h, x, g);
    var x1 := x.(client := Step(Client, x.client, g), host := Step(Host, x.host, g));
    SmallMessagesFit(PunchInfoMsg(INFO));
    assert Swapping(x1, PunchInfoKind);
    SwapReached(c, h, x1, PunchInfoKind);
    var y := AfterSwap(x1);
    assert Both(y, InfoWait(true), plan);
  }

  lemma CheckFromInfo(c: Hello, h: Hello, x: System, plan: Plan)
    requires Reached(c, h, x) && Both(x, InfoWait(true), plan)
    requires x.client.Reply() == x.host.Reply() == Some(PunchInfoMsg(INFO))
    ensures exists y :: Reached(c, h, y) && Both(y, Check, plan)
  {
    BothReached(c, h, x, Resume);
    assert Both(x.(client := Step(Client, x.client, Resume), host := Step(Host, x.host, Resume)), Check, plan);
  }

  /** Both sides gathered, swapped usable credentials and are about to connect. */
  lemma CheckReached(c: Hello, h: Hello)
    requires (PlanOf(c, h).Climb? || PlanOf(c, h).Probe?) && Sendable(HelloMsg(c)) && Sendable(HelloMsg(h))
    ensures exists x :: Reached(c, h, x) && Both(x, Check, PlanOf(c, h))
  {
    var plan := PlanOf(c, h);
    GatherReached(c, h);
    var x0 :| Reached(c, h, x0) && Both(x0, Gather, plan);
    InfoReached(c, h, x0, plan);
    var x :| Reached(c, h, x) && Both(x, InfoWait(true), plan)
             && x.client.Reply() == x.host.Reply() == Some(PunchInfoMsg(INFO));
    CheckFromInfo(c, h, x, plan);
  }

  ghost predicate VerdictsDiffer(x: System) {
    x.client.verdict.Some? && x.host.verdict.Some? && x.client.verdict != x.host.verdict
  }

  lemma OneAttemptCanDiffer(c: Hello, h: Hello)
    requires PlanOf(c, h).Climb? && PlanOf(c, h).attempts == 1 && Sendable(HelloMsg(c)) && Sendable(HelloMsg(h))
    ensures exists events :: VerdictsDiffer(Run(c, h, events))
  {
    CheckReached(c, h);
    var x :| Reached(c, h, x) && Both(x, Check, PlanOf(c, h));
    var y := Next(x, Move(Client, Connected(true)));
    var z := Next(y, Move(Host, Connected(false)));
    ReachedNext(c, h, x, Move(Client, Connected(true)));
    ReachedNext(c, h, y, Move(Host, Connected(false)));
    assert y.client.verdict == Some(true) && z.client == y.client;
    assert z.host.verdict == Some(false);
    var events :| Run(c, h, events) == z;
    assert VerdictsDiffer(Run(c, h, events));
  }

  /** For peers that climb, the punch verdicts agree in every run if and only if at least
      two attempts were agreed - a condition either side can read off the two Hellos. */
  lemma PunchAgreementExactly(c: Hello, h: Hello)
    requires PlanOf(c, h).Climb? && Sendable(HelloMsg(c)) && Sendable(HelloMsg(h))
    ensures (forall events :: !VerdictsDiffer(Run(c, h, events))) <==> PlanOf(c, h).attempts >= 2
  {
    AttemptsBounds(c.attempts, h.attempts);
    if PlanOf(c, h).attempts >= 2 {
      forall events ensures !VerdictsDiffer(Run(c, h, events)) {
        RunInv(c, h, events);
        RunHellos(c, h, events, Client);
        RunHellos(c, h, events, Host);
        var x := Run(c, h, events);
        if x.client.verdict.Some? && x.host.verdict.Some? {
          VerdictPlanned(Client, x.client);
          InvPaired(x);
          assert x.client.got[0] == x.host.sent[0] == HelloMsg(h);
          PunchesAgree(c, h, events);
        }
      }
    } else {
      OneAttemptCanDiffer(c, h);
    }
  }

  // ---------------------------------------------------------------- a climb that succeeds

  /** The client's frame crosses to a host that is reading. */
  function ToHost(x: System): System
    requires x.client.io.Sending?
  {
    var c, m := x.client, x.client.io.out;
    x.(client := c.(io := if c.io.reply.Some? then Receiving(c.io.reply.value) else Done(None), sent := c.sent + [m]),
       host := x.host.(io := Done(Some(m)), got := x.host.got + [m]))
  }

  function ToClient(x: System): System
    requires x.host.io.Sending?
  {
    var h, m := x.host, x.host.io.out;
    x.(host := h.(io := if h.io.reply.Some? then Receiving(h.io.reply.value) else Done(None), sent := h.sent + [m]),
       client := x.client.(io := Done(Some(m)), got := x.client.got + [m]))
  }

  ghost predicate Idle(x: System) {
    x.toHost == [] && x.toClient == [] && !x.toHostCut && !x.toClientCut && !x.misread
  }

  lemma CrossToHost(c: Hello, h: Hello, x: System)
    requires Reached(c, h, x) && Idle(x) && x.client.io.Sending? && Sendable(x.client.io.out)
    requires x.host.io == Receiving(x.client.io.out.Kind())
    ensures Reached(c, h, ToHost(x)) && Idle(ToHost(x))
  {
    var y := Next(x, Move(Client, Exchange));
    ReachedNext(c, h, x, Move(Client, Exchange));
    ReachedNext(c, h, y, Move(Host, Exchange));
    assert y.toHost == [x.client.io.out];
    assert Next(y, Move(Host, Exchange)) == ToHost(x);
  }

  lemma CrossToClient(c: Hello, h: Hello, x: System)
    requires Reached(c, h, x) && Idle(x) && x.host.io.Sending? && Sendable(x.host.io.out)
    requires x.client.io == Receiving(x.host.io.out.Kind())
    ensures Reached(c, h, ToClient(x)) && Idle(ToClient(x))
  {
    var y := Next(x, Move(Host, Exchange));
    ReachedNext(c, h, x, Move(Host, Exchange));
    ReachedNext(c, h, y, Move(Client, Exchange));
    assert y.toClient == [x.host.io.out];
    assert Next(y, Move(Client, Exchange)) == ToClient(x);
  }

  /** Neither side has ended; the client tries rung i of the plan, which is tier t. */
  ghost predicate Trying(x: System, plan: Plan, i: nat, t: Tier) {
    && Idle(x) && x.client.ended == None && x.host.ended == None && x.client.plan == plan
    && plan.Climb? && i < |plan.cascade| && plan.cascade[i] == t && t != LIBP2P && |t| <= 9
  }

  ghost predicate Requesting(x: System, plan: Plan, i: nat, t: Tier) {
    && Trying(x, plan, i, t) && x.client.pc == RequestWait(i)
    && x.client.io == Sending(AttemptMsg(t, false), Some(AttemptKind))
    && x.host.pc == AwaitRequest && x.host.io == Receiving(AttemptKind)
  }

  ghost predicate Building(x: System, plan: Plan, i: nat, t: Tier) {
    Trying(x, plan, i, t) && x.client.pc == Dialing(i) && x.host.pc == Serving(t)
  }

  ghost predicate Committing(x: System, plan: Plan, i: nat, t: Tier) {
    && Trying(x, plan, i, t) && x.client.pc == CommitWait(i)
    && x.client.io == Sending(AttemptMsg(t, true), Some(AttemptKind))
    && x.host.pc == Active(t) && x.host.io == Receiving(AttemptKind)
  }

  ghost predicate Succeeded(x: System, t: Tier) {
    x.client.ended == Some(OnTier(t)) && x.host.pc == Committed(t) && x.host.ended == None
  }

  ghost predicate Granting(x: System, plan: Plan, i: nat, t: Tier) {
    && Trying(x, plan, i, t) && x.client.pc == RequestWait(i) && x.client.io == Receiving(AttemptKind)
    && x.host.pc == AckWait(t) && x.host.io == Sending(AttemptMsg(t, false), None)
  }

  lemma RequestSeen(c: Hello, h: Hello, x: System, plan: Plan, i: nat, t: Tier)
    requires Reached(c, h, x) && Requesting(x, plan, i, t)
    ensures exists y :: Reached(c, h, y) && Granting(y, plan, i, t)
  {
    SmallMessagesFit(AttemptMsg(t, false));
    CrossToHost(c, h, x);
    ReachedNext(c, h, ToHost(x), Move(Host, Resume));
    assert Granting(Next(ToHost(x), Move(Host, Resume)), plan, i, t);
  }

  lemma ClientProceeds(s: Side, i: nat, t: Tier, commit: bool)
    requires s.ended == None && s.io == Done(Some(AttemptMsg(t, commit))) && RungAt(s.plan, i) == t
    requires s.pc == if commit then CommitWait(i) else RequestWait(i)
    ensures Step(Client, s, Resume) ==
      if commit then s.EndWith(OnTier(t)) else s.(pc := Dialing(i), open := Some(t), starts := s.starts + 1)
  {
  }

  lemma HostProceeds(s: Side, t: Tier, commit: bool)
    requires s.ended == None && s.io == Done(None) && s.pc == if commit then CommitAckWait(t) else AckWait(t)
    ensures Step(Host, s, Resume) ==
      if commit then s.(pc := Committed(t)) else s.(pc := Serving(t), open := Some(t), starts := s.starts + 1)
  {
  }

  lemma HostSeesCommit(s: Side, t: Tier)
    requires s.ended == None && s.io == Done(Some(AttemptMsg(t, true))) && s.pc == Active(t)
    ensures Step(Host, s, Resume) == s.Start(CommitAckWait(t), AttemptMsg(t, true), None)
  {
  }

  lemma RequestGranted(c: Hello, h: Hello, x: System, plan: Plan, i: nat, t: Tier)
    requires Reached(c, h, x) && Granting(x, plan, i, t)
    ensures exists y :: Reached(c, h, y) && Building(y, plan, i, t)
  {
    SmallMessagesFit(AttemptMsg(t, false));
    CrossToClient(c, h, x);
    var z := ToClient(x);
    BothReached(c, h, z, Resume);
    ClientProceeds(z.client, i, t, false);
    HostProceeds(z.host, t, false);
    assert Building(z.(client := Step(Client, z.client, Resume), host := Step(Host, z.host, Resume)), plan, i, t);
  }

  lemma BothBuilt(c: Hello, h: Hello, x: System, plan: Plan, i: nat, t: Tier)
    requires Reached(c, h, x) && Building(x, plan, i, t)
    ensures exists y :: Reached(c, h, y) && Committing(y, plan, i, t)
  {
    BothReached(c, h, x, Built(CameUp));
    var y := x.(client := Step(Client, x.client, Built(CameUp)), host := Step(Host, x.host, Built(CameUp)));
    assert Committing(y, plan, i, t);
  }

  ghost predicate Acking(x: System, plan: Plan, i: nat, t: Tier) {
    && Trying(x, plan, i, t) && x.client.pc == CommitWait(i) && x.client.io == Receiving(AttemptKind)
    && x.host.pc == CommitAckWait(t) && x.host.io == Sending(AttemptMsg(t, true), None)
  }

  lemma CommitSeen(c: Hello, h: Hello, x: System, plan: Plan, i: nat, t: Tier)
    requires Reached(c, h, x) && Committing(x, plan, i, t)
    ensures exists y :: Reached(c, h, y) && Acking(y, plan, i, t)
  {
    SmallMessagesFit(AttemptMsg(t, true));
    CrossToHost(c, h, x);
    ReachedNext(c, h, ToHost(x), Move(Host, Resume));
    HostSeesCommit(ToHost(x).host, t);
    assert Acking(Next(ToHost(x), Move(Host, Resume)), plan, i, t);
  }

  lemma CommitGranted(c: Hello, h: Hello, x: System, plan: Plan, i: nat, t: Tier)
    requires Reached(c, h, x) && Acking(x, plan, i, t)
    ensures exists y :: Reached(c, h, y) && Succeeded(y, t)
  {
    SmallMessagesFit(AttemptMsg(t, true));
    CrossToClient(c, h, x);
    var z := ToClient(x);
    BothReached(c, h, z, Resume);
    ClientProceeds(z.client, i, t, true);
    HostProceeds(z.host, t, true);
    assert Succeeded(z.(client := Step(Client, z.client, Resume), host := Step(Host, z.host, Resume)), t);
  }

  lemma OutcomeSwapped(c: Hello, h: Hello, x: System)
    requires Reached(c, h, x) && Both(x, Check, PlanOf(c, h)) && PlanOf(c, h).Climb? && PlanOf(c, h).attempts >= 2
    ensures exists y :: Reached(c, h, y) && Both(y, OutcomeWait(true), PlanOf(c, h))
                        && y.client.Reply() == y.host.Reply() == Some(OutcomeMsg(true))
  {
    var a := Connected(true);
    BothReached(c, h, x, a);
    var x1 := x.(client := Step(Client, x.client, a), host := Step(Host, x.host, a));
    SmallMessagesFit(OutcomeMsg(true));
    assert Swapping(x1, OutcomeKind);
    SwapReached(c, h, x1, OutcomeKind);
    assert Both(AfterSwap(x1), OutcomeWait(true), PlanOf(c, h));
  }

  lemma UpperRung(c: Hello, h: Hello, i: nat)
    requires PlanOf(c, h).Climb? && i < |PlanOf(c, h).cascade|
    ensures PlanOf(c, h).cascade[0] != LIBP2P
    ensures PlanOf(c, h).cascade[i] != LIBP2P ==>
      |PlanOf(c, h).cascade[i]| <= 9 && forall k | 0 <= k < i :: PlanOf(c, h).cascade[k] != LIBP2P
  {
    CascadeMeaning(c, h, []);
  }

  /** The last act of a punch that lands on both sides, and the request that follows. */
  lemma PunchLands(c: Hello, h: Hello, x: System, a: Act)
    requires Reached(c, h, x) && PlanOf(c, h).Climb? && !a.Exchange?
    requires
      || (Both(x, Check, PlanOf(c, h)) && PlanOf(c, h).attempts == 1 && a == Connected(true))
      || (Both(x, OutcomeWait(true), PlanOf(c, h)) && a == Resume
          && x.client.Reply() == x.host.Reply() == Some(OutcomeMsg(true)))
    ensures exists y :: Reached(c, h, y) && Requesting(y, PlanOf(c, h), 0, PlanOf(c, h).cascade[0])
  {
    UpperRung(c, h, 0);
    BothReached(c, h, x, a);
    var y := x.(client := Step(Client, x.client, a), host := Step(Host, x.host, a));
    assert Step(Client, x.client, a) == PunchLanded(Client, x.client);
    assert Step(Host, x.host, a) == PunchLanded(Host, x.host);
    assert Requesting(y, PlanOf(c, h), 0, PlanOf(c, h).cascade[0]);
  }

  /** The host is about to acknowledge the request for the first rung. */
  lemma FirstRungGranted(c: Hello, h: Hello)
    requires PlanOf(c, h).Climb? && Sendable(HelloMsg(c)) && Sendable(HelloMsg(h))
    ensures exists x :: Reached(c, h, x) && Granting(x, PlanOf(c, h), 0, PlanOf(c, h).cascade[0])
  {
    var t, plan := PlanOf(c, h).cascade[0], PlanOf(c, h);
    CheckReached(c, h);
    var x :| Reached(c, h, x) && Both(x, Check, plan);
    AttemptsBounds(c.attempts, h.attempts);
    if plan.attempts == 1 {
      PunchLands(c, h, x, Connected(true));
    } else {
      OutcomeSwapped(c, h, x);
      var o :| Reached(c, h, o) && Both(o, OutcomeWait(true), plan)
               && o.client.Reply() == o.host.Reply() == Some(OutcomeMsg(true));
      PunchLands(c, h, o, Resume);
    }
    var r :| Reached(c, h, r) && Requesting(r, plan, 0, t);
    RequestSeen(c, h, r, plan, 0, t);
  }

  lemma ClientMisses(s: Side, i: nat, u: Tier)
    requires s.ended == None && s.pc == Dialing(i) && RungAt(s.plan, i + 1) == u && u != LIBP2P
    ensures Step(Client, s, Built(DidNotComeUp)) ==
      CloseRung(s).Start(RequestWait(i + 1), AttemptMsg(u, false), Some(AttemptKind))
  {
  }

  lemma HostMisses(s: Side, t: Tier)
    requires s.ended == None && s.pc == Serving(t)
    ensures Step(Host, s, Built(DidNotComeUp)) == CloseRung(s).(pc := AwaitRequest, io := Receiving(AttemptKind))
    ensures Step(Host, s, Built(CameUp)) == s.(pc := Active(t), ups := s.ups + [t], io := Receiving(AttemptKind))
  {
  }

  /** Rung i comes up on neither side: the client requests the next, and a host that waits for
      it acknowledges. */
  lemma NeitherCameUp(c: Hello, h: Hello, x: System, plan: Plan, i: nat, t: Tier, u: Tier)
    requires Reached(c, h, x) && Building(x, plan, i, t) && x.host.io.Done?
    requires i + 1 < |plan.cascade| && plan.cascade[i + 1] == u && u != LIBP2P && |u| <= 9
    ensures exists y :: Reached(c, h, y) && Granting(y, plan, i + 1, u)
  {
    var fail := Built(DidNotComeUp);
    BothReached(c, h, x, fail);
    var y := x.(client := Step(Client, x.client, fail), host := Step(Host, x.host, fail));
    ClientMisses(x.client, i, u);
    HostMisses(x.host, t);
    assert Requesting(y, plan, i + 1, u);
    RequestSeen(c, h, y, plan, i + 1, u);
  }

  /** It comes up on the host alone: the client requests the next, and the host, seeing that,
      tears its own down first. */
  ghost predicate HostAlone(x: System, plan: Plan, i: nat, t: Tier, u: Tier) {
    && Trying(x, plan, i + 1, u) && x.client.pc == RequestWait(i + 1)
    && x.client.io == Sending(AttemptMsg(u, false), Some(AttemptKind))
    && x.host.pc == Active(t) && x.host.io == Receiving(AttemptKind) && !x.host.abandoned
  }

  lemma HostSeesNext(s: Side, t: Tier, u: Tier)
    requires s.ended == None && s.io == Done(Some(AttemptMsg(u, false))) && s.pc == Active(t) && u != LIBP2P
    ensures Step(Host, s, Resume) == s.(pc := Tearing(t, Some(AttemptMsg(u, false))))
    ensures !s.abandoned ==>
      var torn := Step(Host, Step(Host, s, Resume), TornDown(false));
      torn.pc == AckWait(u) && torn.io == Sending(AttemptMsg(u, false), None) && torn.ended == None
  {
  }

  lemma TornDownReached(c: Hello, h: Hello, x: System)
    requires Reached(c, h, x)
    ensures Reached(c, h, x.(host := Step(Host, Step(Host, x.host, Resume), TornDown(false))))
  {
    ReachedNext(c, h, x, Move(Host, Resume));
    var y := Next(x, Move(Host, Resume));
    ReachedNext(c, h, y, Move(Host, TornDown(false)));
    assert Next(y, Move(Host, TornDown(false))) == x.(host := Step(Host, y.host, TornDown(false)));
  }

  lemma HostCatchesUp(c: Hello, h: Hello, x: System, plan: Plan, i: nat, t: Tier, u: Tier)
    requires Reached(c, h, x) && HostAlone(x, plan, i, t, u)
    ensures exists y :: Reached(c, h, y) && Granting(y, plan, i + 1, u)
  {
    SmallMessagesFit(AttemptMsg(u, false));
    CrossToHost(c, h, x);
    var z := ToHost(x);
    HostSeesNext(z.host, t, u);
    TornDownReached(c, h, z);
    assert Granting(z.(host := Step(Host, Step(Host, z.host, Resume), TornDown(false))), plan, i + 1, u);
  }

  lemma OnlyHostCameUp(c: Hello, h: Hello, x: System, plan: Plan, i: nat, t: Tier, u: Tier)
    requires Reached(c, h, x) && Building(x, plan, i, t) && !x.host.abandoned
    requires i + 1 < |plan.cascade| && plan.cascade[i + 1] == u && u != LIBP2P && |u| <= 9
    ensures exists y :: Reached(c, h, y) && Granting(y, plan, i + 1, u)
  {
    ReachedNext(c, h, x, Move(Client, Built(DidNotComeUp)));
    var y := Next(x, Move(Client, Built(DidNotComeUp)));
    ReachedNext(c, h, y, Move(Host, Built(CameUp)));
    ClientMisses(x.client, i, u);
    HostMisses(x.host, t);
    assert HostAlone(Next(y, Move(Host, Built(CameUp))), plan, i, t, u);
    HostCatchesUp(c, h, Next(y, Move(Host, Built(CameUp))), plan, i, t, u);
  }

  /** Every rung of the cascade above the floor is reached, in some run, once the rungs before
      it have failed; ups says which of those came up on the host. */
  lemma {:induction false} RungReached(c: Hello, h: Hello, i: nat, ups: seq<bool>)
    requires PlanOf(c, h).Climb? && Sendable(HelloMsg(c)) && Sendable(HelloMsg(h))
    requires i < |PlanOf(c, h).cascade| && PlanOf(c, h).cascade[i] != LIBP2P && i <= |ups|
    ensures exists x :: Reached(c, h, x) && Building(x, PlanOf(c, h), i, PlanOf(c, h).cascade[i])
  {
    var plan := PlanOf(c, h);
    UpperRung(c, h, i);
    if i == 0 {
      FirstRungGranted(c, h);
    } else {
      RungReached(c, h, i - 1, ups);
      var b :| Reached(c, h, b) && Building(b, plan, i - 1, plan.cascade[i - 1]);
      ServingIsQuiet(c, h, b);
      if ups[i - 1] {
        OnlyHostCameUp(c, h, b, plan, i - 1, plan.cascade[i - 1], plan.cascade[i]);
      } else {
        NeitherCameUp(c, h, b, plan, i - 1, plan.cascade[i - 1], plan.cascade[i]);
      }
    }
    var g :| Reached(c, h, g) && Granting(g, plan, i, plan.cascade[i]);
    RequestGranted(c, h, g, plan, i, plan.cascade[i]);
  }

  /** Whatever the two Hellos agree to climb, and whichever rung above the floor is the first
      to come up on both sides, there is a run in which the client returns success on that
      rung and the host has committed it, whether or not the rungs that failed before it had
      come up on the host. */
  lemma EveryRungCanSucceed(c: Hello, h: Hello, i: nat, ups: seq<bool>)
    requires PlanOf(c, h).Climb? && Sendable(HelloMsg(c)) && Sendable(HelloMsg(h))
    requires i < |PlanOf(c, h).cascade| && PlanOf(c, h).cascade[i] != LIBP2P && i <= |ups|
    ensures exists events :: Succeeded(Run(c, h, events), PlanOf(c, h).cascade[i])
  {
    var t, plan := PlanOf(c, h).cascade[i], PlanOf(c, h);
    RungReached(c, h, i, ups);
    var b :| Reached(c, h, b) && Building(b, plan, i, t);
    BothBuilt(c, h, b, plan, i, t);
    var m :| Reached(c, h, m) && Committing(m, plan, i, t);
    CommitSeen(c, h, m, plan, i, t);
    var k :| Reached(c, h, k) && Acking(k, plan, i, t);
    CommitGranted(c, h, k, plan, i, t);
    var z :| Reached(c, h, z) && Succeeded(z, t);
    var events :| Run(c, h, events) == z;
  }

  /** In particular the first rung can: the safety results are not about an empty set of runs. */
  lemma EveryClimbCanSucceed(c: Hello, h: Hello)
    requires PlanOf(c, h).Climb? && Sendable(HelloMsg(c)) && Sendable(HelloMsg(h))
    ensures exists events :: Succeeded(Run(c, h, events), PlanOf(c, h).cascade[0])
  {
    UpperRung(c, h, 0);
    EveryRungCanSucceed(c, h, 0, []);
  }

  // ---------------------------------------------------------------- a climb that fails

  /** The client's last rung has failed and it has told the host so. */
  ghost predicate Settling(x: System) {
    && Idle(x) && x.client.ended == None && x.host.ended == None
    && x.client.pc == FloorWait && x.client.io == Sending(AttemptMsg(LIBP2P, false), None)
    && x.host.pc == AwaitRequest && x.host.io == Receiving(AttemptKind)
  }

  lemma ClientSettles(s: Side)
    requires s.ended == None && s.pc == FloorWait && s.io.Done?
    ensures Step(Client, s, Resume) == s.Release().EndWith(OnFloor)
  {
  }

  lemma HostSettles(s: Side)
    requires s.ended == None && s.pc == AwaitRequest && s.io == Done(Some(AttemptMsg(LIBP2P, false)))
    ensures Step(Host, s, Resume) == s.Release().EndWith(HostDone)
  {
  }

  lemma FloorReached(c: Hello, h: Hello, x: System)
    requires Reached(c, h, x) && Settling(x)
    ensures exists y :: Reached(c, h, y) && y.client.ended == Some(OnFloor) && y.host.ended == Some(HostDone)
  {
    SmallMessagesFit(AttemptMsg(LIBP2P, false));
    CrossToHost(c, h, x);
    BothReached(c, h, ToHost(x), Resume);
    var z := ToHost(x);
    ClientSettles(z.client);
    HostSettles(z.host);
    var y := z.(client := Step(Client, z.client, Resume), host := Step(Host, z.host, Resume));
    assert y.client.ended == Some(OnFloor) && y.host.ended == Some(HostDone);
  }

  /** Rung i is the last of the cascade above the floor. */
  predicate LastRung(plan: Plan, i: nat) {
    && plan.Climb? && i < |plan.cascade| && plan.cascade[i] != LIBP2P
    && (i + 1 == |plan.cascade| || plan.cascade[i + 1] == LIBP2P)
  }

  lemma ClientMissesLast(s: Side, i: nat)
    requires s.ended == None && s.pc == Dialing(i) && s.plan.Climb? && RungAt(s.plan, i + 1) == LIBP2P
    ensures Step(Client, s, Built(DidNotComeUp)) ==
      if s.plan.required then CloseRung(s).Release().EndWith(Failed)
      else CloseRung(s).Start(FloorWait, AttemptMsg(LIBP2P, false), None)
  {
  }

  lemma LastRungFails(c: Hello, h: Hello, x: System, plan: Plan, i: nat)
    requires LastRung(plan, i)
    requires Reached(c, h, x) && Building(x, plan, i, plan.cascade[i]) && x.host.io.Done?
    ensures exists y :: Reached(c, h, y) && if plan.required then y.client.ended == Some(Failed) else Settling(y)
  {
    var fail := Built(DidNotComeUp);
    BothReached(c, h, x, fail);
    var y := x.(client := Step(Client, x.client, fail), host := Step(Host, x.host, fail));
    ClientMissesLast(x.client, i);
    HostMisses(x.host, plan.cascade[i]);
    if plan.required {
      assert y.client.ended == Some(Failed);
    } else {
      assert Settling(y);
    }
  }

  /** When the last rung fails too, a session whose tier nobody pinned settles on the floor on
      both sides, and one pinned to a tier fails. */
  lemma LastRungCanFail(c: Hello, h: Hello, i: nat, ups: seq<bool>)
    requires Sendable(HelloMsg(c)) && Sendable(HelloMsg(h)) && LastRung(PlanOf(c, h), i) && i <= |ups|
    ensures Unpinned(c, h) ==> exists events ::
      Run(c, h, events).client.ended == Some(OnFloor) && Run(c, h, events).host.ended == Some(HostDone)
    ensures !Unpinned(c, h) ==> exists events :: Run(c, h, events).client.ended == Some(Failed)
  {
    var plan := PlanOf(c, h);
    PlanExactly(c, h);
    RungReached(c, h, i, ups);
    var x :| Reached(c, h, x) && Building(x, plan, i, plan.cascade[i]);
    ServingIsQuiet(c, h, x);
    LastRungFails(c, h, x, plan, i);
    var y :| Reached(c, h, y) && if plan.required then y.client.ended == Some(Failed) else Settling(y);
    if Unpinned(c, h) {
      FloorReached(c, h, y);
      var z :| Reached(c, h, z) && z.client.ended == Some(OnFloor) && z.host.ended == Some(HostDone);
      var events :| Run(c, h, events) == z;
    } else {
      var events :| Run(c, h, events) == y;
    }
  }

  /** A probe, too, can land: both sides connect, and then both let their agents go. */
  lemma EveryProbeCanLand(c: Hello, h: Hello)
    requires PlanOf(c, h).Probe? && Sendable(HelloMsg(c)) && Sendable(HelloMsg(h))
    ensures exists events :: var x := Run(c, h, events);
      && x.client.verdict == Some(true) && x.host.verdict == Some(true)
      && x.client.ended == Some(OnFloor) && x.host.ended == Some(HostDone)
      && !x.client.agents.held && !x.host.agents.held
  {
    CheckReached(c, h);
    var x :| Reached(c, h, x) && Both(x, Check, PlanOf(c, h));
    var a := Connected(true);
    BothReached(c, h, x, a);
    var y := x.(client := Step(Client, x.client, a), host := Step(Host, x.host, a));
    var events :| Run(c, h, events) == y;
    assert y.client == PunchLanded(Client, x.client) && y.host == PunchLanded(Host, x.host);
  }

  // ---------------------------------------------------------------- a side that has to time out

  /** Nothing but a timeout or a cut changes anything any more, though the client goes on. */
  ghost predicate Stalled(x: System) {
    && x.client.ended == None && !x.toHostCut && !x.toClientCut
    && forall role: Role, act: Act | !act.Timeout? :: Next(x, Move(role, act)) == x
  }

  lemma StallsWithoutHost(x: System, i: nat)
    requires x.client.ended == None && x.client.pc == CommitWait(i) && x.client.io == Receiving(AttemptKind)
    requires x.host.ended.Some? && x.host.io.Done? && x.toClient == [] && !x.toHostCut && !x.toClientCut
    ensures Stalled(x)
  {
    forall role: Role, act: Act | !act.Timeout? ensures Next(x, Move(role, act)) == x {
      if !act.Exchange? {
        assert Step(Client, x.client, act) == x.client && Step(Host, x.host, act) == x.host;
      }
    }
  }

  /** The host's substrate dies under the rung the client is about to commit. */
  lemma HostGone(x: System, plan: Plan, i: nat, t: Tier)
    requires Building(x, plan, i, t) && x.host.io.Done? && Sendable(AttemptMsg(t, true))
    ensures var y := Next(Next(x, Move(Client, Built(CameUp))), Move(Host, Built(SubstrateAbandoned)));
      Stalled(Next(y, Move(Client, Exchange)))
  {
    var y := Next(Next(x, Move(Client, Built(CameUp))), Move(Host, Built(SubstrateAbandoned)));
    assert y.client.pc == CommitWait(i) && y.client.io == Sending(AttemptMsg(t, true), Some(AttemptKind));
    assert y.host.ended.Some? && y.host.io.Done?;
    StallsWithoutHost(Next(y, Move(Client, Exchange)), i);
  }

  lemma ServingIsQuiet(c: Hello, h: Hello, x: System)
    requires Reached(c, h, x) && x.host.pc.Serving? && x.host.ended == None
    ensures x.host.io.Done? && !x.host.abandoned
  {
    var events :| Run(c, h, events) == x;
    RunInv(c, h, events);
    assert Placed(TrackOf(x.host));
  }

  /** Once the host has ended, though, the client may have nothing left but its deadline. */
  lemma HostGoneStalls(c: Hello, h: Hello)
    requires PlanOf(c, h).Climb? && Sendable(HelloMsg(c)) && Sendable(HelloMsg(h))
    ensures exists events :: Stalled(Run(c, h, events))
  {
    var t, plan := PlanOf(c, h).cascade[0], PlanOf(c, h);
    UpperRung(c, h, 0);
    RungReached(c, h, 0, []);
    var x :| Reached(c, h, x) && Building(x, plan, 0, t);
    ServingIsQuiet(c, h, x);
    SmallMessagesFit(AttemptMsg(t, true));
    HostGone(x, plan, 0, t);
    var up, gone := Move(Client, Built(CameUp)), Move(Host, Built(SubstrateAbandoned));
    ReachedNext(c, h, x, up);
    ReachedNext(c, h, Next(x, up), gone);
    ReachedNext(c, h, Next(Next(x, up), gone), Move(Client, Exchange));
    var events :| Run(c, h, events) == Next(Next(Next(x, up), gone), Move(Client, Exchange));
    assert Stalled(Run(c, h, events));
  }
}
