/** One peer session of internal/tunnel/tier.go: the Hello swap, the lockstep NAT punch
    and the climb up the fallback cascade, as two processes joined by two FIFO streams.

    Each side is a program counter plus one exchange slot. A phase that times out, or
    whose stream fails, ends the process but leaves its exchange goroutine in flight, so
    an abandoned send may still reach the peer and an abandoned read may still consume a
    frame; the process never starts another exchange. ICE, the tier engines and every
    deadline are arbitrary outcomes, chosen by the event. */
module Protocol {
  import opened Bytes
  import opened Messages
  import opened Cascade
  import opened Exchange

  datatype Role = Client | Host

  /** The exchange goroutine: idle slots do not exist, since a process starts with its
      Hello swap; `Done` keeps what the last exchange produced. */
  datatype Io =
    | Sending(out: Message, reply: Option<Kind>)
    | Receiving(kind: Kind)
    | Done(result: Option<Message>)

  datatype RungOutcome = CameUp | DidNotComeUp | SubstrateAbandoned

  datatype Pc =
    | HelloWait
    // the punch, run by both roles
    | Gather
    | InfoWait(gathered: bool)
    | Check
    | OutcomeWait(landed: bool)
    // the client's climb
    | RequestWait(rung: nat)
    | Dialing(rung: nat)
    | CommitWait(rung: nat)
    | FloorWait
    // the host's service
    | AwaitRequest
    | AckWait(tier: Tier)
    | Serving(tier: Tier)
    | Active(tier: Tier)
    | Tearing(tier: Tier, next: Option<Message>)
    | CommitAckWait(tier: Tier)
    | Committed(tier: Tier)

  datatype Result =
    | OnTier(tier: Tier)  // the client's rung is committed
    | OnFloor             // the client settled on libp2p with no error
    | Failed              // the client returned an error
    | CommitUncertain     // the client returned errRungCommit
    | HostDone

  /** Agents are counted rather than named: at most one is held at a time. */
  datatype Agents = Agents(created: nat, closed: nat, held: bool)

  datatype Side = Side(
    hello: Hello,
    pc: Pc,
    ended: Option<Result>,
    plan: Plan,               // decided from the two Hellos, Refused until then
    io: Io,
    sent: seq<Message>,       // every frame this side put on its stream
    got: seq<Message>,        // every frame it decoded
    attempt: Byte,            // uint8 counter of the punch loop
    verdict: Option<bool>,    // how the punch returned, if its stream did not fail
    base: nat,                // index of the first Attempt frame, once the punch landed
    req: nat,                 // index of the request the host is acting on
    agents: Agents,
    open: Option<Tier>,       // the rung this side has on the punched substrate
    ups: seq<Tier>,           // rungs that came up on this side
    starts: nat,              // rungs this side began to build
    abandoned: bool)          // this side saw its substrate abandoned
  {
    function EndWith(r: Result): Side {
      this.(ended := Some(r))
    }

    /** releasePunch, and every deferred agent.Close. */
    function Release(): Side {
      if agents.held then this.(agents := Agents(agents.created, agents.closed + 1, false)) else this
    }

    function Start(pc: Pc, out: Message, reply: Option<Kind>): Side {
      this.(pc := pc, io := Sending(out, reply))
    }

    /** The frame an awaited exchange produced, if it has completed with one. */
    function Reply(): Option<Message> {
      if io.Done? then io.result else None
    }
  }

  function Initial(hello: Hello): Side {
    Side(hello, HelloWait, None, Refused, Sending(HelloMsg(hello), Some(HelloKind)), [], [], 1, None, 0, 0,
         Agents(0, 0, false), None, [], 0, false)
  }

  // ---------------------------------------------------------------- the punch

  /** What a process returns when it ends without an upper tier. */
  function FailResult(role: Role, s: Side): Result {
    if role == Host then HostDone
    else if s.plan.Climb? && s.plan.required then Failed
    else OnFloor
  }

  /** The punch landed: a probe discards it, a session goes on to its rungs. */
  function PunchLanded(role: Role, s: Side): Side {
    var s := s.(verdict := Some(true), base := |s.sent|);
    if !s.plan.Climb? then s.Release().EndWith(FailResult(role, s))
    else if role == Host then s.(pc := AwaitRequest, io := Receiving(AttemptKind))
    else NextRung(s, 0)
  }

  function PunchMissed(role: Role, s: Side): Side {
    s.(verdict := Some(false)).EndWith(FailResult(role, s))
  }

  /** punchOnce returned; with one agreed attempt its answer is final. */
  function AfterOnce(role: Role, s: Side, landed: bool): Side {
    if Attempts(s.plan) == 1 then
      if landed then PunchLanded(role, s) else PunchMissed(role, s)
    else
      s.Start(OutcomeWait(landed), OutcomeMsg(landed), Some(OutcomeKind))
  }

  function AfterOutcome(role: Role, s: Side, agreed: bool): Side {
    if agreed then PunchLanded(role, s)
    else
      var s := s.Release();
      if s.attempt >= Attempts(s.plan) then PunchMissed(role, s)
      else s.(pc := Gather, attempt := (s.attempt as int + 1) % 256)
  }

  function AfterHello(role: Role, s: Side, peer: Hello): Side {
    var s := s.(plan := PlanOf(s.hello, peer));
    match s.plan
    case Refused => s.EndWith(if role == Host then HostDone else Failed)
    case FloorOnly => s.EndWith(FailResult(role, s))
    case _ => s.(pc := Gather)
  }

  // ---------------------------------------------------------------- the client's climb

  function NextRung(s: Side, i: nat): Side {
    if RungAt(s.plan, i) != LIBP2P then
      s.Start(RequestWait(i), AttemptMsg(RungAt(s.plan, i), false), Some(AttemptKind))
    else GiveUp(s)
  }

  function GiveUp(s: Side): Side {
    if s.plan.Climb? && s.plan.required then s.Release().EndWith(Failed)
    else s.Start(FloorWait, AttemptMsg(LIBP2P, false), None)
  }

  function CloseRung(s: Side): Side {
    s.(open := None)
  }

  /** Rung i of the cascade; past its end there is only the floor. */
  function RungAt(plan: Plan, i: nat): Tier {
    if plan.Climb? && i < |plan.cascade| then plan.cascade[i] else LIBP2P
  }

  // ---------------------------------------------------------------- the host's service

  /** The top of serveUpperTiers' loop, with a request in hand. */
  function Pending(s: Side, request: Message): Side {
    if !request.AttemptMsg? || request.tier == LIBP2P || request.commit then s.Release().EndWith(HostDone)
    else s.(req := if s.got == [] then 0 else |s.got| - 1)
          .Start(AckWait(request.tier), AttemptMsg(request.tier, false), None)
  }

  // ---------------------------------------------------------------- process steps

  datatype Act =
    | Exchange                                          // the exchange goroutine moves
    | Timeout                                           // a deadline or stream error while waiting
    | Resume                                            // the awaited exchange completed
    | Gathered(agent: bool, ok: bool, info: PunchInfo)  // the agent factory returned
    | Connected(ok: bool)                               // AddRemote and Connect returned
    | Built(outcome: RungOutcome)                       // Dial or Serve returned
    | RungDied(abandoned: bool)                         // the host's rung closed under it
    | TierStopped                                       // serveRung's tierCtx is done
    | TornDown(abandoned: bool)                         // the host's teardown finished

  function HelloStep(role: Role, s: Side, a: Act): Side {
    if a.Timeout? then s.EndWith(if role == Host then HostDone else Failed)
    else if a.Resume? && s.Reply().Some? && s.Reply().value.HelloMsg? then
      AfterHello(role, s, s.Reply().value.hello)
    else s
  }

  function PunchStep(role: Role, s: Side, a: Act): Side {
    match s.pc
    case Gather =>
      if a.Gathered? && (a.ok ==> a.agent) && (!a.ok ==> !a.info.Usable()) then
        var made := if a.agent then 1 else 0;
        s.(agents := Agents(s.agents.created + made, s.agents.closed, a.agent))
         .Start(InfoWait(a.ok), PunchInfoMsg(a.info), Some(PunchInfoKind))
      else s
    case InfoWait(gathered) =>
      if a.Timeout? then s.Release().EndWith(FailResult(role, s))
      else if a.Resume? && s.Reply().Some? && s.Reply().value.PunchInfoMsg? then
        if gathered && s.Reply().value.info.Usable() then s.(pc := Check)
        else AfterOnce(role, s.Release(), false)
      else s
    case Check =>
      if a.Connected? then AfterOnce(role, if a.ok then s else s.Release(), a.ok) else s
    case OutcomeWait(landed) =>
      if a.Timeout? then s.Release().EndWith(FailResult(role, s))
      else if a.Resume? && s.Reply().Some? && s.Reply().value.OutcomeMsg? then
        AfterOutcome(role, s, landed && s.Reply().value.ok)
      else s
    case _ => s
  }

  function ClientStep(s: Side, a: Act): Side {
    match s.pc
    case RequestWait(i) =>
      if a.Timeout? then s.Release().EndWith(FailResult(Client, s))
      else if a.Resume? && s.Reply().Some? then
        if s.Reply().value == AttemptMsg(RungAt(s.plan, i), false) then
          s.(pc := Dialing(i), open := Some(RungAt(s.plan, i)), starts := s.starts + 1)
        else s.Release().EndWith(FailResult(Client, s))
      else s
    case Dialing(i) =>
      if !a.Built? then s else (
        match a.outcome
        case CameUp =>
          s.(ups := s.ups + [RungAt(s.plan, i)])
           .Start(CommitWait(i), AttemptMsg(RungAt(s.plan, i), true), Some(AttemptKind))
        case DidNotComeUp => NextRung(CloseRung(s), i + 1)
        case SubstrateAbandoned => GiveUp(CloseRung(s).(abandoned := true))
      )
    case CommitWait(i) =>
      if a.Timeout? then CloseRung(s).Release().EndWith(CommitUncertain)
      else if a.Resume? && s.Reply().Some? then
        if s.Reply().value == AttemptMsg(RungAt(s.plan, i), true) then s.EndWith(OnTier(RungAt(s.plan, i)))
        else CloseRung(s).Release().EndWith(CommitUncertain)
      else s
    case FloorWait =>
      if a.Timeout? || (a.Resume? && s.io.Done?) then s.Release().EndWith(OnFloor) else s
    case _ => s
  }

  function HostStep(s: Side, a: Act): Side {
    match s.pc
    case AwaitRequest =>
      if a.Timeout? then s.Release().EndWith(HostDone)
      else if a.Resume? && s.Reply().Some? then Pending(s, s.Reply().value)
      else s
    case AckWait(t) =>
      if a.Timeout? then s.Release().EndWith(HostDone)
      else if a.Resume? && s.io.Done? then s.(pc := Serving(t), open := Some(t), starts := s.starts + 1)
      else s
    case Serving(t) =>
      if !a.Built? then s else (
        match a.outcome
        case CameUp => s.(pc := Active(t), ups := s.ups + [t], io := Receiving(AttemptKind))
        case DidNotComeUp => CloseRung(s).(pc := AwaitRequest, io := Receiving(AttemptKind))
        case SubstrateAbandoned => CloseRung(s).(abandoned := true).Release().EndWith(HostDone)
      )
    case Active(t) =>
      if a.RungDied? then RungGone(s, a.abandoned)
      else if a.TierStopped? then s.(pc := Tearing(t, None))
      else if a.Resume? && s.Reply().Some? && s.Reply().value.AttemptMsg? then
        var m := s.Reply().value;
        if !m.commit then s.(pc := Tearing(t, Some(m)))
        else if m.tier != t then s.(pc := Tearing(t, None))
        else s.Start(CommitAckWait(t), AttemptMsg(t, true), None)
      else s
    case Tearing(t, next) =>
      if !a.TornDown? then s
      else
        var s := RungGone(s, a.abandoned);
        if next.Some? && !s.abandoned then Pending(s, next.value) else s.Release().EndWith(HostDone)
    case CommitAckWait(t) =>
      if a.RungDied? then RungGone(s, a.abandoned)
      else if a.Timeout? then s.(pc := Tearing(t, None))
      else if a.Resume? && s.io.Done? then s.(pc := Committed(t))
      else s
    case Committed(t) =>
      if a.RungDied? then RungGone(s, a.abandoned)
      else if a.TierStopped? then CloseRung(s).Release().EndWith(HostDone)
      else s
    case _ => s
  }

  /** rung.Close runs once, so only the close that removes the rung can abandon. */
  function RungGone(s: Side, abandoned: bool): Side {
    if s.open == None then s else CloseRung(s).(abandoned := s.abandoned || abandoned)
  }

  /** One step of a process; an event that is not enabled changes nothing. */
  function Step(role: Role, s: Side, a: Act): Side {
    if s.ended.Some? then s
    else if s.pc.HelloWait? then HelloStep(role, s, a)
    else if s.pc.Gather? || s.pc.InfoWait? || s.pc.Check? || s.pc.OutcomeWait? then PunchStep(role, s, a)
    else if role == Client then ClientStep(s, a)
    else HostStep(s, a)
  }

  // ---------------------------------------------------------------- the two-party system

  datatype System = System(
    client: Side, host: Side,
    toHost: seq<Message>, toClient: seq<Message>,
    toHostCut: bool, toClientCut: bool,
    misread: bool)             // some frame was decoded as a type it was not encoded from

  datatype Event =
    | Move(role: Role, act: Act)
    | Cut(sender: Role, keep: nat)  // the stream from sender breaks, losing all but keep frames

  /** What one exchange goroutine does to its side and its two streams. */
  datatype Exchanged = Exchanged(side: Side, input: seq<Message>, output: seq<Message>, misread: bool)

  function ExchangeStep(s: Side, input: seq<Message>, output: seq<Message>, cut: bool): Exchanged {
    match s.io
    case Sending(m, reply) =>
      if !Sendable(m) then Exchanged(s, input, output, false) else
        var io := if reply.Some? then Receiving(reply.value) else Done(None);
        Exchanged(s.(io := io, sent := s.sent + [m]), input, if cut then output else output + [m], false)
    case Receiving(k) =>
      if input == [] then Exchanged(s, input, output, false) else
        Exchanged(s.(io := Done(Some(input[0])), got := s.got + [input[0]]), input[1..], output,
                  input[0].Kind() != k)
    case Done(_) => Exchanged(s, input, output, false)
  }

  function Next(x: System, e: Event): System {
    match e
    case Move(Client, Exchange) =>
      var r := ExchangeStep(x.client, x.toClient, x.toHost, x.toHostCut);
      x.(client := r.side, toClient := r.input, toHost := r.output, misread := x.misread || r.misread)
    case Move(Host, Exchange) =>
      var r := ExchangeStep(x.host, x.toHost, x.toClient, x.toClientCut);
      x.(host := r.side, toHost := r.input, toClient := r.output, misread := x.misread || r.misread)
    case Move(Client, a) => x.(client := Step(Client, x.client, a))
    case Move(Host, a) => x.(host := Step(Host, x.host, a))
    case Cut(Client, keep) =>
      x.(toHost := if keep < |x.toHost| then x.toHost[..keep] else x.toHost, toHostCut := true)
    case Cut(Host, keep) =>
      x.(toClient := if keep < |x.toClient| then x.toClient[..keep] else x.toClient, toClientCut := true)
  }

  function Begin(client: Hello, host: Hello): System {
    System(Initial(client), Initial(host), [], [], false, false, false)
  }

  /** The state after a run; runs range over every sequence of events. */
  function Run(client: Hello, host: Hello, events: seq<Event>): System {
    if events == [] then Begin(client, host)
    else Next(Run(client, host, events[..|events| - 1]), events[|events| - 1])
  }
}
