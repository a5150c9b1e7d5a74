/** The QUIC tier's hold on the punched substrate (internal/quictun/packetconn.go): ReadFrom
    calls serialised by a one-token channel, and a Close that hands the substrate back unread.
    Each channel operation and each substrate call is one step; the substrate's own answers
    and the grace timer are arbitrary. */
module PacketConn {
  import opened Bytes
  import C = DeadlineConn
  import R = DeadlineConnRuns
  import D = Deadlines

  datatype Result = Delivered | Failed | Detached

  /** Where one ReadFrom call is. */
  datatype From =
    | Entering               // waiting for the token
    | HasToken               // about to look at closed
    | InSubstrate(call: nat)
    | Answered(ok: bool)     // the substrate's Read returned; about to look at closed again
    | Leaving(result: Result)  // about to give the token back
    | Left(result: Result)

  datatype Closer =
    | NotClosed
    | Closing                // closed is closed; about to put the deadline in the past
    | Waiting                // for the token or the grace timer
    | Clearing               // has the token; about to clear the deadline
    | Returning              // about to give the token back
    | GivingUp               // the grace ran out; about to close the substrate
    | Finished(abandoned: bool)

  datatype Line = NoDeadline | Past | Other

  datatype Packets = Packets(
    token: bool,
    closed: bool,
    froms: map<nat, From>,
    closer: Closer,
    line: Line,              // the substrate's read deadline
    moved: bool,             // someone else set the deadline since Close cleared it
    open: bool)              // Close has not closed the substrate

  datatype Act =
    | Enter(r: nat) | TakeToken(r: nat) | Look(r: nat, call: nat)
    | Answer(r: nat, ok: bool) | LookAgain(r: nat) | GiveToken(r: nat)
    | BeginClose | SetPast | AcquireToken | ClearDeadline | ReturnToken | Grace | CloseSubstrate
    | EngineSets(line: Line)  // SetReadDeadline passed through

  function At(p: Packets, r: nat, from: From): Packets {
    p.(froms := p.froms[r := from])
  }

  function FromStep(p: Packets, r: nat, a: Act): Packets {
    if r !in p.froms then (if a.Enter? then At(p, r, Entering) else p)
    else
      match p.froms[r]
      case Entering => if a.TakeToken? && p.token then At(p.(token := false), r, HasToken) else p
      case HasToken =>
        if a.Look? then At(p, r, if p.closed then Leaving(Detached) else InSubstrate(a.call)) else p
      case InSubstrate(_) => if a.Answer? then At(p, r, Answered(a.ok)) else p
      case Answered(ok) =>
        if a.LookAgain? then At(p, r, Leaving(if ok then Delivered else if p.closed then Detached else Failed)) else p
      case Leaving(result) => if a.GiveToken? then At(p.(token := true), r, Left(result)) else p
      case Left(_) => p
  }

  function CloseStep(p: Packets, a: Act): Packets {
    match p.closer
    case NotClosed => if a.BeginClose? then p.(closer := Closing, closed := true) else p
    case Closing => if a.SetPast? then p.(closer := Waiting, line := Past) else p
    case Waiting =>
      if a.AcquireToken? && p.token then p.(closer := Clearing, token := false)
      else if a.Grace? then p.(closer := GivingUp)
      else p
    case Clearing => if a.ClearDeadline? then p.(closer := Returning, line := NoDeadline, moved := false) else p
    case Returning => if a.ReturnToken? then p.(closer := Finished(false), token := true) else p
    case GivingUp => if a.CloseSubstrate? then p.(closer := Finished(true), open := false) else p
    case Finished(_) => p
  }

  function CallOf(a: Act): Option<nat> {
    match a
    case Enter(r) => Some(r)
    case TakeToken(r) => Some(r)
    case Look(r, _) => Some(r)
    case Answer(r, _) => Some(r)
    case LookAgain(r) => Some(r)
    case GiveToken(r) => Some(r)
    case _ => None
  }

  function Next(p: Packets, a: Act): Packets {
    if CallOf(a).Some? then FromStep(p, CallOf(a).value, a)
    else if a.EngineSets? then p.(line := a.line, moved := true)
    else CloseStep(p, a)
  }

  const NEW := Packets(true, false, map[], NotClosed, NoDeadline, false, true)

  function After(p: Packets, acts: seq<Act>): Packets {
    if acts == [] then p else Next(After(p, acts[..|acts| - 1]), acts[|acts| - 1])
  }

  // ---------------------------------------------------------------- the invariant

  predicate Holding(from: From) {
    from.HasToken? || from.InSubstrate? || from.Answered? || from.Leaving?
  }

  predicate Using(from: From) {
    from.InSubstrate? || from.Answered?
  }

  predicate CloserHolds(c: Closer) {
    c.Clearing? || c.Returning?
  }

  ghost predicate Held(froms: map<nat, From>) {
    exists r :: r in froms && Holding(froms[r])
  }

  /** The token is in exactly one hand. */
  ghost predicate OneToken(p: Packets) {
    && (forall r, q | r in p.froms && q in p.froms && Holding(p.froms[r]) && Holding(p.froms[q]) :: r == q)
    && (p.token ==> !Held(p.froms) && !CloserHolds(p.closer))
    && (CloserHolds(p.closer) ==> !Held(p.froms))
    && (!p.token && !CloserHolds(p.closer) ==> Held(p.froms))
  }

  /** Close has had the token: it saw every reader out. */
  predicate Seen(c: Closer) {
    c.Clearing? || c.Returning? || c == Finished(false)
  }

  ghost predicate Inv(p: Packets) {
    && OneToken(p)
    && (p.closed <==> !p.closer.NotClosed?)
    && (Seen(p.closer) ==> forall r | r in p.froms :: !Using(p.froms[r]))
    && (p.closer.Returning? || p.closer == Finished(false) ==> p.line == NoDeadline || p.moved)
    && (p.open <==> p.closer != Finished(true))
  }

  lemma HeldMoves(froms: map<nat, From>, r: nat, from: From)
    requires forall r, q | r in froms && q in froms && Holding(froms[r]) && Holding(froms[q]) :: r == q
    ensures Held(froms[r := from]) <==> Holding(from) || (Held(froms) && !(r in froms && Holding(froms[r])))
  {
    var froms' := froms[r := from];
    if Holding(from) {
      assert r in froms' && Holding(froms'[r]);
    } else if Held(froms') {
      var q :| q in froms' && Holding(froms'[q]);
      assert q in froms && Holding(froms[q]);
    }
    if Held(froms) && !(r in froms && Holding(froms[r])) {
      var q :| q in froms && Holding(froms[q]);
      assert q in froms' && Holding(froms'[q]);
    }
  }

  lemma TakeTokenInv(p: Packets, r: nat)
    requires Inv(p) && r in p.froms && p.froms[r].Entering? && p.token
    ensures Inv(At(p.(token := false), r, HasToken))
  {
    HeldMoves(p.froms, r, HasToken);
    forall q | q in p.froms ensures !Holding(p.froms[q]) {
      assert !Held(p.froms);
    }
  }

  lemma GiveTokenInv(p: Packets, r: nat, result: Result)
    requires Inv(p) && r in p.froms && p.froms[r].Leaving?
    ensures Inv(At(p.(token := true), r, Left(result)))
  {
    assert Held(p.froms);
    HeldMoves(p.froms, r, Left(result));
    forall q | q in p.froms && Holding(p.froms[q]) ensures q == r {
    }
  }

  /** A move that keeps the token where it is, and enters the substrate only before Close. */
  lemma SameTokenInv(p: Packets, r: nat, from: From)
    requires Inv(p) && (Holding(from) <==> r in p.froms && Holding(p.froms[r]))
    requires Using(from) ==> !p.closed || Using(p.froms[r])
    ensures Inv(At(p, r, from))
  {
    HeldMoves(p.froms, r, from);
    if r in p.froms && Holding(p.froms[r]) {
      assert Held(p.froms);
    }
  }

  lemma FromStepInv(p: Packets, r: nat, a: Act)
    requires Inv(p)
    ensures Inv(FromStep(p, r, a))
  {
    var t := FromStep(p, r, a);
    if t != p {
      if r in p.froms && p.froms[r].Entering? {
        TakeTokenInv(p, r);
      } else if r in p.froms && p.froms[r].Leaving? {
        GiveTokenInv(p, r, p.froms[r].result);
      } else {
        assert t == At(p, r, t.froms[r]);
        SameTokenInv(p, r, t.froms[r]);
      }
    }
  }

  lemma CloseStepInv(p: Packets, a: Act)
    requires Inv(p)
    ensures Inv(CloseStep(p, a))
  {
    if p.closer.Waiting? && a.AcquireToken? && p.token {
      forall r | r in p.froms ensures !Using(p.froms[r]) {
        assert !Holding(p.froms[r]);
      }
    }
  }

  lemma NextInv(p: Packets, a: Act)
    requires Inv(p)
    ensures Inv(Next(p, a))
  {
    if CallOf(a).Some? {
      FromStepInv(p, CallOf(a).value, a);
    } else if !a.EngineSets? {
      CloseStepInv(p, a);
    }
  }

  lemma {:induction false} AfterInv(p: Packets, acts: seq<Act>)
    requires Inv(p)
    ensures Inv(After(p, acts))
    ensures p.closer.Finished? ==> After(p, acts).closer == p.closer
  {
    if acts != [] {
      AfterInv(p, acts[..|acts| - 1]);
      NextInv(After(p, acts[..|acts| - 1]), acts[|acts| - 1]);
    }
  }

  // ---------------------------------------------------------------- safety

  /** Hand-off: once Close has returned nil, no ReadFrom is in the substrate, and none ever
      reaches it again, whatever runs on; the substrate is open; and its read deadline is the
      cleared one unless someone else has set it since. */
  lemma CleanHandOff(before: seq<Act>, after: seq<Act>, r: nat)
    requires After(NEW, before).closer == Finished(false)
    ensures var p := After(After(NEW, before), after);
      && (r in p.froms ==> !Using(p.froms[r]))
      && p.open && (p.line == NoDeadline || p.moved)
  {
    AfterInv(NEW, before);
    AfterInv(After(NEW, before), after);
  }

  /** Close reports an abandoned substrate exactly when it closed it. */
  lemma AbandonedExactly(acts: seq<Act>)
    ensures var p := After(NEW, acts); p.open <==> p.closer != Finished(true)
  {
    AfterInv(NEW, acts);
  }

  /** At most one ReadFrom is in the substrate at a time. */
  lemma OneReader(acts: seq<Act>, r: nat, q: nat)
    requires var p := After(NEW, acts); r in p.froms && q in p.froms && Using(p.froms[r]) && Using(p.froms[q])
    ensures r == q
  {
    AfterInv(NEW, acts);
  }

  /** After a clean Close a ReadFrom never waits for good: the token is there for it to take,
      or is held by a ReadFrom that is not in the substrate and can take its next step, which
      leads it out with net.ErrClosed. */
  lemma LaterReadsEnd(p: Packets, r: nat)
    requires Inv(p) && p.closer == Finished(false) && r in p.froms && p.froms[r].Entering?
    ensures p.token || exists q :: q in p.froms && (p.froms[q].HasToken? || p.froms[q].Leaving?)
    ensures p.token ==> Next(p, TakeToken(r)).froms[r] == HasToken
    ensures forall q, call: nat | q in p.froms && p.froms[q].HasToken? ::
      Next(p, Look(q, call)).froms[q] == Leaving(Detached)
    ensures forall q | q in p.froms && p.froms[q].Leaving? :: Next(p, GiveToken(q)).token
  {
    if !p.token {
      var q :| q in p.froms && Holding(p.froms[q]);
      assert p.froms[q].HasToken? || p.froms[q].Leaving?;
    }
  }

  // ---------------------------------------------------------------- progress over a deadline conn

  /** The ReadFrom that holds the token, and the read it may have in the conn underneath. */
  datatype Joint = Joint(p: Packets, c: C.Conn)

  ghost predicate Linked(j: Joint, r: nat) {
    && Inv(j.p) && R.Inv(j.c)
    && j.p.closed && j.c.dir.fired
    && r in j.p.froms && (j.p.froms[r].InSubstrate? ==> j.p.froms[r].call in j.c.calls)
  }

  /** How many steps of its own separate the holder from giving the token back. */
  function Distance(j: Joint, r: nat): nat {
    if r !in j.p.froms then 0
    else
      match j.p.froms[r]
      case HasToken => 2
      case InSubstrate(call) => if call in j.c.calls then 3 + R.Left(j.c.calls[call]) else 3
      case Answered(_) => 2
      case Leaving(_) => 1
      case _ => 0
  }

  /** The holder's next step: its read's next step while it is in the conn, or its own. */
  function HolderStep(j: Joint, r: nat): Joint {
    if r !in j.p.froms then j
    else
      match j.p.froms[r]
      case HasToken => j.(p := Next(j.p, Look(r, 0)))
      case InSubstrate(call) =>
        if call !in j.c.calls then j
        else if !j.c.calls[call].Returned? then j.(c := C.Next(j.c, R.Escape(j.c, call)))
        else j.(p := Next(j.p, Answer(r, j.c.calls[call].outcome.Datagram?)))
      case Answered(_) => j.(p := Next(j.p, LookAgain(r)))
      case Leaving(_) => j.(p := Next(j.p, GiveToken(r)))
      case _ => j
  }

  lemma HolderAdvances(j: Joint, r: nat)
    requires Linked(j, r) && Holding(j.p.froms[r])
    ensures var j' := HolderStep(j, r);
      && Linked(j', r) && Distance(j', r) < Distance(j, r) && j'.p.closer == j.p.closer
      && (Holding(j'.p.froms[r]) || j'.p.token)
  {
    match j.p.froms[r]
    case HasToken => NextInv(j.p, Look(r, 0));
    case InSubstrate(call) =>
      if !j.c.calls[call].Returned? {
        R.PastDeadlineReleases(j.c, call);
      } else {
        NextInv(j.p, Answer(r, j.c.calls[call].outcome.Datagram?));
      }
    case Answered(_) => NextInv(j.p, LookAgain(r));
    case Leaving(_) => NextInv(j.p, GiveToken(r));
  }

  function HolderSteps(j: Joint, r: nat, n: nat): Joint
    decreases n
  {
    if n == 0 then j else HolderSteps(HolderStep(j, r), r, n - 1)
  }

  /** Progress: with the deadline passed and nobody moving it, whoever holds the token gives
      it back within eight of its own steps, so a waiting Close can take it. */
  lemma {:induction false} TokenComesBack(j: Joint, r: nat)
    requires Linked(j, r) && Holding(j.p.froms[r])
    ensures exists n: nat ::
      && n <= Distance(j, r) <= 8
      && HolderSteps(j, r, n).p.token && HolderSteps(j, r, n).p.closer == j.p.closer
    decreases Distance(j, r)
  {
    HolderAdvances(j, r);
    var j' := HolderStep(j, r);
    if Holding(j'.p.froms[r]) {
      TokenComesBack(j', r);
      var n: nat :|
        && n <= Distance(j', r) <= 8
        && HolderSteps(j', r, n).p.token && HolderSteps(j', r, n).p.closer == j.p.closer;
      assert HolderSteps(j, r, n + 1) == HolderSteps(j', r, n);
    } else {
      assert HolderSteps(j, r, 1) == HolderSteps(j', r, 0) == j';
    }
  }

  /** From the moment Close puts the deadline in the past, over a conn that honours it, the
      ReadFrom in its way is out within eight of its own steps. */
  lemma CloseReleasesTheReader(p: Packets, c: C.Conn, r: nat)
    requires Inv(p) && p.closer.Closing? && R.Inv(c)
    requires r in p.froms && Holding(p.froms[r]) && (p.froms[r].InSubstrate? ==> p.froms[r].call in c.calls)
    ensures var j := Joint(Next(p, SetPast), C.Next(c, C.Timing(D.SetTo(Some(c.now)))));
      exists n: nat :: n <= 8 && HolderSteps(j, r, n).p.token && HolderSteps(j, r, n).p.closer == Waiting
  {
    var j := Joint(Next(p, SetPast), C.Next(c, C.Timing(D.SetTo(Some(c.now)))));
    NextInv(p, SetPast);
    R.NextInv(c, C.Timing(D.SetTo(Some(c.now))));
    TokenComesBack(j, r);
  }

  lemma OtherCallsStay(p: Packets, a: Act, r: nat)
    requires r in p.froms && CallOf(a) != Some(r)
    ensures r in Next(p, a).froms && Next(p, a).froms[r] == p.froms[r]
  {
  }

  /** Steps of anybody else, in the packet conn or in the conn underneath, never set the
      holder back, as long as nobody moves the deadline. */
  lemma OtherCallsDoNotDelay(j: Joint, r: nat, a: Act)
    requires Linked(j, r) && CallOf(a) != Some(r)
    ensures var j' := j.(p := Next(j.p, a)); Linked(j', r) && Distance(j', r) == Distance(j, r)
  {
    NextInv(j.p, a);
    OtherCallsStay(j.p, a, r);
  }

  lemma ConnDoesNotDelay(j: Joint, r: nat, b: C.Act)
    requires Linked(j, r) && !(b.Timing? && b.e.SetTo?)
    ensures var j' := j.(c := C.Next(j.c, b)); Linked(j', r) && Distance(j', r) <= Distance(j, r)
  {
    R.NextInv(j.c, b);
    FiredStays(j.c, b);
    if j.p.froms[r].InSubstrate? {
      R.NobodyDelays(j.c, b, j.p.froms[r].call);
    }
  }

  lemma FiredStays(c: C.Conn, b: C.Act)
    requires c.dir.fired && !(b.Timing? && b.e.SetTo?)
    ensures C.Next(c, b).dir.fired
  {
  }
}
