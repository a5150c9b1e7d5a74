/** The WireGuard tier's hold on the punched substrate (internal/wireguard/bind.go): every
    Open starts a generation with its own closed and exited channels and one receive loop;
    every Close waits for its own generation's loop, outside the mutex. Several generations
    may be unwinding at once. Substrate answers, refusals and timers are arbitrary. */
module Bind {
  import opened Bytes
  import C = DeadlineConn
  import R = DeadlineConnRuns

  /** Where the receive loop of one generation is. */
  datatype Recv =
    | Outside                  // in the device, between two calls of receive
    | Looking                  // about to look at closed
    | InSubstrate(call: nat)
    | Erred(cause: Cause)      // Read failed; about to look at closed again
    | Reporting                // returning net.ErrClosed; about to close exited

  /** Why a Read failed. The wrapped error of a substrate that reports net.ErrClosed is
      net.ErrClosed to whoever asks with errors.Is. */
  datatype Cause = Timeout | ErrClosed | OtherError

  datatype Closer =
    | Setting                  // about to put the read deadline in the past
    | Waiting                  // for exited or the grace timer
    | Clearing                 // saw exited; about to clear the deadline
    | Abandoning               // about to record the abandonment
    | ClosingConn              // about to close the substrate
    | Finished(abandoned: bool)

  datatype Line = NoDeadline | Past | Other

  datatype Bind = Bind(
    current: Option<nat>,      // the open generation: the closed field
    loops: seq<Recv>,          // one per generation
    closed: set<nat>,          // generations whose closed channel is closed
    exited: set<nat>,          // generations whose device has been told net.ErrClosed
    recalled: set<nat>,        // generations called again after that while still open
    closers: map<nat, Closer>, // the Close of each generation
    abandoned: bool,
    line: Line, moved: bool,   // the read deadline, and whether it was set since a Close cleared it
    open: bool)                // no Close has closed the substrate

  datatype Act =
    | Open
    | Call(g: nat) | Look(g: nat, call: nat) | Answer(g: nat, ok: bool, cause: Cause)
    | LookAgain(g: nat) | Report(g: nat)
    | BeginClose
    | SetPast(g: nat, accepted: bool) | SeeExited(g: nat) | ClearDeadline(g: nat) | Grace(g: nat)
    | Record(g: nat) | CloseConn(g: nat)
    | OtherSets(line: Line)

  function Loop(b: Bind, g: nat, r: Recv): Bind
    requires g < |b.loops|
  {
    b.(loops := b.loops[g := r])
  }

  function Called(b: Bind, g: nat): Bind {
    if Recalls(b, g) then b.(recalled := b.recalled + {g}) else b
  }

  /** Calling this loop would use an open generation whose device was told net.ErrClosed. */
  predicate Recalls(b: Bind, g: nat) {
    g in b.exited && g !in b.closed
  }

  function RecvStep(b: Bind, g: nat, a: Act): Bind {
    if g >= |b.loops| then b
    else
      match b.loops[g]
      case Outside => if a.Call? then Loop(Called(b, g), g, Looking) else b
      case Looking => if a.Look? then Loop(b, g, if g in b.closed then Reporting else InSubstrate(a.call)) else b
      case InSubstrate(_) => if a.Answer? then Loop(b, g, if a.ok then Outside else Erred(a.cause)) else b
      case Erred(cause) =>
        if !a.LookAgain? then b
        else if g in b.closed || cause.ErrClosed? then Loop(b, g, Reporting)
        else Loop(b, g, if cause.Timeout? then Looking else Outside)
      case Reporting => if a.Report? then Loop(b.(exited := b.exited + {g}), g, Outside) else b
  }

  function Closing(b: Bind, g: nat, c: Closer): Bind {
    b.(closers := b.closers[g := c])
  }

  function CloseStep(b: Bind, g: nat, a: Act): Bind {
    if g !in b.closers then b
    else
      match b.closers[g]
      case Setting =>
        if a.SetPast? then
          (if a.accepted then Closing(b.(line := Past, moved := true), g, Waiting) else Closing(b, g, Abandoning))
        else b
      case Waiting =>
        if a.SeeExited? && g in b.exited then Closing(b, g, Clearing)
        else if a.Grace? then Closing(b, g, Abandoning)
        else b
      case Clearing =>
        if a.ClearDeadline? then Closing(b.(line := NoDeadline, moved := false), g, Finished(false)) else b
      case Abandoning => if a.Record? then Closing(b.(abandoned := true), g, ClosingConn) else b
      case ClosingConn => if a.CloseConn? then Closing(b.(open := false), g, Finished(true)) else b
      case Finished(_) => b
  }

  function LoopOf(a: Act): Option<nat> {
    match a
    case Call(g) => Some(g)
    case Look(g, _) => Some(g)
    case Answer(g, _, _) => Some(g)
    case LookAgain(g) => Some(g)
    case Report(g) => Some(g)
    case _ => None
  }

  function CloserOf(a: Act): Option<nat> {
    match a
    case SetPast(g, _) => Some(g)
    case SeeExited(g) => Some(g)
    case ClearDeadline(g) => Some(g)
    case Grace(g) => Some(g)
    case Record(g) => Some(g)
    case CloseConn(g) => Some(g)
    case _ => None
  }

  function Next(b: Bind, a: Act): Bind {
    if LoopOf(a).Some? then RecvStep(b, LoopOf(a).value, a)
    else if CloserOf(a).Some? then CloseStep(b, CloserOf(a).value, a)
    else
      match a
      case Open => if b.current.Some? then b else b.(current := Some(|b.loops|), loops := b.loops + [Outside])
      case BeginClose =>
        if b.current == None then b
        else Closing(b.(closed := b.closed + {b.current.value}, current := None), b.current.value, Setting)
      case OtherSets(line) => b.(line := line, moved := true)
      case _ => b
  }

  const NEW := Bind(None, [], {}, {}, {}, map[], false, NoDeadline, false, true)

  function After(b: Bind, acts: seq<Act>): Bind {
    if acts == [] then b else Next(After(b, acts[..|acts| - 1]), acts[|acts| - 1])
  }

  // ---------------------------------------------------------------- the invariant

  predicate Using(r: Recv) {
    r.InSubstrate? || r.Erred?
  }

  predicate GaveUp(c: Closer) {
    c.ClosingConn? || c == Finished(true)
  }

  ghost predicate SomeoneGaveUp(closers: map<nat, Closer>) {
    exists g :: g in closers && GaveUp(closers[g])
  }

  /** At most the newest generation is open, and every other is closed. */
  ghost predicate Generations(b: Bind) {
    && (b.current.Some? ==> b.current.value + 1 == |b.loops|)
    && (forall g | 0 <= g < |b.loops| :: g in b.closed <==> b.current != Some(g))
    && (forall g | g in b.closed :: g < |b.loops|)
    && (forall g | g in b.closers :: g in b.closed)
  }

  /** A loop that has reported keeps out of the substrate, unless it is called again early. */
  predicate Told(b: Bind, g: nat)
    requires g < |b.loops|
  {
    if g in b.closed then !Using(b.loops[g]) else b.loops[g].Outside?
  }

  ghost predicate Inv(b: Bind) {
    && Generations(b)
    && (forall g | g in b.exited :: g < |b.loops| && (g in b.recalled || Told(b, g)))
    && (forall g | g in b.closers && (b.closers[g].Clearing? || b.closers[g] == Finished(false)) :: g in b.exited)
    && (forall g | g in b.closers && b.closers[g] == Finished(false) :: b.line == NoDeadline || b.moved)
    && (b.abandoned <==> SomeoneGaveUp(b.closers))
    && (!b.open ==> b.abandoned)
    && (forall g | g in b.closers && b.closers[g] == Finished(true) :: !b.open)
  }

  lemma CallInv(b: Bind, g: nat)
    requires Inv(b) && g < |b.loops| && b.loops[g].Outside?
    ensures Inv(Loop(Called(b, g), g, Looking))
  {
  }

  lemma ReportInv(b: Bind, g: nat)
    requires Inv(b) && g < |b.loops| && b.loops[g].Reporting?
    ensures Inv(Loop(b.(exited := b.exited + {g}), g, Outside))
  {
  }

  /** Any other move of a loop, into the substrate only if its generation is open. */
  lemma LoopInv(b: Bind, g: nat, r: Recv)
    requires Inv(b) && g < |b.loops| && !b.loops[g].Outside?
    requires g in b.closed ==> !Using(r) || Using(b.loops[g])
    ensures Inv(Loop(b, g, r))
  {
  }

  lemma RecvStepInv(b: Bind, g: nat, a: Act)
    requires Inv(b)
    ensures Inv(RecvStep(b, g, a))
  {
    var t := RecvStep(b, g, a);
    if t != b {
      match b.loops[g]
      case Outside => CallInv(b, g);
      case Reporting => ReportInv(b, g);
      case _ =>
        assert t == Loop(b, g, t.loops[g]);
        LoopInv(b, g, t.loops[g]);
    }
  }

  lemma GaveUpMoves(b: Bind, g: nat, c: Closer)
    requires g in b.closers ==> !GaveUp(b.closers[g]) || GaveUp(c)
    ensures SomeoneGaveUp(b.closers[g := c]) <==> SomeoneGaveUp(b.closers) || GaveUp(c)
  {
    var closers' := b.closers[g := c];
    if GaveUp(c) {
      assert g in closers' && GaveUp(closers'[g]);
    } else if SomeoneGaveUp(b.closers) {
      var q :| q in b.closers && GaveUp(b.closers[q]);
      assert q in closers' && GaveUp(closers'[q]);
    }
  }

  lemma SettingInv(b: Bind, g: nat, a: Act)
    requires Inv(b) && g in b.closers && b.closers[g].Setting?
    ensures Inv(CloseStep(b, g, a))
  {
    var t := CloseStep(b, g, a);
    if t != b {
      GaveUpMoves(b, g, t.closers[g]);
      assert t.closers == b.closers[g := t.closers[g]];
    }
  }

  /** Moves of a Close that is waiting for its loop or has seen it out. */
  lemma HandingInv(b: Bind, g: nat, a: Act)
    requires Inv(b) && g in b.closers && (b.closers[g].Waiting? || b.closers[g].Clearing?)
    ensures Inv(CloseStep(b, g, a))
  {
    var t := CloseStep(b, g, a);
    if t != b {
      GaveUpMoves(b, g, t.closers[g]);
      assert t.closers == b.closers[g := t.closers[g]];
    }
  }

  /** Moves of a Close that is giving the substrate up. */
  lemma AbandoningInv(b: Bind, g: nat, a: Act)
    requires Inv(b) && g in b.closers && (b.closers[g].Abandoning? || b.closers[g].ClosingConn?)
    ensures Inv(CloseStep(b, g, a))
  {
    var t := CloseStep(b, g, a);
    if t != b {
      GaveUpMoves(b, g, t.closers[g]);
      assert t.closers == b.closers[g := t.closers[g]];
    }
    if b.closers[g].ClosingConn? {
      assert SomeoneGaveUp(b.closers);
    }
  }

  lemma CloseStepInv(b: Bind, g: nat, a: Act)
    requires Inv(b)
    ensures Inv(CloseStep(b, g, a))
  {
    if g in b.closers {
      if b.closers[g].Abandoning? || b.closers[g].ClosingConn? {
        AbandoningInv(b, g, a);
      } else if b.closers[g].Setting? {
        SettingInv(b, g, a);
      } else if !b.closers[g].Finished? {
        HandingInv(b, g, a);
      }
    }
  }

  lemma NextInv(b: Bind, a: Act)
    requires Inv(b)
    ensures Inv(Next(b, a))
  {
    if LoopOf(a).Some? {
      RecvStepInv(b, LoopOf(a).value, a);
    } else if CloserOf(a).Some? {
      CloseStepInv(b, CloserOf(a).value, a);
    } else if a.BeginClose? && b.current.Some? {
      assert b.current.value !in b.closers;
      GaveUpMoves(b, b.current.value, Setting);
    }
  }

  lemma CloseStepElsewhere(b: Bind, q: nat, a: Act, g: nat)
    requires g in b.closers && b.closers[g].Finished?
    ensures g in CloseStep(b, q, a).closers && CloseStep(b, q, a).closers[g] == b.closers[g]
  {
  }

  lemma FinishedStays(b: Bind, a: Act, g: nat)
    requires Generations(b) && g in b.closers && b.closers[g].Finished?
    ensures g in Next(b, a).closers && Next(b, a).closers[g] == b.closers[g]
  {
    if CloserOf(a).Some? {
      CloseStepElsewhere(b, CloserOf(a).value, a, g);
    }
  }

  lemma {:induction false} AfterInv(b: Bind, acts: seq<Act>)
    requires Inv(b)
    ensures Inv(After(b, acts))
  {
    if acts != [] {
      AfterInv(b, acts[..|acts| - 1]);
      NextInv(After(b, acts[..|acts| - 1]), acts[|acts| - 1]);
    }
  }

  lemma {:induction false} AfterFinished(b: Bind, acts: seq<Act>, g: nat)
    requires Inv(b) && g in b.closers && b.closers[g].Finished?
    ensures g in After(b, acts).closers && After(b, acts).closers[g] == b.closers[g]
  {
    if acts != [] {
      AfterFinished(b, acts[..|acts| - 1], g);
      AfterInv(b, acts[..|acts| - 1]);
      FinishedStays(After(b, acts[..|acts| - 1]), acts[|acts| - 1], g);
    }
  }

  // ---------------------------------------------------------------- safety

  /** Hand-off: once the Close of a generation has returned nil, that generation's receive
      loop is out of the substrate and never reaches it again, whatever else runs on, unless
      its device was told net.ErrClosed while it was open and called it again all the same;
      and the deadline is the cleared one unless it was set again since. */
  lemma CleanHandOff(before: seq<Act>, after: seq<Act>, g: nat)
    requires g in After(NEW, before).closers && After(NEW, before).closers[g] == Finished(false)
    ensures var b := After(After(NEW, before), after);
      g < |b.loops| && (g in b.recalled || !Using(b.loops[g])) && (b.line == NoDeadline || b.moved)
  {
    AfterInv(NEW, before);
    AfterInv(After(NEW, before), after);
    AfterFinished(After(NEW, before), after, g);
  }

  /** The device never calls an open loop again that told it net.ErrClosed, as long as it
      takes that for the end; again says that it may call all the same. */
  predicate Allowed(acts: seq<Act>, again: bool) {
    acts == [] ||
    var front, last := acts[..|acts| - 1], acts[|acts| - 1];
    Allowed(front, again) && (again || !last.Call? || !Recalls(After(NEW, front), last.g))
  }

  lemma {:induction false} NeverRecalled(acts: seq<Act>)
    requires Allowed(acts, false)
    ensures After(NEW, acts).recalled == {}
  {
    if acts != [] {
      var front, last := acts[..|acts| - 1], acts[|acts| - 1];
      NeverRecalled(front);
      RecalledBy(After(NEW, front), last);
    }
  }

  lemma RecalledBy(b: Bind, a: Act)
    ensures Next(b, a).recalled == b.recalled || (a.Call? && Recalls(b, a.g))
  {
  }

  /** Some generation whose Close returned nil has its loop in the substrate. */
  ghost predicate Unclean(acts: seq<Act>) {
    var b := After(NEW, acts);
    exists g :: g in b.closers && b.closers[g] == Finished(false) && g < |b.loops| && Using(b.loops[g])
  }

  /** Exactly when a Close that returned nil can be trusted: no run leaves a loop in the
      substrate behind such a Close if and only if the device does not call again a loop that
      told it net.ErrClosed. */
  lemma CleanExactly(again: bool)
    ensures (forall acts | Allowed(acts, again) :: !Unclean(acts)) <==> !again
  {
    if again {
      RecallIsUnclean();
    } else {
      forall acts | Allowed(acts, again) ensures !Unclean(acts) {
        AfterInv(NEW, acts);
        NeverRecalled(acts);
      }
    }
  }

  lemma {:induction false} AllAllowed(acts: seq<Act>)
    ensures Allowed(acts, true)
  {
    if acts != [] {
      AllAllowed(acts[..|acts| - 1]);
    }
  }

  ghost predicate Reached(b: Bind) {
    exists acts :: After(NEW, acts) == b
  }

  lemma ReachedNext(b: Bind, a: Act)
    requires Reached(b)
    ensures Reached(Next(b, a))
  {
    var acts :| After(NEW, acts) == b;
    var longer := acts + [a];
    assert longer[..|longer| - 1] == acts;
    assert After(NEW, longer) == Next(b, a);
  }

  ghost predicate Stage(b: Bind, loop: Recv, exited: set<nat>) {
    && Reached(b) && b.loops == [loop] && b.exited == exited
    && b.current == Some(0) && b.closers == map[] && 0 !in b.closed
  }

  lemma FirstRead() returns (b: Bind)
    ensures Stage(b, InSubstrate(0), {})
  {
    assert After(NEW, []) == NEW;
    b := Next(NEW, Open);
    ReachedNext(NEW, Open);
    ReachedNext(b, Call(0));
    b := Next(b, Call(0));
    ReachedNext(b, Look(0, 0));
    b := Next(b, Look(0, 0));
  }

  /** The substrate reports net.ErrClosed to an open loop, */
  lemma SubstrateErrs(first: Bind) returns (b: Bind)
    requires Stage(first, InSubstrate(0), {})
    ensures Stage(b, Erred(ErrClosed), {})
  {
    ReachedNext(first, Answer(0, false, ErrClosed));
    b := Next(first, Answer(0, false, ErrClosed));
  }

  /** and the loop passes it on. */
  lemma ToldEarly(erred: Bind) returns (b: Bind)
    requires Stage(erred, Erred(ErrClosed), {})
    ensures Stage(b, Outside, {0})
  {
    ReachedNext(erred, LookAgain(0));
    var reporting := Next(erred, LookAgain(0));
    ReachedNext(reporting, Report(0));
    b := Next(reporting, Report(0));
  }

  /** Its device calls it again all the same. */
  lemma CalledAgain(told: Bind) returns (b: Bind)
    requires Stage(told, Outside, {0})
    ensures Stage(b, InSubstrate(1), {0})
  {
    ReachedNext(told, Call(0));
    b := Next(told, Call(0));
    ReachedNext(b, Look(0, 1));
    b := Next(b, Look(0, 1));
  }

  /** Then the bind is closed, and the Close takes the old report for one of its own. */
  lemma ClosedOnOldReport(called: Bind) returns (b: Bind)
    requires Stage(called, InSubstrate(1), {0})
    ensures Reached(b) && b.loops == [InSubstrate(1)] && 0 in b.closers && b.closers[0] == Finished(false)
  {
    ReachedNext(called, BeginClose);
    b := Next(called, BeginClose);
    ReachedNext(b, SetPast(0, true));
    b := Next(b, SetPast(0, true));
    ReachedNext(b, SeeExited(0));
    b := Next(b, SeeExited(0));
    ReachedNext(b, ClearDeadline(0));
    b := Next(b, ClearDeadline(0));
  }

  lemma RecallIsUnclean()
    ensures exists acts :: Allowed(acts, true) && Unclean(acts)
  {
    var first := FirstRead();
    var erred := SubstrateErrs(first);
    var told := ToldEarly(erred);
    var called := CalledAgain(told);
    var b := ClosedOnOldReport(called);
    var acts :| After(NEW, acts) == b;
    AllAllowed(acts);
    assert Unclean(acts);
  }

  predicate UsedBy(b: Bind, g: nat) {
    g < |b.loops| && Using(b.loops[g])
  }

  lemma RecvOnlyLeaves(b: Bind, q: nat, a: Act, g: nat)
    requires g in b.closed && UsedBy(RecvStep(b, q, a), g)
    ensures UsedBy(b, g)
  {
  }

  /** A closed generation's loop can leave the substrate but not enter it. */
  lemma ClosedOnlyLeaves(b: Bind, a: Act, g: nat)
    requires g in b.closed && UsedBy(Next(b, a), g)
    ensures UsedBy(b, g)
  {
    if LoopOf(a).Some? {
      RecvOnlyLeaves(b, LoopOf(a).value, a, g);
    }
  }

  lemma StaysClosed(b: Bind, a: Act, g: nat)
    requires g in b.closed
    ensures g in Next(b, a).closed
  {
  }

  lemma {:induction false} ClosedOnlyLeft(b: Bind, acts: seq<Act>, g: nat)
    requires g in b.closed
    ensures g in After(b, acts).closed && (UsedBy(After(b, acts), g) ==> UsedBy(b, g))
  {
    if acts != [] {
      var front, last := acts[..|acts| - 1], acts[|acts| - 1];
      ClosedOnlyLeft(b, front, g);
      var t := After(b, front);
      StaysClosed(t, last, g);
      if UsedBy(Next(t, last), g) {
        ClosedOnlyLeaves(t, last, g);
      }
    }
  }

  /** One generation at a time: if its loop is in the substrate at any moment after its Close
      saw exited, then it was in the substrate at that very step, and its device had called it
      again after an early net.ErrClosed. */
  lemma UncleanOnlyIfRecalled(before: seq<Act>, after: seq<Act>, g: nat)
    requires var b := After(NEW, before); g in b.closers && b.closers[g].Waiting? && g in b.exited
    ensures var b := After(NEW, before);
      var t := After(Next(b, SeeExited(g)), after);
      UsedBy(t, g) ==> UsedBy(b, g) && g in b.recalled
  {
    AfterInv(NEW, before);
    var b := After(NEW, before);
    var seen := Next(b, SeeExited(g));
    assert seen.closed == b.closed && seen.loops == b.loops;
    ClosedOnlyLeft(seen, after, g);
  }

  /** With every generation closed cleanly, and none called again early, nobody at all is in
      the substrate, it is open, and Abandoned says so. */
  lemma AllClosedCleanly(acts: seq<Act>, g: nat)
    requires var b := After(NEW, acts);
      b.current == None && forall q | 0 <= q < |b.loops| :: q in b.closers && b.closers[q] == Finished(false)
    ensures var b := After(NEW, acts);
      (g < |b.loops| && g !in b.recalled ==> !Using(b.loops[g])) && b.open && !b.abandoned
  {
    AfterInv(NEW, acts);
  }

  lemma AbandonedExactly(acts: seq<Act>)
    ensures var b := After(NEW, acts);
      && (b.abandoned <==> exists g :: g in b.closers && GaveUp(b.closers[g]))
      && (!b.open ==> b.abandoned)
      && (forall g | g in b.closers && b.closers[g] == Finished(true) :: !b.open)
  {
    AfterInv(NEW, acts);
  }

  /** A loop that is told its generation is closed never uses the substrate again: from its
      next look on it can only report. */
  lemma ClosedLoopReports(acts: seq<Act>, g: nat, call: nat)
    requires g in After(NEW, acts).closed
    ensures var b := After(NEW, acts);
      && g < |b.loops|
      && (b.loops[g].Looking? ==> Next(b, Look(g, call)).loops[g] == Reporting)
      && (b.loops[g].Erred? ==> Next(b, LookAgain(g)).loops[g] == Reporting)
      && (b.loops[g].Reporting? ==> g in Next(b, Report(g)).exited)
  {
    AfterInv(NEW, acts);
  }

  // ---------------------------------------------------------------- progress over a deadline conn

  datatype Joint = Joint(b: Bind, c: C.Conn)

  ghost predicate Linked(j: Joint, g: nat) {
    && Inv(j.b) && R.Inv(j.c) && j.c.dir.fired
    && g in j.b.closed && (j.b.loops[g].InSubstrate? ==> j.b.loops[g].call in j.c.calls)
  }

  function Distance(j: Joint, g: nat): nat {
    if g >= |j.b.loops| || g in j.b.exited then 0
    else
      match j.b.loops[g]
      case Outside => 3
      case Looking => 2
      case InSubstrate(call) => if call in j.c.calls then 4 + R.Left(j.c.calls[call]) else 4
      case Erred(_) => 2
      case Reporting => 1
  }

  /** The pump of a conn that was stopped leaves net.ErrClosed behind. */
  function CauseOf(outcome: C.Outcome): Cause {
    if outcome.Expired? then Timeout else if outcome.Stopped? then ErrClosed else OtherError
  }

  /** The loop's next step. A device whose receive returned calls it again until it has been
      told net.ErrClosed. */
  function LoopStep(j: Joint, g: nat): Joint {
    if g >= |j.b.loops| then j
    else
      match j.b.loops[g]
      case Outside => j.(b := Next(j.b, Call(g)))
      case Looking => j.(b := Next(j.b, Look(g, 0)))
      case InSubstrate(call) =>
        if call !in j.c.calls then j
        else if !j.c.calls[call].Returned? then j.(c := C.Next(j.c, R.Escape(j.c, call)))
        else j.(b := Next(j.b, Answer(g, j.c.calls[call].outcome.Datagram?, CauseOf(j.c.calls[call].outcome))))
      case Erred(_) => j.(b := Next(j.b, LookAgain(g)))
      case Reporting => j.(b := Next(j.b, Report(g)))
  }

  lemma ConnAdvances(j: Joint, g: nat)
    requires Linked(j, g) && g !in j.b.exited && j.b.loops[g].InSubstrate?
    ensures Linked(LoopStep(j, g), g) && Distance(LoopStep(j, g), g) < Distance(j, g)
    ensures LoopStep(j, g).b.closers == j.b.closers
  {
    var call := j.b.loops[g].call;
    if !j.c.calls[call].Returned? {
      R.PastDeadlineReleases(j.c, call);
    } else {
      NextInv(j.b, Answer(g, j.c.calls[call].outcome.Datagram?, CauseOf(j.c.calls[call].outcome)));
    }
  }

  lemma LoopAdvances(j: Joint, g: nat)
    requires Linked(j, g) && g !in j.b.exited
    ensures Linked(LoopStep(j, g), g) && Distance(LoopStep(j, g), g) < Distance(j, g)
    ensures LoopStep(j, g).b.closers == j.b.closers
  {
    match j.b.loops[g]
    case Outside => NextInv(j.b, Call(g));
    case Looking => NextInv(j.b, Look(g, 0));
    case InSubstrate(_) => ConnAdvances(j, g);
    case Erred(_) => NextInv(j.b, LookAgain(g));
    case Reporting => NextInv(j.b, Report(g));
  }

  function LoopSteps(j: Joint, g: nat, n: nat): Joint
    decreases n
  {
    if n == 0 then j else LoopSteps(LoopStep(j, g), g, n - 1)
  }

  /** Progress: with the generation closed and the deadline passed, over a conn that honours
      it, the receive loop reports within nine of its own steps, so its Close can see it. */
  lemma {:induction false} LoopExits(j: Joint, g: nat)
    requires Linked(j, g)
    ensures exists n: nat :: n <= Distance(j, g) <= 9 && g in LoopSteps(j, g, n).b.exited
    decreases Distance(j, g)
  {
    if g in j.b.exited {
      assert LoopSteps(j, g, 0) == j;
    } else {
      LoopAdvances(j, g);
      var j' := LoopStep(j, g);
      LoopExits(j', g);
      var n: nat :| n <= Distance(j', g) <= 9 && g in LoopSteps(j', g, n).b.exited;
      assert LoopSteps(j, g, n + 1) == LoopSteps(j', g, n);
    }
  }
}
