/** What the receive loop and the Close of a WireGuard generation do at each point, and that a
    generation can be opened, used and handed back, again and again. */
module BindLaws {
  import opened Bytes
  import opened Bind

  // ---------------------------------------------------------------- the receive loop

  /** Where each step takes the loop of a generation: it asks the substrate exactly while the
      generation is open; a datagram goes to the device; after an error it reports
      net.ErrClosed if the generation was closed or the substrate said so, reads on after a
      deadline that somebody else had set, and hands any other error to the device. */
  lemma LoopExactly(b: Bind, g: nat, call: nat, cause: Cause)
    requires g < |b.loops|
    ensures b.loops[g].Outside? ==> Next(b, Call(g)).loops[g] == Looking
    ensures b.loops[g].Looking? ==>
      Next(b, Look(g, call)).loops[g] == if g in b.closed then Reporting else InSubstrate(call)
    ensures b.loops[g].InSubstrate? ==>
      && Next(b, Answer(g, true, cause)).loops[g] == Outside
      && Next(b, Answer(g, false, cause)).loops[g] == Erred(cause)
    ensures b.loops[g].Erred? ==>
      var t := Next(b, LookAgain(g)).loops[g];
      && (t == Reporting <==> g in b.closed || b.loops[g].cause == ErrClosed)
      && (t == Looking <==> g !in b.closed && b.loops[g].cause == Timeout)
      && (t == Outside <==> g !in b.closed && b.loops[g].cause == OtherError)
    ensures b.loops[g].Reporting? ==>
      Next(b, Report(g)).loops[g] == Outside && g in Next(b, Report(g)).exited
  {
  }

  /** A generation's device has been told net.ErrClosed exactly when its loop has reported it. */
  lemma ExitedExactly(b: Bind, a: Act, g: nat)
    ensures g in Next(b, a).exited <==>
      g in b.exited || (a == Report(g) && g < |b.loops| && b.loops[g].Reporting?)
  {
    if CloserOf(a).Some? {
      ClosersLeaveExited(b, CloserOf(a).value, a);
    } else if LoopOf(a).Some? {
      LoopsReport(b, LoopOf(a).value, a, g);
    }
  }

  lemma ClosersLeaveExited(b: Bind, q: nat, a: Act)
    ensures CloseStep(b, q, a).exited == b.exited && CloseStep(b, q, a).loops == b.loops
    ensures CloseStep(b, q, a).closed == b.closed && CloseStep(b, q, a).current == b.current
  {
  }

  lemma LoopsReport(b: Bind, q: nat, a: Act, g: nat)
    requires LoopOf(a) == Some(q)
    ensures var t := RecvStep(b, q, a);
      && (g in t.exited <==> g in b.exited || (a == Report(g) && g < |b.loops| && b.loops[g].Reporting?))
      && t.closed == b.closed && t.closers == b.closers && t.current == b.current
  {
  }

  // ---------------------------------------------------------------- generations

  /** A generation is closed by the Close of its own, and open until then; a bind that is open
      refuses to be opened again, and one that is closed has nothing to close. */
  lemma GenerationsExactly(b: Bind, a: Act, g: nat)
    requires Inv(b)
    ensures g in Next(b, a).closed <==> g in b.closed || (a == BeginClose && b.current == Some(g))
    ensures Next(b, a).current ==
      if a == Open && b.current == None then Some(|b.loops|) else if a == BeginClose then None else b.current
    ensures |Next(b, a).loops| == |b.loops| + (if a == Open && b.current == None then 1 else 0)
  {
    if CloserOf(a).Some? {
      ClosersLeaveExited(b, CloserOf(a).value, a);
    } else if LoopOf(a).Some? {
      LoopsReport(b, LoopOf(a).value, a, g);
    }
  }

  // ---------------------------------------------------------------- Close

  /** A Close first puts the deadline in the past, and gives the substrate up at once if that
      is refused; then it waits until its own loop has reported, and clears the deadline; or
      the grace runs out, and it gives the substrate up: it records that and closes it. */
  lemma CloseExactly(b: Bind, g: nat)
    requires Inv(b) && g in b.closers
    ensures b.closers[g].Setting? ==>
      && Next(b, SetPast(g, true)).closers[g] == Waiting && Next(b, SetPast(g, true)).line == Past
      && Next(b, SetPast(g, false)).closers[g] == Abandoning && Next(b, SetPast(g, false)).line == b.line
    ensures b.closers[g].Waiting? ==>
      && (Next(b, SeeExited(g)).closers[g] == if g in b.exited then Clearing else Waiting)
      && Next(b, Grace(g)).closers[g] == Abandoning
    ensures b.closers[g].Clearing? ==>
      var t := Next(b, ClearDeadline(g)); t.closers[g] == Finished(false) && t.line == NoDeadline && t.open == b.open
    ensures b.closers[g].Abandoning? ==>
      var t := Next(Next(b, Record(g)), CloseConn(g)); t.closers[g] == Finished(true) && t.abandoned && !t.open
  {
  }

  // ---------------------------------------------------------------- a whole generation

  /** Opening a closed bind starts a generation of its own, whose loop receives from the
      substrate; the loops before it stay where they are. */
  lemma OpenAndReceive(b: Bind, call: nat)
    requires Inv(b) && b.current == None
    ensures var g, fresh' := |b.loops|, Next(b, Open);
            var used := Next(Next(fresh', Call(g)), Look(g, call));
      && fresh' == b.(current := Some(g), loops := b.loops + [Outside]) && g !in b.closed && g !in b.exited
      && used == Loop(fresh', g, InSubstrate(call))
      && Next(used, Answer(g, true, OtherError)) == fresh'
  {
    var g, fresh' := |b.loops|, Next(b, Open);
    assert fresh'.loops[g] == Outside && g !in fresh'.exited;
    var looking := Next(fresh', Call(g));
    assert looking == Loop(fresh', g, Looking);
    assert Next(looking, Look(g, call)) == Loop(looking, g, InSubstrate(call));
    assert Next(Next(looking, Look(g, call)), Answer(g, true, OtherError)).loops == fresh'.loops;
  }

  lemma LoopReports(b: Bind, g: nat, call: nat)
    requires g < |b.loops| && b.loops[g].Outside? && g in b.closed
    ensures Next(Next(Next(b, Call(g)), Look(g, call)), Report(g)) == b.(exited := b.exited + {g})
  {
    var looking := Next(b, Call(g));
    assert looking == Loop(b, g, Looking);
    assert Next(looking, Look(g, call)) == Loop(looking, g, Reporting);
    var told := Next(Next(looking, Look(g, call)), Report(g));
    assert told.loops == b.loops;
  }

  /** Closing it while its loop is with the device: the next call of the loop reports the close
      instead of asking the substrate, the Close returns nil with the deadline cleared and the
      substrate as it was, and the bind can be opened again. */
  lemma CloseHandsOff(b: Bind, g: nat, call: nat)
    requires Inv(b) && b.current == Some(g) && b.loops[g].Outside?
    ensures var waiting := Next(Next(b, BeginClose), SetPast(g, true));
            var told := Next(Next(Next(waiting, Call(g)), Look(g, call)), Report(g));
            var done := Next(Next(told, SeeExited(g)), ClearDeadline(g));
      && waiting == b.(closed := b.closed + {g}, current := None, closers := b.closers[g := Waiting],
                       line := Past, moved := true)
      && done == b.(closed := b.closed + {g}, current := None, exited := b.exited + {g},
                    closers := b.closers[g := Finished(false)], line := NoDeadline, moved := false)
  {
    var waiting := Next(Next(b, BeginClose), SetPast(g, true));
    assert b.closers[g := Setting][g := Waiting] == b.closers[g := Waiting];
    LoopReports(waiting, g, call);
    var told := waiting.(exited := waiting.exited + {g});
    assert Next(told, SeeExited(g)) == told.(closers := told.closers[g := Clearing]);
    assert told.closers[g := Clearing][g := Finished(false)] == b.closers[g := Finished(false)];
  }
}
