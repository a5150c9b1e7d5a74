/** What each ReadFrom of the QUIC tier returns and why, and that reads and Close go through:
    the branches of the hand-off that its safety leaves open. */
module HandOffLaws {
  import opened Bytes
  import opened PacketConn

  // ---------------------------------------------------------------- the history of a run

  /** What the substrate answered the ReadFrom, if it has been asked and has answered. */
  function AnswerTo(acts: seq<Act>, r: nat): Option<bool> {
    if acts == [] then None
    else
      var front, a := acts[..|acts| - 1], acts[|acts| - 1];
      if Answers(After(NEW, front), a, r) then Some(a.ok) else AnswerTo(front, r)
  }

  predicate Answers(p: Packets, a: Act, r: nat)
    ensures Answers(p, a, r) ==> a.Answer?
  {
    a.Answer? && a.r == r && r in p.froms && p.froms[r].InSubstrate?
  }

  /** What the history says of a ReadFrom, by where it is: a datagram it was given is always
      delivered, a failure is reported as the detach error only once Close has begun, and a
      ReadFrom that never asked the substrate can only have been detached. */
  predicate Told(p: Packets, answer: Option<bool>, r: nat) {
    if r !in p.froms then answer == None
    else
      match p.froms[r]
      case Answered(ok) => answer == Some(ok)
      case Leaving(result) => Fits(p, answer, result)
      case Left(result) => Fits(p, answer, result)
      case _ => answer == None
  }

  predicate Fits(p: Packets, answer: Option<bool>, result: Result) {
    match result
    case Delivered => answer == Some(true)
    case Failed => answer == Some(false)
    case Detached => p.closed && answer != Some(true)
  }

  lemma NextTold(p: Packets, a: Act, answer: Option<bool>, r: nat)
    requires Told(p, answer, r)
    ensures Told(Next(p, a), if Answers(p, a, r) then Some(a.ok) else answer, r)
  {
  }

  /** So a ReadFrom returns a datagram if and only if the substrate gave it one; and a closed
      conn's other answers are net.ErrClosed or failures the substrate reported. */
  lemma {:induction false} ResultsExactly(acts: seq<Act>, r: nat)
    ensures Told(After(NEW, acts), AnswerTo(acts, r), r)
  {
    if acts != [] {
      ResultsExactly(acts[..|acts| - 1], r);
      NextTold(After(NEW, acts[..|acts| - 1]), acts[|acts| - 1], AnswerTo(acts[..|acts| - 1], r), r);
    }
  }

  // ---------------------------------------------------------------- reads go through

  /** A ReadFrom that finds the token takes it, asks the substrate exactly if Close has not
      begun, and gives the token back with what it was answered. */
  lemma ReadGoesThrough(p: Packets, r: nat, call: nat, ok: bool)
    requires Inv(p) && p.token && r !in p.froms
    ensures var holding := Next(Next(p, Enter(r)), TakeToken(r));
            var asked := Next(holding, Look(r, call));
            var left := Next(Next(Next(asked, Answer(r, ok)), LookAgain(r)), GiveToken(r));
      && holding.froms[r] == HasToken && !holding.token
      && (!p.closed ==>
            && asked.froms[r] == InSubstrate(call)
            && left.froms[r] == Left(if ok then Delivered else Failed) && left.token)
      && (p.closed ==> asked.froms[r] == Leaving(Detached) && Next(asked, GiveToken(r)).froms[r] == Left(Detached))
  {
  }

  /** A failure seen after Close has begun is reported as net.ErrClosed; a datagram is not. */
  lemma ClosedWhileAnswered(p: Packets, r: nat)
    requires p.closed && r in p.froms && p.froms[r].Answered?
    ensures Next(p, LookAgain(r)).froms[r] == Leaving(if p.froms[r].ok then Delivered else Detached)
  {
  }

  // ---------------------------------------------------------------- Close goes through

  /** Close puts the deadline in the past before it waits; with the token at hand it clears
      the deadline and returns it, leaving the substrate open. */
  lemma CloseHandsOff(p: Packets)
    requires Inv(p) && p.closer.NotClosed?
    ensures var waiting := Next(Next(p, BeginClose), SetPast);
            var done := Next(Next(Next(waiting, AcquireToken), ClearDeadline), ReturnToken);
      && waiting.closed && waiting.closer.Waiting? && waiting.line == Past && waiting.token == p.token
      && (p.token ==> done.closer == Finished(false) && done.token && done.open && done.line == NoDeadline)
  {
  }

  /** When the token does not come back in time Close gives the substrate up: it closes it and
      says so. */
  lemma CloseGivesUp(p: Packets)
    requires Inv(p) && p.closer.Waiting?
    ensures var done := Next(Next(p, Grace), CloseSubstrate); done.closer == Finished(true) && !done.open
    ensures !p.token ==> Next(p, AcquireToken) == p
  {
  }
}
