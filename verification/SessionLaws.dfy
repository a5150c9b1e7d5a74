/** What each operation of the session manager does to each registration, session and stop,
    in every state a run can reach: what comes in, what goes, for which reasons exactly, and
    what is reported. */
module SessionLaws {
  import opened Bytes
  import opened Counting
  import opened Messages
  import opened Sessions
  import opened SessionRuns

  // ---------------------------------------------------------------- registrations

  lemma UnregisteredMoves(m: Manager, op: Op, e: nat)
    requires EntriesOk(m) && InTable(m, e)
    ensures e < |m.entries|
    ensures e in Next(m, op).unregistered <==> e in m.unregistered || op == DoUnregister(m.entries[e].peer, Some(e))
  {
    InTableAt(m, e);
  }

  /** Calls of stop are made of stops decided on before. */
  lemma StoppedMoves(m: Manager, op: Op, e: nat)
    ensures e !in m.owed ==> multiset(Next(m, op).stopped)[e] == multiset(m.stopped)[e]
  {
  }

  /** Taken out of the table by its owner an entry is not stopped; by any other of the four
      causes, its stop is decided on there and then, and for no other reason. */
  lemma LeavesExactly(ops: seq<Op>, op: Op, e: nat)
    requires LegalRun(NEW, ops) && Legal(After(NEW, ops), op) && InTable(After(NEW, ops), e)
    ensures var m, t := After(NEW, ops), Next(After(NEW, ops), op);
      && e < |m.entries|
      && (!InTable(t, e) <==> Evicts(m, op, m.entries[e].peer, e))
      && (e in t.unregistered <==> op == DoUnregister(m.entries[e].peer, Some(e)))
      && (e in t.owed <==> Evicts(m, op, m.entries[e].peer, e) && !op.DoUnregister?)
  {
    RunOk(ops, 0);
    var m := After(NEW, ops);
    var t := Next(m, op);
    assert Ways(m, e) <= 1 && Ways(t, e) == 1 by { EntryCounted(m, op, e); }
    OnlyOwnCausesEvict(ops, op, e);
    UnregisteredMoves(m, op, e);
    StoppedMoves(m, op, e);
  }

  lemma EntryCounted(m: Manager, op: Op, e: nat)
    requires EntriesOk(m) && Legal(m, op) && InTable(m, e)
    ensures Ways(m, e) == 1 && Ways(Next(m, op), e) == 1
  {
    NextEntries(m, op);
    assert Ways(m, e) <= 1;
    NextKeeps(m, op, e);
    InTableAt(m, e);
    assert |m.entries| <= |Next(m, op).entries|;
  }

  /** An entry comes into the table only as it is made, by a registration the manager takes,
      which is every registration before a shutdown. */
  lemma EntersExactly(ops: seq<Op>, op: Op, e: nat)
    requires LegalRun(NEW, ops) && Legal(After(NEW, ops), op) && !InTable(After(NEW, ops), e)
    ensures var m, t := After(NEW, ops), Next(After(NEW, ops), op);
      && (InTable(t, e) <==> op.DoRegister? && !m.closing && e == |m.entries|)
      && (InTable(t, e) ==> e < |t.entries| && t.entries[e] == Entry(op.peer, op.tier, true)
                            && op.peer in t.tiers && t.tiers[op.peer] == e)
  {
    RunOk(ops, 0);
    var m := After(NEW, ops);
    NextEntries(m, op);
    InTableAt(m, e);
    InTableAt(Next(m, op), e);
  }

  /** An operator's disconnect retires the peer's tier: its registration is out of the table
      and its stop is decided on, its session is gone, and one DISCONNECT is reported. */
  lemma RemoveRetires(ops: seq<Op>, p: Peer, e: nat)
    requires LegalRun(NEW, ops) && p in After(NEW, ops).sessions
    requires p in After(NEW, ops).tiers && After(NEW, ops).tiers[p] == e
    ensures var m, t := After(NEW, ops), Next(After(NEW, ops), DoRemove(p));
      && !InTable(t, e) && e in t.owed && e !in m.owed && p !in t.tiers && p !in t.sessions
      && t.events == m.events + [Disconnected(p)]
  {
    RunOk(ops, 0);
    var m := After(NEW, ops);
    assert InTable(m, e);
    LeavesExactly(ops, DoRemove(p), e);
    assert Ways(m, e) == 1;
  }

  // ---------------------------------------------------------------- sessions

  /** The tier a first stream of peer p is reported on: that of the peer's registration in
      the table, or the floor. */
  predicate Rides(m: Manager, p: Peer, tier: Tier) {
    if p in m.tiers then m.tiers[p] < |m.entries| && tier == m.entries[m.tiers[p]].tier else tier == LIBP2P
  }

  /** The last stream of peer p ends, its session is removed, or everything is shut down. */
  predicate EndsSession(m: Manager, op: Op, p: Peer)
    requires p in m.sessions
  {
    (op == DoEnd(p) && m.sessions[p].streams == 1) || op == DoRemove(p) || op.DoShutdown?
  }

  /** A session begins with the first stream the manager takes, on the registered tier, and
      reports it; it ends with its last stream, its removal or a shutdown, and reports that
      unless it is the shutdown; in between only its own streams move its count, and its tier
      stays. Operations of other peers do not touch it. */
  lemma SessionExactly(ops: seq<Op>, op: Op, p: Peer)
    requires LegalRun(NEW, ops) && Legal(After(NEW, ops), op)
    ensures var m, t := After(NEW, ops), Next(After(NEW, ops), op);
      && (p !in m.sessions ==>
            && (p in t.sessions <==> op == DoBegin(p) && !m.closing)
            && (p in t.sessions ==> t.sessions[p].streams == 1 && Rides(m, p, t.sessions[p].tier)
                                    && t.events == m.events + [Connected(p, t.sessions[p].tier)]))
      && (p in m.sessions ==>
            && (p !in t.sessions <==> EndsSession(m, op, p))
            && (p !in t.sessions && !op.DoShutdown? ==> t.events == m.events + [Disconnected(p)])
            && (p in t.sessions ==>
                  && t.sessions[p].tier == m.sessions[p].tier
                  && t.sessions[p].streams == m.sessions[p].streams + Bit(op == DoBegin(p)) - Bit(op == DoEnd(p))))
  {
    RunOk(ops, p);
  }

  /** Nothing is reported but the beginning and the end of a session. */
  lemma ReportsOnlySessions(ops: seq<Op>, op: Op)
    requires LegalRun(NEW, ops) && Legal(After(NEW, ops), op)
    requires Next(After(NEW, ops), op).events != After(NEW, ops).events
    ensures var m, t := After(NEW, ops), Next(After(NEW, ops), op);
      && (op.DoBegin? || op.DoEnd? || op.DoRemove?)
      && (op.peer in m.sessions <==> op.peer !in t.sessions)
  {
    RunOk(ops, if op.DoBegin? || op.DoEnd? || op.DoRemove? then op.peer else 0);
  }

  // ---------------------------------------------------------------- stops

  lemma OneOwed(ops: seq<Op>, k: nat)
    requires LegalRun(NEW, ops) && k < |After(NEW, ops).owed|
    ensures multiset(After(NEW, ops).owed)[After(NEW, ops).owed[k]] == 1
  {
    RunOk(ops, 0);
    var m := After(NEW, ops);
    assert Ways(m, m.owed[k]) <= 1;
    assert m.owed[k] in multiset(m.owed);
  }

  lemma StopMoves(m: Manager, k: nat)
    requires k < |m.owed|
    ensures multiset(m.owed) == multiset(CallStop(m, k).owed) + multiset{m.owed[k]}
  {
    assert m.owed == m.owed[..k] + [m.owed[k]] + m.owed[k + 1..];
  }

  /** A stop decided on can be called at any time, and is called once: it moves from the ones
      owed to the ones made, and no other does. */
  lemma StopsAreCalled(ops: seq<Op>, k: nat)
    requires LegalRun(NEW, ops) && k < |After(NEW, ops).owed|
    ensures var m, t := After(NEW, ops), Next(After(NEW, ops), DoCallStop(k));
      && t.stopped == m.stopped + [m.owed[k]] && m.owed[k] !in t.owed
      && multiset(m.owed) == multiset(t.owed) + multiset{m.owed[k]}
      && t.tiers == m.tiers && t.sessions == m.sessions && t.events == m.events
  {
    OneOwed(ops, k);
    StopMoves(After(NEW, ops), k);
    var m := After(NEW, ops);
    assert Next(m, DoCallStop(k)) == CallStop(m, k);
    assert multiset(CallStop(m, k).owed)[m.owed[k]] == 0;
  }

  /** A shutdown closes the manager, and the stop of whatever was registered is decided on. */
  lemma ShutdownStopsAll(ops: seq<Op>, order: seq<nat>, e: nat)
    requires LegalRun(NEW, ops) && Lists(After(NEW, ops), order)
    ensures var m, t := After(NEW, ops), Next(After(NEW, ops), DoShutdown(order));
      t.closing && !InTable(t, e) && (InTable(m, e) ==> e in t.owed)
  {
    assert multiset(order)[e] == Bit(InTable(After(NEW, ops), e));
  }

  function Calls(n: nat): seq<Op> {
    seq(n, i => DoCallStop(0))
  }

  lemma CallFirst(m: Manager)
    requires m.owed != []
    ensures Next(m, DoCallStop(0)) == m.(owed := m.owed[1..], stopped := m.stopped + [m.owed[0]])
  {
    assert m.owed[..0] + m.owed[1..] == m.owed[1..];
  }

  /** The first stops called are the first owed; */
  lemma {:induction false} CallsAhead(m: Manager, n: nat)
    requires n <= |m.owed|
    ensures After(m, Calls(n)) == m.(owed := m.owed[n..], stopped := m.stopped + m.owed[..n])
  {
    if n == 0 {
      assert m.stopped + m.owed[..0] == m.stopped;
    } else {
      CallsAhead(m, n - 1);
      assert Calls(n)[..n - 1] == Calls(n - 1);
      CallFirst(After(m, Calls(n - 1)));
      assert m.owed[n - 1..][1..] == m.owed[n..];
      assert m.stopped + m.owed[..n - 1] + [m.owed[n - 1]] == m.stopped + m.owed[..n];
    }
  }

  /** so calling every stop owed, one after the other, is what settling does. */
  lemma SettleIsCalls(m: Manager)
    ensures After(m, Calls(|m.owed|)) == Settle(m)
  {
    CallsAhead(m, |m.owed|);
    assert m.owed[..|m.owed|] == m.owed;
  }
}
