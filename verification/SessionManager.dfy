/** The session manager as it runs: maps of sessions and tier registrations updated in place
    under the mutex, the stops called after it. Proved against Sessions, so the results about
    every run of Sessions are results about this class. */
module SessionManager {
  import opened Bytes
  import opened Counting
  import opened Messages
  import opened Sessions
  import SessionRuns

  class Live {
    const tier: Tier
    var streams: int

    constructor (tier: Tier)
      ensures this.tier == tier && streams == 1
    {
      this.tier, streams := tier, 1;
    }
  }

  /** A registration; its teardown hook is known by its number. */
  class Registration {
    const id: nat
    const tier: Tier

    constructor (id: nat, tier: Tier)
      ensures this.id == id && this.tier == tier
    {
      this.id, this.tier := id, tier;
    }
  }

  class Manager {
    var sessions: map<Peer, Live>
    var tiers: map<Peer, Registration>
    var handlers: int
    var closing: bool
    var emitted: seq<Event>
    var stopped: seq<nat>              // calls of stop, by the number of the registration
    var next: nat                      // registrations made so far
    ghost var made: seq<Registration>
    ghost var entries: seq<Entry>
    ghost var unregistered: set<nat>

    /** Registrations are numbered as they are made. */
    ghost predicate Numbered()
      reads this
    {
      next == |made| == |entries| && forall i | 0 <= i < |made| :: made[i].id == i && made[i].tier == entries[i].tier
    }

    /** Each session belongs to one peer, so counting one peer's streams moves nobody else's. */
    ghost predicate Apart()
      reads this
    {
      forall p, q | p in sessions && q in sessions && sessions[p] == sessions[q] :: p == q
    }

    ghost predicate Known()
      reads this
    {
      forall p | p in tiers :: tiers[p] in made
    }

    ghost predicate Valid()
      reads this
    {
      Numbered() && Apart() && Known()
    }

    ghost function LiveSessions(): map<Peer, Session>
      reads this, sessions.Values
    {
      map p | p in sessions :: Session(sessions[p].tier, sessions[p].streams)
    }

    ghost function Registered(): map<Peer, nat>
      reads this
    {
      map p | p in tiers :: tiers[p].id
    }

    ghost function View(): Sessions.Manager
      reads this, sessions.Values
    {
      Sessions.Manager(LiveSessions(), Registered(), entries, unregistered, [], stopped, handlers, closing, emitted)
    }

    constructor ()
      ensures Valid() && View() == NEW
    {
      sessions, tiers, handlers, closing, emitted := map[], map[], 0, false, [];
      stopped, next, made, entries, unregistered := [], 0, [], [], {};
    }

    // -------------------------------------------------------------- one field at a time

    /** Calls the stop of a registration, outside the lock. */
    method Stop(r: Registration)
      requires Valid()
      modifies this`stopped
      ensures Valid() && View() == old(View()).(stopped := old(stopped) + [r.id])
    {
      stopped := stopped + [r.id];
    }

    /** A registration exists before anyone decides what becomes of it. */
    method Enter(p: Peer, tier: Tier) returns (r: Registration)
      requires Valid()
      modifies this`next, this`made, this`entries
      ensures Valid() && fresh(r) && r.id == |old(entries)| && made == old(made) + [r]
      ensures View() == old(View()).(entries := old(entries) + [Entry(p, tier, !closing)])
    {
      r := new Registration(next, tier);
      next := next + 1;
      made := made + [r];
      entries := entries + [Entry(p, tier, !closing)];
    }

    method PutTier(p: Peer, r: Registration)
      requires Valid() && r in made
      modifies this`tiers
      ensures Valid() && tiers == old(tiers)[p := r]
      ensures View() == var m := old(View()); m.(tiers := m.tiers[p := r.id])
    {
      tiers := tiers[p := r];
      assert Registered() == old(Registered())[p := r.id];
    }

    method DropTier(p: Peer)
      requires Valid()
      modifies this`tiers
      ensures Valid() && tiers == old(tiers) - {p}
      ensures View() == var m := old(View()); m.(tiers := m.tiers - {p})
    {
      tiers := tiers - {p};
    }

    method PutSession(p: Peer, tier: Tier)
      requires Valid() && p !in sessions
      modifies this`sessions
      ensures Valid()
      ensures View() == var m := old(View()); m.(sessions := m.sessions[p := Session(tier, 1)])
    {
      var session := new Live(tier);
      sessions := sessions[p := session];
    }

    method DropSession(p: Peer)
      requires Valid()
      modifies this`sessions
      ensures Valid() && sessions == old(sessions) - {p}
      ensures View() == var m := old(View()); m.(sessions := m.sessions - {p})
    {
      sessions := sessions - {p};
    }

    method SetStreams(p: Peer, n: int)
      requires Valid() && p in sessions
      modifies sessions[p]
      ensures Valid() && sessions[p].streams == n
      ensures View() == var m := old(View()); m.(sessions := m.sessions[p := m.sessions[p].(streams := n)])
    {
      sessions[p].streams := n;
    }

    method Emit(e: Event)
      requires Valid()
      modifies this`emitted
      ensures Valid() && View() == old(View()).(events := old(emitted) + [e])
    {
      emitted := emitted + [e];
    }

    method AddHandlers(n: int)
      requires Valid()
      modifies this`handlers
      ensures Valid() && View() == old(View()).(handlers := old(handlers) + n)
    {
      handlers := handlers + n;
    }

    /** The session goes, and its one DISCONNECT event is reported. */
    method Forget(p: Peer)
      requires Valid()
      modifies this`sessions, this`emitted
      ensures Valid() && sessions == old(sessions) - {p}
      ensures View() == var m := old(View()); m.(sessions := m.sessions - {p}, events := m.events + [Disconnected(p)])
    {
      DropSession(p);
      Emit(Disconnected(p));
    }

    // -------------------------------------------------------------- the operations

    method RegisterTier(p: Peer, tier: Tier) returns (r: Registration?)
      requires Valid()
      modifies this`tiers, this`next, this`made, this`entries, this`stopped
      ensures Valid() && View() == Settle(Register(old(View()), p, tier))
      ensures if old(closing) then r == null else r != null && fresh(r) && p in tiers && tiers[p] == r
    {
      var entry := Enter(p, tier);
      if closing {
        Stop(entry);
        assert [] + [entry.id] == [entry.id];
        return null;
      }
      Install(p, entry);
      r := entry;
    }

    /** Puts a registration in the table and stops the one it displaces. */
    method Install(p: Peer, entry: Registration)
      requires Valid() && entry in made
      modifies this`tiers, this`stopped
      ensures Valid() && tiers == old(tiers)[p := entry]
      ensures View() == var m := old(View());
        m.(tiers := m.tiers[p := entry.id], stopped := m.stopped + (if p in m.tiers then [m.tiers[p]] else []))
    {
      var displaced: Registration? := if p in tiers then tiers[p] else null;
      PutTier(p, entry);
      if displaced != null {
        Stop(displaced);
      }
    }

    method UnregisterTier(p: Peer, entry: Registration?)
      requires Valid() && (entry != null ==> entry in made)
      modifies this`tiers, this`unregistered
      ensures Valid() && View() == Unregister(old(View()), p, if entry == null then None else Some(entry.id))
    {
      if entry == null {
        return;
      }
      if p in tiers && tiers[p] == entry {
        DropTier(p);
        unregistered := unregistered + {entry.id};
      }
    }

    method BeginStream(p: Peer) returns (ok: bool)
      requires Valid()
      modifies this`sessions, this`handlers, this`emitted, sessions.Values
      ensures Valid() && View() == Begin(old(View()), p) && (ok <==> !old(closing))
    {
      if closing {
        return false;
      }
      AddHandlers(1);
      ok := true;
      if p in sessions {
        SetStreams(p, sessions[p].streams + 1);
        return;
      }
      var tier := if p in tiers then tiers[p].tier else LIBP2P;
      assert tier == TierOf(View(), p);
      PutSession(p, tier);
      Emit(Connected(p, tier));
    }

    /** One stream fewer; the last one takes the session with it. */
    method Lower(p: Peer)
      requires Valid() && p in sessions
      modifies this`sessions, this`emitted, sessions[p]
      ensures Valid()
      ensures View() == var m := old(View());
        var left := m.sessions[p].streams - 1;
        if left <= 0 then m.(sessions := m.sessions - {p}, events := m.events + [Disconnected(p)])
        else m.(sessions := m.sessions[p := m.sessions[p].(streams := left)])
    {
      ghost var m := View().sessions;
      SetStreams(p, sessions[p].streams - 1);
      if sessions[p].streams <= 0 {
        assert View().sessions - {p} == m - {p};
        Forget(p);
      }
    }

    method EndStream(p: Peer)
      requires Valid()
      modifies this`sessions, this`handlers, this`emitted, sessions.Values
      ensures Valid() && View() == End(old(View()), p)
    {
      if p in sessions {
        Lower(p);
      }
      AddHandlers(-1);
    }

    method RemovePeer(p: Peer)
      requires Valid()
      modifies this`sessions, this`tiers, this`emitted, this`stopped
      ensures Valid() && View() == Settle(Remove(old(View()), p))
    {
      if p !in sessions {
        return;
      }
      var entry: Registration? := if p in tiers then tiers[p] else null;
      DropTier(p);
      Forget(p);
      if entry != null {
        Stop(entry);
      }
    }

    /** Whether the wait for the handlers that ends a shutdown is over. */
    method Quiet() returns (quiet: bool)
      ensures quiet <==> handlers == 0
    {
      quiet := handlers == 0;
    }

    /** quiet says whether the final wait returns at once; if not, it does when the last of
        the streams still being served ends. */
    method Shutdown() returns (quiet: bool, ghost order: seq<nat>)
      requires Valid()
      modifies this`sessions, this`tiers, this`closing, this`stopped
      ensures Valid() && Lists(old(View()), order) && View() == Settle(Sessions.Shutdown(old(View()), order))
      ensures quiet <==> SessionRuns.CanReturn(View())
    {
      var stops;
      stops, order := BeginShutdown();
      StopAll(stops);
      quiet := Quiet();
    }

    /** What a shutdown does under the lock; the stops it gathers are called after it. */
    method BeginShutdown() returns (stops: seq<Registration>, ghost order: seq<nat>)
      requires Valid()
      modifies this`sessions, this`tiers, this`closing
      ensures Valid() && Lists(old(View()), order) && order == IdsOf(stops)
      ensures View() == old(View()).(closing := true, tiers := map[], sessions := map[])
    {
      stops, order := Collect();
      Empty();
    }

    /** closing is set under the lock that BeginStream and RegisterTier take. */
    method Empty()
      requires Valid()
      modifies this`sessions, this`tiers, this`closing
      ensures Valid() && View() == old(View()).(closing := true, tiers := map[], sessions := map[])
    {
      closing, tiers, sessions := true, map[], map[];
    }

    /** The registrations in the table, each once, in the map iteration's order. */
    method Collect() returns (stops: seq<Registration>, ghost order: seq<nat>)
      requires Valid()
      ensures Lists(View(), order) && order == IdsOf(stops)
      ensures forall k | 0 <= k < |stops| :: stops[k] in made
    {
      stops := [];
      ghost var taken: set<Registration> := {};
      var left := tiers.Values;
      while left != {}
        invariant left + taken == tiers.Values && left !! taken
        invariant forall k | 0 <= k < |stops| :: stops[k] in taken
        invariant forall r | r in taken :: multiset(stops)[r] == 1
        decreases left
      {
        var r :| r in left;
        assert r !in stops;
        stops := stops + [r];
        left, taken := left - {r}, taken + {r};
      }
      order := IdsOf(stops);
      CollectedLists(stops);
    }

    lemma InTableHere(e: nat)
      requires Valid() && e < |made|
      ensures InTable(View(), e) <==> made[e] in tiers.Values
    {
      if InTable(View(), e) {
        var p :| p in View().tiers && View().tiers[p] == e;
        assert tiers[p] == made[e];
      }
      if made[e] in tiers.Values {
        var p :| p in tiers && tiers[p] == made[e];
        assert p in View().tiers && View().tiers[p] == e;
      }
    }

    lemma CollectedLists(stops: seq<Registration>)
      requires Valid() && (forall k | 0 <= k < |stops| :: stops[k] in tiers.Values)
      requires forall r | r in tiers.Values :: multiset(stops)[r] == 1
      ensures Lists(View(), IdsOf(stops))
    {
      forall e: nat ensures multiset(IdsOf(stops))[e] == Bit(InTable(View(), e)) {
        if e < |made| {
          IdsCount(stops, made[e]);
          InTableHere(e);
        } else {
          NoSuchId(stops, e);
        }
      }
    }

    lemma {:induction false} IdsCount(stops: seq<Registration>, r: Registration)
      requires Numbered() && r in made && forall k | 0 <= k < |stops| :: stops[k] in made
      ensures multiset(IdsOf(stops))[r.id] == multiset(stops)[r]
    {
      if stops != [] {
        IdsCount(stops[1..], r);
        assert stops == [stops[0]] + stops[1..];
      }
    }

    lemma {:induction false} NoSuchId(stops: seq<Registration>, e: nat)
      requires Numbered() && e >= |made| && forall k | 0 <= k < |stops| :: stops[k] in made
      ensures e !in IdsOf(stops)
    {
      if stops != [] {
        NoSuchId(stops[1..], e);
      }
    }

    method StopAll(stops: seq<Registration>)
      requires Valid()
      modifies this`stopped
      ensures Valid() && View() == old(View()).(stopped := old(stopped) + IdsOf(stops))
    {
      for k := 0 to |stops|
        invariant Valid() && View() == old(View()).(stopped := old(stopped) + IdsOf(stops[..k]))
      {
        Stop(stops[k]);
        IdsSnoc(stops[..k], stops[k]);
        assert stops[..k + 1] == stops[..k] + [stops[k]];
      }
      assert stops[..|stops|] == stops;
    }
  }

  ghost function IdsOf(rs: seq<Registration>): seq<nat> {
    if rs == [] then [] else [rs[0].id] + IdsOf(rs[1..])
  }

  lemma {:induction false} IdsSnoc(rs: seq<Registration>, r: Registration)
    ensures IdsOf(rs + [r]) == IdsOf(rs) + [r.id]
  {
    if rs == [] {
      assert rs + [r] == [r];
    } else {
      IdsSnoc(rs[1..], r);
      assert (rs + [r])[1..] == rs[1..] + [r];
    }
  }
}
