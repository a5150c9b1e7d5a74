/** What one arrival may cost the other messages: exactly the expired ones go, nothing is
    evicted that need not be, the oldest go first, and whatever else is stored stays as it is. */
module ReassemblyLaws {
  import opened Bytes
  import opened Reassembly
  import opened ReassemblyRuns

  /** A message stored for a whole TTL. */
  predicate Stale(s: State, id: Id, now: int) {
    id in s.partial && now - s.partial[id].created >= TTL
  }

  /** What is stored and not stale. */
  function Live(s: State, now: int): map<Id, Partial> {
    map id | id in s.partial && !Stale(s, id, now) :: s.partial[id]
  }

  lemma ExpiredGo(s: State, f: Fragment, now: int, c: Choice)
    requires Chosen(s, f, now, c)
    ensures RemoveAll(s, c.expired).partial == Live(s, now)
  {
    var t := RemoveAll(s, c.expired);
    forall id
      ensures (id in t.partial <==> id in Live(s, now)) && (id in t.partial ==> t.partial[id] == s.partial[id])
    {
      RemoveAllLeaves(s, c.expired, id);
      assert id in c.expired <==> Expired(s, id, now);
    }
  }

  /** What is stored just before the fragment is. */
  function Left(s: State, c: Choice): State {
    RemoveAll(RemoveAll(s, c.expired), c.evicted)
  }

  lemma LeftIs(s: State, f: Fragment, now: int, c: Choice, id: Id)
    requires Chosen(s, f, now, c)
    ensures id in Left(s, c).partial <==> id in Live(s, now) && id !in c.evicted
    ensures id in Left(s, c).partial ==> Left(s, c).partial[id] == s.partial[id]
  {
    ExpiredGo(s, f, now, c);
    RemoveAllLeaves(RemoveAll(s, c.expired), c.evicted, id);
  }

  lemma StoreOthers(s: State, f: Fragment, id: Id)
    requires f.id in s.partial && f.index < |s.partial[f.id].parts| && id != f.id
    ensures id in Store(s, f).state.partial <==> id in s.partial
    ensures id in s.partial ==> Store(s, f).state.partial[id] == s.partial[id]
  {
    StoreState(s, f);
  }

  /** Another message is stored after an arrival exactly if it was before, had not been stored
      for a whole TTL, and was not evicted; and then it is as it was. */
  lemma OthersKept(s: State, f: Fragment, now: int, c: Choice, id: Id)
    requires Ok(s) && !s.closed && Valid(f) && Chosen(s, f, now, c) && id != f.id
    ensures var t := Accept(s, f, now, c).state.partial;
      && (id in t <==> id in Live(s, now) && id !in c.evicted)
      && (id in t ==> t[id] == s.partial[id])
  {
    LeftIs(s, f, now, c, id);
    var u := RemoveAll(s, c.expired);
    ExpiredGo(s, f, now, c);
    if f.id in u.partial {
      assert c.evicted == [];
      if u.partial[f.id].total == f.total && |u.partial[f.id].parts| == f.count {
        StoreOthers(u, f, id);
      }
    } else {
      ReserveMakesRoom(s, f, now, c);
      StoreOthers(Admit(Left(s, c), f, now), f, id);
    }
  }

  lemma StoreCreated(s: State, f: Fragment)
    requires f.id in s.partial && f.index < |s.partial[f.id].parts|
    ensures var t := Store(s, f).state.partial; f.id in t ==> t[f.id].created == s.partial[f.id].created
  {
    StoreState(s, f);
  }

  /** After an arrival nothing that is stored has been stored for a whole TTL. */
  lemma NoneStale(s: State, f: Fragment, now: int, c: Choice, id: Id)
    requires Ok(s) && !s.closed && Valid(f) && Chosen(s, f, now, c)
    ensures !Stale(Accept(s, f, now, c).state, id, now)
  {
    if id != f.id {
      OthersKept(s, f, now, c, id);
    } else {
      var u := RemoveAll(s, c.expired);
      ExpiredGo(s, f, now, c);
      if f.id in u.partial {
        if u.partial[f.id].total == f.total && |u.partial[f.id].parts| == f.count {
          StoreCreated(u, f);
        }
      } else {
        ReserveMakesRoom(s, f, now, c);
        StoreCreated(Admit(Left(s, c), f, now), f);
      }
    }
  }

  // ---------------------------------------------------------------- evictions

  /** Each victim was the oldest of what was left when it went. */
  lemma {:induction false} VictimsOldest(s: State, total: nat, ids: seq<Id>, id: Id, other: Id)
    requires Evicts(s, total, ids) && id in ids && other in RemoveAll(s, ids).partial
    ensures id in s.partial && other in s.partial && s.partial[id].created <= s.partial[other].created
  {
    var front, last := ids[..|ids| - 1], ids[|ids| - 1];
    var t := RemoveAll(s, front);
    RemoveAllLeaves(s, ids, other);
    RemoveAllLeaves(s, front, other);
    RemoveAllLeaves(s, front, last);
    if id == last {
      assert Oldest(t, last);
      assert t.partial[last].created <= t.partial[other].created;
    } else {
      assert id in front;
      VictimsOldest(s, total, front, id, other);
    }
  }

  /** Only a message younger than none of those that stay is ever evicted. */
  lemma OldestGoFirst(s: State, f: Fragment, now: int, c: Choice, id: Id, other: Id)
    requires Ok(s) && !s.closed && Valid(f) && Chosen(s, f, now, c) && id in c.evicted
    requires other != f.id && other in Accept(s, f, now, c).state.partial
    ensures id in s.partial && other in s.partial && s.partial[id].created <= s.partial[other].created
  {
    OthersKept(s, f, now, c, other);
    LeftIs(s, f, now, c, other);
    ExpiredGo(s, f, now, c);
    VictimsOldest(RemoveAll(s, c.expired), f.total, c.evicted, id, other);
  }

  /** Whether what is stored leaves room for another message, by the two caps. */
  predicate Roomy(stored: nat, reserved: int, total: nat) {
    stored < MAX_PARTIAL && reserved + total <= MAX_BYTES
  }

  /** Nothing is evicted for a message that is stored already, or that fits. */
  lemma NoNeedlessEviction(s: State, f: Fragment, now: int, c: Choice)
    requires Ok(s) && Chosen(s, f, now, c)
    requires f.id in Live(s, now) || Roomy(|Live(s, now)|, Total(Live(s, now)), f.total)
    ensures c.evicted == []
  {
    ExpiredGo(s, f, now, c);
    RemoveAllOk(s, c.expired);
    if f.id !in Live(s, now) && c.evicted != [] {
      CrowdedFirst(RemoveAll(s, c.expired), f.total, c.evicted);
    }
  }

  lemma {:induction false} CrowdedFirst(s: State, total: nat, ids: seq<Id>)
    requires Evicts(s, total, ids) && ids != []
    ensures Crowded(s, total)
  {
    var front := ids[..|ids| - 1];
    if front != [] {
      CrowdedFirst(s, total, front);
    }
  }

  lemma OneNeeded(s: State, id: Id, total: nat)
    requires id in s.partial && Crowded(s, total)
    ensures var left := Remove(s, id);
      id !in left.partial && !Roomy(|left.partial| + 1, left.reserved + s.partial[id].total, total)
  {
    Smaller(s.partial, id);
  }

  /** The reassembler just before the last eviction. */
  function BeforeLast(s: State, c: Choice): State
    requires c.evicted != []
  {
    RemoveAll(RemoveAll(s, c.expired), c.evicted[..|c.evicted| - 1])
  }

  lemma BeforeLastOk(s: State, f: Fragment, now: int, c: Choice)
    requires Chosen(s, f, now, c) && c.evicted != []
    ensures var before, last := BeforeLast(s, c), c.evicted[|c.evicted| - 1];
      && last in before.partial && Crowded(before, f.total) && Left(s, c) == Remove(before, last)
      && last in s.partial && before.partial[last] == s.partial[last]
  {
    var t, last := RemoveAll(s, c.expired), c.evicted[|c.evicted| - 1];
    RemoveAllLeaves(t, c.evicted[..|c.evicted| - 1], last);
    RemoveAllLeaves(s, c.expired, last);
  }

  /** And no more than it takes: without the last eviction the newcomer would not have fitted. */
  lemma LastEvictionNeeded(s: State, f: Fragment, now: int, c: Choice)
    requires Chosen(s, f, now, c) && c.evicted != []
    ensures var last, left := c.evicted[|c.evicted| - 1], Left(s, c);
      && last in s.partial && last !in left.partial
      && !Roomy(|left.partial| + 1, left.reserved + s.partial[last].total, f.total)
  {
    BeforeLastOk(s, f, now, c);
    OneNeeded(BeforeLast(s, c), c.evicted[|c.evicted| - 1], f.total);
  }

  // ---------------------------------------------------------------- the message itself

  /** The fragment has the shape of what is stored under its ID. */
  predicate Fits(m: map<Id, Partial>, f: Fragment) {
    f.id in m ==> m[f.id].total == f.total && |m[f.id].parts| == f.count
  }

  /** A fragment that claims another shape than the message stored under its ID changes nothing
      but what has expired; and a closed reassembler takes nothing. */
  lemma MisfitIgnored(s: State, f: Fragment, now: int, c: Choice)
    requires Ok(s) && Valid(f) && Chosen(s, f, now, c)
    ensures !s.closed && !Fits(Live(s, now), f) ==>
      Accept(s, f, now, c).message == None && Accept(s, f, now, c).state.partial == Live(s, now)
    ensures s.closed ==> Accept(s, f, now, c) == Step(s, None)
  {
    ExpiredGo(s, f, now, c);
  }

  /** What is stored of part i of the message, before an arrival. */
  function PartOf(m: map<Id, Partial>, id: Id, i: nat): Octets {
    if id in m && i < |m[id].parts| then m[id].parts[i] else []
  }

  lemma StorePlaced(u: State, f: Fragment)
    requires f.id in u.partial && Fits(u.partial, f) && f.index < f.count
    ensures var r := Store(u, f);
      && (r.message == None <==> f.id in r.state.partial)
      && (r.message == None ==>
            && Fits(r.state.partial, f)
            && forall i | 0 <= i < f.count :: PartOf(r.state.partial, f.id, i) ==
                 if i == f.index && PartOf(u.partial, f.id, i) == [] then f.payload else PartOf(u.partial, f.id, i))
  {
    StoreState(u, f);
  }

  /** Every other fragment is in its place afterwards: its message is returned, or stored with
      the parts it had and this one. */
  lemma FragmentPlaced(s: State, f: Fragment, now: int, c: Choice)
    requires Ok(s) && !s.closed && Valid(f) && Chosen(s, f, now, c) && Fits(Live(s, now), f)
    ensures var r := Accept(s, f, now, c);
      && (r.message == None <==> f.id in r.state.partial)
      && (r.message == None ==>
            && Fits(r.state.partial, f)
            && forall i | 0 <= i < f.count :: PartOf(r.state.partial, f.id, i) ==
                 if i == f.index && PartOf(Live(s, now), f.id, i) == [] then f.payload
                 else PartOf(Live(s, now), f.id, i))
  {
    var u := RemoveAll(s, c.expired);
    ExpiredGo(s, f, now, c);
    if f.id in u.partial {
      StorePlaced(u, f);
    } else {
      var w := Admit(Left(s, c), f, now);
      ReserveMakesRoom(s, f, now, c);
      assert Accept(s, f, now, c) == Store(w, f);
      assert forall i | 0 <= i < f.count :: PartOf(w.partial, f.id, i) == [];
      StorePlaced(w, f);
    }
  }
}
