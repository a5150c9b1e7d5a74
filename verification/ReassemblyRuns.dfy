/** What the bounded, evicting reassembler keeps and what it returns, over every sequence of
    arrivals: it refines "return a message once all its fragments have been seen". */
module ReassemblyRuns {
  import opened Bytes
  import opened Counting
  import opened Reassembly

  // ---------------------------------------------------------------- sums and counts

  /** The advertised sizes of every stored message, added up. */
  ghost function Total(m: map<Id, Partial>): nat {
    if m == map[] then 0 else
      var id :| id in m;
      m[id].total + Total(m - {id})
  }

  lemma {:induction false} TotalSplit(m: map<Id, Partial>, id: Id)
    requires id in m
    ensures Total(m) == m[id].total + Total(m - {id})
    decreases |m|
  {
    var x :| x in m && Total(m) == m[x].total + Total(m - {x});
    if x != id {
      Smaller(m, x);
      Smaller(m, id);
      TotalSplit(m - {x}, id);
      TotalSplit(m - {id}, x);
      assert m - {x} - {id} == m - {id} - {x};
    }
  }

  lemma Smaller(m: map<Id, Partial>, id: Id)
    requires id in m
    ensures |m - {id}| == |m| - 1
  {
    assert (m - {id}).Keys == m.Keys - {id};
    assert |m| == |m.Keys| && |m - {id}| == |(m - {id}).Keys|;
  }

  lemma Larger(m: map<Id, Partial>, id: Id, p: Partial)
    requires id !in m
    ensures |m[id := p]| == |m| + 1 && Total(m[id := p]) == Total(m) + p.total
  {
    assert m[id := p] - {id} == m;
    Smaller(m[id := p], id);
    TotalSplit(m[id := p], id);
  }

  lemma Same(m: map<Id, Partial>, id: Id, p: Partial)
    requires id in m && p.total == m[id].total
    ensures |m[id := p]| == |m| && Total(m[id := p]) == Total(m)
  {
    assert m[id := p] - {id} == m - {id};
    Smaller(m[id := p], id);
    Smaller(m, id);
    TotalSplit(m[id := p], id);
    TotalSplit(m, id);
  }

  lemma {:induction false} TotalBound(m: map<Id, Partial>)
    requires forall id | id in m :: m[id].total <= MAX_MESSAGE
    ensures Total(m) <= |m| * MAX_MESSAGE
    decreases |m|
  {
    if m != map[] {
      var id :| id in m;
      Smaller(m, id);
      TotalSplit(m, id);
      TotalBound(m - {id});
    }
  }

  function Filled(parts: seq<Octets>): nat {
    if parts == [] then 0 else Filled(parts[..|parts| - 1]) + (if parts[|parts| - 1] != [] then 1 else 0)
  }

  lemma {:induction false} FilledBound(parts: seq<Octets>)
    ensures Filled(parts) <= |parts|
    ensures Filled(parts) == |parts| <==> forall i | 0 <= i < |parts| :: parts[i] != []
  {
    if parts != [] {
      FilledBound(parts[..|parts| - 1]);
    }
  }

  lemma {:induction false} FilledUpdate(parts: seq<Octets>, i: nat, v: Octets)
    requires i < |parts| && parts[i] == []
    ensures Filled(parts[i := v]) == Filled(parts) + (if v != [] then 1 else 0)
  {
    var k := |parts| - 1;
    if i < k {
      FilledUpdate(parts[..k], i, v);
      assert parts[i := v][..k] == parts[..k][i := v];
    } else {
      assert parts[i := v][..k] == parts[..k];
    }
  }

  lemma {:induction false} FilledNone(n: nat)
    ensures Filled(Blank(n)) == 0
  {
    if n > 0 {
      FilledNone(n - 1);
      assert Blank(n)[..n - 1] == Blank(n - 1);
    }
  }

  // ---------------------------------------------------------------- the invariant

  ghost predicate PartialOk(p: Partial) {
    && p.total <= MAX_MESSAGE && |p.parts| == Count(p.total)
    && p.received == Filled(p.parts) && p.received < |p.parts|
    && forall i | 0 <= i < |p.parts| :: p.parts[i] == [] || |p.parts[i]| == End(i, p.total) - Start(i)
  }

  /** reserved is the sum of what is stored, both caps hold, and every stored message is
      incomplete and counts its parts correctly. */
  ghost predicate Ok(s: State) {
    && s.reserved == Total(s.partial)
    && |s.partial| <= MAX_PARTIAL && s.reserved <= MAX_BYTES
    && (forall id | id in s.partial :: PartialOk(s.partial[id]))
    && (s.closed ==> s.partial == map[])
  }

  lemma RemoveOk(s: State, id: Id)
    requires Ok(s)
    ensures Ok(Remove(s, id))
  {
    if id in s.partial {
      Smaller(s.partial, id);
      TotalSplit(s.partial, id);
    }
  }

  lemma {:induction false} RemoveAllOk(s: State, ids: seq<Id>)
    requires Ok(s)
    ensures Ok(RemoveAll(s, ids)) && RemoveAll(s, ids).closed == s.closed
  {
    if ids != [] {
      RemoveAllOk(s, ids[..|ids| - 1]);
      RemoveOk(RemoveAll(s, ids[..|ids| - 1]), ids[|ids| - 1]);
    }
  }

  lemma {:induction false} RemoveAllLeaves(s: State, ids: seq<Id>, id: Id)
    ensures id in RemoveAll(s, ids).partial <==> id in s.partial && id !in ids
    ensures id in RemoveAll(s, ids).partial ==> RemoveAll(s, ids).partial[id] == s.partial[id]
  {
    if ids != [] {
      var k := |ids| - 1;
      RemoveAllLeaves(s, ids[..k], id);
      assert id in ids <==> id in ids[..k] || id == ids[k];
    }
  }

  /** After reserve the newcomer always fits: the guard that follows it in accept is dead. */
  lemma ReserveMakesRoom(s: State, f: Fragment, now: int, c: Choice)
    requires Ok(s) && Valid(f) && Chosen(s, f, now, c) && f.id !in RemoveAll(s, c.expired).partial
    ensures !Crowded(RemoveAll(RemoveAll(s, c.expired), c.evicted), f.total)
  {
    RemoveAllOk(s, c.expired);
    RemoveAllOk(RemoveAll(s, c.expired), c.evicted);
  }

  lemma AdmitFacts(s: State, f: Fragment, now: int)
    requires Ok(s) && Valid(f) && f.id !in s.partial && !Crowded(s, f.total) && !s.closed
    ensures var t := Admit(s, f, now);
      && t.reserved == Total(t.partial) && |t.partial| <= MAX_PARTIAL && t.reserved <= MAX_BYTES
      && PartialOk(t.partial[f.id]) && Ok(t)
  {
    Larger(s.partial, f.id, Partial(now, f.total, Blank(f.count), 0));
    FilledNone(f.count);
  }

  function Filling(p: Partial, f: Fragment): Partial
    requires f.index < |p.parts|
  {
    p.(parts := p.parts[f.index := f.payload], received := p.received + 1)
  }

  lemma FillingOk(p: Partial, f: Fragment)
    requires PartialOk(p) && Valid(f) && p.total == f.total && |p.parts| == f.count && p.parts[f.index] == []
    ensures var p' := Filling(p, f);
            p'.total == p.total && (p'.received == |p'.parts| || PartialOk(p'))
  {
    FilledUpdate(p.parts, f.index, f.payload);
    FilledBound(Filling(p, f).parts);
  }

  /** A duplicate changes nothing, a last part removes its message, any other fills its slot. */
  lemma StoreState(s: State, f: Fragment)
    requires f.id in s.partial && f.index < |s.partial[f.id].parts|
    ensures var p := s.partial[f.id];
      Store(s, f).state == if p.parts[f.index] != [] then s
                           else if p.received + 1 == |p.parts| then Remove(s, f.id)
                           else s.(partial := s.partial[f.id := Filling(p, f)])
  {
    assert s.partial[f.id := Filling(s.partial[f.id], f)] - {f.id} == s.partial - {f.id};
  }

  lemma ReplacedOk(s: State, id: Id, p: Partial)
    requires Ok(s) && id in s.partial && p.total == s.partial[id].total && PartialOk(p)
    ensures Ok(s.(partial := s.partial[id := p]))
  {
    Same(s.partial, id, p);
    var m := s.partial[id := p];
    assert forall x | x in m :: PartialOk(m[x]);
  }

  lemma StoreOk(s: State, f: Fragment)
    requires Ok(s) && Valid(f) && f.id in s.partial && !s.closed
    requires s.partial[f.id].total == f.total && |s.partial[f.id].parts| == f.count
    ensures Ok(Store(s, f).state)
  {
    StoreState(s, f);
    var p := s.partial[f.id];
    if p.parts[f.index] == [] {
      var p' := Filling(p, f);
      assert p'.total == p.total && (p'.received == |p'.parts| || PartialOk(p')) by { FillingOk(p, f); }
      if p'.received == |p'.parts| {
        RemoveOk(s, f.id);
      } else {
        ReplacedOk(s, f.id, p');
      }
    }
  }

  lemma AcceptOk(s: State, f: Fragment, now: int, c: Choice)
    requires Ok(s) && Valid(f) && Chosen(s, f, now, c)
    ensures Ok(Accept(s, f, now, c).state)
  {
    if !s.closed {
      var t := RemoveAll(s, c.expired);
      assert Ok(t) && !t.closed by { RemoveAllOk(s, c.expired); }
      if f.id in t.partial {
        if t.partial[f.id].total == f.total && |t.partial[f.id].parts| == f.count {
          StoreOk(t, f);
        }
      } else {
        var u := RemoveAll(t, c.evicted);
        assert Ok(u) && !u.closed by { RemoveAllOk(t, c.evicted); }
        assert !Crowded(u, f.total) by { ReserveMakesRoom(s, f, now, c); }
        assert f.id !in u.partial by { RemoveAllLeaves(t, c.evicted, f.id); }
        assert Ok(Admit(u, f, now)) by { AdmitFacts(u, f, now); }
        StoreOk(Admit(u, f, now), f);
      }
    }
  }

  // ---------------------------------------------------------------- runs of honest arrivals

  /** Fragment `index` of message `id` arrives; it may arrive any number of times, or never. */
  datatype Arrival = Arrival(id: Id, index: nat, now: int, choice: Choice)

  type Messages = m: map<Id, Octets> | forall id | id in m :: |m[id]| <= MAX_MESSAGE

  predicate Addressed(messages: Messages, a: Arrival) {
    a.id in messages && a.index < Count(|messages[a.id]|)
  }

  function Carried(messages: Messages, a: Arrival): (f: Fragment)
    requires Addressed(messages, a)
    ensures Valid(f)
  {
    FragmentValid(a.id, messages[a.id], a.index);
    FragmentOf(a.id, messages[a.id], a.index)
  }

  function Take(s: State, messages: Messages, a: Arrival): Step
    requires Addressed(messages, a)
  {
    Accept(s, Carried(messages, a), a.now, a.choice)
  }

  /** The state after a sequence of arrivals and everything accept returned on the way. */
  datatype Trace = Trace(state: State, returned: seq<(Id, Octets)>)

  ghost predicate AllAddressed(messages: Messages, arrivals: seq<Arrival>) {
    forall k | 0 <= k < |arrivals| :: Addressed(messages, arrivals[k])
  }

  ghost function Feed(s: State, messages: Messages, arrivals: seq<Arrival>): Trace
    requires AllAddressed(messages, arrivals)
  {
    if arrivals == [] then Trace(s, []) else
      var k := |arrivals| - 1;
      var before := Feed(s, messages, arrivals[..k]);
      var step := Take(before.state, messages, arrivals[k]);
      Trace(step.state, before.returned + (if step.message.Some? then [(arrivals[k].id, step.message.value)] else []))
  }

  /** Every choice along the way is one the code could make. */
  ghost predicate Legal(s: State, messages: Messages, arrivals: seq<Arrival>)
    requires AllAddressed(messages, arrivals)
  {
    arrivals == [] ||
    var k := |arrivals| - 1;
    && Legal(s, messages, arrivals[..k])
    && Chosen(Feed(s, messages, arrivals[..k]).state, Carried(messages, arrivals[k]), arrivals[k].now,
              arrivals[k].choice)
  }

  /** Every stored part is the part of that index of the message sent under that ID. */
  ghost predicate Faithful(s: State, messages: Messages) {
    forall id | id in s.partial :: id in messages && FaithfulPart(s.partial[id], messages[id])
  }

  ghost predicate FaithfulPart(p: Partial, message: Octets) {
    && p.total == |message| && |p.parts| == Count(|message|)
    && forall i | 0 <= i < |p.parts| :: p.parts[i] == [] || p.parts[i] == Chunk(message, i)
  }

  predicate Has(s: State, id: Id, index: nat) {
    id in s.partial && index < |s.partial[id].parts| && s.partial[id].parts[index] != []
  }

  /** Parts that are all chunks of a message make up the message. */
  lemma WholeMessage(parts: seq<Octets>, message: Octets)
    requires |parts| == Count(|message|) && forall i | 0 <= i < |parts| :: parts[i] == Chunk(message, i)
    ensures Concat(parts) == message
  {
    ConcatChunks(message, parts);
    assert Start(|parts|) >= |message|;
    assert message[..|message|] == message;
  }

  lemma FillsFaithfully(p: Partial, message: Octets, id: Id, index: nat)
    requires FaithfulPart(p, message) && index < Count(|message|)
    ensures FaithfulPart(Filling(p, FragmentOf(id, message, index)), message)
  {
  }

  lemma LastPart(p: Partial, index: nat)
    requires PartialOk(p) && index < |p.parts| && p.parts[index] == [] && p.received + 1 == |p.parts|
    ensures forall i | 0 <= i < |p.parts| :: i == index || p.parts[i] != []
  {
    var full := p.parts[index := [0]];
    FilledUpdate(p.parts, index, [0]);
    FilledBound(full);
    assert forall i | 0 <= i < |p.parts| && i != index :: full[i] == p.parts[i];
  }

  /** A part that completes its message completes it to exactly what was sent. */
  lemma CompletesFaithfully(p: Partial, message: Octets, id: Id, index: nat)
    requires |message| <= MAX_MESSAGE && PartialOk(p) && FaithfulPart(p, message)
    requires index < Count(|message|) && p.parts[index] == []
    ensures var p' := Filling(p, FragmentOf(id, message, index));
      && FaithfulPart(p', message)
      && (p'.received == |p'.parts| ==> Concat(p'.parts) == message
                                        && forall i | 0 <= i < |p.parts| :: i == index || p.parts[i] != [])
  {
    var p' := Filling(p, FragmentOf(id, message, index));
    FillsFaithfully(p, message, id, index);
    if p'.received == |p'.parts| {
      LastPart(p, index);
      assert Concat(p'.parts) == message by {
        forall i | 0 <= i < |p'.parts| ensures p'.parts[i] == Chunk(message, i) {
        }
        WholeMessage(p'.parts, message);
      }
    }
  }

  lemma StoreFaithful(s: State, messages: Messages, a: Arrival)
    requires Ok(s) && Faithful(s, messages) && Addressed(messages, a) && a.id in s.partial
    ensures var r := Store(s, Carried(messages, a));
            Faithful(r.state, messages) && (r.message.Some? ==> r.message.value == messages[a.id])
  {
    var p := s.partial[a.id];
    if p.parts[a.index] == [] {
      CompletesFaithfully(p, messages[a.id], a.id, a.index);
    }
  }

  /** Parts stored and messages returned are paid for by arrivals. */
  predicate Counted(s: State, r: Step, a: Arrival, id: Id, index: nat) {
    Bit(Has(r.state, id, index)) + Bit(r.message.Some? && a.id == id)
      <= Bit(Has(s, id, index)) + Bit(a.id == id && a.index == index)
  }

  lemma StoreCounted(s: State, messages: Messages, a: Arrival, id: Id, index: nat)
    requires Ok(s) && Faithful(s, messages) && Addressed(messages, a) && a.id in s.partial
    requires id in messages && index < Count(|messages[id]|)
    ensures Counted(s, Store(s, Carried(messages, a)), a, id, index)
  {
    var p := s.partial[a.id];
    if p.parts[a.index] == [] {
      CompletesFaithfully(p, messages[a.id], a.id, a.index);
    }
  }

  /** The reassembler as accept is about to store the arrival. */
  function Ready(s: State, messages: Messages, a: Arrival): State
    requires Addressed(messages, a)
  {
    var t := RemoveAll(s, a.choice.expired);
    if a.id in t.partial then t else Admit(RemoveAll(t, a.choice.evicted), Carried(messages, a), a.now)
  }

  lemma RemovedFaithful(s: State, messages: Messages, ids: seq<Id>)
    requires Faithful(s, messages)
    ensures Faithful(RemoveAll(s, ids), messages)
  {
    forall id | id in RemoveAll(s, ids).partial
      ensures id in messages && FaithfulPart(RemoveAll(s, ids).partial[id], messages[id])
    {
      RemoveAllLeaves(s, ids, id);
    }
  }

  lemma ReadyOk(s: State, messages: Messages, a: Arrival)
    requires Ok(s) && !s.closed && Addressed(messages, a) && Chosen(s, Carried(messages, a), a.now, a.choice)
    ensures Ok(Ready(s, messages, a)) && a.id in Ready(s, messages, a).partial
  {
    var f := Carried(messages, a);
    var t := RemoveAll(s, a.choice.expired);
    assert Ok(t) && !t.closed by { RemoveAllOk(s, a.choice.expired); }
    if a.id in t.partial {
      RemoveAllLeaves(s, a.choice.expired, a.id);
    } else {
      var u := RemoveAll(t, a.choice.evicted);
      assert Ok(u) && !u.closed by { RemoveAllOk(t, a.choice.evicted); }
      assert !Crowded(u, f.total) by { ReserveMakesRoom(s, f, a.now, a.choice); }
      assert a.id !in u.partial by { RemoveAllLeaves(t, a.choice.evicted, a.id); }
      assert Ok(Admit(u, f, a.now)) by { AdmitFacts(u, f, a.now); }
    }
  }

  lemma ReadyFaithful(s: State, messages: Messages, a: Arrival)
    requires Faithful(s, messages) && Addressed(messages, a)
    ensures Faithful(Ready(s, messages, a), messages)
  {
    RemovedFaithful(s, messages, a.choice.expired);
    RemovedFaithful(RemoveAll(s, a.choice.expired), messages, a.choice.evicted);
  }

  lemma ReadyHas(s: State, messages: Messages, a: Arrival, id: Id, index: nat)
    requires Addressed(messages, a) && Has(Ready(s, messages, a), id, index)
    ensures Has(s, id, index)
  {
    var t := RemoveAll(s, a.choice.expired);
    RemoveAllLeaves(s, a.choice.expired, id);
    RemoveAllLeaves(t, a.choice.evicted, id);
  }

  /** Accepting an arrival is storing it in the reassembler made ready for it. */
  lemma TakeIsStore(s: State, messages: Messages, a: Arrival)
    requires Ok(s) && !s.closed && Faithful(s, messages) && Addressed(messages, a)
    requires Chosen(s, Carried(messages, a), a.now, a.choice)
    requires a.id in Ready(s, messages, a).partial && Faithful(Ready(s, messages, a), messages)
    ensures Take(s, messages, a) == Store(Ready(s, messages, a), Carried(messages, a))
  {
    if a.id !in RemoveAll(s, a.choice.expired).partial {
      ReserveMakesRoom(s, Carried(messages, a), a.now, a.choice);
    }
  }

  /** One arrival: whatever is returned is the message sent. */
  lemma TakeFaithful(s: State, messages: Messages, a: Arrival)
    requires Ok(s) && Faithful(s, messages) && Addressed(messages, a)
    requires Chosen(s, Carried(messages, a), a.now, a.choice)
    ensures var r := Take(s, messages, a);
            Ok(r.state) && Faithful(r.state, messages) && (r.message.Some? ==> r.message.value == messages[a.id])
  {
    AcceptOk(s, Carried(messages, a), a.now, a.choice);
    if !s.closed {
      ReadyOk(s, messages, a);
      ReadyFaithful(s, messages, a);
      TakeIsStore(s, messages, a);
      StoreFaithful(Ready(s, messages, a), messages, a);
    }
  }

  lemma TakeCounted(s: State, messages: Messages, a: Arrival, id: Id, index: nat)
    requires Ok(s) && Faithful(s, messages) && Addressed(messages, a)
    requires Chosen(s, Carried(messages, a), a.now, a.choice)
    requires id in messages && index < Count(|messages[id]|)
    ensures Counted(s, Take(s, messages, a), a, id, index)
  {
    if !s.closed {
      ReadyOk(s, messages, a);
      ReadyFaithful(s, messages, a);
      TakeIsStore(s, messages, a);
      StoreCounted(Ready(s, messages, a), messages, a, id, index);
      if Has(Ready(s, messages, a), id, index) {
        ReadyHas(s, messages, a, id, index);
      }
    }
  }

  function Arrivals(arrivals: seq<Arrival>, id: Id, index: nat): nat {
    if arrivals == [] then 0 else
      var last := arrivals[|arrivals| - 1];
      Arrivals(arrivals[..|arrivals| - 1], id, index) + (if last.id == id && last.index == index then 1 else 0)
  }

  function Returns(returned: seq<(Id, Octets)>, id: Id): nat {
    if returned == [] then 0 else
      Returns(returned[..|returned| - 1], id) + (if returned[|returned| - 1].0 == id then 1 else 0)
  }

  lemma ReturnsSnoc(returned: seq<(Id, Octets)>, r: (Id, Octets), id: Id)
    ensures Returns(returned + [r], id) == Returns(returned, id) + (if r.0 == id then 1 else 0)
  {
    assert (returned + [r])[..|returned|] == returned;
  }

  const EMPTY := State(map[], 0, false)

  /** Refinement, what is returned: after any legal sequence of arrivals of fragments of
      distinct messages, in any order, with any losses, repetitions, expiries and evictions,
      every message returned is the one sent under its ID, and the state invariant holds. */
  lemma {:induction false} ReturnsWhatWasSent(messages: Messages, arrivals: seq<Arrival>)
    requires AllAddressed(messages, arrivals) && Legal(EMPTY, messages, arrivals)
    ensures var x := Feed(EMPTY, messages, arrivals);
      && Ok(x.state) && Faithful(x.state, messages)
      && forall k | 0 <= k < |x.returned| :: x.returned[k].0 in messages && x.returned[k].1 == messages[x.returned[k].0]
  {
    if arrivals != [] {
      var k := |arrivals| - 1;
      ReturnsWhatWasSent(messages, arrivals[..k]);
      TakeFaithful(Feed(EMPTY, messages, arrivals[..k]).state, messages, arrivals[k]);
    }
  }

  /** Refinement, how often: a message is returned no more often than any one of its
      fragments arrived, counting a fragment still stored as not yet spent. */
  lemma {:induction false} ReturnsNoMoreThanArrived(messages: Messages, arrivals: seq<Arrival>, id: Id, index: nat)
    requires AllAddressed(messages, arrivals) && Legal(EMPTY, messages, arrivals)
    requires id in messages && index < Count(|messages[id]|)
    ensures var x := Feed(EMPTY, messages, arrivals);
            Returns(x.returned, id) + Bit(Has(x.state, id, index)) <= Arrivals(arrivals, id, index)
  {
    if arrivals != [] {
      var k := |arrivals| - 1;
      var front, last := arrivals[..k], arrivals[k];
      ReturnsNoMoreThanArrived(messages, front, id, index);
      var before := Feed(EMPTY, messages, front);
      assert Counted(before.state, Take(before.state, messages, last), last, id, index) by {
        ReturnsWhatWasSent(messages, front);
        TakeCounted(before.state, messages, last, id, index);
      }
      var step := Take(before.state, messages, last);
      var x := Feed(EMPTY, messages, arrivals);
      assert x.state == step.state;
      assert Arrivals(arrivals, id, index) == Arrivals(front, id, index) + Bit(last.id == id && last.index == index);
      if step.message.Some? {
        assert x.returned == before.returned + [(last.id, step.message.value)];
        ReturnsSnoc(before.returned, (last.id, step.message.value), id);
      } else {
        assert x.returned == before.returned;
      }
    }
  }
}
