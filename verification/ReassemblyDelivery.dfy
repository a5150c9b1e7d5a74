/** Delivery: a message that is neither expired nor crowded out is returned as its last
    missing fragment arrives; and what that takes is never more than three other messages
    incomplete at a time and every fragment inside one TTL. */
module ReassemblyDelivery {
  import opened Bytes
  import opened Counting
  import opened Reassembly
  import opened ReassemblyRuns

  ghost predicate Sound(s: State, messages: Messages) {
    Ok(s) && !s.closed && Faithful(s, messages)
  }

  /** Arrival a does not cost message `id` what is stored of it: the message has not expired,
      and if a starts another message there is room for that one. */
  ghost predicate Spares(s: State, messages: Messages, a: Arrival, id: Id)
    requires Addressed(messages, a)
  {
    id in s.partial ==>
      && !Expired(s, id, a.now)
      && var t := RemoveAll(s, a.choice.expired);
         a.id in t.partial || !Crowded(t, |messages[a.id]|)
  }

  lemma {:induction false} EvictsOnlyWhenCrowded(s: State, total: nat, ids: seq<Id>)
    requires Evicts(s, total, ids) && ids != []
    ensures Crowded(s, total)
  {
    var front := ids[..|ids| - 1];
    if front == [] {
      assert RemoveAll(s, front) == s;
    } else {
      EvictsOnlyWhenCrowded(s, total, front);
    }
  }

  /** Making room for an arrival that spares message `id` keeps everything stored of it. */
  lemma ReadyKeeps(s: State, messages: Messages, a: Arrival, id: Id, i: nat)
    requires Sound(s, messages) && Addressed(messages, a) && Chosen(s, Carried(messages, a), a.now, a.choice)
    requires Spares(s, messages, a, id)
    ensures Sound(Ready(s, messages, a), messages) && a.id in Ready(s, messages, a).partial
    ensures Has(Ready(s, messages, a), id, i) <==> Has(s, id, i)
  {
    var t := RemoveAll(s, a.choice.expired);
    ReadyOk(s, messages, a);
    ReadyFaithful(s, messages, a);
    RemoveAllLeaves(s, a.choice.expired, id);
    assert !Ready(s, messages, a).closed by { ReadyOpen(s, messages, a); }
    if id in s.partial {
      assert id in t.partial && t.partial[id] == s.partial[id];
      if a.id !in t.partial {
        if a.choice.evicted != [] {
          EvictsOnlyWhenCrowded(t, |messages[a.id]|, a.choice.evicted);
        }
        assert RemoveAll(t, a.choice.evicted) == t;
      }
    } else {
      RemoveAllLeaves(t, a.choice.evicted, id);
    }
  }

  lemma ReadyOpen(s: State, messages: Messages, a: Arrival)
    requires Ok(s) && Addressed(messages, a)
    ensures Ready(s, messages, a).closed == s.closed
  {
    RemoveAllOk(s, a.choice.expired);
    RemoveAllOk(RemoveAll(s, a.choice.expired), a.choice.evicted);
  }

  lemma NonEmptyChunk(message: Octets, index: nat)
    requires index < Count(|message|) && 1 < Count(|message|)
    ensures Chunk(message, index) != []
  {
  }

  /** A fragment of another message leaves this one as it was. */
  lemma OtherStored(s: State, messages: Messages, a: Arrival, id: Id, i: nat)
    requires Ok(s) && Faithful(s, messages) && Addressed(messages, a) && a.id in s.partial && a.id != id
    ensures var r := Store(s, Carried(messages, a));
      && (Has(r.state, id, i) <==> Has(s, id, i))
      && (id in r.state.partial <==> id in s.partial)
      && (id in s.partial ==> r.state.partial[id] == s.partial[id])
  {
    StoreState(s, Carried(messages, a));
  }

  /** A fragment of this message while another of its fragments, `missing`, is still out. */
  lemma OwnStored(s: State, messages: Messages, a: Arrival, missing: nat, i: nat)
    requires Ok(s) && Faithful(s, messages) && Addressed(messages, a) && a.id in s.partial
    requires missing < Count(|messages[a.id]|) && !Has(s, a.id, missing) && missing != a.index
    requires i < Count(|messages[a.id]|)
    ensures var r := Store(s, Carried(messages, a));
      && r.message == None && a.id in r.state.partial && r.state.partial[a.id].created == s.partial[a.id].created
      && (Has(r.state, a.id, i) <==> Has(s, a.id, i) || i == a.index)
  {
    var p := s.partial[a.id];
    NonEmptyChunk(messages[a.id], a.index);
    if p.parts[a.index] == [] {
      CompletesFaithfully(p, messages[a.id], a.id, a.index);
      assert p.parts[missing] == [];
    }
  }

  /** The last missing fragment completes the message. */
  lemma LastStored(s: State, messages: Messages, a: Arrival)
    requires Ok(s) && Faithful(s, messages) && Addressed(messages, a) && a.id in s.partial
    requires forall i | 0 <= i < Count(|messages[a.id]|) :: Has(s, a.id, i) <==> i != a.index
    ensures Store(s, Carried(messages, a)).message == Some(messages[a.id])
  {
    var p := s.partial[a.id];
    var f := Carried(messages, a);
    var p' := Filling(p, f);
    assert p.parts[a.index] == [] by { assert !Has(s, a.id, a.index); }
    CompletesFaithfully(p, messages[a.id], a.id, a.index);
    FilledUpdate(p.parts, a.index, f.payload);
    FilledBound(p.parts);
    FilledBound(p'.parts);
    if |p.parts| > 1 {
      NonEmptyChunk(messages[a.id], a.index);
      forall i | 0 <= i < |p'.parts| ensures p'.parts[i] != [] {
        assert i != a.index ==> Has(s, a.id, i);
      }
    }
  }

  ghost predicate AllSpare(s: State, messages: Messages, arrivals: seq<Arrival>, id: Id)
    requires AllAddressed(messages, arrivals)
  {
    arrivals == [] ||
    var front, last := arrivals[..|arrivals| - 1], arrivals[|arrivals| - 1];
    AllSpare(s, messages, front, id) && Spares(Feed(s, messages, front).state, messages, last, id)
  }

  /** A run of arrivals every one of which spares message `id`, none of it stored before. */
  ghost predicate Undisturbed(s: State, messages: Messages, arrivals: seq<Arrival>, id: Id) {
    && Sound(s, messages) && id in messages && id !in s.partial
    && AllAddressed(messages, arrivals) && Legal(s, messages, arrivals) && AllSpare(s, messages, arrivals, id)
  }

  ghost predicate Pending(x: Trace, messages: Messages, arrivals: seq<Arrival>, id: Id, i: nat) {
    && Sound(x.state, messages)
    && (Has(x.state, id, i) <==> Arrivals(arrivals, id, i) > 0)
    && Returns(x.returned, id) == 0
  }

  lemma StorePending(s: State, messages: Messages, a: Arrival, id: Id, missing: nat, i: nat)
    requires Ok(s) && Faithful(s, messages) && Addressed(messages, a) && a.id in s.partial && id in messages
    requires missing < Count(|messages[id]|) && !Has(s, id, missing) && !(a.id == id && a.index == missing)
    requires i < Count(|messages[id]|)
    ensures var r := Store(s, Carried(messages, a));
      && r.state.closed == s.closed && (a.id == id ==> r.message == None)
      && (Has(r.state, id, i) <==> Has(s, id, i) || (a.id == id && a.index == i))
  {
    StoreState(s, Carried(messages, a));
    if a.id == id {
      OwnStored(s, messages, a, missing, i);
    } else {
      OtherStored(s, messages, a, id, i);
    }
  }

  lemma TakePending(s: State, messages: Messages, a: Arrival, id: Id, missing: nat, i: nat)
    requires Sound(s, messages) && Addressed(messages, a) && Chosen(s, Carried(messages, a), a.now, a.choice)
    requires Spares(s, messages, a, id) && id in messages
    requires missing < Count(|messages[id]|) && !Has(s, id, missing) && !(a.id == id && a.index == missing)
    requires i < Count(|messages[id]|)
    ensures var r := Take(s, messages, a);
      && Sound(r.state, messages) && (a.id == id ==> r.message == None)
      && (Has(r.state, id, i) <==> Has(s, id, i) || (a.id == id && a.index == i))
  {
    var ready := Ready(s, messages, a);
    ReadyKeeps(s, messages, a, id, i);
    assert !Has(ready, id, missing) by { ReadyKeeps(s, messages, a, id, missing); }
    var r := Take(s, messages, a);
    assert r == Store(ready, Carried(messages, a)) by { TakeIsStore(s, messages, a); }
    assert Ok(r.state) && Faithful(r.state, messages) by { TakeFaithful(s, messages, a); }
    StorePending(ready, messages, a, id, missing, i);
  }

  /** Until the last fragment is in, exactly the fragments that arrived are stored. */
  lemma {:induction false} StillPending(s: State, messages: Messages, arrivals: seq<Arrival>, id: Id,
                                        missing: nat, i: nat)
    requires Undisturbed(s, messages, arrivals, id)
    requires missing < Count(|messages[id]|) && Arrivals(arrivals, id, missing) == 0 && i < Count(|messages[id]|)
    ensures Pending(Feed(s, messages, arrivals), messages, arrivals, id, i)
    decreases |arrivals|
  {
    if arrivals != [] {
      var k := |arrivals| - 1;
      var front, last := arrivals[..k], arrivals[k];
      StillPending(s, messages, front, id, missing, i);
      StillPending(s, messages, front, id, missing, missing);
      var before := Feed(s, messages, front);
      TakePending(before.state, messages, last, id, missing, i);
      var step := Take(before.state, messages, last);
      var x := Feed(s, messages, arrivals);
      assert x.state == step.state;
      if step.message.Some? {
        assert x.returned == before.returned + [(last.id, step.message.value)];
        ReturnsSnoc(before.returned, (last.id, step.message.value), id);
      } else {
        assert x.returned == before.returned;
      }
    }
  }

  /** The arrivals end with the last missing fragment of message `id`. */
  ghost predicate EndsWithLast(messages: Messages, arrivals: seq<Arrival>, id: Id)
    requires id in messages
  {
    arrivals != [] &&
    var front, last := arrivals[..|arrivals| - 1], arrivals[|arrivals| - 1];
    last.id == id && forall i | 0 <= i < Count(|messages[id]|) :: Arrivals(front, id, i) > 0 <==> i != last.index
  }

  /** The last arrival returns message `id`, and none before it does. */
  ghost predicate Delivers(s: State, messages: Messages, arrivals: seq<Arrival>, id: Id)
    requires id in messages && arrivals != [] && AllAddressed(messages, arrivals)
  {
    var before := Feed(s, messages, arrivals[..|arrivals| - 1]).returned;
    Returns(before, id) == 0 && Feed(s, messages, arrivals).returned == before + [(id, messages[id])]
  }

  /** Delivery: as long as the message is not expired and each other message that starts in
      the meantime finds room, its fragments, in whatever order they come and however often,
      return it as the last of them comes in, and not before. */
  lemma DeliveredUnlessDisturbed(s: State, messages: Messages, arrivals: seq<Arrival>, id: Id)
    requires Undisturbed(s, messages, arrivals, id) && EndsWithLast(messages, arrivals, id)
    ensures Delivers(s, messages, arrivals, id)
  {
    var k := |arrivals| - 1;
    var front, last := arrivals[..k], arrivals[k];
    var before := Feed(s, messages, front);
    var ready := Ready(before.state, messages, last);
    assert Arrivals(front, id, last.index) == 0;
    forall i | 0 <= i < Count(|messages[id]|) ensures Has(ready, id, i) <==> i != last.index {
      StillPending(s, messages, front, id, last.index, i);
      ReadyKeeps(before.state, messages, last, id, i);
    }
    StillPending(s, messages, front, id, last.index, last.index);
    ReadyKeeps(before.state, messages, last, id, last.index);
    TakeIsStore(before.state, messages, last);
    LastStored(ready, messages, last);
  }

  // ---------------------------------------------------------------- three others at a time

  /** Besides message `id` at most three messages are ever incomplete at once, counting the
      one that arrives, however many come and go; and every fragment arrives within the TTL
      of a moment before which none of message `id` did. */
  ghost predicate FewAtATime(s: State, messages: Messages, arrivals: seq<Arrival>, id: Id, t0: int)
    requires AllAddressed(messages, arrivals)
  {
    arrivals == [] ||
    var front, last := arrivals[..|arrivals| - 1], arrivals[|arrivals| - 1];
    FewAtATime(s, messages, front, id, t0) && FewWith(Feed(s, messages, front).state, last, id, t0)
  }

  ghost predicate FewWith(s: State, a: Arrival, id: Id, t0: int) {
    && |s.partial.Keys + {a.id} - {id}| <= 3
    && a.now < t0 + TTL && (a.id == id ==> t0 <= a.now)
  }

  lemma ReadyCreated(s: State, messages: Messages, a: Arrival, id: Id)
    requires Addressed(messages, a) && id in Ready(s, messages, a).partial
    ensures var created := Ready(s, messages, a).partial[id].created;
      (id in s.partial && created == s.partial[id].created) || (a.id == id && created == a.now)
  {
    RemoveAllLeaves(s, a.choice.expired, id);
    RemoveAllLeaves(RemoveAll(s, a.choice.expired), a.choice.evicted, id);
  }

  lemma StoreCreated(s: State, f: Fragment, id: Id)
    requires f.id in s.partial && f.index < |s.partial[f.id].parts| && id in Store(s, f).state.partial
    ensures id in s.partial && Store(s, f).state.partial[id].created == s.partial[id].created
  {
    StoreState(s, f);
  }

  /** What an arrival stores of a message was stored already, or dates from the arrival. */
  lemma TakeCreated(s: State, messages: Messages, a: Arrival, id: Id)
    requires Sound(s, messages) && Addressed(messages, a) && Chosen(s, Carried(messages, a), a.now, a.choice)
    requires id in Take(s, messages, a).state.partial
    ensures var created := Take(s, messages, a).state.partial[id].created;
      (id in s.partial && created == s.partial[id].created) || (a.id == id && created == a.now)
  {
    ReadyOk(s, messages, a);
    ReadyFaithful(s, messages, a);
    TakeIsStore(s, messages, a);
    StoreCreated(Ready(s, messages, a), Carried(messages, a), id);
    ReadyCreated(s, messages, a, id);
  }

  lemma FewSpare(s: State, messages: Messages, a: Arrival, id: Id, t0: int)
    requires Sound(s, messages) && Addressed(messages, a) && Chosen(s, Carried(messages, a), a.now, a.choice)
    requires FewWith(s, a, id, t0) && (id in s.partial ==> s.partial[id].created >= t0)
    ensures Spares(s, messages, a, id)
  {
    if id in s.partial {
      var t := RemoveAll(s, a.choice.expired);
      assert Ok(t) by { RemoveAllOk(s, a.choice.expired); }
      RemoveAllLeaves(s, a.choice.expired, id);
      if a.id !in t.partial {
        forall x | x in t.partial.Keys ensures x in s.partial.Keys {
          RemoveAllLeaves(s, a.choice.expired, x);
        }
        Few(s.partial.Keys, t.partial.Keys, a.id, id);
        FewFit(t, |messages[a.id]|);
      }
    }
  }

  lemma Few(stored: set<Id>, left: set<Id>, x: Id, id: Id)
    requires left <= stored && id in left && x !in left && |stored + {x} - {id}| <= 3
    ensures |left| <= 3
  {
    var others := stored + {x} - {id};
    assert x in others;
    SubsetSize(left - {id}, others - {x});
  }

  lemma FewFit(s: State, total: nat)
    requires Ok(s) && |s.partial.Keys| <= 3 && total <= MAX_MESSAGE
    ensures !Crowded(s, total)
  {
    assert |s.partial| == |s.partial.Keys|;
    TotalBound(s.partial);
  }

  lemma {:induction false} FewUndisturbed(s: State, messages: Messages, arrivals: seq<Arrival>, id: Id, t0: int)
    requires Sound(s, messages) && id in messages && id !in s.partial
    requires AllAddressed(messages, arrivals) && Legal(s, messages, arrivals)
    requires FewAtATime(s, messages, arrivals, id, t0)
    ensures Undisturbed(s, messages, arrivals, id)
    ensures var x := Feed(s, messages, arrivals).state;
      Sound(x, messages) && (id in x.partial ==> x.partial[id].created >= t0)
    decreases |arrivals|
  {
    if arrivals != [] {
      var front, last := arrivals[..|arrivals| - 1], arrivals[|arrivals| - 1];
      FewUndisturbed(s, messages, front, id, t0);
      var before := Feed(s, messages, front).state;
      FewSpare(before, messages, last, id, t0);
      TakeSound(before, messages, last);
      if id in Take(before, messages, last).state.partial {
        TakeCreated(before, messages, last, id);
      }
    }
  }

  lemma TakeSound(s: State, messages: Messages, a: Arrival)
    requires Sound(s, messages) && Addressed(messages, a) && Chosen(s, Carried(messages, a), a.now, a.choice)
    ensures Sound(Take(s, messages, a).state, messages)
  {
    TakeFaithful(s, messages, a);
    ReadyOk(s, messages, a);
    ReadyFaithful(s, messages, a);
    ReadyOpen(s, messages, a);
    TakeIsStore(s, messages, a);
    StoreState(Ready(s, messages, a), Carried(messages, a));
  }

  /** Delivery as the limits are chosen for: with never more than three other messages
      incomplete at a time and all of it within one TTL, however many other messages are
      completed meanwhile, any order of the fragments returns the message on the last. */
  lemma DeliveredOnLast(s: State, messages: Messages, arrivals: seq<Arrival>, id: Id, t0: int)
    requires Sound(s, messages) && id in messages && id !in s.partial
    requires AllAddressed(messages, arrivals) && Legal(s, messages, arrivals)
    requires FewAtATime(s, messages, arrivals, id, t0) && EndsWithLast(messages, arrivals, id)
    ensures Delivers(s, messages, arrivals, id)
  {
    FewUndisturbed(s, messages, arrivals, id, t0);
    DeliveredUnlessDisturbed(s, messages, arrivals, id);
  }

  /** A run that meets those conditions: a message of one fragment is returned as it arrives. */
  lemma OneFragmentIsEnough(messages: Messages, id: Id, now: int)
    requires id in messages && |messages[id]| <= CHUNK
    ensures var arrivals := [Arrival(id, 0, now, Choice([], []))];
      && AllAddressed(messages, arrivals) && Legal(EMPTY, messages, arrivals)
      && Feed(EMPTY, messages, arrivals).returned == [(id, messages[id])]
  {
    var a := Arrival(id, 0, now, Choice([], []));
    var arrivals := [a];
    assert arrivals[..0] == [];
    assert RemoveAll(EMPTY, []) == EMPTY;
    assert Chosen(EMPTY, Carried(messages, a), now, a.choice);
    assert Legal(EMPTY, messages, []) && Feed(EMPTY, messages, []).state == EMPTY;
    assert Legal(EMPTY, messages, arrivals);
    assert FewWith(EMPTY, a, id, now) && FewAtATime(EMPTY, messages, [], id, now);
    assert FewAtATime(EMPTY, messages, arrivals, id, now);
    assert EndsWithLast(messages, arrivals, id);
    DeliveredOnLast(EMPTY, messages, arrivals, id, now);
    assert Feed(EMPTY, messages, arrivals).returned == [] + [(id, messages[id])];
  }

  // ---------------------------------------------------------------- a message in its order

  /** The k first parts of a message, the others not yet received. */
  function PartsUpTo(message: Octets, k: nat): (parts: seq<Octets>)
    ensures |parts| == Count(|message|)
    ensures forall i | 0 <= i < |parts| :: parts[i] == if i < k then Chunk(message, i) else []
  {
    seq(Count(|message|), i requires 0 <= i < Count(|message|) => if i < k then Chunk(message, i) else [])
  }

  /** A reassembler that has received the k first fragments of one message and nothing else. */
  function Halfway(message: Octets, id: Id, now: int, k: nat): State {
    if k == 0 then EMPTY
    else EMPTY.(partial := map[id := Partial(now, |message|, PartsUpTo(message, k), k)], reserved := |message|)
  }

  function InOrder(id: Id, k: nat, now: int): Arrival {
    Arrival(id, k, now, Choice([], []))
  }

  lemma HalfwayChosen(messages: Messages, id: Id, now: int, k: nat)
    requires id in messages && k < Count(|messages[id]|)
    ensures var a := InOrder(id, k, now);
      Addressed(messages, a) && Chosen(Halfway(messages[id], id, now, k), Carried(messages, a), now, a.choice)
  {
    var s := Halfway(messages[id], id, now, k);
    assert RemoveAll(s, []) == s;
  }

  lemma FirstParts(message: Octets, k: nat)
    requires k < Count(|message|)
    ensures PartsUpTo(message, k)[k := Chunk(message, k)] == PartsUpTo(message, k + 1)
    ensures k == 0 ==> PartsUpTo(message, 0) == Blank(Count(|message|))
  {
  }

  /** As its fragments arrive one after the other a message is stored part by part, and the last
      returns it. */
  lemma NextInOrder(messages: Messages, id: Id, now: int, k: nat)
    requires id in messages && k < Count(|messages[id]|)
    ensures Addressed(messages, InOrder(id, k, now))
    ensures var message := messages[id];
      Take(Halfway(message, id, now, k), messages, InOrder(id, k, now)) ==
        if k + 1 < Count(|message|) then Step(Halfway(message, id, now, k + 1), None) else Step(EMPTY, Some(message))
  {
    var message, a := messages[id], InOrder(id, k, now);
    var s, f := Halfway(message, id, now, k), Carried(messages, a);
    assert RemoveAll(s, []) == s;
    var u := if k == 0 then Admit(s, f, now) else s;
    FirstParts(message, k);
    assert u.partial == map[id := Partial(now, |message|, PartsUpTo(message, k), k)];
    assert Take(s, messages, a) == Store(u, f);
    var p' := Partial(now, |message|, PartsUpTo(message, k + 1), k + 1);
    assert u.partial[id := p'] == map[id := p'];
    if k + 1 == Count(|message|) {
      WholeMessage(p'.parts, message);
      assert map[id := p'] - {id} == map[];
    }
  }
}
