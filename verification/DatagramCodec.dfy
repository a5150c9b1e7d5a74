/** The fragmenting codec as it runs (internal/quictun/fragment.go): one object, its map of
    partial messages updated in place, proved against the reassembler's specification. */
module DatagramCodec {
  import opened Bytes
  import opened Counting
  import opened Reassembly
  import opened ReassemblyRuns

  /** The QUIC connection's datagram sender: it takes `room` more datagrams, then fails. */
  class Link {
    var sent: seq<Octets>
    var room: nat

    constructor (capacity: nat)
      ensures sent == [] && room == capacity
    {
      sent, room := [], capacity;
    }

    method Send(d: Octets) returns (ok: bool)
      modifies this
      ensures ok == (old(room) > 0)
      ensures ok ==> sent == old(sent) + [d] && room == old(room) - 1
      ensures !ok ==> sent == old(sent) && room == old(room)
    {
      ok := room > 0;
      if ok {
        sent, room := sent + [d], room - 1;
      }
    }
  }

  /** The first n datagrams a message is sent as. */
  function Datagrams(id: Id, message: Octets, n: nat): (ds: seq<Octets>)
    requires id < U32_LIMIT && |message| <= MAX_MESSAGE && n <= Count(|message|)
    ensures |ds| == n
  {
    if n == 0 then [] else Datagrams(id, message, n - 1) + [Encode(FragmentOf(id, message, n - 1))]
  }

  /** What was sent of a message reads back as its fragments, in order. */
  lemma {:induction false} DatagramsParse(id: Id, message: Octets, n: nat, k: nat)
    requires id < U32_LIMIT && |message| <= MAX_MESSAGE && k < n <= Count(|message|)
    ensures Parse(Datagrams(id, message, n)[k]) == Some(FragmentOf(id, message, k)) && Valid(FragmentOf(id, message, k))
  {
    if k < n - 1 {
      DatagramsParse(id, message, n - 1, k);
    } else {
      ParseInverse(FragmentOf(id, message, k));
      FragmentValid(id, message, k);
    }
  }

  class Codec {
    var nextID: nat
    var partial: map<Id, Partial>
    var reserved: int
    var closed: bool

    ghost function View(): State
      reads this
    {
      State(partial, reserved, closed)
    }

    constructor ()
      ensures nextID == 0 && View() == EMPTY && Ok(View())
    {
      nextID, partial, reserved, closed := 0, map[], 0, false;
    }

    method Send(link: Link, message: Octets) returns (ok: bool)
      requires nextID < U32_LIMIT
      modifies this`nextID, link
      ensures |message| > MAX_MESSAGE ==> !ok && nextID == old(nextID) && link.sent == old(link.sent)
      ensures |message| <= MAX_MESSAGE ==>
        && nextID == (old(nextID) + 1) % U32_LIMIT
        && link.sent == old(link.sent) + Datagrams(nextID, message, Min(Count(|message|), old(link.room)))
        && ok == (Count(|message|) <= old(link.room))
    {
      if |message| > MAX_MESSAGE {
        return false;
      }
      var count := (|message| + CHUNK - 1) / CHUNK;
      if count == 0 {
        count := 1;
      }
      nextID := (nextID + 1) % U32_LIMIT;
      var id := nextID;
      for index := 0 to count
        invariant id == nextID == (old(nextID) + 1) % U32_LIMIT && count == Count(|message|)
        invariant index <= old(link.room) && link.room == old(link.room) - index
        invariant link.sent == old(link.sent) + Datagrams(id, message, index)
      {
        var start := index * CHUNK;
        var end := if start + CHUNK < |message| then start + CHUNK else |message|;
        var fragment := Encode(Fragment(id, index, count, |message|, message[start..end]));
        ok := link.Send(fragment);
        if !ok {
          return;
        }
      }
      ok := true;
    }

    method Close()
      modifies this
      ensures View() == State(map[], 0, true) && nextID == old(nextID) && Ok(View())
    {
      closed, partial, reserved := true, map[], 0;
    }

    method Drop(id: Id)
      requires id in partial
      modifies this`partial, this`reserved
      ensures View() == Remove(old(View()), id)
    {
      reserved := reserved - partial[id].total;
      partial := partial - {id};
    }

    method DropExpired(now: int) returns (ghost ids: seq<Id>)
      modifies this`partial, this`reserved
      ensures View() == RemoveAll(old(View()), ids)
      ensures forall id :: id in ids <==> Expired(old(View()), id, now)
    {
      ids := [];
      var keys := partial.Keys;
      while keys != {}
        invariant keys <= old(partial.Keys)
        invariant View() == RemoveAll(old(View()), ids)
        invariant forall id :: id in ids <==> Expired(old(View()), id, now) && id !in keys
        decreases |keys|
      {
        var id :| id in keys;
        RemoveAllLeaves(old(View()), ids, id);
        if now - partial[id].created >= TTL {
          Drop(id);
          assert (ids + [id])[..|ids|] == ids;
          ids := ids + [id];
        }
        keys := keys - {id};
      }
    }

    method FindOldest() returns (oldest: Id)
      requires partial != map[]
      ensures Oldest(View(), oldest)
    {
      oldest :| oldest in partial;
      var keys := partial.Keys;
      while keys != {}
        invariant keys <= partial.Keys && oldest in partial
        invariant forall id | id in partial.Keys - keys :: partial[oldest].created <= partial[id].created
        decreases |keys|
      {
        var id :| id in keys;
        if partial[id].created < partial[oldest].created {
          oldest := id;
        }
        keys := keys - {id};
      }
    }

    /** Evicts until the newcomer fits or nothing is left; each turn removes one message. */
    method Reserve(total: nat) returns (ghost ids: seq<Id>)
      modifies this`partial, this`reserved
      ensures Evicts(old(View()), total, ids) && View() == RemoveAll(old(View()), ids)
      ensures !Crowded(View(), total) || partial == map[]
    {
      ids := [];
      while (|partial| >= MAX_PARTIAL || reserved + total > MAX_BYTES) && |partial| > 0
        invariant Evicts(old(View()), total, ids) && View() == RemoveAll(old(View()), ids)
        decreases |partial|
      {
        var oldest := FindOldest();
        Smaller(partial, oldest);
        Drop(oldest);
        assert (ids + [oldest])[..|ids|] == ids;
        ids := ids + [oldest];
      }
    }

    method Join(parts: seq<Octets>) returns (message: Octets)
      ensures message == Concat(parts)
    {
      message := [];
      for i := 0 to |parts|
        invariant message == Concat(parts[..i])
      {
        message := message + parts[i];
        assert parts[..i + 1][..i] == parts[..i];
      }
      assert parts[..|parts|] == parts;
    }

    /** The tail of accept: fill one part and return the message if it was the last. */
    method Fill(f: Fragment) returns (message: Option<Octets>)
      requires f.id in partial && f.index < |partial[f.id].parts|
      modifies this`partial, this`reserved
      ensures Step(View(), message) == Store(old(View()), f)
    {
      message := None;
      var p := partial[f.id];
      if p.parts[f.index] != [] {
        return;
      }
      p := p.(parts := p.parts[f.index := f.payload], received := p.received + 1);
      partial := partial[f.id := p];
      if p.received != |p.parts| {
        return;
      }
      var joined := Join(p.parts);
      Drop(f.id);
      message := Some(joined);
    }

    method Receive(d: Octets, now: int) returns (message: Option<Octets>, ghost choice: Choice)
      requires Ok(View())
      modifies this`partial, this`reserved
      ensures Ok(View())
      ensures Parse(d) == None || !Reassembly.Valid(Parse(d).value) ==> View() == old(View()) && message == None
      ensures Parse(d).Some? && Reassembly.Valid(Parse(d).value) ==>
        && Chosen(old(View()), Parse(d).value, now, choice)
        && Step(View(), message) == Accept(old(View()), Parse(d).value, now, choice)
    {
      message, choice := None, Choice([], []);
      if |d| < HEADER || FromU16(d[0..2]) != MAGIC || d[2] != VERSION {
        return;
      }
      var f := Fragment(FromU32(d[4..8]), FromU16(d[8..10]), FromU16(d[10..12]), FromU32(d[12..16]), d[HEADER..]);
      if !Reassembly.Valid(f) {
        return;
      }
      ghost var s := View();
      message, choice := Process(f, now);
      AcceptOk(s, f, now, choice);
    }

    /** A message not seen before: make room, and store it blank if there is any. */
    method Begin(f: Fragment, now: int) returns (ok: bool, ghost evicted: seq<Id>)
      requires f.id !in partial
      modifies this`partial, this`reserved
      ensures Evicts(old(View()), f.total, evicted)
      ensures var u := RemoveAll(old(View()), evicted);
        && (!Crowded(u, f.total) || u.partial == map[])
        && ok == !Crowded(u, f.total) && View() == if ok then Admit(u, f, now) else u
    {
      evicted := Reserve(f.total);
      ok := !(|partial| >= MAX_PARTIAL || reserved + f.total > MAX_BYTES);
      if ok {
        partial := partial[f.id := Partial(now, f.total, Blank(f.count), 0)];
        reserved := reserved + f.total;
      }
    }

    /** accept under the lock. */
    method Process(f: Fragment, now: int) returns (message: Option<Octets>, ghost choice: Choice)
      requires Ok(View()) && Reassembly.Valid(f)
      modifies this`partial, this`reserved
      ensures Chosen(old(View()), f, now, choice)
      ensures Step(View(), message) == Accept(old(View()), f, now, choice)
    {
      message, choice := None, Choice([], []);
      if closed {
        return;
      }
      ghost var expired := DropExpired(now);
      choice := Choice(expired, []);
      if f.id in partial {
        if partial[f.id].total == f.total && |partial[f.id].parts| == f.count {
          message := Fill(f);
        }
      } else {
        var ok;
        ghost var evicted;
        ok, evicted := Begin(f, now);
        choice := Choice(expired, evicted);
        if ok {
          message := Fill(f);
        }
      }
    }
  }
}
