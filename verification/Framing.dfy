/** What a byte stream over a message substrate yields (internal/transport/datagram.go), and
    the length-prefix framing of forwarded datagrams that runs on it (internal/udp/datagram.go). */
module Framing {
  import opened Bytes
  import opened Counting

  const MAX_DATAGRAM: nat := 65535
  const PREFIX: nat := 2

  // ---------------------------------------------------------------- reading, as functions

  /** The unread tail of the last message, the messages the substrate still has, and
      whether the substrate has failed; it fails once it has no more. */
  datatype Stream = Stream(pending: Octets, incoming: seq<Octets>, failed: bool)

  datatype Took = Took(stream: Stream, data: Option<Octets>)

  /** The loop of Read: take messages until one has content. */
  function Refill(s: Stream): Stream
    decreases |s.incoming|
  {
    if s.pending != [] || s.failed then s
    else if s.incoming == [] then s.(failed := true)
    else Refill(s.(pending := s.incoming[0], incoming := s.incoming[1..]))
  }

  function Read(s: Stream, n: nat): Took {
    if n == 0 then Took(s, Some([]))
    else
      var t := Refill(s);
      if t.pending == [] then Took(t, None)
      else var k := Min(n, |t.pending|); Took(t.(pending := t.pending[k..]), Some(t.pending[..k]))
  }

  /** io.ReadFull: reads of whatever is still missing; none at all for an empty buffer. */
  function ReadFull(s: Stream, n: nat): Took
    decreases n
  {
    if n == 0 then Took(s, Some([]))
    else
      var first := Read(s, n);
      if first.data == None then first
      else
        var more := ReadFull(first.stream, n - |first.data.value|);
        Took(more.stream, if more.data == None then None else Some(first.data.value + more.data.value))
  }

  function ReadDatagram(s: Stream, buffer: nat): Took {
    var header := ReadFull(s, PREFIX);
    if header.data == None || |header.data.value| != PREFIX then Took(header.stream, None)
    else
      var n := FromU16(header.data.value);
      if n > buffer then Took(header.stream, None) else ReadFull(header.stream, n)
  }

  // ---------------------------------------------------------------- framing

  function Framed(payload: Octets): Octets
    requires |payload| <= MAX_DATAGRAM
  {
    U16(|payload|) + payload
  }

  /** What the substrate delivers: an empty message, or the whole frame of one payload. */
  type Item = i: Option<Octets> | i.Some? ==> |i.value| <= MAX_DATAGRAM witness None

  function Messages(items: seq<Item>): seq<Octets> {
    if items == [] then []
    else [if items[0].Some? then Framed(items[0].value) else []] + Messages(items[1..])
  }

  function Payloads(items: seq<Item>): seq<Octets> {
    if items == [] then []
    else if items[0].Some? then [items[0].value] + Payloads(items[1..])
    else Payloads(items[1..])
  }

  lemma ReadWithin(s: Stream, n: nat)
    requires 0 < n <= |s.pending|
    ensures ReadFull(s, n) == Took(s.(pending := s.pending[n..]), Some(s.pending[..n]))
  {
    assert Refill(s) == s;
    assert ReadFull(s.(pending := s.pending[n..]), 0).data == Some([]);
    assert s.pending[..n] + [] == s.pending[..n];
  }

  /** A frame already taken from the substrate is read out exactly. */
  lemma ReadsOne(payload: Octets, incoming: seq<Octets>, buffer: nat)
    requires |payload| <= MAX_DATAGRAM
    ensures var s := Stream(Framed(payload), incoming, false);
      ReadDatagram(s, buffer) == if |payload| <= buffer then Took(Stream([], incoming, false), Some(payload))
                                 else Took(Stream(payload, incoming, false), None)
  {
    var s := Stream(Framed(payload), incoming, false);
    assert s.pending[..2] == U16(|payload|) && s.pending[2..] == payload;
    ReadWithin(s, 2);
    U16Inverse(|payload|, []);
    assert U16(|payload|) + [] == U16(|payload|);
    var t := Stream(payload, incoming, false);
    if 0 < |payload| {
      ReadWithin(t, |payload|);
      assert payload[..|payload|] == payload && payload[|payload|..] == [];
    }
  }

  lemma RefillReads(s: Stream, buffer: nat)
    ensures ReadDatagram(Refill(s), buffer) == ReadDatagram(s, buffer)
  {
    RefillTwice(s);
    assert Read(Refill(s), PREFIX) == Read(s, PREFIX);
    assert ReadFull(Refill(s), PREFIX) == ReadFull(s, PREFIX);
  }

  lemma {:induction false} RefillTwice(s: Stream)
    ensures Refill(Refill(s)) == Refill(s)
    decreases |s.incoming|
  {
    if s.pending == [] && !s.failed && s.incoming != [] {
      RefillTwice(s.(pending := s.incoming[0], incoming := s.incoming[1..]));
    }
  }

  function Fresh(items: seq<Item>): Stream {
    Stream([], Messages(items), false)
  }

  /** The items left once the next payload has been taken. */
  function AfterNext(items: seq<Item>): seq<Item> {
    if items == [] then [] else if items[0].Some? then items[1..] else AfterNext(items[1..])
  }

  lemma {:induction false} AfterNextDrops(items: seq<Item>)
    requires Payloads(items) != []
    ensures Payloads(AfterNext(items)) == Payloads(items)[1..] && |AfterNext(items)| < |items|
    ensures |Payloads(items)[0]| <= MAX_DATAGRAM
  {
    if !items[0].Some? {
      AfterNextDrops(items[1..]);
    }
  }

  /** Skipping empty messages reaches the next frame, or the end. */
  lemma {:induction false} RefillSkips(items: seq<Item>)
    ensures Payloads(items) != [] ==> |Payloads(items)[0]| <= MAX_DATAGRAM
    ensures Refill(Fresh(items)) ==
      if Payloads(items) == [] then Stream([], [], true)
      else Stream(Framed(Payloads(items)[0]), Messages(AfterNext(items)), false)
  {
    if items != [] {
      var s := Fresh(items);
      assert s.incoming[1..] == Messages(items[1..]);
      if items[0].Some? {
        assert Refill(Stream(Framed(items[0].value), s.incoming[1..], false)).pending == Framed(items[0].value);
      } else {
        assert s.(pending := s.incoming[0], incoming := s.incoming[1..]) == Fresh(items[1..]);
        RefillSkips(items[1..]);
      }
    }
  }

  /** One call between datagrams returns the next payload that arrived and ends between
      datagrams again; with nothing left it fails, and so does every later call. */
  lemma ReadsNext(items: seq<Item>, buffer: nat)
    requires MAX_DATAGRAM <= buffer
    ensures ReadDatagram(Fresh(items), buffer) ==
      if Payloads(items) == [] then Took(Stream([], [], true), None)
      else Took(Fresh(AfterNext(items)), Some(Payloads(items)[0]))
  {
    RefillReads(Fresh(items), buffer);
    RefillSkips(items);
    if Payloads(items) != [] {
      ReadsOne(Payloads(items)[0], Messages(AfterNext(items)), buffer);
    }
  }

  lemma FailureIsSticky(incoming: seq<Octets>, buffer: nat)
    ensures ReadDatagram(Stream([], incoming, true), buffer) == Took(Stream([], incoming, true), None)
  {
  }

  datatype Session = Session(stream: Stream, results: seq<Option<Octets>>)

  /** A reader that calls readDatagram so many times. */
  function Calls(s: Stream, calls: nat, buffer: nat): Session
    decreases calls
  {
    if calls == 0 then Session(s, [])
    else
      var first := ReadDatagram(s, buffer);
      var rest := Calls(first.stream, calls - 1, buffer);
      Session(rest.stream, [first.data] + rest.results)
  }

  function Answer(items: seq<Item>, k: nat): Option<Octets> {
    if k < |Payloads(items)| then Some(Payloads(items)[k]) else None
  }

  lemma CallsStep(s: Stream, calls: nat, buffer: nat)
    requires calls > 0
    ensures var first := ReadDatagram(s, buffer);
      && Calls(s, calls, buffer).results == [first.data] + Calls(first.stream, calls - 1, buffer).results
      && Calls(s, calls, buffer).stream == Calls(first.stream, calls - 1, buffer).stream
  {
  }

  lemma {:induction false} FailsForEver(calls: nat, buffer: nat, k: nat)
    requires k < calls
    ensures |Calls(Stream([], [], true), calls, buffer).results| == calls
    ensures Calls(Stream([], [], true), calls, buffer).results[k] == None
    ensures Calls(Stream([], [], true), calls, buffer).stream == Stream([], [], true)
  {
    FailureIsSticky([], buffer);
    CallsStep(Stream([], [], true), calls, buffer);
    if calls > 1 {
      FailsForEver(calls - 1, buffer, if k > 0 then k - 1 else 0);
    }
  }

  /** The framing never desynchronises. Whatever sequence of whole frames and empty messages
      arrives, however frames were lost, repeated or reordered on the way, call k of the
      reader returns exactly payload k of the frames that arrived, calls past the last fail,
      and between calls no octet is left over. */
  lemma {:induction false} NeverDesynchronises(items: seq<Item>, calls: nat, buffer: nat, k: nat)
    requires MAX_DATAGRAM <= buffer && k < calls
    ensures var r := Calls(Fresh(items), calls, buffer);
      |r.results| == calls && r.results[k] == Answer(items, k) && r.stream.pending == []
    decreases calls
  {
    assert ReadDatagram(Fresh(items), buffer) ==
      if Payloads(items) == [] then Took(Stream([], [], true), None)
      else Took(Fresh(AfterNext(items)), Some(Payloads(items)[0])) by { ReadsNext(items, buffer); }
    CallsStep(Fresh(items), calls, buffer);
    if Payloads(items) == [] {
      if calls > 1 {
        FailsForEver(calls - 1, buffer, if k > 0 then k - 1 else 0);
      }
    } else if calls > 1 {
      AfterNextDrops(items);
      NeverDesynchronises(AfterNext(items), calls - 1, buffer, if k > 0 then k - 1 else 0);
    }
  }

  /** The reader's buffer decides: a frame longer than it leaves its payload unread, so the
      next call starts in the middle of a datagram. */
  lemma InStepExactly(payload: Octets, items: seq<Item>, buffer: nat)
    requires |payload| <= MAX_DATAGRAM
    ensures ReadDatagram(Fresh([Some(payload)] + items), buffer).stream == Fresh(items) <==> |payload| <= buffer
  {
    var all: seq<Item> := [Some(payload)] + items;
    assert all[1..] == items;
    RefillReads(Fresh(all), buffer);
    RefillSkips(all);
    ReadsOne(payload, Messages(items), buffer);
  }
}
