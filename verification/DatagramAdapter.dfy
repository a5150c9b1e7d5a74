/** The adapter and the framing as they run: one object whose pending tail and sticky error
    are updated in place, proved against Framing. */
module DatagramAdapter {
  import opened Bytes
  import opened Counting
  import opened Framing

  datatype WriteError = TooLarge | SendFailed | Accepted

  /** Octets already read, then the rest of the same read. */
  function After(got: Octets, rest: Took): Took {
    Took(rest.stream, if rest.data == None then None else Some(got + rest.data.value))
  }

  lemma AfterBoth(a: Octets, b: Octets, rest: Took)
    ensures After(a, After(b, rest)) == After(a + b, rest)
  {
    assert rest.data.Some? ==> a + (b + rest.data.value) == a + b + rest.data.value;
  }

  class Adapter {
    var pending: Octets
    var err: bool
    var incoming: seq<Octets>  // what the substrate's recv will still return
    var sent: seq<Octets>      // what the substrate's send has taken
    var room: nat              // how many more messages send will take
    var closed: bool           // closeOnce has run
    var closeErr: bool
    var closes: nat            // calls of closeFn

    ghost function View(): Stream
      reads this
    {
      Stream(pending, incoming, err)
    }

    constructor (messages: seq<Octets>, capacity: nat)
      ensures View() == Stream([], messages, false) && sent == [] && room == capacity && !closed && closes == 0
    {
      pending, err, incoming, sent, room := [], false, messages, [], capacity;
      closed, closeErr, closes := false, false, 0;
    }

    method Recv() returns (r: Option<Octets>)
      modifies this`incoming
      ensures old(incoming) == [] ==> r == None && incoming == []
      ensures old(incoming) != [] ==> r == Some(old(incoming)[0]) && incoming == old(incoming)[1..]
    {
      if incoming == [] {
        return None;
      }
      r := Some(incoming[0]);
      incoming := incoming[1..];
    }

    method Read(n: nat) returns (r: Option<Octets>)
      modifies this`pending, this`err, this`incoming
      ensures Took(View(), r) == Framing.Read(old(View()), n)
    {
      if n == 0 {
        return Some([]);
      }
      while |pending| == 0
        invariant Refill(View()) == Refill(old(View()))
        decreases |incoming|, |pending| == 0
      {
        if err {
          return None;
        }
        var msg := Recv();
        if msg == None {
          err := true;
          return None;
        }
        pending := msg.value;
      }
      var k := Min(n, |pending|);
      r := Some(pending[..k]);
      pending := pending[k..];
    }

    method ReadFull(n: nat) returns (r: Option<Octets>)
      modifies this`pending, this`err, this`incoming
      ensures Took(View(), r) == Framing.ReadFull(old(View()), n)
    {
      var got: Octets := [];
      ghost var all := Framing.ReadFull(View(), n);
      assert all.data.Some? ==> [] + all.data.value == all.data.value;
      while |got| < n
        invariant |got| <= n
        invariant all == After(got, Framing.ReadFull(View(), n - |got|))
        decreases n - |got|
      {
        var chunk := Read(n - |got|);
        if chunk == None {
          return None;
        }
        ghost var more := Framing.ReadFull(View(), n - |got| - |chunk.value|);
        AfterBoth(got, chunk.value, more);
        got := got + chunk.value;
      }
      assert got + [] == got;
      r := Some(got);
    }

    /** readDatagram over this stream, into a buffer of the given size. */
    method ReadDatagram(buffer: nat) returns (r: Option<Octets>)
      modifies this`pending, this`err, this`incoming
      ensures Took(View(), r) == Framing.ReadDatagram(old(View()), buffer)
    {
      var header := ReadFull(PREFIX);
      if header == None || |header.value| != PREFIX {
        return None;
      }
      var n := FromU16(header.value);
      if n > buffer {
        return None;
      }
      r := ReadFull(n);
    }

    /** Transmits p as exactly one message; an empty write sends nothing. */
    method Write(p: Octets) returns (ok: bool)
      modifies this`sent, this`room
      ensures ok == (p == [] || old(room) > 0)
      ensures sent == if ok && p != [] then old(sent) + [p] else old(sent)
    {
      if |p| == 0 {
        return true;
      }
      ok := room > 0;
      if ok {
        sent, room := sent + [p], room - 1;
      }
    }

    /** writeDatagram over this stream: one payload, one message, the payload's frame. */
    method WriteDatagram(payload: Octets) returns (r: WriteError)
      modifies this`sent, this`room
      ensures r == TooLarge <==> |payload| > MAX_DATAGRAM
      ensures r == Accepted <==> |payload| <= MAX_DATAGRAM && old(room) > 0
      ensures sent == if r == Accepted then old(sent) + [Framed(payload)] else old(sent)
    {
      if |payload| > MAX_DATAGRAM {
        return TooLarge;
      }
      var frame := U16(|payload|) + payload;
      var ok := Write(frame);
      r := if ok then Accepted else SendFailed;
    }

    /** Releases the substrate once and reports the same result each time. */
    method Close(failure: bool) returns (failed: bool)
      modifies this`closed, this`closeErr, this`closes
      ensures closed && failed == closeErr
      ensures old(closed) ==> closes == old(closes) && closeErr == old(closeErr)
      ensures !old(closed) ==> closes == old(closes) + 1 && closeErr == failure
    {
      if !closed {
        closed, closeErr, closes := true, failure, closes + 1;
      }
      failed := closeErr;
    }
  }
}
