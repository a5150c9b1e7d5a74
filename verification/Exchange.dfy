/** One negotiate stream: every message travels in its own length-prefixed frame, so a
    reader never consumes octets of the next message (internal/negotiate/negotiate.go). */
module Exchange {
  import opened Bytes
  import opened Messages
  import opened Codec

  /** A message the encoder both marshals and agrees to send. */
  predicate Sendable(m: Message) {
    Encodable(m) && |Payload(m)| <= MAX_MESSAGE
  }

  function Frame(m: Message): Octets
    requires Sendable(m)
  {
    U32(|Payload(m)|) + Payload(m)
  }

  function Deframe(data: Octets): Scan<Octets> {
    var (header, data) :- TakeBytes(4, data);
    var size := FromU32(header);
    if size > MAX_MESSAGE then Fail else TakeBytes(size, data)
  }

  function DecodeFrame(k: Kind, data: Octets): Scan<Message> {
    var (payload, data) :- Deframe(data);
    match Parse(k, payload)
    case None => Fail
    case Some(m) => Got(m, data)
  }

  function DecodeFrames(ks: seq<Kind>, data: Octets): Scan<seq<Message>> {
    if ks == [] then Got([], data) else
      var (m, data) :- DecodeFrame(ks[0], data);
      var (ms, data) :- DecodeFrames(ks[1..], data);
      Got([m] + ms, data)
  }

  ghost predicate AllSendable(ms: seq<Message>) {
    forall i | 0 <= i < |ms| :: Sendable(ms[i])
  }

  function Kinds(ms: seq<Message>): seq<Kind> {
    seq(|ms|, i requires 0 <= i < |ms| => ms[i].Kind())
  }

  ghost function Frames(ms: seq<Message>): Octets
    requires AllSendable(ms)
  {
    if ms == [] then [] else Frame(ms[0]) + Frames(ms[1..])
  }

  lemma FrameInverse(m: Message, tail: Octets)
    requires Sendable(m)
    ensures DecodeFrame(m.Kind(), Frame(m) + tail) == Got(m, tail)
  {
    var p := Payload(m);
    var data := Frame(m) + tail;
    assert data[..4] == U32(|p|) && data[4..] == p + tail;
    U32Inverse(|p|, []);
    assert U32(|p|) + [] == U32(|p|);
    assert (p + tail)[..|p|] == p && (p + tail)[|p|..] == tail;
    ParseInvertsPayload(m);
  }

  lemma KindsRest(ms: seq<Message>)
    requires ms != []
    ensures Kinds(ms)[0] == ms[0].Kind() && Kinds(ms)[1..] == Kinds(ms[1..])
  {
  }

  /** A reader that expects the kinds that were sent recovers exactly the messages that
      were sent and leaves exactly what follows them. */
  lemma {:induction false} FramesInverse(ms: seq<Message>, tail: Octets)
    requires AllSendable(ms)
    ensures DecodeFrames(Kinds(ms), Frames(ms) + tail) == Got(ms, tail)
  {
    if ms == [] {
      assert Frames(ms) + tail == tail;
    } else {
      var more := Frames(ms[1..]) + tail;
      assert Frames(ms) + tail == Frame(ms[0]) + more;
      assert DecodeFrame(ms[0].Kind(), Frame(ms[0]) + more) == Got(ms[0], more) by { FrameInverse(ms[0], more); }
      KindsRest(ms);
      FramesInverse(ms[1..], tail);
      assert [ms[0]] + ms[1..] == ms;
    }
  }

  lemma DeframeCanonical(data: Octets)
    requires Deframe(data).Got?
    ensures var payload := Deframe(data).value;
      |payload| <= MAX_MESSAGE && data == U32(|payload|) + payload + Deframe(data).rest
  {
    var payload, rest := Deframe(data).value, Deframe(data).rest;
    U32Canonical(data[..4]);
    assert data[..4][..4] == data[..4];
    assert U32(|payload|) == data[..4] && data[4..] == payload + rest;
    assert data == data[..4] + data[4..];
  }

  /** Conversely a frame that decodes is, octet for octet, the frame of the message read. */
  lemma FrameCanonical(k: Kind, data: Octets)
    requires DecodeFrame(k, data).Got?
    ensures var m := DecodeFrame(k, data).value;
            m.Kind() == k && Sendable(m) && data == Frame(m) + DecodeFrame(k, data).rest
  {
    DeframeCanonical(data);
    PayloadInvertsParse(k, Deframe(data).value);
  }

  // ---------------------------------------------------------------- sizes

  /** What a list of strings takes on the wire: each with its two-octet length. */
  function ListSize(ss: seq<Octets>): nat {
    if ss == [] then 0 else 2 + |ss[0]| + ListSize(ss[1..])
  }

  /** What a message takes on the wire, from the lengths of its fields alone. */
  function Size(m: Message): nat {
    match m
    case HelloMsg(h) => 38 + ListSize(h.tiers) + |h.required|
    case PunchInfoMsg(i) => 7 + |i.ufrag| + |i.pwd| + ListSize(i.candidates) + |i.fingerprint|
    case OutcomeMsg(_) => 2
    case AttemptMsg(t, _) => 4 + |t|
  }

  lemma {:induction false} ListBytesSize(ss: seq<Octets>, max: nat)
    requires max < 0x1_0000 && AllFit(ss, max)
    ensures |ListBytes(ss, max)| == ListSize(ss)
  {
    if ss != [] {
      ListBytesSize(ss[1..], max);
    }
  }

  lemma PayloadSize(m: Message)
    requires Encodable(m)
    ensures |Payload(m)| == Size(m)
  {
    match m
    case HelloMsg(h) =>
      ListBytesSize(h.tiers, MAX_TIER_NAME);
      HelloPayloadFlat(h);
    case PunchInfoMsg(i) =>
      ListBytesSize(i.candidates, MAX_CANDIDATE);
      PunchInfoPayloadFlat(i);
    case OutcomeMsg(_) =>
    case AttemptMsg(_, _) =>
  }

  /** A message that marshals is sent exactly if the lengths of its fields add up to no more
      than the frame limit: something a caller can work out before the call. */
  lemma SentExactly(m: Message)
    requires Encodable(m)
    ensures Sendable(m) <==> Size(m) <= MAX_MESSAGE
  {
    PayloadSize(m);
  }

  lemma MulStep(a: nat, n: nat)
    ensures a * (n + 1) == a * n + a
  {
  }

  lemma {:induction false} ListSizeBounds(ss: seq<Octets>, max: nat)
    requires AllFit(ss, max)
    ensures ListSize(ss) <= (max + 2) * |ss|
    ensures (forall i | 0 <= i < |ss| :: |ss[i]| == max) ==> ListSize(ss) == (max + 2) * |ss|
  {
    if ss != [] {
      ListSizeBounds(ss[1..], max);
      MulStep(max + 2, |ss[1..]|);
    }
  }

  /** So every Hello, outcome and attempt that marshals is sent, and every PunchInfo with at
      most 63 candidates. */
  lemma SmallMessagesFit(m: Message)
    requires Encodable(m)
    requires m.PunchInfoMsg? ==> |m.info.candidates| <= 63
    ensures Sendable(m)
  {
    SentExactly(m);
    match m
    case HelloMsg(h) => ListSizeBounds(h.tiers, MAX_TIER_NAME);
    case PunchInfoMsg(i) => ListSizeBounds(i.candidates, MAX_CANDIDATE);
    case OutcomeMsg(_) =>
    case AttemptMsg(_, _) =>
  }

  /** And the largest PunchInfo the marshaller accepts, of 262823 octets, is not. */
  lemma LargestPunchInfoDoesNotFit(i: PunchInfo)
    requires |i.ufrag| == |i.pwd| == MAX_ICE_FIELD && |i.fingerprint| == 32
    requires |i.candidates| == MAX_CANDIDATES && forall k | 0 <= k < 64 :: |i.candidates[k]| == MAX_CANDIDATE
    ensures Encodable(PunchInfoMsg(i)) && Size(PunchInfoMsg(i)) == 262823
    ensures !Sendable(PunchInfoMsg(i))
  {
    ListSizeBounds(i.candidates, MAX_CANDIDATE);
    SentExactly(PunchInfoMsg(i));
  }

  // ---------------------------------------------------------------- the stream

  /** One direction of the stream: octets written and not yet read. A write may take any
      prefix of what it is offered and may fail; a read may return any non-empty prefix of
      what is asked for. */
  class Wire {
    var data: Octets

    method Write(q: Octets) returns (n: nat, failed: bool)
      modifies this
      ensures n <= |q| && data == old(data) + q[..n]
    {
      n :| 0 <= n <= |q|;
      failed := *;
      data := data + q[..n];
    }

    /** Writes all of q, or reports failure having written some prefix of it. */
    method WriteAll(q: Octets) returns (ok: bool)
      modifies this
      ensures old(data) <= data <= old(data) + q
      ensures ok ==> data == old(data) + q
    {
      var done := 0;
      while done < |q|
        invariant done <= |q| && data == old(data) + q[..done]
      {
        var n, failed := Write(q[done..]);
        assert q[..done] + q[done..][..n] == q[..done + n];
        if failed || n == 0 {
          assert old(data) + q == old(data) + q[..done + n] + q[done + n..];
          return false;
        }
        done := done + n;
      }
      ok := true;
      assert q[..done] == q;
    }

    /** Sends one message. Nothing reaches the wire for a message that cannot be sent. */
    method Encode(m: Message) returns (ok: bool)
      modifies this
      ensures ok ==> Sendable(m) && data == old(data) + Frame(m)
      ensures !Sendable(m) ==> !ok && data == old(data)
      ensures Sendable(m) ==> old(data) <= data <= old(data) + Frame(m)
    {
      var payload := Marshal(m);
      if payload == None || |payload.value| > MAX_MESSAGE {
        return false;
      }
      ok := WriteAll(U32(|payload.value|));
      if !ok {
        assert old(data) + Frame(m) == old(data) + U32(|payload.value|) + payload.value;
        return;
      }
      ok := WriteAll(payload.value);
      assert old(data) + Frame(m) == old(data) + U32(|payload.value|) + payload.value;
    }

    method ReadFull(n: nat) returns (r: Option<Octets>)
      modifies this
      ensures Agrees(TakeBytes(n, old(data)), r, data)
    {
      var got: Octets := [];
      while |got| < n
        invariant |got| <= n && old(data) == got + data
        decreases n - |got|
      {
        if data == [] {
          return None;
        }
        var chunk :| 0 < chunk <= |data| && chunk <= n - |got|;
        got := got + data[..chunk];
        data := data[chunk..];
      }
      assert old(data)[..n] == got && old(data)[n..] == data;
      r := Some(got);
    }

    /** Reads one frame as a message of kind k. */
    method Decode(k: Kind) returns (r: Option<Message>)
      modifies this
      ensures Agrees(DecodeFrame(k, old(data)), r, data)
    {
      var header := ReadFull(4);
      if header == None {
        return None;
      }
      var size := FromU32(header.value);
      if size > MAX_MESSAGE {
        return None;
      }
      var payload := ReadFull(size);
      if payload == None {
        return None;
      }
      r := Unmarshal(k, payload.value);
    }
  }
}
