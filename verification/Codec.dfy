/** The fixed binary format of the negotiate messages (internal/negotiate/codec.go) and
    the length-prefixed frames that carry them (internal/negotiate/negotiate.go).

    `Payload` says what a message looks like on the wire and `Parse` what a payload means;
    the two are proved to be inverses in both directions, and the offset-advancing
    decoder and the buffer-appending encoders are proved to compute them. */
module Codec {
  import opened Bytes
  import opened Messages

  const VERSION: Byte := 1
  const MAX_TIER_NAME: nat := 32
  const MAX_ICE_FIELD: nat := 256
  const MAX_CANDIDATE: nat := 4096
  const MAX_CANDIDATES: nat := 64
  const MAX_MESSAGE: nat := 262144

  // ---------------------------------------------------------------- wire form

  function StringBytes(s: Octets): Octets
    requires |s| < 0x1_0000
  {
    U16(|s|) + s
  }

  predicate AllFit(ss: seq<Octets>, max: nat) {
    forall i | 0 <= i < |ss| :: |ss[i]| <= max
  }

  function ListBytes(ss: seq<Octets>, max: nat): Octets
    requires max < 0x1_0000 && AllFit(ss, max)
  {
    if ss == [] then [] else StringBytes(ss[0]) + ListBytes(ss[1..], max)
  }

  function Flag(b: bool): Byte {
    if b then 1 else 0
  }

  /** The messages the encoder accepts. */
  predicate Encodable(m: Message) {
    match m
    case HelloMsg(h) => |h.tiers| <= |CASCADE| && AllFit(h.tiers, MAX_TIER_NAME) && |h.required| <= MAX_TIER_NAME
    case PunchInfoMsg(i) =>
      && |i.ufrag| <= MAX_ICE_FIELD && |i.pwd| <= MAX_ICE_FIELD
      && |i.candidates| <= MAX_CANDIDATES && AllFit(i.candidates, MAX_CANDIDATE)
      && (|i.fingerprint| == 0 || |i.fingerprint| == 32)
    case OutcomeMsg(_) => true
    case AttemptMsg(t, _) => |t| <= MAX_TIER_NAME
  }

  function CandidateBytes(i: PunchInfo): Octets
    requires Encodable(PunchInfoMsg(i))
  {
    [|i.candidates|] + (ListBytes(i.candidates, MAX_CANDIDATE) + ([|i.fingerprint|] + (i.fingerprint + [])))
  }

  function Payload(m: Message): Octets
    requires Encodable(m)
  {
    match m
    case HelloMsg(h) =>
      [VERSION] + ([|h.tiers|] + (ListBytes(h.tiers, MAX_TIER_NAME) + (h.key + (StringBytes(h.required)
      + ([Flag(h.probe)] + ([h.attempts] + []))))))
    case PunchInfoMsg(i) =>
      [VERSION] + (StringBytes(i.ufrag) + (StringBytes(i.pwd) + CandidateBytes(i)))
    case OutcomeMsg(ok) => [VERSION] + ([Flag(ok)] + [])
    case AttemptMsg(t, c) => [VERSION] + (StringBytes(t) + ([Flag(c)] + []))
  }

  // ---------------------------------------------------------------- parsing

  /** A parse either fails or yields a value and the octets it did not consume. */
  datatype Scan<+T> = Fail | Got(value: T, rest: Octets) {
    predicate IsFailure() { Fail? }
    function PropagateFailure<U>(): Scan<U> requires Fail? { Fail }
    function Extract(): (T, Octets) requires Got? { (value, rest) }
  }

  function TakeByte(p: Octets): Scan<Byte> {
    if p == [] then Fail else Got(p[0], p[1..])
  }

  function TakeVersion(p: Octets): Scan<Byte> {
    var (v, r) :- TakeByte(p);
    if v != VERSION then Fail else Got(v, r)
  }

  function TakeFlag(p: Octets): Scan<bool> {
    var (v, r) :- TakeByte(p);
    if v > 1 then Fail else Got(v == 1, r)
  }

  function TakeBytes(n: nat, p: Octets): Scan<Octets> {
    if n > |p| then Fail else Got(p[..n], p[n..])
  }

  function TakeString(max: nat, p: Octets): Scan<Octets> {
    var (raw, r) :- TakeBytes(2, p);
    var n := FromU16(raw);
    if n > max then Fail else TakeBytes(n, r)
  }

  function TakeList(count: nat, max: nat, p: Octets): Scan<seq<Octets>> {
    if count == 0 then Got([], p) else
      var (s, r) :- TakeString(max, p);
      var (ss, r') :- TakeList(count - 1, max, r);
      Got([s] + ss, r')
  }

  function AtEnd<T>(v: T, rest: Octets): Option<T> {
    if rest == [] then Some(v) else None
  }

  function ParseHello(p: Octets): Scan<Message> {
    var (_, p) :- TakeVersion(p);
    var (count, p) :- TakeByte(p);
    if count > |CASCADE| then Fail else
      var (tiers, p) :- TakeList(count, MAX_TIER_NAME, p);
      var (key, p) :- TakeBytes(32, p);
      var (required, p) :- TakeString(MAX_TIER_NAME, p);
      var (probe, p) :- TakeFlag(p);
      var (attempts, p) :- TakeByte(p);
      Got(HelloMsg(Hello(tiers, key, required, probe, attempts)), p)
  }

  function ParsePunchInfo(p: Octets): Scan<Message> {
    var (_, p) :- TakeVersion(p);
    var (ufrag, p) :- TakeString(MAX_ICE_FIELD, p);
    var (pwd, p) :- TakeString(MAX_ICE_FIELD, p);
    ParseCandidates(ufrag, pwd, p)
  }

  function ParseCandidates(ufrag: Octets, pwd: Octets, p: Octets): Scan<Message> {
    var (count, p) :- TakeByte(p);
    if count > MAX_CANDIDATES then Fail else
      var (candidates, p) :- TakeList(count, MAX_CANDIDATE, p);
      var (n, p) :- TakeByte(p);
      if n != 0 && n != 32 then Fail else
        var (fingerprint, p) :- TakeBytes(n, p);
        Got(PunchInfoMsg(PunchInfo(ufrag, pwd, candidates, fingerprint)), p)
  }

  function ParseOutcome(p: Octets): Scan<Message> {
    var (_, p) :- TakeVersion(p);
    var (ok, p) :- TakeFlag(p);
    Got(OutcomeMsg(ok), p)
  }

  function ParseAttempt(p: Octets): Scan<Message> {
    var (_, p) :- TakeVersion(p);
    var (tier, p) :- TakeString(MAX_TIER_NAME, p);
    var (commit, p) :- TakeFlag(p);
    Got(AttemptMsg(tier, commit), p)
  }

  /** What payload p means to a reader expecting kind k; None is ErrInvalidMessage. */
  function Parse(k: Kind, p: Octets): Option<Message> {
    var r := match k
      case HelloKind => ParseHello(p)
      case PunchInfoKind => ParsePunchInfo(p)
      case OutcomeKind => ParseOutcome(p)
      case AttemptKind => ParseAttempt(p);
    match r
    case Fail => None
    case Got(m, rest) => AtEnd(m, rest)
  }

  // ---------------------------------------------------------------- inverses, piece by piece

  lemma StringInverse(s: Octets, max: nat, tail: Octets)
    requires |s| <= max < 0x1_0000
    ensures TakeString(max, StringBytes(s) + tail) == Got(s, tail)
  {
    var p := StringBytes(s) + tail;
    assert p[..2] == U16(|s|) && p[2..] == s + tail;
    U16Inverse(|s|, []);
    assert U16(|s|) + [] == U16(|s|);
    assert (s + tail)[..|s|] == s && (s + tail)[|s|..] == tail;
  }

  lemma StringCanonical(max: nat, p: Octets)
    requires max < 0x1_0000 && TakeString(max, p).Got?
    ensures |TakeString(max, p).value| <= max
    ensures p == StringBytes(TakeString(max, p).value) + TakeString(max, p).rest
  {
    var s, rest := TakeString(max, p).value, TakeString(max, p).rest;
    U16Canonical(p[..2]);
    assert p[..2][..2] == p[..2];
    assert p[2..] == s + rest;
    assert p == p[..2] + p[2..];
  }

  lemma {:induction false} ListInverse(ss: seq<Octets>, max: nat, tail: Octets)
    requires max < 0x1_0000 && AllFit(ss, max)
    ensures TakeList(|ss|, max, ListBytes(ss, max) + tail) == Got(ss, tail)
  {
    if ss == [] {
      assert [] + tail == tail;
    } else {
      var more := ListBytes(ss[1..], max) + tail;
      assert ListBytes(ss, max) + tail == StringBytes(ss[0]) + more;
      StringInverse(ss[0], max, more);
      ListInverse(ss[1..], max, tail);
      assert [ss[0]] + ss[1..] == ss;
    }
  }

  lemma ListCons(s: Octets, ss: seq<Octets>, max: nat, rest: Octets)
    requires max < 0x1_0000 && |s| <= max && AllFit(ss, max)
    ensures AllFit([s] + ss, max) && StringBytes(s) + (ListBytes(ss, max) + rest) == ListBytes([s] + ss, max) + rest
  {
    assert ([s] + ss)[1..] == ss;
  }

  lemma {:induction false} ListCanonical(count: nat, max: nat, p: Octets)
    requires max < 0x1_0000 && TakeList(count, max, p).Got?
    ensures var ss := TakeList(count, max, p).value;
            |ss| == count && AllFit(ss, max) && p == ListBytes(ss, max) + TakeList(count, max, p).rest
  {
    if count > 0 {
      StringCanonical(max, p);
      var r := TakeString(max, p).rest;
      ListCanonical(count - 1, max, r);
      ListCons(TakeString(max, p).value, TakeList(count - 1, max, r).value, max, TakeList(count - 1, max, r).rest);
    }
  }

  // ---------------------------------------------------------------- inverses, whole messages

  lemma HelloInverse(h: Hello)
    requires Encodable(HelloMsg(h))
    ensures ParseHello(Payload(HelloMsg(h))) == Got(HelloMsg(h), [])
  {
    var p6: Octets := [h.attempts] + [];
    var p5: Octets := [Flag(h.probe)] + p6;
    var p4 := StringBytes(h.required) + p5;
    var p3 := h.key + p4;
    var p2 := ListBytes(h.tiers, MAX_TIER_NAME) + p3;
    var p1: Octets := [|h.tiers|] + p2;
    assert ([VERSION] + p1)[1..] == p1 && p1[1..] == p2 && p5[1..] == p6 && p6[1..] == [];
    ListInverse(h.tiers, MAX_TIER_NAME, p3);
    assert p3[..32] == h.key && p3[32..] == p4;
    StringInverse(h.required, MAX_TIER_NAME, p5);
    assert TakeFlag(p5) == Got(h.probe, p6);
  }

  lemma CandidatesInverse(i: PunchInfo)
    requires Encodable(PunchInfoMsg(i))
    ensures ParseCandidates(i.ufrag, i.pwd, CandidateBytes(i)) == Got(PunchInfoMsg(i), [])
  {
    var p6 := i.fingerprint + [];
    var p5: Octets := [|i.fingerprint|] + p6;
    var p4 := ListBytes(i.candidates, MAX_CANDIDATE) + p5;
    assert CandidateBytes(i)[1..] == p4 && p5[1..] == p6;
    ListInverse(i.candidates, MAX_CANDIDATE, p5);
    assert p6[..|i.fingerprint|] == i.fingerprint && p6[|i.fingerprint|..] == [];
  }

  lemma PunchInfoInverse(i: PunchInfo)
    requires Encodable(PunchInfoMsg(i))
    ensures ParsePunchInfo(Payload(PunchInfoMsg(i))) == Got(PunchInfoMsg(i), [])
  {
    var p2 := StringBytes(i.pwd) + CandidateBytes(i);
    assert ([VERSION] + (StringBytes(i.ufrag) + p2))[1..] == StringBytes(i.ufrag) + p2;
    StringInverse(i.ufrag, MAX_ICE_FIELD, p2);
    StringInverse(i.pwd, MAX_ICE_FIELD, CandidateBytes(i));
    CandidatesInverse(i);
  }

  /** Unmarshal inverts marshal on every accepted message. */
  lemma ParseInvertsPayload(m: Message)
    requires Encodable(m)
    ensures Parse(m.Kind(), Payload(m)) == Some(m)
  {
    match m
    case HelloMsg(h) => HelloInverse(h);
    case PunchInfoMsg(i) => PunchInfoInverse(i);
    case OutcomeMsg(ok) =>
      var p1: Octets := [Flag(ok)] + [];
      assert Payload(m)[1..] == p1 && p1[1..] == [];
      assert TakeFlag(p1) == Got(ok, []);
    case AttemptMsg(t, c) =>
      var p2: Octets := [Flag(c)] + [];
      assert Payload(m)[1..] == StringBytes(t) + p2 && p2[1..] == [];
      StringInverse(t, MAX_TIER_NAME, p2);
      assert TakeFlag(p2) == Got(c, []);
  }

  lemma ByteCanonical(p: Octets)
    requires TakeByte(p).Got?
    ensures p == [TakeByte(p).value] + TakeByte(p).rest
  {
  }

  lemma FlagCanonical(p: Octets)
    requires TakeFlag(p).Got?
    ensures p == [Flag(TakeFlag(p).value)] + TakeFlag(p).rest
  {
  }

  lemma BytesCanonical(n: nat, p: Octets)
    requires TakeBytes(n, p).Got?
    ensures p == TakeBytes(n, p).value + TakeBytes(n, p).rest
  {
  }

  lemma HelloCanonical(p: Octets)
    requires ParseHello(p).Got? && ParseHello(p).rest == []
    ensures Encodable(ParseHello(p).value) && Payload(ParseHello(p).value) == p
  {
    ByteCanonical(p);
    var p1 := TakeVersion(p).rest;
    ByteCanonical(p1);
    var count, p2 := TakeByte(p1).value, TakeByte(p1).rest;
    ListCanonical(count, MAX_TIER_NAME, p2);
    var p3 := TakeList(count, MAX_TIER_NAME, p2).rest;
    BytesCanonical(32, p3);
    var p4 := TakeBytes(32, p3).rest;
    StringCanonical(MAX_TIER_NAME, p4);
    var p5 := TakeString(MAX_TIER_NAME, p4).rest;
    FlagCanonical(p5);
    ByteCanonical(TakeFlag(p5).rest);
  }

  lemma CandidatesCanonical(ufrag: Octets, pwd: Octets, p: Octets)
    requires |ufrag| <= MAX_ICE_FIELD && |pwd| <= MAX_ICE_FIELD
    requires ParseCandidates(ufrag, pwd, p).Got? && ParseCandidates(ufrag, pwd, p).rest == []
    ensures var m := ParseCandidates(ufrag, pwd, p).value;
            m.PunchInfoMsg? && m.info.ufrag == ufrag && m.info.pwd == pwd && Encodable(m) && CandidateBytes(m.info) == p
  {
    ByteCanonical(p);
    var count, p4 := TakeByte(p).value, TakeByte(p).rest;
    ListCanonical(count, MAX_CANDIDATE, p4);
    var p5 := TakeList(count, MAX_CANDIDATE, p4).rest;
    ByteCanonical(p5);
    BytesCanonical(TakeByte(p5).value, TakeByte(p5).rest);
  }

  lemma PunchInfoCanonical(p: Octets)
    requires ParsePunchInfo(p).Got? && ParsePunchInfo(p).rest == []
    ensures var m := ParsePunchInfo(p).value;
            m.PunchInfoMsg? && Encodable(m) && Payload(m) == p
  {
    ByteCanonical(p);
    var p1 := TakeVersion(p).rest;
    StringCanonical(MAX_ICE_FIELD, p1);
    var p2 := TakeString(MAX_ICE_FIELD, p1).rest;
    StringCanonical(MAX_ICE_FIELD, p2);
    CandidatesCanonical(TakeString(MAX_ICE_FIELD, p1).value, TakeString(MAX_ICE_FIELD, p2).value,
                        TakeString(MAX_ICE_FIELD, p2).rest);
  }

  lemma OutcomeCanonical(p: Octets)
    requires ParseOutcome(p).Got? && ParseOutcome(p).rest == []
    ensures Payload(ParseOutcome(p).value) == p
  {
    ByteCanonical(p);
    FlagCanonical(TakeVersion(p).rest);
  }

  lemma AttemptCanonical(p: Octets)
    requires ParseAttempt(p).Got? && ParseAttempt(p).rest == []
    ensures Encodable(ParseAttempt(p).value) && Payload(ParseAttempt(p).value) == p
  {
    ByteCanonical(p);
    var p1 := TakeVersion(p).rest;
    StringCanonical(MAX_TIER_NAME, p1);
    FlagCanonical(TakeString(MAX_TIER_NAME, p1).rest);
  }

  /** Marshal reproduces every accepted payload: the format is canonical. */
  lemma PayloadInvertsParse(k: Kind, p: Octets)
    requires Parse(k, p).Some?
    ensures var m := Parse(k, p).value;
            m.Kind() == k && Encodable(m) && Payload(m) == p
  {
    match k
    case HelloKind => HelloCanonical(p);
    case PunchInfoKind => PunchInfoCanonical(p);
    case OutcomeKind => OutcomeCanonical(p);
    case AttemptKind => AttemptCanonical(p);
  }

  // ---------------------------------------------------------------- the encoders

  lemma {:induction false} ListBytesSnoc(ss: seq<Octets>, s: Octets, max: nat)
    requires |s| <= max < 0x1_0000 && AllFit(ss, max)
    ensures AllFit(ss + [s], max)
    ensures ListBytes(ss + [s], max) == ListBytes(ss, max) + StringBytes(s)
  {
    var all := ss + [s];
    if ss == [] {
      assert all[0] == s && all[1..] == [];
    } else {
      ListBytesSnoc(ss[1..], s, max);
      assert all[0] == ss[0] && all[1..] == ss[1..] + [s];
      var a, b, c := StringBytes(ss[0]), ListBytes(ss[1..], max), StringBytes(s);
      assert ListBytes(all, max) == a + (b + c);
      assert a + (b + c) == (a + b) + c;
    }
  }

  /** Appends one length-prefixed string, refusing one longer than max. */
  method AppendString(dst: Octets, value: Octets, max: nat) returns (r: Option<Octets>)
    requires max < 0x1_0000
    ensures r == if |value| <= max then Some(dst + StringBytes(value)) else None
  {
    if |value| > max {
      return None;
    }
    var out := dst + U16(|value|);
    r := Some(out + value);
    assert out + value == dst + StringBytes(value);
  }

  method AppendStrings(dst: Octets, values: seq<Octets>, max: nat) returns (r: Option<Octets>)
    requires max < 0x1_0000
    ensures r == if AllFit(values, max) then Some(dst + ListBytes(values, max)) else None
  {
    var p := dst;
    for i := 0 to |values|
      invariant AllFit(values[..i], max) && p == dst + ListBytes(values[..i], max)
    {
      var next := AppendString(p, values[i], max);
      if next == None {
        assert |values[i]| > max;
        return None;
      }
      assert values[..i + 1] == values[..i] + [values[i]];
      ListBytesSnoc(values[..i], values[i], max);
      p := next.value;
    }
    assert values[..|values|] == values;
    r := Some(p);
  }

  lemma HelloPayloadFlat(h: Hello)
    requires Encodable(HelloMsg(h))
    ensures Payload(HelloMsg(h)) == [VERSION, |h.tiers|] + ListBytes(h.tiers, MAX_TIER_NAME) + h.key
                                    + StringBytes(h.required) + [Flag(h.probe)] + [h.attempts]
  {
    var b, c, d := ListBytes(h.tiers, MAX_TIER_NAME), h.key, StringBytes(h.required);
    var e, f := [Flag(h.probe)], [h.attempts];
    assert f + [] == f;
    var a: Octets := [VERSION, |h.tiers|];
    assert Payload(HelloMsg(h)) == a + (b + (c + (d + (e + f))));
    Concat4(b, c, d, e + f);
    Concat4(a, b, c, d + (e + f));
    Concat4(a + b + c, d, e, f);
  }

  lemma Concat4(a: Octets, b: Octets, c: Octets, d: Octets)
    ensures a + (b + (c + d)) == a + b + c + d
  {
  }

  method MarshalHello(h: Hello) returns (r: Option<Octets>)
    ensures r == if Encodable(HelloMsg(h)) then Some(Payload(HelloMsg(h))) else None
  {
    if |h.tiers| > |CASCADE| {
      return None;
    }
    var head := AppendStrings([VERSION, |h.tiers|], h.tiers, MAX_TIER_NAME);
    if head == None {
      return None;
    }
    var p := head.value + h.key;
    var body := AppendString(p, h.required, MAX_TIER_NAME);
    if body == None {
      return None;
    }
    p := body.value + (if h.probe then [1] else [0]);
    r := Some(p + [h.attempts]);
    HelloPayloadFlat(h);
  }

  lemma PunchInfoPayloadFlat(i: PunchInfo)
    requires Encodable(PunchInfoMsg(i))
    ensures Payload(PunchInfoMsg(i)) == [VERSION] + StringBytes(i.ufrag) + StringBytes(i.pwd) + [|i.candidates|]
                                        + ListBytes(i.candidates, MAX_CANDIDATE) + [|i.fingerprint|] + i.fingerprint
  {
    var v: Octets, n: Octets, m: Octets := [VERSION], [|i.candidates|], [|i.fingerprint|];
    var a, b, c, d := StringBytes(i.ufrag), StringBytes(i.pwd), ListBytes(i.candidates, MAX_CANDIDATE), i.fingerprint;
    assert Payload(PunchInfoMsg(i)) == v + (a + (b + (n + (c + (m + d)))));
    Concat4(n, c, m, d);
    Concat4(v, a, b, n + c + m + d);
    Concat4(v + a + b, n, c, m + d);
  }

  method MarshalPunchInfo(i: PunchInfo) returns (r: Option<Octets>)
    ensures r == if Encodable(PunchInfoMsg(i)) then Some(Payload(PunchInfoMsg(i))) else None
  {
    if |i.candidates| > MAX_CANDIDATES || (|i.fingerprint| != 0 && |i.fingerprint| != 32) {
      return None;
    }
    var out := AppendString([VERSION], i.ufrag, MAX_ICE_FIELD);
    if out == None {
      return None;
    }
    out := AppendString(out.value, i.pwd, MAX_ICE_FIELD);
    if out == None {
      return None;
    }
    out := AppendStrings(out.value + [|i.candidates|], i.candidates, MAX_CANDIDATE);
    if out == None {
      return None;
    }
    r := Some(out.value + [|i.fingerprint|] + i.fingerprint);
    PunchInfoPayloadFlat(i);
  }

  method Marshal(m: Message) returns (r: Option<Octets>)
    ensures r == if Encodable(m) then Some(Payload(m)) else None
  {
    match m
    case HelloMsg(h) => r := MarshalHello(h);
    case PunchInfoMsg(i) => r := MarshalPunchInfo(i);
    case OutcomeMsg(ok) =>
      r := Some(if ok then [VERSION, 1] else [VERSION, 0]);
      assert r.value == Payload(m);
    case AttemptMsg(t, c) =>
      r := AppendString([VERSION], t, MAX_TIER_NAME);
      if r.Some? {
        r := Some(r.value + (if c then [1] else [0]));
        assert r.value == Payload(m);
      }
  }

  // ---------------------------------------------------------------- the decoder

  /** The decoder's answer r, leaving `rest` unread, is what the scan s says. */
  predicate Agrees<T(==)>(s: Scan<T>, r: Option<T>, rest: Octets) {
    match s
    case Fail => r == None
    case Got(v, rest') => r == Some(v) && rest == rest'
  }

  function Prepend<T>(xs: seq<T>, s: Scan<seq<T>>): Scan<seq<T>> {
    match s
    case Fail => Fail
    case Got(ys, rest) => Got(xs + ys, rest)
  }

  class Decoder {
    const p: Octets
    var o: nat

    ghost predicate Valid()
      reads this
    {
      o <= |p|
    }

    ghost function Rest(): Octets
      requires Valid()
      reads this
    {
      p[o..]
    }

    constructor (p: Octets)
      ensures Valid() && Rest() == p
    {
      this.p, o := p, 0;
    }

    method NextByte() returns (r: Option<Byte>)
      requires Valid()
      modifies this
      ensures Valid() && Agrees(TakeByte(old(Rest())), r, Rest())
    {
      if o == |p| {
        return None;
      }
      r := Some(p[o]);
      o := o + 1;
    }

    method Version() returns (r: Option<Byte>)
      requires Valid()
      modifies this
      ensures Valid() && Agrees(TakeVersion(old(Rest())), r, Rest())
    {
      r := NextByte();
      if r.Some? && r.value != VERSION {
        r := None;
      }
    }

    method NextFlag() returns (r: Option<bool>)
      requires Valid()
      modifies this
      ensures Valid() && Agrees(TakeFlag(old(Rest())), r, Rest())
    {
      var v := NextByte();
      r := if v == None || v.value > 1 then None else Some(v.value == 1);
    }

    method NextBytes(n: nat) returns (r: Option<Octets>)
      requires Valid()
      modifies this
      ensures Valid() && Agrees(TakeBytes(n, old(Rest())), r, Rest())
    {
      if n > |p| - o {
        return None;
      }
      r := Some(p[o..o + n]);
      assert p[o..][..n] == p[o..o + n] && p[o..][n..] == p[o + n..];
      o := o + n;
    }

    method NextString(max: nat) returns (r: Option<Octets>)
      requires Valid()
      modifies this
      ensures Valid() && Agrees(TakeString(max, old(Rest())), r, Rest())
    {
      var raw := NextBytes(2);
      if raw == None {
        return None;
      }
      var n := FromU16(raw.value);
      if n > max {
        return None;
      }
      r := NextBytes(n);
    }

    method NextStrings(count: nat, max: nat) returns (r: Option<seq<Octets>>)
      requires Valid()
      modifies this
      ensures Valid() && Agrees(TakeList(count, max, old(Rest())), r, Rest())
    {
      var values: seq<Octets> := [];
      assert forall ys: seq<Octets> :: values + ys == ys;
      for i := 0 to count
        invariant Valid()
        invariant TakeList(count, max, old(Rest())) == Prepend(values, TakeList(count - i, max, Rest()))
      {
        var value := NextString(max);
        if value == None {
          return None;
        }
        assert forall ys: seq<Octets> :: values + ([value.value] + ys) == (values + [value.value]) + ys;
        values := values + [value.value];
      }
      assert values + [] == values;
      r := Some(values);
    }

    /** What is returned once every field is read: a message only if nothing trails. */
    method Finish(m: Message) returns (r: Option<Message>)
      requires Valid()
      ensures r == AtEnd(m, Rest())
    {
      r := if o != |p| then None else Some(m);
    }
  }

  method UnmarshalHello(p: Octets) returns (r: Option<Message>)
    ensures r == Parse(HelloKind, p)
  {
    var d := new Decoder(p);
    var version := d.Version();
    if version == None { return None; }
    var count := d.NextByte();
    if count == None || count.value > |CASCADE| { return None; }
    var tiers := d.NextStrings(count.value, MAX_TIER_NAME);
    if tiers == None { return None; }
    var key := d.NextBytes(32);
    if key == None { return None; }
    var required := d.NextString(MAX_TIER_NAME);
    if required == None { return None; }
    var probe := d.NextFlag();
    if probe == None { return None; }
    var attempts := d.NextByte();
    if attempts == None { return None; }
    r := d.Finish(HelloMsg(Hello(tiers.value, key.value, required.value, probe.value, attempts.value)));
  }

  method UnmarshalPunchInfo(p: Octets) returns (r: Option<Message>)
    ensures r == Parse(PunchInfoKind, p)
  {
    var d := new Decoder(p);
    var version := d.Version();
    if version == None { return None; }
    var ufrag := d.NextString(MAX_ICE_FIELD);
    if ufrag == None { return None; }
    var pwd := d.NextString(MAX_ICE_FIELD);
    if pwd == None { return None; }
    var count := d.NextByte();
    if count == None || count.value > MAX_CANDIDATES { return None; }
    var candidates := d.NextStrings(count.value, MAX_CANDIDATE);
    if candidates == None { return None; }
    var n := d.NextByte();
    if n == None || (n.value != 0 && n.value != 32) { return None; }
    var fingerprint := d.NextBytes(n.value);
    if fingerprint == None { return None; }
    r := d.Finish(PunchInfoMsg(PunchInfo(ufrag.value, pwd.value, candidates.value, fingerprint.value)));
  }

  method Unmarshal(k: Kind, p: Octets) returns (r: Option<Message>)
    ensures r == Parse(k, p)
  {
    match k
    case HelloKind => r := UnmarshalHello(p);
    case PunchInfoKind => r := UnmarshalPunchInfo(p);
    case OutcomeKind =>
      var d := new Decoder(p);
      var version := d.Version();
      if version == None { return None; }
      var ok := d.NextFlag();
      if ok == None { return None; }
      r := d.Finish(OutcomeMsg(ok.value));
    case AttemptKind =>
      var d := new Decoder(p);
      var version := d.Version();
      if version == None { return None; }
      var tier := d.NextString(MAX_TIER_NAME);
      if tier == None { return None; }
      var commit := d.NextFlag();
      if commit == None { return None; }
      r := d.Finish(AttemptMsg(tier.value, commit.value));
  }
}
