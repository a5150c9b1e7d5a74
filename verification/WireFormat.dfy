/** Where each field of a negotiate message stands on the wire, octet by octet, and which
    payloads are refused: cut short, followed by anything, or out of range. */
module WireFormat {
  import opened Bytes
  import opened Messages
  import opened Codec

  // ---------------------------------------------------------------- layout

  /** Version, tier count, tiers, key, required tier, probe flag, attempts. */
  lemma HelloLayout(h: Hello)
    requires Encodable(HelloMsg(h))
    ensures var p, n, r := Payload(HelloMsg(h)), |ListBytes(h.tiers, MAX_TIER_NAME)|, |h.required|;
      && |p| == n + r + 38 && p[0] == 1 && p[1] as int == |h.tiers| && p[2..2 + n] == ListBytes(h.tiers, MAX_TIER_NAME)
      && p[2 + n..34 + n] == h.key && FromU16(p[34 + n..36 + n]) == r && p[36 + n..36 + n + r] == h.required
      && p[36 + n + r] == (if h.probe then 1 else 0) && p[37 + n + r] == h.attempts
  {
    var p, list := Payload(HelloMsg(h)), ListBytes(h.tiers, MAX_TIER_NAME);
    assert p == [1, |h.tiers|] + list + h.key + U16(|h.required|) + h.required + [Flag(h.probe), h.attempts];
    U16Inverse(|h.required|, []);
    assert U16(|h.required|) + [] == U16(|h.required|);
  }

  /** The first of a list of strings: two octets of length, high one first, then its octets. */
  lemma StringLayout(s: Octets, more: seq<Octets>, max: nat)
    requires max < 0x1_0000 && AllFit([s] + more, max)
    ensures ([s] + more)[0] == s
    ensures var p := ListBytes([s] + more, max);
      |p| >= 2 + |s| && p[0] as int == |s| / 256 && p[1] as int == |s| % 256 && p[2..2 + |s|] == s
  {
    assert ([s] + more)[1..] == more;
  }

  /** Candidate count, candidates, fingerprint length, fingerprint. */
  lemma CandidateLayout(i: PunchInfo)
    requires Encodable(PunchInfoMsg(i))
    ensures var p, n, f := CandidateBytes(i), |ListBytes(i.candidates, MAX_CANDIDATE)|, |i.fingerprint|;
      && |p| == n + f + 2 && p[0] as int == |i.candidates| && p[1..1 + n] == ListBytes(i.candidates, MAX_CANDIDATE)
      && p[1 + n] as int == f && p[2 + n..] == i.fingerprint
  {
    assert CandidateBytes(i) ==
      [|i.candidates|] + ListBytes(i.candidates, MAX_CANDIDATE) + [|i.fingerprint|] + i.fingerprint;
  }

  /** Version, ufrag, pwd, and then the candidates. */
  lemma PunchInfoLayout(i: PunchInfo)
    requires Encodable(PunchInfoMsg(i))
    ensures var p, u, w := Payload(PunchInfoMsg(i)), |i.ufrag|, |i.pwd|;
      && |p| == u + w + 5 + |CandidateBytes(i)| && p[0] == 1
      && FromU16(p[1..3]) == u && p[3..3 + u] == i.ufrag
      && FromU16(p[3 + u..5 + u]) == w && p[5 + u..5 + u + w] == i.pwd && p[5 + u + w..] == CandidateBytes(i)
  {
    var p, rest := Payload(PunchInfoMsg(i)), CandidateBytes(i);
    var second := U16(|i.pwd|) + i.pwd + rest;
    assert p == [1] + U16(|i.ufrag|) + i.ufrag + second;
    assert p[3 + |i.ufrag|..] == second;
    assert second[..2] == U16(|i.pwd|) && second[2..2 + |i.pwd|] == i.pwd && second[2 + |i.pwd|..] == rest;
    U16Inverse(|i.ufrag|, []);
    U16Inverse(|i.pwd|, []);
    assert U16(|i.ufrag|) + [] == U16(|i.ufrag|) && U16(|i.pwd|) + [] == U16(|i.pwd|);
  }

  /** Version and flag. */
  lemma OutcomeLayout(ok: bool)
    ensures Payload(OutcomeMsg(ok)) == [1, if ok then 1 else 0]
  {
    var flag: Octets := [Flag(ok)];
    assert flag + [] == flag;
  }

  /** Version, tier and flag. */
  lemma AttemptLayout(t: Tier, commit: bool)
    requires |t| <= MAX_TIER_NAME
    ensures var p := Payload(AttemptMsg(t, commit));
      |p| == |t| + 4 && p[0] == 1 && p[1] == 0 && p[2] as int == |t| && p[3..3 + |t|] == t
      && p[3 + |t|] == if commit then 1 else 0
  {
    var flag: Octets := [Flag(commit)];
    assert flag + [] == flag;
    var name := StringBytes(t);
    assert name[0] == 0 && name[1] as int == |t| && name[2..] == t;
    assert Payload(AttemptMsg(t, commit)) == [VERSION] + (name + flag);
    assert ([VERSION] + (name + flag))[3..3 + |t|] == name[2..];
  }

  // ---------------------------------------------------------------- what is refused

  lemma TakeStringMore(max: nat, p: Octets, tail: Octets)
    requires TakeString(max, p).Got?
    ensures TakeString(max, p + tail) == Got(TakeString(max, p).value, TakeString(max, p).rest + tail)
  {
    assert (p + tail)[..2] == p[..2] && (p + tail)[2..] == p[2..] + tail;
    TakeBytesMore(FromU16(p[..2]), p[2..], tail);
  }

  lemma TakeBytesMore(n: nat, p: Octets, tail: Octets)
    requires TakeBytes(n, p).Got?
    ensures TakeBytes(n, p + tail) == Got(TakeBytes(n, p).value, TakeBytes(n, p).rest + tail)
  {
    assert (p + tail)[..n] == p[..n] && (p + tail)[n..] == p[n..] + tail;
  }

  lemma TakeByteMore(p: Octets, tail: Octets)
    requires p != []
    ensures (p + tail)[0] == p[0] && (p + tail)[1..] == p[1..] + tail
  {
  }

  lemma {:induction false} TakeListMore(count: nat, max: nat, p: Octets, tail: Octets)
    requires TakeList(count, max, p).Got?
    ensures TakeList(count, max, p + tail) == Got(TakeList(count, max, p).value, TakeList(count, max, p).rest + tail)
  {
    if count > 0 {
      TakeStringMore(max, p, tail);
      TakeListMore(count - 1, max, TakeString(max, p).rest, tail);
    }
  }

  lemma HelloMore(p: Octets, tail: Octets)
    requires ParseHello(p).Got?
    ensures ParseHello(p + tail) == Got(ParseHello(p).value, ParseHello(p).rest + tail)
  {
    TakeByteMore(p, tail);
    var p1 := p[1..];
    TakeByteMore(p1, tail);
    var count, p2 := p1[0], p1[1..];
    TakeListMore(count, MAX_TIER_NAME, p2, tail);
    var p3 := TakeList(count, MAX_TIER_NAME, p2).rest;
    TakeBytesMore(32, p3, tail);
    var p4 := TakeBytes(32, p3).rest;
    TakeStringMore(MAX_TIER_NAME, p4, tail);
    var p5 := TakeString(MAX_TIER_NAME, p4).rest;
    TakeByteMore(p5, tail);
    TakeByteMore(p5[1..], tail);
  }

  lemma CandidatesMore(ufrag: Octets, pwd: Octets, p: Octets, tail: Octets)
    requires ParseCandidates(ufrag, pwd, p).Got?
    ensures ParseCandidates(ufrag, pwd, p + tail) ==
      Got(ParseCandidates(ufrag, pwd, p).value, ParseCandidates(ufrag, pwd, p).rest + tail)
  {
    TakeByteMore(p, tail);
    var count, p1 := p[0], p[1..];
    TakeListMore(count, MAX_CANDIDATE, p1, tail);
    var p2 := TakeList(count, MAX_CANDIDATE, p1).rest;
    TakeByteMore(p2, tail);
    TakeBytesMore(p2[0], p2[1..], tail);
  }

  lemma PunchInfoMore(p: Octets, tail: Octets)
    requires ParsePunchInfo(p).Got?
    ensures ParsePunchInfo(p + tail) == Got(ParsePunchInfo(p).value, ParsePunchInfo(p).rest + tail)
  {
    TakeByteMore(p, tail);
    TakeStringMore(MAX_ICE_FIELD, p[1..], tail);
    var ufrag, p2 := TakeString(MAX_ICE_FIELD, p[1..]).value, TakeString(MAX_ICE_FIELD, p[1..]).rest;
    TakeStringMore(MAX_ICE_FIELD, p2, tail);
    CandidatesMore(ufrag, TakeString(MAX_ICE_FIELD, p2).value, TakeString(MAX_ICE_FIELD, p2).rest, tail);
  }

  lemma SmallMore(p: Octets, tail: Octets)
    ensures ParseOutcome(p).Got? ==> ParseOutcome(p + tail) == Got(ParseOutcome(p).value, ParseOutcome(p).rest + tail)
    ensures ParseAttempt(p).Got? ==> ParseAttempt(p + tail) == Got(ParseAttempt(p).value, ParseAttempt(p).rest + tail)
  {
    if p != [] {
      TakeByteMore(p, tail);
      if ParseOutcome(p).Got? {
        TakeByteMore(p[1..], tail);
      }
      if ParseAttempt(p).Got? {
        TakeStringMore(MAX_TIER_NAME, p[1..], tail);
        TakeByteMore(TakeString(MAX_TIER_NAME, p[1..]).rest, tail);
      }
    }
  }

  /** A payload followed by anything is refused, and so is one that is cut short: no payload a
      reader accepts is a proper prefix of another it accepts. */
  lemma NothingAround(k: Kind, p: Octets, tail: Octets)
    requires Parse(k, p).Some? && tail != []
    ensures Parse(k, p + tail) == None
  {
    match k
    case HelloKind => HelloMore(p, tail);
    case PunchInfoKind => PunchInfoMore(p, tail);
    case OutcomeKind => SmallMore(p, tail);
    case AttemptKind => SmallMore(p, tail);
  }

  lemma CandidateCountRefused(count: Byte, rest: Octets)
    requires count > 64
    ensures Parse(PunchInfoKind, [1, 0, 0, 0, 0, count] + rest) == None
  {
    var strings: Octets := [0, 0, 0, 0, count] + rest;
    var second: Octets := [0, 0, count] + rest;
    assert ([1, 0, 0, 0, 0, count] + rest)[1..] == strings;
    assert strings[..2] == [0, 0] && strings[2..] == second;
    assert second[..2] == [0, 0] && second[2..] == [count] + rest;
    assert TakeString(MAX_ICE_FIELD, strings) == Got([], second);
    assert TakeString(MAX_ICE_FIELD, second) == Got([], [count] + rest);
  }

  lemma CommitFlagRefused(flag: Byte, rest: Octets)
    requires flag > 1
    ensures Parse(AttemptKind, [1, 0, 0, flag] + rest) == None
  {
    var name: Octets := [0, 0, flag] + rest;
    assert ([1, 0, 0, flag] + rest)[1..] == name;
    assert name[..2] == [0, 0] && name[2..] == [flag] + rest;
    assert TakeString(MAX_TIER_NAME, name) == Got([], [flag] + rest);
  }

  lemma SecondOctetRefused(octet: Byte, rest: Octets)
    ensures octet > 3 ==> Parse(HelloKind, [1, octet] + rest) == None
    ensures octet > 1 ==> Parse(OutcomeKind, [1, octet] + rest) == None
  {
    assert ([1, octet] + rest)[1..] == [octet] + rest;
  }

  lemma VersionRefused(k: Kind, version: Byte, rest: Octets)
    requires version != 1
    ensures Parse(k, [version] + rest) == None
  {
    assert TakeVersion([version] + rest) == Fail;
  }

  /** A payload of another version is refused as any kind; a tier count over three and a
      candidate count over sixty-four before anything is read for them; and a flag that is
      neither zero nor one. */
  lemma OutOfRangeRefused(k: Kind, version: Byte, octet: Byte, rest: Octets)
    ensures version != 1 ==> Parse(k, [version] + rest) == None
    ensures octet > 3 ==> Parse(HelloKind, [1, octet] + rest) == None
    ensures octet > 64 ==> Parse(PunchInfoKind, [1, 0, 0, 0, 0, octet] + rest) == None
    ensures octet > 1 ==> Parse(OutcomeKind, [1, octet] + rest) == None
    ensures octet > 1 ==> Parse(AttemptKind, [1, 0, 0, octet] + rest) == None
  {
    if version != 1 {
      VersionRefused(k, version, rest);
    }
    SecondOctetRefused(octet, rest);
    if octet > 64 {
      CandidateCountRefused(octet, rest);
    }
    if octet > 1 {
      CommitFlagRefused(octet, rest);
    }
  }
}
