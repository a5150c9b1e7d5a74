/** Fragmenting a multiplexer message over QUIC DATAGRAM frames and reassembling it
    (internal/quictun/fragment.go): the wire form of a fragment, the bounded reassembler's
    state and what one arriving fragment does to it. */
module Reassembly {
  import opened Bytes

  type Id = nat

  const MAGIC: nat := 0x4d54
  const VERSION: Byte := 1
  const HEADER: nat := 16
  const CHUNK: nat := 1000
  const MAX_MESSAGE: nat := 5 + 2 + 65535
  const MAX_PARTIAL: nat := 128
  const MAX_BYTES: nat := 4 * MAX_MESSAGE
  const TTL: nat := 30_000_000_000

  // ---------------------------------------------------------------- fragments

  function Count(total: nat): (n: nat)
    ensures n >= 1 && (n - 1) * CHUNK <= total <= n * CHUNK
  {
    var n := (total + CHUNK - 1) / CHUNK;
    if n == 0 then 1 else n
  }

  function Start(index: nat): nat {
    index * CHUNK
  }

  function End(index: nat, total: nat): nat {
    if Start(index) + CHUNK < total then Start(index) + CHUNK else total
  }

  datatype Fragment = Fragment(id: Id, index: nat, count: nat, total: nat, payload: Octets)

  predicate Valid(f: Fragment) {
    f.total <= MAX_MESSAGE && f.count >= 1 && f.index < f.count && f.count == Count(f.total)
    && |f.payload| == End(f.index, f.total) - Start(f.index)
  }

  function Chunk(message: Octets, index: nat): Octets
    requires index < Count(|message|)
  {
    message[Start(index)..End(index, |message|)]
  }

  function FragmentOf(id: Id, message: Octets, index: nat): Fragment
    requires index < Count(|message|)
  {
    Fragment(id, index, Count(|message|), |message|, Chunk(message, index))
  }

  lemma FragmentValid(id: Id, message: Octets, index: nat)
    requires |message| <= MAX_MESSAGE && index < Count(|message|)
    ensures Valid(FragmentOf(id, message, index))
  {
  }

  predicate Writable(f: Fragment) {
    f.id < U32_LIMIT && f.index < 0x1_0000 && f.count < 0x1_0000 && f.total < U32_LIMIT
  }

  function Encode(f: Fragment): Octets
    requires Writable(f)
  {
    U16(MAGIC) + [VERSION, 0] + U32(f.id) + U16(f.index) + U16(f.count) + U32(f.total) + f.payload
  }

  /** The fragment a datagram carries, if it is one; byte 3 is not looked at. */
  function Parse(d: Octets): Option<Fragment> {
    if |d| < HEADER || FromU16(d[0..2]) != MAGIC || d[2] != VERSION then None
    else Some(Fragment(FromU32(d[4..8]), FromU16(d[8..10]), FromU16(d[10..12]), FromU32(d[12..16]), d[HEADER..]))
  }

  lemma ParseInverse(f: Fragment)
    requires Writable(f)
    ensures Parse(Encode(f)) == Some(f)
  {
    var d := Encode(f);
    var front := U16(MAGIC) + [VERSION, 0] + U32(f.id);
    assert front[0..2] == U16(MAGIC) && front[2] == VERSION && front[4..8] == U32(f.id);
    assert d[..8] == front;
    assert d[0..2] == front[0..2] && d[2] == front[2] && d[4..8] == front[4..8];
    assert d[8..10] == U16(f.index);
    assert d[10..12] == U16(f.count);
    assert d[12..16] == U32(f.total);
    assert d[HEADER..] == f.payload;
    U16Inverse(MAGIC, []);
    U32Inverse(f.id, []);
    U16Inverse(f.index, []);
    U16Inverse(f.count, []);
    U32Inverse(f.total, []);
    assert U16(MAGIC) + [] == U16(MAGIC) && U32(f.id) + [] == U32(f.id) && U16(f.index) + [] == U16(f.index);
    assert U16(f.count) + [] == U16(f.count) && U32(f.total) + [] == U32(f.total);
  }

  // ---------------------------------------------------------------- concatenating parts

  function Concat(parts: seq<Octets>): Octets {
    if parts == [] then [] else Concat(parts[..|parts| - 1]) + parts[|parts| - 1]
  }

  lemma {:induction false} ConcatChunks(message: Octets, parts: seq<Octets>)
    requires |parts| <= Count(|message|) && forall i | 0 <= i < |parts| :: parts[i] == Chunk(message, i)
    ensures Concat(parts) == message[..if Start(|parts|) < |message| then Start(|parts|) else |message|]
  {
    if parts != [] {
      var k := |parts| - 1;
      ConcatChunks(message, parts[..k]);
      assert Concat(parts) == message[..Start(k)] + message[Start(k)..End(k, |message|)];
    }
  }

  // ---------------------------------------------------------------- the reassembler

  /** An empty part is Go's nil: a part not yet received. */
  datatype Partial = Partial(created: int, total: nat, parts: seq<Octets>, received: nat)

  datatype State = State(partial: map<Id, Partial>, reserved: int, closed: bool)

  function Remove(s: State, id: Id): State {
    if id in s.partial then s.(partial := s.partial - {id}, reserved := s.reserved - s.partial[id].total) else s
  }

  function RemoveAll(s: State, ids: seq<Id>): State {
    if ids == [] then s else Remove(RemoveAll(s, ids[..|ids| - 1]), ids[|ids| - 1])
  }

  predicate Expired(s: State, id: Id, now: int) {
    id in s.partial && now - s.partial[id].created >= TTL
  }

  predicate Crowded(s: State, total: nat) {
    |s.partial| >= MAX_PARTIAL || s.reserved + total > MAX_BYTES
  }

  predicate Oldest(s: State, id: Id) {
    id in s.partial && forall other | other in s.partial :: s.partial[id].created <= s.partial[other].created
  }

  /** reserve evicts an oldest message as long as the newcomer does not fit and there is
      one; which of several equally old ones is the map iteration's choice. */
  predicate Evicts(s: State, total: nat, ids: seq<Id>) {
    ids == [] ||
    (Evicts(s, total, ids[..|ids| - 1]) &&
     var t := RemoveAll(s, ids[..|ids| - 1]);
     Crowded(t, total) && Oldest(t, ids[|ids| - 1]))
  }

  /** The choices one accept makes: what expired, in some order, and what reserve evicted. */
  datatype Choice = Choice(expired: seq<Id>, evicted: seq<Id>)

  ghost predicate Chosen(s: State, f: Fragment, now: int, c: Choice) {
    && (forall id :: id in c.expired <==> Expired(s, id, now))
    && var t := RemoveAll(s, c.expired);
       if f.id in t.partial then c.evicted == []
       else Evicts(t, f.total, c.evicted)
            && var u := RemoveAll(t, c.evicted); (!Crowded(u, f.total) || u.partial == map[])
  }

  datatype Step = Step(state: State, message: Option<Octets>)

  function Store(s: State, f: Fragment): Step
    requires f.id in s.partial && f.index < |s.partial[f.id].parts|
  {
    var p := s.partial[f.id];
    if p.parts[f.index] != [] then Step(s, None)
    else
      var p' := p.(parts := p.parts[f.index := f.payload], received := p.received + 1);
      var s' := s.(partial := s.partial[f.id := p']);
      if p'.received != |p'.parts| then Step(s', None) else Step(Remove(s', f.id), Some(Concat(p'.parts)))
  }

  /** n parts, none of them received. */
  function Blank(n: nat): (parts: seq<Octets>)
    ensures |parts| == n && forall i | 0 <= i < n :: parts[i] == []
  {
    if n == 0 then [] else Blank(n - 1) + [[]]
  }

  function Admit(s: State, f: Fragment, now: int): State {
    s.(partial := s.partial[f.id := Partial(now, f.total, Blank(f.count), 0)], reserved := s.reserved + f.total)
  }

  /** accept, for a fragment that passed the header checks. */
  function Accept(s: State, f: Fragment, now: int, c: Choice): Step
    requires Valid(f)
  {
    if s.closed then Step(s, None)
    else
      var t := RemoveAll(s, c.expired);
      if f.id in t.partial then
        if t.partial[f.id].total != f.total || |t.partial[f.id].parts| != f.count then Step(t, None) else Store(t, f)
      else
        var u := RemoveAll(t, c.evicted);
        if Crowded(u, f.total) then Step(u, None) else Store(Admit(u, f, now), f)
  }
}
