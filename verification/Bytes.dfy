/** Octet strings and the big-endian integers every wire format of the tunnel uses. */
module Bytes {

  type Byte = b: int | 0 <= b < 256
  type Octets = seq<Byte>

  datatype Option<+T> = None | Some(value: T)

  const U32_LIMIT: nat := 0x1_0000_0000

  function U16(n: nat): (r: Octets)
    requires n < 0x1_0000
    ensures |r| == 2
  {
    [n / 256, n % 256]
  }

  function FromU16(p: Octets): (n: nat)
    requires |p| >= 2
    ensures n < 0x1_0000
  {
    p[0] as int * 256 + p[1]
  }

  function U32(n: nat): (r: Octets)
    requires n < U32_LIMIT
    ensures |r| == 4
  {
    U16(n / 65536) + U16(n % 65536)
  }

  function FromU32(p: Octets): (n: nat)
    requires |p| >= 4
    ensures n < U32_LIMIT
  {
    FromU16(p) * 65536 + FromU16(p[2..])
  }

  lemma U16Inverse(n: nat, tail: Octets)
    requires n < 0x1_0000
    ensures FromU16(U16(n) + tail) == n
  {
  }

  lemma U32Inverse(n: nat, tail: Octets)
    requires n < U32_LIMIT
    ensures FromU32(U32(n) + tail) == n
  {
    var hi, lo := n / 65536, n % 65536;
    assert U32(n) + tail == U16(hi) + (U16(lo) + tail);
    assert (U16(hi) + (U16(lo) + tail))[2..] == U16(lo) + tail;
    U16Inverse(hi, U16(lo) + tail);
    U16Inverse(lo, tail);
  }

  lemma U16Canonical(p: Octets)
    requires |p| >= 2
    ensures U16(FromU16(p)) == p[..2]
  {
  }

  lemma U32Canonical(p: Octets)
    requires |p| >= 4
    ensures U32(FromU32(p)) == p[..4]
  {
    var hi, lo := FromU16(p), FromU16(p[2..]);
    assert (hi * 65536 + lo) / 65536 == hi && (hi * 65536 + lo) % 65536 == lo;
    U16Canonical(p);
    U16Canonical(p[2..]);
    assert p[2..][..2] == p[2..4];
    assert p[..2] + p[2..4] == p[..4];
  }
}
