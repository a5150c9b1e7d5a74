/** Small facts about counting that several modules need. */
module Counting {

  function Min(a: nat, b: nat): nat {
    if a < b then a else b
  }

  /** One for a fact that holds, so that facts can be counted. */
  function Bit(b: bool): nat {
    if b then 1 else 0
  }

  lemma SubsetSize<T>(a: set<T>, b: set<T>)
    requires a <= b
    ensures |a| <= |b|
  {
    assert b == a + (b - a);
    assert |b| == |a| + |b - a|;
  }
}
