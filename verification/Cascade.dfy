/** Which rungs a session tries, decided by each side on its own from the two Hellos
    (internal/negotiate/negotiate.go). Neither side sends its decision, so everything here
    is proved symmetric: the peers reach one answer without a further round trip. */
module Cascade {
  import opened Bytes
  import opened Messages

  predicate Mutual(t: Tier, local: seq<Tier>, peer: seq<Tier>) {
    t in local && t in peer
  }

  function Rung(t: Tier, local: seq<Tier>, peer: seq<Tier>): seq<Tier> {
    if Mutual(t, local, peer) then [t] else []
  }

  /** Every upper tier both sides support, by priority, then the floor. */
  function Shared(local: seq<Tier>, peer: seq<Tier>): seq<Tier> {
    Rung(WIREGUARD, local, peer) + Rung(QUIC, local, peer) + [LIBP2P]
  }

  /** The loop over the fixed cascade computes Shared. */
  method SharedCascade(local: seq<Tier>, peer: seq<Tier>) returns (shared: seq<Tier>)
    ensures shared == Shared(local, peer)
  {
    shared := [];
    for i := 0 to |CASCADE|
      invariant shared == (if i > 0 then Rung(WIREGUARD, local, peer) else [])
                          + (if i > 1 then Rung(QUIC, local, peer) else [])
    {
      var t := CASCADE[i];
      if t == LIBP2P {
        continue;
      }
      if t in local && t in peer {
        shared := shared + [t];
      }
    }
    shared := shared + [LIBP2P];
  }

  /** The tier either side pins the session to, or a disagreement. */
  function Pinned(local: Hello, peer: Hello): Option<Tier> {
    if local.required == [] then Some(peer.required)
    else if peer.required != [] && peer.required != local.required then None
    else Some(local.required)
  }

  function RequiredCascade(local: Hello, peer: Hello): Option<seq<Tier>> {
    match Pinned(local, peer)
    case None => None
    case Some(t) =>
      if t == [] then Some(Shared(local.tiers, peer.tiers))
      else if t == LIBP2P || t !in CASCADE || !Mutual(t, local.tiers, peer.tiers) then None
      else Some([t])
  }

  predicate TierRequired(local: Hello, peer: Hello) {
    local.required != [] || peer.required != []
  }

  function EffectiveAttempts(local: Byte, peer: Byte): nat {
    var l := if local == 0 then 1 else local;
    var p := if peer == 0 then 1 else peer;
    if l < p then l else p
  }

  /** What a session does after the Hellos. */
  datatype Plan =
    | Refused
    | Climb(cascade: seq<Tier>, attempts: nat, required: bool)
    | Probe
    | FloorOnly

  function PlanOf(local: Hello, peer: Hello): Plan {
    match RequiredCascade(local, peer)
    case None => Refused
    case Some(c) =>
      if c[0] != LIBP2P then Climb(c, EffectiveAttempts(local.attempts, peer.attempts), TierRequired(local, peer))
      else if local.probe && peer.probe then Probe
      else FloorOnly
  }

  function Attempts(plan: Plan): nat {
    if plan.Climb? then plan.attempts else 1
  }

  /** Both peers derive the same branch, cascade, attempt count and fallback policy. */
  lemma PlanSymmetric(a: Hello, b: Hello)
    ensures PlanOf(a, b) == PlanOf(b, a)
    ensures RequiredCascade(a, b) == RequiredCascade(b, a)
  {
    assert Shared(a.tiers, b.tiers) == Shared(b.tiers, a.tiers);
  }

  predicate Upper(t: Tier) {
    t == WIREGUARD || t == QUIC
  }

  /** What a resolved cascade holds: the mutually supported upper tiers in priority order
      and then the floor, or exactly the pinned tier and no floor to fall to. */
  lemma CascadeMeaning(a: Hello, b: Hello, t: Tier)
    requires RequiredCascade(a, b).Some?
    ensures var c := RequiredCascade(a, b).value;
      && c != []
      && (Upper(t) && !TierRequired(a, b) ==> (t in c <==> Mutual(t, a.tiers, b.tiers)))
      && (TierRequired(a, b) ==> c == [if a.required != [] then a.required else b.required] && LIBP2P !in c)
      && (!TierRequired(a, b) ==> c[|c| - 1] == LIBP2P)
      && (forall i | 0 <= i < |c| :: c[i] == LIBP2P ==> i == |c| - 1)
      && (forall j | 0 < j < |c| :: c[j] != WIREGUARD)
      && (forall i | 0 <= i < |c| && c[i] != LIBP2P :: Upper(c[i]) && Mutual(c[i], a.tiers, b.tiers))
  {
    var c := RequiredCascade(a, b).value;
    if !TierRequired(a, b) {
      var w, q := Rung(WIREGUARD, a.tiers, b.tiers), Rung(QUIC, a.tiers, b.tiers);
      assert c == w + q + [LIBP2P];
      assert |w| <= 1 && |q| <= 1;
      assert forall i | 0 <= i < |c| - 1 :: c[i] in w || c[i] in q;
    }
  }

  // ---------------------------------------------------------------- exactly which plan

  /** Tier t is an upper tier both support, some side pins the session to it, and neither
      pins it to another. */
  predicate PinnedTo(a: Hello, b: Hello, t: Tier) {
    && Upper(t) && Mutual(t, a.tiers, b.tiers)
    && (a.required == t || b.required == t)
    && (a.required == [] || a.required == t) && (b.required == [] || b.required == t)
  }

  predicate Unpinned(a: Hello, b: Hello) {
    a.required == [] && b.required == []
  }

  /** A cascade resolves if and only if neither side pins a tier, or the one tier pinned is an
      upper tier that both support; and then a pinned session has that rung alone. */
  lemma ResolvesExactly(a: Hello, b: Hello)
    ensures RequiredCascade(a, b).Some? <==> Unpinned(a, b) || exists t :: PinnedTo(a, b, t)
    ensures forall t | PinnedTo(a, b, t) :: RequiredCascade(a, b) == Some([t])
  {
    forall t | PinnedTo(a, b, t) ensures RequiredCascade(a, b) == Some([t]) {
      assert CASCADE[0] == WIREGUARD && CASCADE[1] == QUIC;
    }
    if RequiredCascade(a, b).Some? && !Unpinned(a, b) {
      var t := if a.required != [] then a.required else b.required;
      assert PinnedTo(a, b, t);
    }
  }

  function Listed(wireguard: bool, quic: bool): seq<Tier> {
    if wireguard && quic then [WIREGUARD, QUIC, LIBP2P]
    else if wireguard then [WIREGUARD, LIBP2P]
    else if quic then [QUIC, LIBP2P]
    else [LIBP2P]
  }

  /** The rungs of an unpinned session, by which upper tiers are mutual. */
  lemma UnpinnedCascade(a: Hello, b: Hello)
    requires Unpinned(a, b)
    ensures var w, q := Mutual(WIREGUARD, a.tiers, b.tiers), Mutual(QUIC, a.tiers, b.tiers);
      RequiredCascade(a, b) == Some(Listed(w, q))
  {
    var shared := Shared(a.tiers, b.tiers);
    assert shared == Listed(Mutual(WIREGUARD, a.tiers, b.tiers), Mutual(QUIC, a.tiers, b.tiers));
  }

  /** Some rung above the floor can be tried. */
  ghost predicate HasRung(a: Hello, b: Hello) {
    || (Unpinned(a, b) && (Mutual(WIREGUARD, a.tiers, b.tiers) || Mutual(QUIC, a.tiers, b.tiers)))
    || exists t :: PinnedTo(a, b, t)
  }

  /** The four plans, each with exactly the Hellos that lead to it: climbing needs a rung above
      the floor; without one, a session pinned to any tier is refused, one that both sides
      asked to probe probes, and any other stays on the floor. */
  lemma PlanExactly(a: Hello, b: Hello)
    ensures PlanOf(a, b).Climb? <==> HasRung(a, b)
    ensures PlanOf(a, b).Refused? <==> !HasRung(a, b) && !Unpinned(a, b)
    ensures PlanOf(a, b).Probe? <==> !HasRung(a, b) && Unpinned(a, b) && a.probe && b.probe
    ensures PlanOf(a, b).FloorOnly? <==> !HasRung(a, b) && Unpinned(a, b) && !(a.probe && b.probe)
    ensures PlanOf(a, b).Climb? ==>
      && RequiredCascade(a, b) == Some(PlanOf(a, b).cascade)
      && (PlanOf(a, b).required <==> !Unpinned(a, b))
      && PlanOf(a, b).attempts == EffectiveAttempts(a.attempts, b.attempts)
  {
    ResolvesExactly(a, b);
    assert |WIREGUARD| == 9 && |QUIC| == 4 && |LIBP2P| == 6;
    if Unpinned(a, b) {
      UnpinnedCascade(a, b);
    } else if exists t :: PinnedTo(a, b, t) {
      var t :| PinnedTo(a, b, t);
      assert RequiredCascade(a, b) == Some([t]);
    }
  }

  /** A request for attempts, zero read as one. */
  function AtLeastOne(n: Byte): (m: nat)
    ensures m >= 1 && (n > 0 ==> m == n)
  {
    if n == 0 then 1 else n
  }

  /** The agreed count is the smaller request with zero read as one, so it is at least
      one and always fits the uint8 the loop counts in. */
  lemma AttemptsBounds(a: Byte, b: Byte)
    ensures 1 <= EffectiveAttempts(a, b) <= 255
    ensures a != 0 && b != 0 ==> EffectiveAttempts(a, b) <= a && EffectiveAttempts(a, b) <= b
    ensures EffectiveAttempts(a, b) == 1 <==> a <= 1 || b <= 1
    ensures EffectiveAttempts(a, b) == AtLeastOne(a) || EffectiveAttempts(a, b) == AtLeastOne(b)
    ensures EffectiveAttempts(a, b) <= AtLeastOne(a) && EffectiveAttempts(a, b) <= AtLeastOne(b)
  {
  }
}
