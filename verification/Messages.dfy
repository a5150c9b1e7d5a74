/** The four negotiate messages. A frame on the stream carries no type tag: the
    reader decides which of the four kinds it decodes. */
module Messages {
  import opened Bytes

  /** A tier is named on the wire by a Go string, that is, by octets. */
  type Tier = Octets

  const WIREGUARD: Tier := [119, 105, 114, 101, 103, 117, 97, 114, 100]
  const QUIC: Tier := [113, 117, 105, 99]
  const LIBP2P: Tier := [108, 105, 98, 112, 50, 112]

  /** Every tier, highest priority first, ending in the libp2p floor. */
  const CASCADE: seq<Tier> := [WIREGUARD, QUIC, LIBP2P]

  type Key = k: Octets | |k| == 32 witness seq(32, i => 0)

  datatype Hello = Hello(tiers: seq<Tier>, key: Key, required: Tier, probe: bool, attempts: Byte)

  datatype PunchInfo = PunchInfo(ufrag: Octets, pwd: Octets, candidates: seq<Octets>, fingerprint: Octets)
  {
    /** Complete enough to attempt a punch against. */
    predicate Usable() {
      ufrag != [] && pwd != [] && candidates != []
    }
  }

  datatype Kind = HelloKind | PunchInfoKind | OutcomeKind | AttemptKind

  datatype Message =
    | HelloMsg(hello: Hello)
    | PunchInfoMsg(info: PunchInfo)
    | OutcomeMsg(ok: bool)
    | AttemptMsg(tier: Tier, commit: bool)
  {
    function Kind(): Kind {
      match this
      case HelloMsg(_) => HelloKind
      case PunchInfoMsg(_) => PunchInfoKind
      case OutcomeMsg(_) => OutcomeKind
      case AttemptMsg(_, _) => AttemptKind
    }
  }
}
