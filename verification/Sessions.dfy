/** The host's session manager (internal/tunnel/session.go): which peers are connected, the
    tier each one rides, and the events reported. Each locked region is one transition; the
    stops a region decides on are called after it, outside the lock, as transitions of their
    own. */
module Sessions {
  import opened Bytes
  import opened Counting
  import opened Messages

  type Peer = nat

  datatype Session = Session(tier: Tier, streams: int)

  /** A registration made by RegisterTier; entries are numbered in the order they are made. */
  datatype Entry = Entry(peer: Peer, tier: Tier, accepted: bool)

  datatype Event = Connected(peer: Peer, tier: Tier) | Disconnected(peer: Peer)

  datatype Manager = Manager(
    sessions: map<Peer, Session>,
    tiers: map<Peer, nat>,
    entries: seq<Entry>,
    unregistered: set<nat>,  // entries their owners took out of the table
    owed: seq<nat>,          // stops decided on and not yet called
    stopped: seq<nat>,       // stops called
    handlers: int,
    closing: bool,
    events: seq<Event>)

  const NEW := Manager(map[], map[], [], {}, [], [], 0, false, [])

  function Register(m: Manager, p: Peer, tier: Tier): Manager {
    var e := |m.entries|;
    if m.closing then m.(entries := m.entries + [Entry(p, tier, false)], owed := m.owed + [e])
    else
      var displaced := if p in m.tiers then [m.tiers[p]] else [];
      m.(entries := m.entries + [Entry(p, tier, true)], tiers := m.tiers[p := e], owed := m.owed + displaced)
  }

  /** Identity is checked before anything is evicted; a nil entry does nothing. */
  function Unregister(m: Manager, p: Peer, entry: Option<nat>): Manager {
    if entry.Some? && p in m.tiers && m.tiers[p] == entry.value then
      m.(tiers := m.tiers - {p}, unregistered := m.unregistered + {entry.value})
    else m
  }

  function TierOf(m: Manager, p: Peer): Tier {
    if p in m.tiers && m.tiers[p] < |m.entries| then m.entries[m.tiers[p]].tier else LIBP2P
  }

  function Begin(m: Manager, p: Peer): Manager {
    if m.closing then m
    else if p in m.sessions then
      m.(handlers := m.handlers + 1, sessions := m.sessions[p := m.sessions[p].(streams := m.sessions[p].streams + 1)])
    else
      m.(handlers := m.handlers + 1, sessions := m.sessions[p := Session(TierOf(m, p), 1)],
         events := m.events + [Connected(p, TierOf(m, p))])
  }

  function End(m: Manager, p: Peer): Manager {
    var m := m.(handlers := m.handlers - 1);
    if p !in m.sessions then m
    else
      var left := m.sessions[p].streams - 1;
      if left <= 0 then m.(sessions := m.sessions - {p}, events := m.events + [Disconnected(p)])
      else m.(sessions := m.sessions[p := m.sessions[p].(streams := left)])
  }

  function Remove(m: Manager, p: Peer): Manager {
    if p !in m.sessions then m
    else
      var stop := if p in m.tiers then [m.tiers[p]] else [];
      m.(tiers := m.tiers - {p}, owed := m.owed + stop, sessions := m.sessions - {p},
         events := m.events + [Disconnected(p)])
  }

  /** order is the map iteration's: every entry in the table, each once. */
  function Shutdown(m: Manager, order: seq<nat>): Manager {
    m.(closing := true, tiers := map[], sessions := map[], owed := m.owed + order)
  }

  function CallStop(m: Manager, k: nat): Manager {
    if k >= |m.owed| then m
    else m.(owed := m.owed[..k] + m.owed[k + 1..], stopped := m.stopped + [m.owed[k]])
  }

  /** Every stop decided on has been called. */
  function Settle(m: Manager): Manager {
    m.(owed := [], stopped := m.stopped + m.owed)
  }

  datatype Op =
    | DoRegister(peer: Peer, tier: Tier)
    | DoUnregister(peer: Peer, entry: Option<nat>)
    | DoBegin(peer: Peer)
    | DoEnd(peer: Peer)
    | DoRemove(peer: Peer)
    | DoShutdown(order: seq<nat>)
    | DoCallStop(k: nat)

  ghost predicate InTable(m: Manager, e: nat) {
    exists p :: p in m.tiers && m.tiers[p] == e
  }

  /** order lists each entry in the table once and nothing else. */
  ghost predicate Lists(m: Manager, order: seq<nat>) {
    forall e :: multiset(order)[e] == Bit(InTable(m, e))
  }

  ghost predicate Legal(m: Manager, op: Op) {
    op.DoShutdown? ==> Lists(m, op.order)
  }

  function Next(m: Manager, op: Op): Manager {
    match op
    case DoRegister(p, tier) => Register(m, p, tier)
    case DoUnregister(p, entry) => Unregister(m, p, entry)
    case DoBegin(p) => Begin(m, p)
    case DoEnd(p) => End(m, p)
    case DoRemove(p) => Remove(m, p)
    case DoShutdown(order) => Shutdown(m, order)
    case DoCallStop(k) => CallStop(m, k)
  }

  function After(m: Manager, ops: seq<Op>): Manager {
    if ops == [] then m else Next(After(m, ops[..|ops| - 1]), ops[|ops| - 1])
  }

  ghost predicate LegalRun(m: Manager, ops: seq<Op>) {
    ops == [] || (LegalRun(m, ops[..|ops| - 1]) && Legal(After(m, ops[..|ops| - 1]), ops[|ops| - 1]))
  }
}
