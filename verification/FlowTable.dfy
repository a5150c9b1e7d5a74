/** The state of one flow multiplexer and what each of its locked regions does to it
    (internal/flowmux/flowmux.go). Time is an integer; where Go ranges over a map, the
    order and the choice of a victim are parameters. */
module FlowTable {
  import opened Bytes

  type Id = nat

  const FLOW_QUEUE: nat := 64
  const BACKLOG: nat := 64

  datatype Frame =
    | Data(id: Id, payload: Octets)
    | Fin(id: Id)
    | FinAck(id: Id)

  /** Config with its zero values already replaced by the defaults. */
  datatype Config = Config(dialing: bool, finInterval: nat, finCount: nat, idle: nat, ttl: nat,
                           maxPending: nat, maxTombstones: nat)

  predicate GoodConfig(c: Config) {
    c.finInterval > 0 && c.finCount > 0 && c.idle > 0 && c.ttl > 0 && c.maxPending > 0 && c.maxTombstones > 0
  }

  datatype Flow = Flow(queue: seq<Octets>, lastActivity: int)
  datatype Pending = Pending(next: int, retries: nat)

  datatype Mux = Mux(
    cfg: Config,
    next: Id,
    closed: bool,
    flows: map<Id, Flow>,
    pending: map<Id, Pending>,
    tombstones: map<Id, int>,
    inbound: seq<Id>)

  /** The dialling side allocates even IDs, the accepting side odd ones. */
  predicate Local(cfg: Config, id: Id) {
    (id % 2 == 0) == cfg.dialing
  }

  function New(cfg: Config): Mux {
    Mux(cfg, if cfg.dialing then 0 else 1, false, map[], map[], map[], [])
  }

  /** next is a uint32 and wraps. */
  function Open(m: Mux, now: int): Mux {
    if m.closed then m
    else m.(next := (m.next + 2) % U32_LIMIT, flows := m.flows[m.next := Flow([], now)])
  }

  // ---------------------------------------------------------------- tombstones

  predicate Full(m: Mux, id: Id) {
    id !in m.tombstones && |m.tombstones| >= m.cfg.maxTombstones
  }

  /** addTombstoneLocked; victim is the arbitrary entry a full table gives up. */
  function AddTombstone(m: Mux, id: Id, until: int, victim: Id): Mux {
    m.(tombstones := Guarding(m.tombstones, Full(m, id), id, until, victim))
  }

  function Guarding(tombstones: map<Id, int>, full: bool, id: Id, until: int, victim: Id): map<Id, int> {
    (if full then tombstones - {victim} else tombstones)[id := until]
  }

  function Drop(m: Mux, id: Id): Mux {
    m.(flows := m.flows - {id})
  }

  function AddPending(m: Mux, id: Id, now: int): Mux {
    m.(pending := Beginning(m.cfg, m.pending, id, now))
  }

  function Beginning(cfg: Config, pending: map<Id, Pending>, id: Id, now: int): map<Id, Pending> {
    if |pending| < cfg.maxPending then pending[id := Pending(now + cfg.finInterval, 0)] else pending
  }

  // ---------------------------------------------------------------- inbound messages

  function Deliver(m: Mux, id: Id, payload: Octets, now: int): Mux
    requires id in m.flows
  {
    var f := m.flows[id];
    var queue := if |f.queue| < FLOW_QUEUE then f.queue + [payload] else f.queue;
    m.(flows := m.flows[id := Flow(queue, now)])
  }

  predicate Creates(m: Mux, id: Id) {
    !m.closed && id !in m.flows && id !in m.tombstones && !Local(m.cfg, id)
  }

  function HandleData(m: Mux, id: Id, payload: Octets, now: int): Mux {
    if m.closed then m
    else if id in m.flows then Deliver(m, id, payload, now)
    else if !Creates(m, id) || |m.inbound| >= BACKLOG then m
    else Deliver(m.(flows := m.flows[id := Flow([], now)], inbound := m.inbound + [id]), id, payload, now)
  }

  /** The three regions handle passes through for one DATA message, which others can come
      between: looking the flow up or creating it, offering a new one to AcceptStream, and
      delivering to it. */
  function LookUp(m: Mux, id: Id, now: int): Mux {
    if Creates(m, id) then m.(flows := m.flows[id := Flow([], now)]) else m
  }

  function Offer(m: Mux, id: Id): Mux {
    if |m.inbound| < BACKLOG then m.(inbound := m.inbound + [id]) else Drop(m, id)
  }

  function Put(m: Mux, id: Id, payload: Octets, now: int): Mux {
    if id in m.flows then Deliver(m, id, payload, now) else m
  }

  /** With nothing in between they are the whole of it. */
  lemma DataInParts(m: Mux, id: Id, payload: Octets, now: int)
    requires m.closed ==> m.flows == map[]
    ensures HandleData(m, id, payload, now) ==
      if Creates(m, id) then Put(Offer(LookUp(m, id, now), id), id, payload, now)
      else Put(LookUp(m, id, now), id, payload, now)
  {
    if Creates(m, id) && |m.inbound| >= BACKLOG {
      assert m.flows[id := Flow([], now)] - {id} == m.flows;
    }
  }

  /** A FIN closes the flow and guards its ID even on a closed mux. */
  function HandleFin(m: Mux, id: Id, now: int, victim: Id): Mux {
    Drop(AddTombstone(m, id, now + m.cfg.ttl, victim), id)
  }

  function HandleFinAck(m: Mux, id: Id): Mux {
    m.(pending := m.pending - {id})
  }

  // ---------------------------------------------------------------- local teardown

  function BeginFin(m: Mux, id: Id, now: int): Mux {
    if m.closed then m else AddPending(m, id, now)
  }

  /** A local close adds no tombstone. */
  function Close(m: Mux, id: Id, now: int): Mux {
    BeginFin(Drop(m, id), id, now)
  }

  function Touch(m: Mux, id: Id, now: int): Mux {
    if id in m.flows then m.(flows := m.flows[id := m.flows[id].(lastActivity := now)]) else m
  }

  function ShutAll(m: Mux): Mux {
    m.(closed := true, flows := map[], pending := map[], tombstones := map[])
  }

  // ---------------------------------------------------------------- maintenance

  function LiveTombstones(m: Mux, now: int): map<Id, int> {
    map id | id in m.tombstones && now < m.tombstones[id] :: m.tombstones[id]
  }

  predicate Due(m: Mux, id: Id, now: int) {
    id in m.pending && m.pending[id].next <= now
  }

  predicate Retried(m: Mux, id: Id, now: int) {
    Due(m, id, now) && m.pending[id].retries < m.cfg.finCount
  }

  function RetriedPending(m: Mux, now: int): map<Id, Pending> {
    map id | id in m.pending && (Due(m, id, now) ==> Retried(m, id, now)) ::
      if Due(m, id, now) then Pending(now + m.cfg.finInterval, m.pending[id].retries + 1) else m.pending[id]
  }

  function Idle(m: Mux, now: int): set<Id> {
    set id | id in m.flows && now - m.flows[id].lastActivity >= m.cfg.idle
  }

  function Swept(m: Mux, now: int): Mux {
    m.(tombstones := LiveTombstones(m, now), pending := RetriedPending(m, now))
  }

  /** A flow just taken out of the table is guarded and its FIN begun. */
  function Retire(m: Mux, id: Id, now: int, victim: Id): Mux {
    AddPending(AddTombstone(m, id, now + m.cfg.ttl, victim), id, now)
  }

  function ReapOne(m: Mux, id: Id, now: int, victim: Id): Mux {
    Retire(Drop(m, id), id, now, victim)
  }

  function Reap(m: Mux, order: seq<(Id, Id)>, now: int): Mux {
    if order == [] then m
    else var last := order[|order| - 1];
         ReapOne(Reap(m, order[..|order| - 1], now), last.0, now, last.1)
  }

  /** One maintenance pass: order lists the idle flows as reaped, each with the tombstone
      victim it would evict. */
  function Maintain(m: Mux, order: seq<(Id, Id)>, now: int): Mux {
    if m.closed then m else Reap(Swept(m, now), order, now)
  }

  // ---------------------------------------------------------------- which choices are real

  /** The victim is one the table holds, whenever one is needed. */
  predicate Eviction(m: Mux, id: Id, victim: Id) {
    Full(m, id) ==> victim in m.tombstones
  }

  predicate Victims(m: Mux, order: seq<(Id, Id)>, now: int) {
    order == [] ||
    (Victims(m, order[..|order| - 1], now) &&
     var m' := Reap(m, order[..|order| - 1], now);
     var last := order[|order| - 1];
     Eviction(Drop(m', last.0), last.0, last.1))
  }

  ghost predicate Enumerates(order: seq<(Id, Id)>, ids: set<Id>) {
    && (forall k | 0 <= k < |order| :: order[k].0 in ids)
    && (forall id | id in ids :: exists k :: 0 <= k < |order| && order[k].0 == id)
    && (forall j, k | 0 <= j < k < |order| :: order[j].0 != order[k].0)
  }

  // ---------------------------------------------------------------- one event of one mux

  datatype DataPart = LookingUp | Offering | Putting
  datatype ClosePart = Detaching | Finishing

  /** Handling a DATA message and closing a flow are events as a whole, and so are the regions
      they consist of, for whatever comes between them. */
  datatype Event =
    | DoOpen(now: int)
    | DoHandle(frame: Frame, now: int, victim: Id)
    | DoAccept
    | DoRecv(id: Id)
    | DoSend(id: Id, payload: Octets, now: int)
    | DoClose(id: Id, now: int)
    | DoDataPart(part: DataPart, id: Id, payload: Octets, now: int)
    | DoClosePart(step: ClosePart, id: Id, now: int)
    | DoMaintain(order: seq<(Id, Id)>, now: int)
    | DoShutAll

  ghost predicate Legal(m: Mux, e: Event) {
    match e
    case DoHandle(Fin(id), now, victim) => Eviction(m, id, victim)
    case DoAccept => m.inbound != []
    case DoRecv(id) => id in m.flows && m.flows[id].queue != []
    case DoClose(id, now) => id in m.flows
    case DoMaintain(order, now) =>
      !m.closed && Enumerates(order, Idle(m, now)) && Victims(Swept(m, now), order, now)
    case _ => true
  }

  function Next(m: Mux, e: Event): Mux {
    match e
    case DoOpen(now) => Open(m, now)
    case DoHandle(Data(id, payload), now, _) => if payload == [] then m else HandleData(m, id, payload, now)
    case DoHandle(Fin(id), now, victim) => HandleFin(m, id, now, victim)
    case DoHandle(FinAck(id), _, _) => HandleFinAck(m, id)
    case DoAccept => if m.inbound == [] then m else m.(inbound := m.inbound[1..])
    case DoRecv(id) =>
      if id in m.flows && m.flows[id].queue != [] then
        m.(flows := m.flows[id := m.flows[id].(queue := m.flows[id].queue[1..])])
      else m
    case DoSend(id, payload, now) => Touch(m, id, now)
    case DoClose(id, now) => Close(m, id, now)
    case DoDataPart(LookingUp, id, _, now) => LookUp(m, id, now)
    case DoDataPart(Offering, id, _, _) => Offer(m, id)
    case DoDataPart(Putting, id, payload, now) => Put(m, id, payload, now)
    case DoClosePart(Detaching, id, _) => Drop(m, id)
    case DoClosePart(Finishing, id, now) => BeginFin(m, id, now)
    case DoMaintain(order, now) => Maintain(m, order, now)
    case DoShutAll => ShutAll(m)
  }

  /** The frames an event hands to the channel. */
  function Emitted(m: Mux, e: Event): set<Frame> {
    match e
    case DoHandle(Fin(id), _, _) => {FinAck(id)}
    case DoSend(id, payload, _) => {Data(id, payload)}
    case DoClose(id, _) => {Fin(id)}
    case DoClosePart(Finishing, id, _) => {Fin(id)}
    case DoMaintain(order, now) =>
      (set k | 0 <= k < |order| :: Fin(order[k].0)) + (set id | id in m.pending && Retried(m, id, now) :: Fin(id))
    case _ => {}
  }
}
