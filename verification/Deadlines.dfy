/** One direction's deadline on a punched conn (internal/nat/deadline.go): a channel that is
    closed when the deadline passes, replaced only after it has fired, and timers whose
    callbacks may run late, after they were stopped, or after a newer deadline was set. */
module Deadlines {
  import opened Bytes

  /** Channels are numbered in the order they are made. */
  datatype Deadline = Deadline(
    expired: nat,             // the current channel
    made: nat,                // channels made so far
    closed: set<nat>,         // channels closed so far
    panicked: bool,           // a closed channel was closed again
    fired: bool,
    gen: nat,
    timer: bool,              // whether a timer is held, to be stopped by the next set
    armed: map<nat, int>,     // generations a timer was ever armed for, and when it is due
    captured: set<nat>,       // channels some read or write has ever looked at
    target: Option<int>)      // the deadline last set

  const NEW := Deadline(0, 1, {}, false, false, 0, false, map[], {}, None)

  function CloseChannel(d: Deadline): Deadline {
    d.(closed := d.closed + {d.expired}, panicked := d.panicked || d.expired in d.closed)
  }

  /** set: a zero time is None; a time not after now fires at once. */
  function Set(d: Deadline, t: Option<int>, now: int): Deadline {
    var d := d.(timer := false, gen := d.gen + 1, target := t);
    var d := if d.fired then d.(expired := d.made, made := d.made + 1, fired := false) else d;
    if t == None then d
    else if t.value > now then d.(timer := true, armed := d.armed[d.gen := t.value])
    else CloseChannel(d.(fired := true))
  }

  /** expire, called for the generation its timer was armed for. */
  function Expire(d: Deadline, gen: nat): Deadline {
    if d.gen != gen || d.fired then d else CloseChannel(d.(fired := true))
  }

  function Capture(d: Deadline): Deadline {
    d.(captured := d.captured + {d.expired})
  }

  // ---------------------------------------------------------------- interleavings

  datatype Clocked = Clocked(d: Deadline, now: int)

  datatype Event =
    | SetTo(t: Option<int>)
    | Callback(gen: nat)  // a timer callback, at any moment from when it is due
    | Look                // a read or write takes the current channel
    | Advance(step: nat)

  function CanCall(x: Clocked, gen: nat): bool {
    gen in x.d.armed && x.d.armed[gen] <= x.now
  }

  function Next(x: Clocked, e: Event): Clocked {
    match e
    case SetTo(t) => x.(d := Set(x.d, t, x.now))
    case Callback(gen) => if CanCall(x, gen) then x.(d := Expire(x.d, gen)) else x
    case Look => x.(d := Capture(x.d))
    case Advance(step) => x.(now := x.now + step)
  }

  function After(x: Clocked, events: seq<Event>): Clocked {
    if events == [] then x else Next(After(x, events[..|events| - 1]), events[|events| - 1])
  }

  /** Every channel but the current one is closed, and the current one exactly if fired; the
      deadline has fired only if it is due, and if it has not fired its own callback will. */
  ghost predicate Ok(d: Deadline, now: int) {
    && d.expired < d.made && !d.panicked
    && (forall c | c in d.closed :: c < d.made)
    && (forall c | 0 <= c < d.made :: c == d.expired || c in d.closed)
    && (d.fired <==> d.expired in d.closed)
    && (forall c | c in d.captured :: 0 <= c < d.made)
    && (forall g | g in d.armed :: g <= d.gen)
    && (d.fired ==> d.target.Some? && d.target.value <= now)
    && (!d.fired && d.target.Some? ==> d.gen in d.armed && d.armed[d.gen] == d.target.value)
    && (d.gen in d.armed ==> d.target == Some(d.armed[d.gen]))
  }

  lemma SetOk(d: Deadline, t: Option<int>, now: int)
    requires Ok(d, now)
    ensures Ok(Set(d, t, now), now)
  {
  }

  lemma NextOk(x: Clocked, e: Event)
    requires Ok(x.d, x.now)
    ensures Ok(Next(x, e).d, Next(x, e).now) && x.d.closed <= Next(x, e).d.closed
    ensures x.d.captured <= Next(x, e).d.captured
  {
    if e.SetTo? {
      SetOk(x.d, e.t, x.now);
    }
  }

  lemma {:induction false} AfterOk(x: Clocked, events: seq<Event>)
    requires Ok(x.d, x.now)
    ensures Ok(After(x, events).d, After(x, events).now) && x.d.closed <= After(x, events).d.closed
    ensures x.d.captured <= After(x, events).d.captured
  {
    if events != [] {
      AfterOk(x, events[..|events| - 1]);
      NextOk(After(x, events[..|events| - 1]), events[|events| - 1]);
    }
  }

  function Start(now: int): Clocked {
    Clocked(NEW, now)
  }

  // ---------------------------------------------------------------- main results

  /** Under every interleaving: no channel is closed twice, fired says exactly whether the
      current channel is closed, and every channel anyone ever looked at is the current one
      or closed. */
  lemma ChannelsAgree(now: int, events: seq<Event>)
    ensures var d := After(Start(now), events).d;
      && !d.panicked && (d.fired <==> d.expired in d.closed)
      && forall c | c in d.captured :: c == d.expired || c in d.closed
  {
    AfterOk(Start(now), events);
  }

  /** No callback, however stale, expires a deadline that is cleared or not yet due. */
  lemma NeverEarly(now: int, events: seq<Event>)
    ensures var x := After(Start(now), events);
      x.d.fired ==> x.d.target.Some? && x.d.target.value <= x.now
  {
    AfterOk(Start(now), events);
  }

  /** A deadline that is due has fired, or its own callback is still to run and fires it:
      either way nobody is left waiting on a channel that will not close. */
  lemma NeverLost(now: int, events: seq<Event>)
    ensures var x := After(Start(now), events);
      x.d.target.Some? && x.d.target.value <= x.now && !x.d.fired ==>
        CanCall(x, x.d.gen) && forall c | c in x.d.captured :: c in Next(x, Callback(x.d.gen)).d.closed
  {
    AfterOk(Start(now), events);
  }

  /** Setting a deadline in the past releases every read parked so far, for good: whatever
      happens later, the channel it looked at stays closed. */
  lemma PastReleasesEveryone(now: int, before: seq<Event>, at: int, later: seq<Event>, c: nat)
    requires c in After(Start(now), before).d.captured && at <= After(Start(now), before).now
    ensures c in After(Next(After(Start(now), before), SetTo(Some(at))), later).d.closed
  {
    var x := After(Start(now), before);
    AfterOk(Start(now), before);
    NextOk(x, SetTo(Some(at)));
    AfterOk(Next(x, SetTo(Some(at))), later);
    assert c in Next(x, SetTo(Some(at))).d.closed;
  }
}
