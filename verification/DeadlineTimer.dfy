/** The deadline as it runs: fields updated in place under the conn's mutex, and real
    channels, none of which is ever closed twice. Proved against Deadlines. */
module DeadlineTimer {
  import opened Bytes
  import opened Deadlines

  /** A Go channel that is only ever closed. Closing it twice would panic. */
  class Channel {
    ghost const id: nat
    var closed: bool

    constructor (ghost id: nat)
      ensures this.id == id && !closed
    {
      this.id := id;
      closed := false;
    }

    method Close()
      requires !closed
      modifies this
      ensures closed
    {
      closed := true;
    }
  }

  class Timed {
    var expired: Channel
    var timer: bool
    var fired: bool
    var gen: nat
    ghost var made: seq<Channel>
    ghost var armed: map<nat, int>
    ghost var captured: set<nat>
    ghost var target: Option<int>

    ghost predicate Valid(now: int)
      reads this, made
    {
      && (forall i | 0 <= i < |made| :: made[i].id == i)
      && expired in made
      && Ok(View(), now)
    }

    ghost function Closed(): set<nat>
      reads this, made
    {
      set i | 0 <= i < |made| && made[i].closed
    }

    ghost function View(): Deadline
      reads this, made
    {
      Deadline(expired.id, |made|, Closed(), false, fired, gen, timer, armed, captured, target)
    }

    constructor (now: int)
      ensures View() == NEW && Valid(now) && fresh(expired)
    {
      var c := new Channel(0);
      expired, timer, fired, gen := c, false, false, 0;
      made, armed, captured, target := [c], map[], {}, None;
      new;
      assert Closed() == {};
    }

    /** A channel that has fired cannot be reopened, so only then is a new one made. */
    method Renew(now: int)
      requires (forall i | 0 <= i < |made| :: made[i].id == i) && expired in made
      modifies this`expired, this`fired, this`made
      ensures (forall i | 0 <= i < |made| :: made[i].id == i) && expired in made
      ensures var d := old(View());
        View() == if d.fired then d.(expired := d.made, made := d.made + 1, fired := false) else d
      ensures forall c | c in made :: c in old(made) || fresh(c)
    {
      if fired {
        ghost var was := Closed();
        expired := new Channel(|made|);
        made := made + [expired];
        fired := false;
        assert Closed() == was;
      }
    }

    /** Closes the current channel, which is open: this is where a double close would be. */
    method Fire()
      requires (forall i | 0 <= i < |made| :: made[i].id == i) && expired in made && !expired.closed
      modifies this`fired, expired
      ensures made == old(made) && expired == old(expired)
      ensures View() == CloseChannel(old(View()).(fired := true))
    {
      ghost var was := Closed();
      fired := true;
      expired.Close();
      assert Closed() == was + {expired.id};
    }

    /** Stops the timer and makes every callback still to come stale. */
    method Supersede(t: Option<int>)
      modifies this`timer, this`gen, this`target
      ensures View() == old(View()).(timer := false, gen := old(gen) + 1, target := t)
    {
      timer := false;
      gen := gen + 1;
      target := t;
      assert Closed() == old(Closed());
    }

    method Arm(at: int)
      modifies this`timer, this`armed
      ensures View() == old(View()).(timer := true, armed := old(armed)[gen := at])
    {
      timer := true;
      armed := armed[gen := at];
      assert Closed() == old(Closed());
    }

    method Set(t: Option<int>, now: int)
      requires Valid(now)
      modifies this, expired
      ensures Valid(now) && View() == Deadlines.Set(old(View()), t, now)
      ensures forall c | c in made :: c in old(made) || fresh(c)
    {
      ghost var d := View();
      SetOk(d, t, now);
      Supersede(t);
      Renew(now);
      if t == None {
        return;
      }
      if t.value > now {
        Arm(t.value);
        return;
      }
      assert expired.id !in View().closed;
      Fire();
    }

    method Expire(generation: nat, now: int)
      requires Valid(now) && generation in armed && armed[generation] <= now
      modifies this, expired
      ensures Valid(now) && View() == Deadlines.Expire(old(View()), generation) && made == old(made)
    {
      if gen != generation || fired {
        return;
      }
      NextOk(Clocked(View(), now), Callback(generation));
      assert expired.id !in View().closed;
      Fire();
    }

    /** What Read and Write do under the mutex. */
    method Current(now: int) returns (c: Channel)
      requires Valid(now)
      modifies this`captured
      ensures Valid(now) && c == expired && View() == Capture(old(View()))
    {
      c := expired;
      captured := captured + {c.id};
      assert View() == Capture(old(View()));
    }
  }
}
