/**
 The class of gate.go. Every method is one section that runs under the mutex;
 its postcondition equates the new state with the function of GateSpec that the
 step machine of GateProtocol uses for the same section.
 */
module Gates {
  import opened Options
  import opened GateSpec

  /** A channel that is only ever closed. Closing it twice panics, hence the precondition. */
  class Channel {
    var closed: bool

    constructor ()
      ensures !closed
    {
      closed := false;
    }

    method Close()
      requires !closed
      modifies this
      ensures closed
    {
      closed := true;
    }
  }

  class Gate {
    var config: Config
    var inflight: int
    const queues: array<seq<Channel>>

    ghost function State(): GateState<Channel>
      reads this, queues
      requires queues.Length == NUM_PRIORITIES
    {
      GateState(inflight, queues[..])
    }

    ghost function Waiters(): set<Channel>
      reads queues
    {
      Members(queues[..])
    }

    /** Every queued channel is open and stands in exactly one place. */
    ghost predicate Valid()
      reads this, queues, Waiters()
    {
      && queues.Length == NUM_PRIORITIES
      && (forall ch | ch in Waiters() :: !ch.closed)
      && Distinct(queues[..])
    }

    constructor (maxInflight: int, limits: Limits)
      ensures Valid() && fresh(queues)
      ensures config == Config(maxInflight, false, limits)
      ensures State() == GateState(0, [[], [], []])
    {
      config := Config(maxInflight, false, limits);
      inflight := 0;
      queues := new seq<Channel>[NUM_PRIORITIES](_ => []);
    }

    method SetLimitFunc()
      requires Valid()
      modifies this`config
      ensures Valid()
      ensures config == old(config).(dynamic := true)
    {
      config := config.(dynamic := true);
    }

    method TotalQueued() returns (n: nat)
      requires Valid()
      ensures n == GateSpec.TotalQueued(queues[..])
    {
      n := 0;
      for p := 0 to queues.Length
        invariant n == GateSpec.TotalQueued(queues[..p])
      {
        n := n + |queues[p]|;
        assert queues[..p + 1][..p] == queues[..p];
      }
      assert queues[..queues.Length] == queues[..];
    }

    /** The locked section of Acquire. A queued caller goes on to wait on the fresh channel. */
    method TryEnter(limit: int, p: Priority) returns (verdict: Verdict, ready: Channel)
      requires Valid()
      modifies this`inflight, queues
      ensures Valid() && fresh(ready) && !ready.closed
      ensures (State(), verdict) == Enter(old(State()), config, limit, p, ready)
      ensures Waiters() == if verdict == Queued then old(Waiters()) + {ready} else old(Waiters())
    {
      ready := new Channel();
      var queued := TotalQueued();
      if inflight < limit && queued == 0 {
        inflight := inflight + 1;
        verdict := Admitted;
      } else if config.limits[p] > 0 && |queues[p]| >= config.limits[p] {
        verdict := Rejected;
      } else {
        Join(p, ready);
        verdict := Queued;
      }
    }

    /** Acquire up to the point where it returns or starts to wait; live is what the limit function returned. */
    method StartAcquire(p: Priority, live: int) returns (verdict: Verdict, ready: Channel?)
      requires Valid()
      modifies this`inflight, queues
      ensures Valid()
      ensures Limit(config, live) <= 0 ==> verdict == Admitted && ready == null && State() == old(State())
      ensures Limit(config, live) > 0 ==>
                && ready != null && fresh(ready) && !ready.closed
                && (State(), verdict) == Enter(old(State()), config, Limit(config, live), p, ready)
    {
      var limit := Limit(config, live);
      if limit <= 0 { return Admitted, null; }
      verdict, ready := TryEnter(limit, p);
    }

    /** Appends a channel that nobody waits on yet to the queue of its tier. */
    method Join(p: Priority, ready: Channel)
      requires Valid() && !ready.closed && ready !in Waiters()
      modifies queues
      ensures Valid()
      ensures queues[..] == old(queues[..])[p := old(queues[..])[p] + [ready]]
      ensures Waiters() == old(Waiters()) + {ready}
    {
      JoinMembers(queues[..], p, ready);
      ghost var before := queues[..];
      queues[p] := queues[p] + [ready];
      assert queues[..] == before[p := before[p] + [ready]];
    }

    /** The locked section of the cancel path: owned tells that the slot was handed over already. */
    method Withdraw(p: Priority, ready: Channel) returns (owned: bool)
      requires Valid()
      modifies queues
      ensures Valid()
      ensures owned == ready.closed
      ensures State() == if owned then old(State()) else GateSpec.Withdraw(old(State()), p, ready)
      ensures Waiters() <= old(Waiters())
    {
      owned := ready.closed;
      if owned { return; }
      ghost var q := queues[p];
      var i := 0;
      while i < |queues[p]| && queues[p][i] != ready
        invariant 0 <= i <= |q|
        invariant ready !in q[..i]
        invariant queues[..] == old(queues[..]) && queues[p] == q
      {
        i := i + 1;
      }
      if i < |queues[p]| {
        RemoveAt(q, i);
        CutMembers(queues[..], p, i);
        queues[p] := queues[p][..i] + queues[p][i + 1..];
      } else {
        RemoveAbsent(q, ready);
      }
      assert queues[..] == old(queues[..])[p := Remove(q, ready)];
    }

    /** Release, with the limit the call read and the channel it closes. */
    method Release(live: int) returns (woken: Option<Channel>)
      requires Valid()
      modifies this`inflight, queues, Waiters()
      ensures Valid()
      ensures (State(), woken) ==
              if Limit(config, live) <= 0 then (old(State()), None) else HandOff(old(State()))
      ensures woken.Some? ==> woken.value in old(Waiters()) && woken.value.closed
      ensures Waiters() == if woken.Some? then old(Waiters()) - {woken.value} else old(Waiters())
    {
      if Limit(config, live) <= 0 { return None; }
      ghost var before := queues[..];
      inflight := inflight - 1;
      for p := 0 to queues.Length
        invariant forall k | 0 <= k < p :: before[k] == []
        invariant queues[..] == before && inflight == old(inflight) - 1
        invariant forall ch | ch in Waiters() :: !ch.closed
      {
        if |queues[p]| > 0 {
          assert FirstTier(before) == p;
          var ready := PopAndClose(p);
          inflight := inflight + 1;
          return Some(ready);
        }
      }
      assert FirstTier(before) == queues.Length;
      woken := None;
    }

    /** Takes the oldest channel out of one queue and closes it. */
    method PopAndClose(p: Priority) returns (ready: Channel)
      requires Valid() && queues[p] != []
      modifies queues, Waiters()
      ensures Valid()
      ensures ready == old(queues[p][0]) && ready.closed
      ensures queues[..] == old(queues[..])[p := old(queues[p])[1..]]
      ensures Waiters() == old(Waiters()) - {ready}
    {
      ready := queues[p][0];
      CutMembers(queues[..], p, 0);
      ghost var before := queues[..];
      assert before[p][..0] + before[p][1..] == before[p][1..];
      queues[p] := queues[p][1..];
      assert queues[..] == before[p := before[p][1..]];
      assert before[p][0] in Members(before);
      ready.Close();
    }

    /** The whole cancel path: leave the queue, or pass on the slot that arrived too late. */
    method AbandonWait(p: Priority, ready: Channel, live: int)
      requires Valid()
      modifies this`inflight, queues, Waiters()
      ensures Valid()
      ensures State() ==
              if !old(ready.closed) then GateSpec.Withdraw(old(State()), p, ready)
              else if Limit(config, live) <= 0 then old(State())
              else HandOff(old(State())).0
    {
      var owned := Withdraw(p, ready);
      if owned {
        var _ := Release(live);
      }
    }
  }
}
