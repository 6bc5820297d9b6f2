/**
 The request handler of proxy.go from admission to the return of the gate slot, run by one
 request while nothing else changes the backends. Forwarding is a function of the backend: it
 fails, finds the client gone, or returns an answer.
 */
module Proxies {
  import opened Options
  import opened Backends
  import opened States
  import opened ModelNames
  import opened Conversations
  import opened Scheduling
  import opened Schedulers
  import opened Retrying
  import GateSpec
  import Gates
  import MovingAverage

  /** A successful answer to a client that is still there; only those are learned from. */
  predicate Teaches(exit: Exit) {
    exit.Served? && exit.answer.Answered? && 200 <= exit.answer.status < 300 && exit.answer.connected
  }

  /** What the handler leaves behind in the pool: at most one new latency sample. */
  function Learned(pool: seq<Snapshot>, exit: Exit): seq<Snapshot> {
    if Teaches(exit) && exit.answer.perTokenMs > 0 && exit.b < |pool| then
      pool[exit.b := pool[exit.b].(
        perTokenMs := MovingAverage.Next(pool[exit.b].perTokenMs, exit.answer.perTokenMs))]
    else pool
  }

  function Remembered(
    affinity: bool, entries: Entries, pool: seq<Snapshot>, exit: Exit, id: string, now: int): Entries
  {
    if affinity && Teaches(exit) && exit.b < |pool| then Put(entries, id, pool[exit.b].name, now) else entries
  }

  /** Field by field: a status from 200 to 299, and the client still there at the end. */
  ghost predicate GoodAnswer(exit: Exit) {
    exit.Served? && exit.answer.Answered? && exit.answer.connected && 200 <= exit.answer.status <= 299
  }

  /** An error, a client that left or a refusal changes neither the latencies nor the conversations. */
  lemma OnlyGoodAnswersTeach(
    pool: seq<Snapshot>, affinity: bool, entries: Entries, exit: Exit, id: string, now: int)
    requires !GoodAnswer(exit)
    ensures Learned(pool, exit) == pool && Remembered(affinity, entries, pool, exit, id, now) == entries
  {
  }

  /**
   A good answer moves the average of the backend that gave it by one sample, if there is one, and
   pins the conversation, if there is one, to that backend; nothing else changes.
   */
  lemma GoodAnswerTeaches(
    pool: seq<Snapshot>, affinity: bool, entries: Entries, exit: Exit, id: string, now: int)
    requires GoodAnswer(exit) && exit.b < |pool|
    ensures var ms, b, after := exit.answer.perTokenMs, exit.b, Learned(pool, exit);
      && |after| == |pool| && (forall i | 0 <= i < |pool| && i != b :: after[i] == pool[i])
      && after[b] == pool[b].(perTokenMs := after[b].perTokenMs)
      && (ms <= 0 ==> after == pool)
      && (ms >= 1 && pool[b].perTokenMs == 0 ==> after[b].perTokenMs == ms)
      && (ms >= 1 && pool[b].perTokenMs >= 1 ==>
            4 * pool[b].perTokenMs + ms - 4 <= 5 * after[b].perTokenMs <= 4 * pool[b].perTokenMs + ms)
    ensures var after := Remembered(affinity, entries, pool, exit, id, now);
      after == if affinity && id != "" then entries[id := Entry(pool[exit.b].name, now)] else entries
  {
    if exit.answer.perTokenMs >= 1 && pool[exit.b].perTokenMs >= 1 {
      MovingAverage.NextBounds(pool[exit.b].perTokenMs, exit.answer.perTokenMs);
    }
  }

  /**
   The next request of a conversation goes back to the backend that gave the last good answer, if
   that was no longer ago than the TTL and the backend can take the request, still has the model
   loaded and has VRAM to spare, whatever the scores are.
   */
  lemma FollowUpGoesBack(
    pool: seq<Snapshot>, entries: Entries, exit: Exit, id: string, at: int, ttl: int,
    later: seq<Snapshot>, store: Store, model: string, tried: set<string>, now: int, i: nat)
    requires GoodAnswer(exit) && exit.b < |pool| && id != "" && now - at <= ttl
    requires i < |later| && later[i].name == pool[exit.b].name && later[i].name !in tried
    requires CanTake(later[i], model) && HasLoaded(later[i], store, model) && Below90(store, later[i].name)
    requires SanePool(later, store)
    ensures var sticky := Lookup(Remembered(true, entries, pool, exit, id, at), ttl, id, now);
      var picked := Pick(Frozen(later, store, sticky, NoPlugin), model, tried);
      picked.Chosen? && picked.b < |later| && later[picked.b].name == pool[exit.b].name
  {
    GoodAnswerTeaches(pool, true, entries, exit, id, at);
    var sticky := Lookup(Remembered(true, entries, pool, exit, id, at), ttl, id, now);
    assert sticky == Some(later[i].name);
    PickFrozen(later, store, sticky, model, tried);
    var o := Frozen(later, store, sticky, NoPlugin);
    assert Eligible(o, model, tried, i) && Pinned(o, model, i);
    hide Pick, CanTake, HasLoaded, Below90;
  }

  class Proxy {
    const sched: Scheduler
    const gate: Gates.Gate

    constructor (sched: Scheduler, gate: Gates.Gate)
      ensures this.sched == sched && this.gate == gate
    {
      this.sched, this.gate := sched, gate;
    }

    /** No backend is in the pool twice. */
    ghost predicate Separate() {
      forall i, j | 0 <= i < j < |sched.pool.backends| :: sched.pool.backends[i] != sched.pool.backends[j]
    }

    /** Reserves a slot, forwards, and returns the slot; without a slot nothing is forwarded. */
    method Attempt(b: nat, forward: nat -> Forward, ghost o: Observation, ghost id: string, ghost now: int)
      returns (outcome: Option<Forward>)
      requires Separate() && sched.Sees(o, id, now) && b < |o.pool|
      modifies sched.pool.backends
      ensures outcome == if HasCapacity(o.pool[b]) then Some(forward(b)) else None
      ensures sched.pool.Read() == o.pool && sched.Sees(o, id, now)
      ensures sched.Memory() == old(sched.Memory())
    {
      var backend := sched.pool.backends[b];
      var reserved := backend.TryReserve();
      outcome := None;
      if reserved {
        outcome := Some(forward(b));
        backend.DecInflight();
      }
      forall i | 0 <= i < |o.pool| ensures sched.pool.backends[i].Read() == o.pool[i] {
        if i < b {} else if b < i {} else {}
      }
    }

    /** Learns from an answer: the latency sample and the conversation. */
    method Learn(exit: Exit, id: string, now: int)
      requires Separate() && exit.Served? && exit.answer.Answered? && exit.b < |sched.pool.backends|
      modifies sched.pool.backends, sched.conv
      ensures sched.pool.Read() == Learned(old(sched.pool.Read()), exit)
      ensures sched.Memory() ==
              Remembered(sched.conv != null, old(sched.Memory()), old(sched.pool.Read()), exit, id, now)
    {
      var backend := sched.pool.backends[exit.b];
      ghost var before := sched.pool.Read();
      var answer := exit.answer;
      if 200 <= answer.status < 300 && answer.connected {
        if answer.perTokenMs > 0 {
          backend.RecordPerTokenMs(answer.perTokenMs);
        }
        sched.RecordConversation(id, backend.name, now);
      }
      forall i | 0 <= i < |before| ensures sched.pool.backends[i].Read() == Learned(before, exit)[i] {
        if i < exit.b {} else if exit.b < i {} else {}
      }
    }

    /** w is a world in which nothing but this request touches the backends. */
    ghost predicate Undisturbed(w: World, o: Observation, forward: nat -> Forward) {
      && ValidWorld(w) && w.names == Names(o.pool)
      && (forall k: nat :: w.observe(k) == o && w.reserve(k))
      && (forall k: nat, b: nat :: w.forward(k, b) == forward(b))
    }

    /** One iteration of the loop: at most one attempt, and how the request ended if it did. */
    method Iterate(
      model: string, id: string, tried: set<string>, plugin: PluginAnswer, forward: nat -> Forward, now: int,
      ghost o: Observation, ghost w: World, ghost k: nat)
      returns (attempts: seq<nat>, exit: Option<Exit>)
      requires Separate() && sched.Sees(o, id, now) && o.plugin == plugin && Undisturbed(w, o, forward)
      modifies sched.pool.backends
      ensures sched.Sees(o, id, now) && sched.Memory() == old(sched.Memory())
      ensures exit.Some? ==> Serve(w, Normalize(model), tried, k) == Trace(attempts, exit.value)
      ensures exit.Some? && exit.value.Served? ==> exit.value.b < |o.pool| && exit.value.answer.Answered?
      ensures exit.None? ==> |attempts| == 1 && attempts[0] < |w.names|
      ensures exit.None? ==>
                var tried' := tried + {w.names[attempts[0]]};
                && Serve(w, Normalize(model), tried, k) == Prepend(attempts, Serve(w, Normalize(model), tried', k + 1))
                && |NameSet(w.names) - tried'| < |NameSet(w.names) - tried|
    {
      hide Usable, CanTake, Below90, SeenFit, Pick, HasCapacity;
      var picked := sched.PickExcluding(model, id, tried, plugin, now, o);
      ghost var _ := ServeStep(w, Normalize(model), tried, k);
      if !picked.Chosen? {
        return [], Some(Refused(picked));
      }
      var b := picked.b;
      FitHasCapacity(o, Normalize(model), b);
      var outcome := Attempt(b, forward, o, id, now);
      assert outcome == Some(forward(b)); // the pick saw capacity and nobody else can have taken it
      if outcome.value == ClientGone {
        return [b], Some(Abandoned);
      }
      if outcome.value != Failed {
        return [b], Some(Served(b, outcome.value));
      }
      return [b], None;
    }

    lemma FitHasCapacity(o: Observation, model: string, b: nat)
      requires SeenFit(o, model, b)
      ensures HasCapacity(o.pool[b])
    {
    }

    /** The loop: attempts until an answer, a client that is gone, or a refusal. */
    method Retry(model: string, id: string, plugin: PluginAnswer, forward: nat -> Forward, now: int,
                 ghost o: Observation, ghost w: World) returns (trace: Trace)
      requires Separate() && sched.Sees(o, id, now) && o.plugin == plugin && Undisturbed(w, o, forward)
      modifies sched.pool.backends
      ensures sched.Sees(o, id, now) && sched.Memory() == old(sched.Memory())
      ensures trace == Serve(w, Normalize(model), {}, 0)
      ensures trace.exit.Served? ==> trace.exit.b < |o.pool| && trace.exit.answer.Answered?
    {
      var tried: set<string> := {};
      var log: seq<nat> := [];
      ghost var k: nat := 0;
      PrependNothing(Serve(w, Normalize(model), {}, 0));
      while true
        invariant sched.Sees(o, id, now) && sched.Memory() == old(sched.Memory())
        invariant Serve(w, Normalize(model), {}, 0) == Prepend(log, Serve(w, Normalize(model), tried, k))
        decreases |NameSet(w.names) - tried|
      {
        var attempts, exit := Iterate(model, id, tried, plugin, forward, now, o, w, k);
        if exit.Some? {
          return Trace(log + attempts, exit.value);
        }
        var b := attempts[0];
        PrependTwice(log, attempts, Serve(w, Normalize(model), tried + {w.names[b]}, k + 1));
        log := log + attempts;
        NameAt(o, id, now, b);
        tried := tried + {sched.pool.backends[b].name};
        k := k + 1;
      }
    }

    /** What the handler does between the two calls to the gate; the answer is complete at time later. */
    method Dispatch(model: string, id: string, plugin: PluginAnswer, forward: nat -> Forward, now: int, later: int)
      returns (trace: Trace)
      requires Separate() && sched.Valid()
      modifies sched.pool.backends, sched.conv
      ensures ValidWorld(old(Alone(id, plugin, forward, now)))
      ensures trace == Serve(old(Alone(id, plugin, forward, now)), Normalize(model), {}, 0)
      ensures sched.pool.Read() == Learned(old(sched.pool.Read()), trace.exit)
      ensures sched.Memory() ==
              Remembered(sched.conv != null, old(sched.Memory()), old(sched.pool.Read()), trace.exit, id, later)
    {
      ghost var o := sched.View(id, plugin, now);
      sched.ViewIsSeen(id, plugin, now);
      ghost var w := Alone(id, plugin, forward, now);
      assert Undisturbed(w, o, forward);
      trace := Retry(model, id, plugin, forward, now, o, w);
      if trace.exit.Served? {
        Learn(trace.exit, id, later);
      }
    }

    /** Whether the gate lets a caller in at once that reads the given limit. */
    ghost predicate LetsIn(live: int)
      reads gate, gate.queues
    {
      var limit := GateSpec.Limit(gate.config, live);
      limit <= 0 || (gate.inflight < limit && GateSpec.TotalQueued(gate.queues[..]) == 0)
    }

    /** Acquire for a request that is alone: if it has to wait, nobody wakes it before its client leaves. */
    method Enter(p: GateSpec.Priority, liveBefore: int, liveAfter: int) returns (admitted: bool)
      requires gate.Valid()
      modifies gate`inflight, gate.queues, gate.Waiters()
      ensures gate.Valid()
      ensures admitted <==> old(LetsIn(liveBefore))
      ensures admitted && GateSpec.Enabled(gate.config) ==>
                && GateSpec.TotalQueued(old(gate.queues[..])) == 0
                && gate.State() == old(gate.State()).(inflight := old(gate.inflight) + 1)
      ensures !admitted || !GateSpec.Enabled(gate.config) ==> gate.State() == old(gate.State())
    {
      ghost var queues := gate.queues[..];
      var verdict, ready := gate.StartAcquire(p, liveBefore);
      if verdict == GateSpec.Queued {
        RejoinNothing(queues, p, ready);
        gate.AbandonWait(p, ready, liveAfter);
      }
      admitted := verdict == GateSpec.Admitted;
    }

    /** The deferred Release of a request that is alone. */
    method Leave(live: int)
      requires gate.Valid() && (GateSpec.Enabled(gate.config) ==> GateSpec.TotalQueued(gate.queues[..]) == 0)
      modifies gate`inflight, gate.queues, gate.Waiters()
      ensures gate.Valid()
      ensures gate.State() ==
              if GateSpec.Enabled(gate.config) then old(gate.State()).(inflight := old(gate.inflight) - 1)
              else old(gate.State())
    {
      GateSpec.NothingQueued(gate.queues[..]);
      var _ := gate.Release(live);
    }

    lemma AloneIsValid(id: string, plugin: PluginAnswer, forward: nat -> Forward, now: int)
      requires sched.Valid()
      ensures ValidWorld(Alone(id, plugin, forward, now))
    {
      sched.ViewIsSeen(id, plugin, now);
    }

    /** Leaving the end of a queue that one has just joined. */
    lemma RejoinNothing(queues: GateSpec.Queues<Gates.Channel>, p: GateSpec.Priority, x: Gates.Channel)
      ensures x !in queues[p] ==>
                var joined := queues[p := queues[p] + [x]];
                joined[p := GateSpec.Remove(joined[p], x)] == queues
    {
      if x !in queues[p] {
        var q := queues[p] + [x];
        GateSpec.RemoveAt(q, |queues[p]|);
        assert q[..|queues[p]|] + q[|queues[p]| + 1..] == queues[p];
      }
    }

    /**
     The handler, for a request that is alone. It is let in exactly when the gate has a free slot and
     nobody waits; then its attempts and its ending are those of the retry function. On every way out
     the gate and all counters of the backends are as they were, and nothing else is changed but
     what a good answer teaches.
     */
    method ServeHTTP(
      p: GateSpec.Priority, liveBefore: int, liveAfter: int,
      model: string, id: string, plugin: PluginAnswer, forward: nat -> Forward, now: int, later: int)
      returns (trace: Option<Trace>)
      requires Separate() && sched.Valid() && gate.Valid()
      modifies gate`inflight, gate.queues, gate.Waiters(), sched.pool.backends, sched.conv
      ensures gate.Valid() && gate.State() == old(gate.State())
      ensures trace.Some? <==> old(LetsIn(liveBefore))
      ensures ValidWorld(old(Alone(id, plugin, forward, now)))
      ensures trace.Some? ==> trace.value == Serve(old(Alone(id, plugin, forward, now)), Normalize(model), {}, 0)
      ensures sched.pool.Read() ==
              if trace.Some? then Learned(old(sched.pool.Read()), trace.value.exit) else old(sched.pool.Read())
      ensures sched.Memory() ==
              if trace.Some?
              then Remembered(
                     sched.conv != null, old(sched.Memory()), old(sched.pool.Read()), trace.value.exit, id, later)
              else old(sched.Memory())
      ensures trace.None? || !GoodAnswer(trace.value.exit) ==>
                sched.pool.Read() == old(sched.pool.Read()) && sched.Memory() == old(sched.Memory())
    {
      hide Serve, ValidWorld, Learned, Remembered, Alone, Separate, SanePool, Normalize, LetsIn;
      hide GoodAnswer, Scheduler.Memory, BackendPool.Read, GateSpec.TotalQueued, GateSpec.Distinct;
      AloneIsValid(id, plugin, forward, now);
      var admitted := Enter(p, liveBefore, liveAfter);
      if !admitted { return None; }
      var answer := Dispatch(model, id, plugin, forward, now, later);
      Leave(liveAfter);
      if !GoodAnswer(answer.exit) {
        OnlyGoodAnswersTeach(
          old(sched.pool.Read()), sched.conv != null, old(sched.Memory()), answer.exit, id, later);
      }
      return Some(answer);
    }

    lemma NameAt(o: Observation, id: string, now: int, b: nat)
      requires sched.Sees(o, id, now) && b < |o.pool|
      ensures b < |sched.pool.backends| && Names(o.pool)[b] == sched.pool.backends[b].name
    {
    }

    lemma PrependNothing(t: Trace)
      ensures Prepend([], t) == t
    {
      assert [] + t.tried == t.tried;
    }

    lemma PrependTwice(log: seq<nat>, attempts: seq<nat>, t: Trace)
      ensures Prepend(log, Prepend(attempts, t)) == Prepend(log + attempts, t)
    {
      assert log + (attempts + t.tried) == log + attempts + t.tried;
    }

    /** The world of a request that has the backends to itself. */
    function Alone(id: string, plugin: PluginAnswer, forward: nat -> Forward, now: int): World
      reads sched, sched.conv, sched.pool, sched.pool.backends
    {
      Still(sched.pool.Read(), sched.store, sched.Sticky(id, now), plugin, forward)
    }
  }
}
