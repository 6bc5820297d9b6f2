/**
 The class of scheduler.go. Its methods read the backends in place; each loop is proved against
 the function of Scheduling for the same stage.
 */
module Schedulers {
  import opened Options
  import opened Backends
  import opened States
  import opened ModelNames
  import opened Conversations
  import opened Scheduling

  class Scheduler {
    const pool: BackendPool
    const conv: ConversationStore?
    var store: Store

    constructor (pool: BackendPool, conv: ConversationStore?)
      ensures this.pool == pool && this.conv == conv && store == map[]
    {
      this.pool, this.conv, store := pool, conv, map[];
    }

    /** What the conversation store remembers; nothing if affinity is not used. */
    function Memory(): Entries
      reads conv
    {
      if conv == null then map[] else conv.entries
    }

    /** What the conversation store answers for this request. */
    function Sticky(id: string, now: int): Option<string>
      reads this, conv
    {
      if conv == null || id == "" then None else Lookup(conv.entries, conv.ttl, id, now)
    }

    /** With a conversation store, what it remembers and answers; without one, nothing. */
    lemma AffinityReads(id: string, now: int)
      ensures conv != null ==> Memory() == conv.entries && Sticky(id, now) == Lookup(conv.entries, conv.ttl, id, now)
      ensures conv == null ==> Memory() == map[] && Sticky(id, now) == None
    {
    }

    /** The state that a request sees if nothing else is going on. */
    function View(id: string, plugin: PluginAnswer, now: int): Observation
      reads this, conv, pool, pool.backends
    {
      Frozen(pool.Read(), store, Sticky(id, now), plugin)
    }

    ghost predicate Valid()
      reads this, pool, pool.backends
    {
      SanePool(pool.Read(), store)
    }

    /** o is what a request sees if nothing else is going on while it is placed. */
    ghost predicate Sees(o: Observation, id: string, now: int)
      reads this, conv, pool, pool.backends
    {
      && ValidObservation(o)
      && o == View(id, o.plugin, now)
    }

    lemma ViewIsSeen(id: string, plugin: PluginAnswer, now: int)
      requires Valid()
      ensures Sees(View(id, plugin, now), id, now)
    {
    }

    method ApplyVRAMGuard(cands: seq<nat>, ghost o: Observation, ghost id: string, ghost now: int)
      returns (out: seq<nat>)
      requires Sees(o, id, now) && InPool(cands, |o.pool|)
      ensures out == Guarded(o.pool, o.guard, cands)
    {
      out := [];
      for k := 0 to |cands|
        invariant out == Guarded(o.pool, o.guard, cands[..k])
      {
        assert cands[..k + 1][..k] == cands[..k];
        if IsSafe(pool.backends[cands[k]].Read(), store) {
          out := out + [cands[k]];
        }
      }
      assert cands[..|cands|] == cands;
    }

    method Exclude(all: seq<nat>, tried: set<string>, ghost o: Observation, ghost id: string, ghost now: int)
      returns (cands: seq<nat>)
      requires Sees(o, id, now) && InPool(all, |o.pool|)
      ensures cands == Without(o.pool, all, tried)
    {
      cands := [];
      for k := 0 to |all|
        invariant cands == Without(o.pool, all[..k], tried)
      {
        assert all[..k + 1][..k] == all[..k];
        assert o.pool[all[k]].name == pool.backends[all[k]].name;
        if pool.backends[all[k]].name !in tried {
          cands := cands + [all[k]];
        }
      }
      assert all[..|all|] == all;
    }

    /** The backends that are available and not excluded. */
    method FindCandidates(model: string, tried: set<string>, ghost o: Observation, ghost id: string, ghost now: int)
      returns (cands: seq<nat>)
      requires Sees(o, id, now)
      ensures cands == Candidates(o, model, tried)
    {
      var all := pool.Available(model);
      assert all == AvailableIn(o.pool, model);
      assert InPool(all, |o.pool|) by {
        AvailableExact(o.pool, model, |o.pool|);
        assert forall k | 0 <= k < |all| :: all[k] in all;
      }
      cands := Exclude(all, tried, o, id, now);
    }

    method AffinityPick(id: string, model: string, cands: seq<nat>, now: int, ghost o: Observation)
      returns (b: Option<nat>)
      requires Sees(o, id, now) && InPool(cands, |o.pool|)
      ensures b == Affinity(o, model, cands)
    {
      if conv == null || id == "" {
        NotSticky(o, model, cands);
        return None;
      }
      var name := conv.Get(id, now);
      assert o.sticky == name;
      if name.None? {
        NotSticky(o, model, cands);
        return None;
      }
      for k := 0 to |cands|
        invariant Affinity(o, model, cands) == Affinity(o, model, cands[k..])
      {
        var backend := pool.backends[cands[k]].Read();
        assert cands[k..][1..] == cands[k + 1..];
        if backend.name == name.value && IsWarm(backend, store, model) && IsSafe(backend, store) {
          return Some(cands[k]);
        }
      }
      return None;
    }

    lemma {:induction false} NotSticky(o: Observation, model: string, cands: seq<nat>)
      requires o.sticky == None && InPool(cands, |o.pool|)
      ensures Affinity(o, model, cands) == None
    {
      if cands != [] { NotSticky(o, model, cands[1..]); }
    }

    method BestScore(model: string, cands: seq<nat>, ghost o: Observation, ghost id: string, ghost now: int)
      returns (best: nat)
      requires Sees(o, id, now) && InPool(cands, |o.pool|) && cands != []
      ensures best == Best(o, model, cands)
    {
      best := cands[0];
      var bestScore := 0.0;
      for k := 0 to |cands|
        invariant k > 0 ==> best == Best(o, model, cands[..k]) && bestScore == ScoreAt(o, model, best)
      {
        assert cands[..k + 1][..k] == cands[..k];
        var b := pool.backends[cands[k]].Read();
        assert b == o.scored[cands[k]];
        var sc := Score(b, store, IsWarm(b, store, model));
        if k == 0 || sc > bestScore {
          best := cands[k];
          bestScore := sc;
        }
      }
      assert cands[..|cands|] == cands;
    }

    method FindNamed(cands: seq<nat>, name: string, ghost o: Observation, ghost id: string, ghost now: int)
      returns (b: Option<nat>)
      requires Sees(o, id, now) && InPool(cands, |o.pool|)
      ensures b == Named(o.pool, cands, name)
    {
      for k := 0 to |cands|
        invariant Named(o.pool, cands, name) == Named(o.pool, cands[k..], name)
      {
        assert cands[k..][1..] == cands[k + 1..];
        assert o.pool[cands[k]].name == pool.backends[cands[k]].name;
        if pool.backends[cands[k]].name == name {
          return Some(cands[k]);
        }
      }
      return None;
    }

    /** Affinity first, then the best score among the safe candidates. */
    method PickBuiltIn(id: string, model: string, cands: seq<nat>, now: int, ghost o: Observation)
      returns (picked: Picked)
      requires Sees(o, id, now) && InPool(cands, |o.pool|)
      ensures picked == BuiltIn(o, model, cands)
    {
      var sticky := AffinityPick(id, model, cands, now, o);
      if sticky.Some? { return Chosen(sticky.value); }
      var safe := ApplyVRAMGuard(cands, o, id, now);
      if |safe| == 0 { return NearVRAMLimit; }
      var best := BestScore(model, safe, o, id, now);
      return Chosen(best);
    }

    lemma ChosenFits(o: Observation, model: string, tried: set<string>) returns (picked: Picked)
      requires ValidObservation(o)
      ensures picked == Pick(o, model, tried)
      ensures picked.Chosen? ==>
                && SeenFit(o, model, picked.b) && o.pool[picked.b].name !in tried
    {
      picked := Pick(o, model, tried);
      if picked.Chosen? { PickSound(o, model, tried); }
    }

    method PickExcluding(
      model: string, id: string, tried: set<string>, plugin: PluginAnswer, now: int, ghost o: Observation)
      returns (picked: Picked)
      requires Sees(o, id, now) && o.plugin == plugin
      ensures picked == Pick(o, Normalize(model), tried)
      ensures picked.Chosen? ==>
                && picked.b < |pool.backends|
                && CanTake(pool.backends[picked.b].Read(), Normalize(model))
                && pool.backends[picked.b].name !in tried
                && (plugin == NoPlugin ==> Below90(store, pool.backends[picked.b].name))
    {
      ghost var _ := ChosenFits(o, Normalize(model), tried);
      var cands := FindCandidates(Normalize(model), tried, o, id, now);
      if |cands| == 0 { return NoBackend; }
      match plugin {
        case NoPlugin =>
        case Refuse => return PluginRefused;
        case Name(name) =>
          if name != "" {
            var named := FindNamed(cands, name, o, id, now);
            if named.Some? { return Chosen(named.value); }
          }
      }
      picked := PickBuiltIn(id, Normalize(model), cands, now, o);
    }

    /** Remembers which backend served the conversation; a no-op when affinity is not used. */
    method RecordConversation(id: string, backend: string, now: int)
      modifies conv
      ensures conv != null && id != "" ==> conv.entries == old(conv.entries)[id := Entry(backend, now)]
      ensures conv != null && id == "" ==> conv.entries == old(conv.entries)
      ensures Memory() == if conv == null then map[] else Put(old(Memory()), id, backend, now)
    {
      if conv != null {
        conv.Set(id, backend, now);
      }
    }
  }
}
