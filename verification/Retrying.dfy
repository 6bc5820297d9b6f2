/**
 The retry loop of proxy.go as a function of everything it observes, and what its order of
 attempts is when nothing changes in between.
 */
module Retrying {
  import opened Options
  import opened Backends
  import opened States
  import opened Scheduling

  /** The outcome of forwarding the request to one backend. */
  datatype Forward = Failed | ClientGone | Answered(status: int, perTokenMs: int, connected: bool)

  /** What iteration k of the loop meets; the names of the pool never change. */
  datatype World = World(
    names: seq<string>,
    observe: nat -> Observation,
    reserve: nat -> bool,          // whether the slot of the chosen backend was still free
    forward: (nat, nat) -> Forward)

  ghost predicate ValidWorld(w: World) {
    forall k: nat ::
      && ValidObservation(w.observe(k)) && |w.observe(k).pool| == |w.names|
      && forall i | 0 <= i < |w.names| :: w.observe(k).pool[i].name == w.names[i]
  }

  datatype Exit = Refused(reason: Picked) | Abandoned | Served(b: nat, answer: Forward)

  /** The backends in the order in which they were picked, and how the request ended. */
  datatype Trace = Trace(tried: seq<nat>, exit: Exit)

  ghost function NameSet(names: seq<string>): set<string> {
    set i | 0 <= i < |names| :: names[i]
  }

  function Prepend(log: seq<nat>, t: Trace): Trace {
    Trace(log + t.tried, t.exit)
  }

  /** From iteration k on, with the given names excluded. */
  function Serve(w: World, model: string, tried: set<string>, k: nat): Trace
    requires ValidWorld(w)
    decreases |NameSet(w.names) - tried|
  {
    match Pick(w.observe(k), model, tried)
    case Chosen(b) =>
      ExclusionGrows(w, model, tried, k);
      var tried' := tried + {w.names[b]};
      if !w.reserve(k) then Prepend([b], Serve(w, model, tried', k + 1))
      else (
        match w.forward(k, b)
        case Failed => Prepend([b], Serve(w, model, tried', k + 1))
        case ClientGone => Trace([b], Abandoned)
        case Answered(_, _, _) => Trace([b], Served(b, w.forward(k, b)))
      )
    case refusal => Trace([], Refused(refusal))
  }

  lemma ExclusionGrows(w: World, model: string, tried: set<string>, k: nat)
    requires ValidWorld(w) && Pick(w.observe(k), model, tried).Chosen?
    ensures var b := Pick(w.observe(k), model, tried).b;
      && b < |w.names| && w.names[b] !in tried
      && |NameSet(w.names) - (tried + {w.names[b]})| < |NameSet(w.names) - tried|
  {
    PickSound(w.observe(k), model, tried);
    var name := w.names[Pick(w.observe(k), model, tried).b];
    assert name in NameSet(w.names) - tried;
    assert NameSet(w.names) - (tried + {name}) == (NameSet(w.names) - tried) - {name};
  }

  /** One iteration of the loop. */
  lemma ServeStep(w: World, model: string, tried: set<string>, k: nat) returns (picked: Picked)
    requires ValidWorld(w)
    ensures picked == Pick(w.observe(k), model, tried)
    ensures !picked.Chosen? ==> Serve(w, model, tried, k) == Trace([], Refused(picked))
    ensures picked.Chosen? ==>
      var b := picked.b;
      && b < |w.names| && w.names[b] !in tried && SeenFit(w.observe(k), model, b)
      && |NameSet(w.names) - (tried + {w.names[b]})| < |NameSet(w.names) - tried|
      && Serve(w, model, tried, k) ==
           if !w.reserve(k) || w.forward(k, b) == Failed
           then Prepend([b], Serve(w, model, tried + {w.names[b]}, k + 1))
           else Trace([b], if w.forward(k, b) == ClientGone then Abandoned else Served(b, w.forward(k, b)))
  {
    picked := Pick(w.observe(k), model, tried);
    if picked.Chosen? {
      PickSound(w.observe(k), model, tried);
      ExclusionGrows(w, model, tried, k);
    }
  }

  /** Every attempt was sound when it was made, and no name was tried before or twice. */
  ghost predicate SoundAttempts(w: World, model: string, tried: set<string>, k: nat, attempts: seq<nat>)
    requires ValidWorld(w)
  {
    && (forall j | 0 <= j < |attempts| :: attempts[j] < |w.names| && w.names[attempts[j]] !in tried)
    && (forall j | 0 <= j < |attempts| :: SeenFit(w.observe(k + j), model, attempts[j]))
    && (forall i, j | 0 <= i < j < |attempts| :: w.names[attempts[i]] != w.names[attempts[j]])
  }

  lemma SoundCons(w: World, model: string, tried: set<string>, k: nat, b: nat, rest: seq<nat>)
    requires ValidWorld(w) && b < |w.names| && w.names[b] !in tried && SeenFit(w.observe(k), model, b)
    requires SoundAttempts(w, model, tried + {w.names[b]}, k + 1, rest)
    ensures SoundAttempts(w, model, tried, k, [b] + rest)
  {
    hide SeenFit, ValidObservation;
    var attempts := [b] + rest;
    forall j | 0 <= j < |attempts|
      ensures attempts[j] < |w.names| && w.names[attempts[j]] !in tried
      ensures SeenFit(w.observe(k + j), model, attempts[j])
      ensures j > 0 ==> w.names[attempts[j]] != w.names[b]
    {
      if j > 0 { assert attempts[j] == rest[j - 1] && k + 1 + (j - 1) == k + j; }
    }
    forall i, j | 0 <= i < j < |attempts| ensures w.names[attempts[i]] != w.names[attempts[j]] {
      if i > 0 { assert attempts[i] == rest[i - 1] && attempts[j] == rest[j - 1]; }
    }
  }

  /** The attempt of iteration k at b came to nothing: no slot, or a failed forward. */
  predicate Fails(w: World, k: nat, b: nat) {
    !w.reserve(k) || w.forward(k, b) == Failed
  }

  /** The attempts came to nothing one after the other, up to the one that the ending is about. */
  ghost predicate EndsAsForwarded(w: World, k: nat, t: Trace) {
    match t.exit
    case Refused(_) => forall j | 0 <= j < |t.tried| :: Fails(w, k + j, t.tried[j])
    case _ =>
      && t.tried != []
      && (forall j | 0 <= j < |t.tried| - 1 :: Fails(w, k + j, t.tried[j]))
      && var n := |t.tried| - 1;
         var outcome := w.forward(k + n, t.tried[n]);
         && w.reserve(k + n)
         && (outcome == ClientGone ==> t.exit == Abandoned)
         && (outcome != ClientGone ==> outcome != Failed && t.exit == Served(t.tried[n], outcome))
  }

  lemma EndsCons(w: World, k: nat, b: nat, t: Trace)
    requires Fails(w, k, b) && EndsAsForwarded(w, k + 1, t)
    ensures EndsAsForwarded(w, k, Prepend([b], t))
  {
    var t' := Prepend([b], t);
    forall j | 0 <= j < |t'.tried| - (if t'.exit.Refused? then 0 else 1) ensures Fails(w, k + j, t'.tried[j]) {
      if j > 0 { assert t'.tried[j] == t.tried[j - 1] && k + 1 + (j - 1) == k + j; }
    }
    if !t.exit.Refused? { assert t'.tried[|t'.tried| - 1] == t.tried[|t.tried| - 1]; }
  }

  lemma EndsHere(w: World, k: nat, b: nat)
    requires !Fails(w, k, b)
    ensures EndsAsForwarded(
              w, k, Trace([b], if w.forward(k, b) == ClientGone then Abandoned else Served(b, w.forward(k, b))))
  {
  }

  /**
   Termination and soundness under arbitrary interference. The loop makes at most as many attempts
   as there are names left, never two under the same name, and every attempt went to a backend
   that was seen in that iteration to be UP, to serve the model, to have capacity, and, unless a
   plugin named it, to be below the VRAM threshold. Every attempt but the last was denied a slot or
   failed; and unless the request is refused, the last one had a slot and its forward is the ending.
   */
  lemma {:induction false} RetrySound(w: World, model: string, tried: set<string>, k: nat)
    requires ValidWorld(w)
    ensures var t := Serve(w, model, tried, k);
      && |t.tried| <= |NameSet(w.names) - tried|
      && SoundAttempts(w, model, tried, k, t.tried)
      && EndsAsForwarded(w, k, t)
    decreases |NameSet(w.names) - tried|
  {
    hide Pick, SeenFit, SoundAttempts, NameSet, Serve, EndsAsForwarded;
    var picked := ServeStep(w, model, tried, k);
    if picked.Chosen? {
      var b := picked.b;
      var tried' := tried + {w.names[b]};
      RetrySound(w, model, tried', k + 1);
      if Fails(w, k, b) { EndsCons(w, k, b, Serve(w, model, tried', k + 1)); } else { EndsHere(w, k, b); }
      NothingTried(w, model, tried', k + 1);
      SoundCons(w, model, tried, k, b, Serve(w, model, tried', k + 1).tried);
      SoundCons(w, model, tried, k, b, []);
      assert [b] + [] == [b];
    } else {
      NothingTried(w, model, tried, k);
      RefusedAtOnce(w, k, picked);
    }
  }

  lemma RefusedAtOnce(w: World, k: nat, picked: Picked)
    ensures EndsAsForwarded(w, k, Trace([], Refused(picked)))
  {
  }

  lemma NothingTried(w: World, model: string, tried: set<string>, k: nat)
    requires ValidWorld(w)
    ensures SoundAttempts(w, model, tried, k, [])
  {
  }

  // ---- Nothing changes ----

  function Names(pool: seq<Snapshot>): seq<string> {
    seq(|pool|, i requires 0 <= i < |pool| => pool[i].name)
  }

  /** One state for all iterations, every reservation goes through, no plugin. */
  function Still(
    pool: seq<Snapshot>, store: Store, sticky: Option<string>, plugin: PluginAnswer, forward: nat -> Forward): World
  {
    World(Names(pool), _ => Frozen(pool, store, sticky, plugin), _ => true, (_: nat, b: nat) => forward(b))
  }

  ghost predicate DistinctNames(pool: seq<Snapshot>) {
    forall i, j | 0 <= i < j < |pool| :: pool[i].name != pool[j].name
  }

  /**
   The order of attempts when every forward fails: exactly the eligible backends, each once, the
   warm sticky backend first, the others by falling score with ties in pool order.
   */
  ghost predicate StableOrder(o: Observation, model: string, tried: set<string>, order: seq<nat>)
    requires ValidObservation(o)
  {
    && (forall i: nat :: i in order <==> Eligible(o, model, tried, i))
    && (forall a, b | 0 <= a < b < |order| :: order[a] != order[b])
    && (forall k | 0 < k < |order| :: !Pinned(o, model, order[k]))
    && (forall k | 0 <= k < |order| :: order[k] < |o.pool|)
    && (forall a, b | 0 <= a < b < |order| && !Pinned(o, model, order[a]) :: Better(o, model, order[a], order[b]))
  }

  lemma FrozenStep(o: Observation, model: string, tried: set<string>, b: nat)
    requires DistinctNames(o.pool) && Eligible(o, model, tried, b)
    ensures forall i: nat :: Eligible(o, model, tried + {o.pool[b].name}, i) <==> Eligible(o, model, tried, i) && i != b
  {
    forall i: nat | i < |o.pool| && i != b ensures o.pool[i].name != o.pool[b].name {
      if i < b {} else {}
    }
  }

  /** With distinct names at most one backend is sticky. */
  lemma StickyIsOne(o: Observation, model: string, i: nat, j: nat)
    requires DistinctNames(o.pool)
    ensures Pinned(o, model, i) && Pinned(o, model, j) ==> i == j
  {
    if i < j {} else {}
  }

  /** Putting the next choice in front of a stable order of the rest. */
  lemma OrderCons(o: Observation, model: string, tried: set<string>, b: nat, rest: seq<nat>)
    requires ValidObservation(o) && DistinctNames(o.pool) && Eligible(o, model, tried, b)
    requires StableOrder(o, model, tried + {o.pool[b].name}, rest)
    requires Pinned(o, model, b) || forall i: nat | Eligible(o, model, tried, i) && i != b :: Better(o, model, b, i)
    requires (exists i: nat :: Eligible(o, model, tried, i) && Pinned(o, model, i)) ==> Pinned(o, model, b)
    ensures StableOrder(o, model, tried, [b] + rest)
  {
    var tried' := tried + {o.pool[b].name};
    FrozenStep(o, model, tried, b);
    var order := [b] + rest;
    forall k | 0 <= k < |rest|
      ensures Eligible(o, model, tried, rest[k]) && rest[k] != b && !Pinned(o, model, rest[k])
    {
      assert rest[k] in rest;
      assert Eligible(o, model, tried', rest[k]);
      StickyIsOne(o, model, b, rest[k]);
    }
    forall i: nat ensures i in order <==> Eligible(o, model, tried, i) {
      assert i in rest <==> Eligible(o, model, tried', i);
    }
    forall k | 0 < k < |order| ensures order[k] == rest[k - 1] {}
    forall x, y | 0 <= x < y < |order| && !Pinned(o, model, order[x]) ensures Better(o, model, order[x], order[y]) {
      assert order[y] == rest[y - 1];
      if x > 0 { assert order[x] == rest[x - 1]; }
    }
  }

  /** Dropping the first of a stable order leaves the stable order without that backend. */
  lemma OrderTail(o: Observation, model: string, tried: set<string>, order: seq<nat>)
    requires ValidObservation(o) && DistinctNames(o.pool) && StableOrder(o, model, tried, order) && order != []
    ensures order[0] < |o.pool| && Eligible(o, model, tried, order[0])
    ensures StableOrder(o, model, tried + {o.pool[order[0]].name}, order[1..])
  {
    var b, rest := order[0], order[1..];
    assert b in order;
    FrozenStep(o, model, tried, b);
    forall i: nat ensures i in rest <==> i in order && i != b {
      if i in rest {
        var k :| 0 <= k < |rest| && rest[k] == i;
        assert order[k + 1] == i;
      }
    }
  }

  /** There is only one stable order. */
  lemma {:induction false} StableOrderUnique(
    o: Observation, model: string, tried: set<string>, x: seq<nat>, y: seq<nat>)
    requires ValidObservation(o) && DistinctNames(o.pool)
    requires StableOrder(o, model, tried, x) && StableOrder(o, model, tried, y)
    ensures x == y
    decreases |x|
  {
    FirstIsShared(o, model, tried, x, y);
    FirstIsShared(o, model, tried, y, x);
    if x != [] {
      FirstsAgree(o, model, tried, x, y);
      OrderTail(o, model, tried, x);
      OrderTail(o, model, tried, y);
      StableOrderUnique(o, model, tried + {o.pool[x[0]].name}, x[1..], y[1..]);
      assert x == [x[0]] + x[1..] && y == [y[0]] + y[1..];
    }
  }

  lemma FirstIsShared(o: Observation, model: string, tried: set<string>, x: seq<nat>, y: seq<nat>)
    requires ValidObservation(o) && StableOrder(o, model, tried, x) && StableOrder(o, model, tried, y)
    ensures x != [] ==> y != [] && x[0] in y
  {
    if x != [] { assert x[0] in x; }
  }

  lemma FirstsAgree(o: Observation, model: string, tried: set<string>, x: seq<nat>, y: seq<nat>)
    requires ValidObservation(o) && DistinctNames(o.pool) && x != [] && y != []
    requires StableOrder(o, model, tried, x) && StableOrder(o, model, tried, y)
    requires x[0] in y && y[0] in x
    ensures x[0] == y[0]
  {
    var i :| 0 <= i < |x| && x[i] == y[0];
    var j :| 0 <= j < |y| && y[j] == x[0];
    StickyIsOne(o, model, x[0], y[0]);
    // If both firsts stood later in the other order, each would come before the other.
  }

  lemma EmptyOrder(o: Observation, model: string, tried: set<string>)
    requires ValidObservation(o) && forall i: nat :: !Eligible(o, model, tried, i)
    ensures StableOrder(o, model, tried, [])
  {
  }

  /** A world in which every iteration observes o and every forward fails. */
  ghost predicate AllFail(w: World, o: Observation) {
    && ValidWorld(w) && |w.names| == |o.pool| && (forall i | 0 <= i < |o.pool| :: w.names[i] == o.pool[i].name)
    && (forall k: nat :: w.observe(k) == o && w.reserve(k))
    && (forall k: nat, b: nat :: w.forward(k, b) == Failed)
  }

  /** The choice in such a world: the pinned backend or the one before all others, or nothing is eligible. */
  lemma ChoiceAmongFailures(o: Observation, model: string, tried: set<string>)
    requires ValidObservation(o) && o == Frozen(o.pool, o.guard, o.sticky, NoPlugin)
    ensures var picked := Pick(o, model, tried);
      if picked.Chosen? then
        && Eligible(o, model, tried, picked.b)
        && (Pinned(o, model, picked.b)
            || forall i: nat | Eligible(o, model, tried, i) && i != picked.b :: Better(o, model, picked.b, i))
        && ((exists i: nat :: Eligible(o, model, tried, i) && Pinned(o, model, i)) ==> Pinned(o, model, picked.b))
      else forall i: nat :: !Eligible(o, model, tried, i)
  {
    PickFrozen(o.pool, o.guard, o.sticky, model, tried);
    hide Pick, Frozen, Eligible, Pinned, Better, ValidObservation;
  }

  lemma AllFailAt(w: World, o: Observation, k: nat)
    requires AllFail(w, o)
    ensures ValidWorld(w) && w.observe(k) == o && w.reserve(k) && forall b: nat :: w.forward(k, b) == Failed
    ensures |w.names| == |o.pool| && forall i: nat | i < |o.pool| :: w.names[i] == o.pool[i].name
  {
  }

  lemma {:induction false} FailuresAreSorted(w: World, o: Observation, model: string, tried: set<string>, k: nat)
    requires AllFail(w, o) && ValidObservation(o) && DistinctNames(o.pool)
    requires o == Frozen(o.pool, o.guard, o.sticky, NoPlugin)
    ensures ValidWorld(w) && Serve(w, model, tried, k).exit.Refused?
    ensures StableOrder(o, model, tried, Serve(w, model, tried, k).tried)
    decreases |NameSet(w.names) - tried|
  {
    hide *;
    AllFailAt(w, o, k);
    ChoiceAmongFailures(o, model, tried);
    var picked := ServeStep(w, model, tried, k);
    if picked.Chosen? {
      var b := picked.b;
      FailuresAreSorted(w, o, model, tried + {o.pool[b].name}, k + 1);
      var rest := Serve(w, model, tried + {o.pool[b].name}, k + 1);
      OrderCons(o, model, tried, b, rest.tried);
      PrependParts(b, rest);
    } else {
      EmptyOrder(o, model, tried);
    }
  }

  lemma PrependParts(b: nat, t: Trace)
    ensures Prepend([b], t).tried == [b] + t.tried && Prepend([b], t).exit == t.exit
  {
  }

  function AlwaysFails(b: nat): Forward {
    Failed
  }

  /**
   The retry loop is a stable sort of the eligible backends: in a state that does not change, with
   every forward failing, the attempts are the stable order and the loop ends in a refusal.
   */
  lemma RetryIsStableSort(
    pool: seq<Snapshot>, store: Store, sticky: Option<string>, model: string, tried: set<string>, k: nat)
    requires ValidObservation(Frozen(pool, store, sticky, NoPlugin)) && DistinctNames(pool)
    ensures var w := Still(pool, store, sticky, NoPlugin, AlwaysFails);
      && ValidWorld(w)
      && Serve(w, model, tried, k).exit.Refused?
      && StableOrder(Frozen(pool, store, sticky, NoPlugin), model, tried, Serve(w, model, tried, k).tried)
  {
    hide Serve, StableOrder;
    var w := Still(pool, store, sticky, NoPlugin, AlwaysFails);
    assert AllFail(w, Frozen(pool, store, sticky, NoPlugin));
    FailuresAreSorted(w, Frozen(pool, store, sticky, NoPlugin), model, tried, k);
  }

  /** The attempts follow the order up to the first backend that does not fail. */
  ghost predicate StopsAtFirst(order: seq<nat>, t: Trace, forward: nat -> Forward) {
    && t.tried <= order
    && (forall i | 0 <= i < |t.tried| - 1 :: forward(t.tried[i]) == Failed)
    && (t.exit.Refused? <==> forall i | i in order :: forward(i) == Failed)
    && (t.exit.Refused? ==> t.tried == order)
    && (!t.exit.Refused? ==> EndsWith(t, forward))
  }

  ghost predicate EndsWith(t: Trace, forward: nat -> Forward) {
    t.tried != [] &&
    var last := t.tried[|t.tried| - 1];
    && forward(last) != Failed
    && t.exit == if forward(last) == ClientGone then Abandoned else Served(last, forward(last))
  }

  lemma StopsCons(b: nat, order: seq<nat>, t: Trace, forward: nat -> Forward)
    requires StopsAtFirst(order, t, forward) && forward(b) == Failed
    ensures StopsAtFirst([b] + order, Prepend([b], t), forward)
  {
    var t' := Prepend([b], t);
    forall i | 0 <= i < |t'.tried| - 1 ensures forward(t'.tried[i]) == Failed {
      if i > 0 { assert t'.tried[i] == t.tried[i - 1]; }
    }
    assert forall i | i in order :: i in [b] + order;
    if t.tried != [] { assert t'.tried[|t'.tried| - 1] == t.tried[|t.tried| - 1]; }
  }

  lemma StopsNow(b: nat, order: seq<nat>, forward: nat -> Forward)
    requires forward(b) != Failed
    ensures StopsAtFirst([b] + order,
                         Trace([b], if forward(b) == ClientGone then Abandoned else Served(b, forward(b))), forward)
  {
    assert b in [b] + order;
    assert [b] <= [b] + order;
  }

  /** Two worlds that differ only in what forwarding returns; in the first it always fails. */
  lemma {:induction false} SameAttempts(
    all: World, w: World, model: string, tried: set<string>, k: nat, forward: nat -> Forward)
    requires ValidWorld(all) && ValidWorld(w) && all.names == w.names
    requires forall n: nat :: all.observe(n) == w.observe(n) && all.reserve(n) && w.reserve(n)
    requires forall n: nat, b: nat :: all.forward(n, b) == Failed && w.forward(n, b) == forward(b)
    ensures StopsAtFirst(Serve(all, model, tried, k).tried, Serve(w, model, tried, k), forward)
    decreases |NameSet(w.names) - tried|
  {
    hide Pick, Serve, NameSet, SeenFit, StopsAtFirst, ValidWorld;
    ValidAgrees(all, w, k);
    var pickedAll := ServeStep(all, model, tried, k);
    var picked := ServeStep(w, model, tried, k);
    if picked.Chosen? {
      var b := picked.b;
      var tried' := tried + {w.names[b]};
      SameAttempts(all, w, model, tried', k + 1, forward);
      var rest := Serve(all, model, tried', k + 1).tried;
      if forward(b) == Failed {
        StopsCons(b, rest, Serve(w, model, tried', k + 1), forward);
      } else {
        StopsNow(b, rest, forward);
      }
    } else {
      StopsRefused(picked, forward);
    }
  }

  lemma ValidAgrees(all: World, w: World, k: nat)
    requires ValidWorld(all) && ValidWorld(w)
    ensures ValidObservation(all.observe(k)) && ValidObservation(w.observe(k))
  {
  }

  lemma StopsRefused(picked: Picked, forward: nat -> Forward)
    ensures StopsAtFirst([], Trace([], Refused(picked)), forward)
  {
  }

  /**
   In general the request goes to the first backend of that order whose forward does not fail: the
   attempts are a prefix of the order, all failures but possibly the last, and the request is
   refused exactly when the whole order fails.
   */
  lemma FirstThatAnswers(
    pool: seq<Snapshot>, store: Store, sticky: Option<string>, model: string, tried: set<string>, k: nat,
    forward: nat -> Forward)
    requires ValidObservation(Frozen(pool, store, sticky, NoPlugin))
    ensures
      var all := Still(pool, store, sticky, NoPlugin, AlwaysFails);
      var w := Still(pool, store, sticky, NoPlugin, forward);
      && ValidWorld(all) && ValidWorld(w)
      && StopsAtFirst(Serve(all, model, tried, k).tried, Serve(w, model, tried, k), forward)
  {
    var all, w := Still(pool, store, sticky, NoPlugin, AlwaysFails), Still(pool, store, sticky, NoPlugin, forward);
    SameAttempts(all, w, model, tried, k, forward);
  }
}
