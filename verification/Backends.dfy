/**
 Backends and the pool of backend.go. A backend is an object whose counters change in place; a
 Snapshot is what reading all its fields at one moment returns, and the functions on snapshots
 are what the methods are proved against. The pool never changes after it is built, so an index
 into it stands for the pointer the program passes around.
 */
module Backends {
  import opened Sums
  import opened ModelNames
  import MovingAverage

  datatype Kind = Ollama | VLLM

  datatype Snapshot = Snapshot(
    name: string, models: seq<string>, kind: Kind, up: bool,
    maxConcurrent: int, autoConcurrent: int, inflight: int, perTokenMs: int)

  /** The concurrency limit in force; 0 means unlimited. */
  function Effective(b: Snapshot): int {
    if b.maxConcurrent > 0 then b.maxConcurrent
    else if b.autoConcurrent > 0 then b.autoConcurrent
    else 0
  }

  predicate HasCapacity(b: Snapshot) {
    Effective(b) <= 0 || b.inflight < Effective(b)
  }

  predicate Supports(b: Snapshot, model: string) {
    b.models == [] || model in b.models
  }

  predicate Usable(b: Snapshot, model: string) {
    b.up && Supports(b, model) && HasCapacity(b)
  }

  /** Field by field: the limit that is configured, or else the one that was scraped, is not used up. */
  ghost predicate HasFreeSlot(b: Snapshot) {
    && (b.maxConcurrent > 0 ==> b.inflight < b.maxConcurrent)
    && (b.maxConcurrent <= 0 && b.autoConcurrent > 0 ==> b.inflight < b.autoConcurrent)
  }

  /** Field by field: UP, restricted to no models or to models with this one among them, and not full. */
  ghost predicate CanTake(b: Snapshot, model: string) {
    && b.up
    && (b.models != [] ==> model in b.models)
    && HasFreeSlot(b)
  }

  /**
   What the capacity check is for: it passes exactly if one more request stays within the configured
   cap, or without one within the scraped limit; a configured cap makes the scraped limit irrelevant.
   */
  lemma CapacityIsCeiling(b: Snapshot, auto: int)
    ensures HasCapacity(b) <==> HasFreeSlot(b)
    ensures HasCapacity(b) && b.maxConcurrent > 0 ==> b.inflight + 1 <= b.maxConcurrent
    ensures HasCapacity(b) && b.maxConcurrent <= 0 && b.autoConcurrent > 0 ==> b.inflight + 1 <= b.autoConcurrent
    ensures !HasCapacity(b) ==> b.inflight + 1 > Effective(b) > 0
    ensures b.maxConcurrent > 0 ==> Effective(b.(autoConcurrent := auto)) == Effective(b) == b.maxConcurrent
    ensures b.maxConcurrent <= 0 && b.autoConcurrent > 0 ==> Effective(b) == b.autoConcurrent
    ensures Effective(b) == 0 <==> b.maxConcurrent <= 0 && b.autoConcurrent <= 0
  {
  }

  lemma UsableIsCanTake(b: Snapshot, model: string)
    ensures Usable(b, model) <==> CanTake(b, model)
  {
    CapacityIsCeiling(b, 0);
  }

  /** The first k backends of the pool that are usable, in pool order. */
  function UsableUpTo(pool: seq<Snapshot>, model: string, k: nat): seq<nat>
    requires k <= |pool|
  {
    if k == 0 then []
    else UsableUpTo(pool, model, k - 1) + if Usable(pool[k - 1], model) then [k - 1] else []
  }

  function AvailableIn(pool: seq<Snapshot>, model: string): seq<nat> {
    UsableUpTo(pool, model, |pool|)
  }

  ghost predicate Increasing(s: seq<nat>) {
    forall i, j | 0 <= i < j < |s| :: s[i] < s[j]
  }

  /** The available backends are exactly the usable ones, each once and in pool order. */
  lemma {:induction false} AvailableExact(pool: seq<Snapshot>, model: string, k: nat)
    requires k <= |pool|
    ensures Increasing(UsableUpTo(pool, model, k))
    ensures forall i: nat :: i in UsableUpTo(pool, model, k) <==> i < k && Usable(pool[i], model)
    ensures forall i: nat | i < k :: Usable(pool[i], model) <==> CanTake(pool[i], model)
  {
    forall i: nat | i < k ensures Usable(pool[i], model) <==> CanTake(pool[i], model) {
      UsableIsCanTake(pool[i], model);
    }
    hide Usable, CanTake;
    if k > 0 {
      AvailableExact(pool, model, k - 1);
      var front := UsableUpTo(pool, model, k - 1);
      assert forall i | 0 <= i < |front| :: front[i] in front;
    }
  }

  // ---- Total capacity ----

  predicate UnlimitedUp(b: Snapshot) {
    b.up && Effective(b) <= 0
  }

  function UpCapacity(b: Snapshot): int {
    if b.up then Effective(b) else 0
  }

  /** What TotalConcurrency returns: 0 if an UP backend is unlimited, else the sum over the UP ones. */
  function Total(pool: seq<Snapshot>): int {
    if exists i :: 0 <= i < |pool| && UnlimitedUp(pool[i]) then 0 else Sum(pool, UpCapacity)
  }

  /** What a backend contributes to the total, field by field. */
  lemma UpCapacityMeans(b: Snapshot)
    ensures !b.up ==> UpCapacity(b) == 0
    ensures b.up && b.maxConcurrent > 0 ==> UpCapacity(b) == b.maxConcurrent
    ensures b.up && b.maxConcurrent <= 0 && b.autoConcurrent > 0 ==> UpCapacity(b) == b.autoConcurrent
    ensures UnlimitedUp(b) <==> b.up && b.maxConcurrent <= 0 && b.autoConcurrent <= 0
  {
  }

  /** A total of 0 has two causes: nothing is UP, or something UP is unlimited. */
  lemma {:induction false} TotalIsZero(pool: seq<Snapshot>)
    ensures Total(pool) >= 0
    ensures Total(pool) == 0 <==>
            (forall i | 0 <= i < |pool| :: !pool[i].up) || (exists i :: 0 <= i < |pool| && UnlimitedUp(pool[i]))
  {
    if !exists i :: 0 <= i < |pool| && UnlimitedUp(pool[i]) {
      forall i | 0 <= i < |pool| ensures UpCapacity(pool[i]) >= 0 && (UpCapacity(pool[i]) == 0 <==> !pool[i].up) {
        assert !UnlimitedUp(pool[i]);
      }
      SumNonNegative(pool, UpCapacity);
      if forall i | 0 <= i < |pool| :: !pool[i].up {
        SumZero(pool, UpCapacity);
      }
    }
  }

  // ---- The objects ----

  class Backend {
    const name: string
    const models: seq<string>
    const kind: Kind
    const vramTotalMB: int // 0 means unknown
    const maxConcurrent: int

    var up: bool
    var inflight: int
    var perTokenMs: int
    var autoConcurrent: int

    constructor (name: string, models: seq<string>, kind: Kind, vramTotalMB: int, maxConcurrent: int)
      ensures this.vramTotalMB == vramTotalMB
      ensures Read() == Snapshot(name, models, kind, false, maxConcurrent, 0, 0, 0)
    {
      this.name, this.models, this.kind := name, models, kind;
      this.vramTotalMB, this.maxConcurrent := vramTotalMB, maxConcurrent;
      up, inflight, perTokenMs, autoConcurrent := false, 0, 0, 0;
    }

    function Read(): Snapshot
      reads this
    {
      Snapshot(name, models, kind, up, maxConcurrent, autoConcurrent, inflight, perTokenMs)
    }

    /** The health check of the pool is the only caller. */
    method SetStatus(up: bool)
      modifies this`up
      ensures Read() == old(Read()).(up := up)
    {
      this.up := up;
    }

    method SetAutoConcurrent(n: int)
      modifies this`autoConcurrent
      ensures Read() == old(Read()).(autoConcurrent := n)
    {
      autoConcurrent := n;
    }

    method CompareAndSwapInflight(expected: int, next: int) returns (swapped: bool)
      modifies this`inflight
      ensures swapped == (old(inflight) == expected)
      ensures inflight == if swapped then next else old(inflight)
    {
      swapped := inflight == expected;
      if swapped { inflight := next; }
    }

    method CompareAndSwapPerTokenMs(expected: int, next: int) returns (swapped: bool)
      modifies this`perTokenMs
      ensures swapped == (old(perTokenMs) == expected)
      ensures perTokenMs == if swapped then next else old(perTokenMs)
    {
      swapped := perTokenMs == expected;
      if swapped { perTokenMs := next; }
    }

    /**
     Claims a slot exactly when the capacity check would pass, so that a backend within its limit
     stays within it. With other threads at work the load and the swap are separate steps; see
     WholeSystem.
     */
    method TryReserve() returns (reserved: bool)
      modifies this`inflight
      ensures reserved == HasCapacity(old(Read()))
      ensures maxConcurrent > 0 ==> (reserved <==> old(inflight) < maxConcurrent)
      ensures maxConcurrent <= 0 && autoConcurrent > 0 ==> (reserved <==> old(inflight) < autoConcurrent)
      ensures maxConcurrent <= 0 && autoConcurrent <= 0 ==> reserved
      ensures inflight == if reserved then old(inflight) + 1 else old(inflight)
      ensures Read() == if reserved then old(Read()).(inflight := old(inflight) + 1) else old(Read())
    {
      var limit := Effective(Read());
      if limit <= 0 {
        inflight := inflight + 1;
        return true;
      }
      reserved := false;
      while !reserved
        invariant Read() == if reserved then old(Read()).(inflight := old(inflight) + 1) else old(Read())
        invariant reserved ==> old(inflight) < limit
        decreases !reserved
      {
        var cur := inflight;
        if cur >= limit { return false; }
        reserved := CompareAndSwapInflight(cur, cur + 1);
      }
    }

    method DecInflight()
      modifies this`inflight
      ensures Read() == old(Read()).(inflight := old(inflight) - 1)
    {
      inflight := inflight - 1;
    }

    method RecordPerTokenMs(ms: int)
      modifies this`perTokenMs
      ensures Read() == old(Read()).(perTokenMs := MovingAverage.Next(old(perTokenMs), ms))
    {
      var recorded := false;
      while !recorded
        invariant Read() == if recorded
                            then old(Read()).(perTokenMs := MovingAverage.Next(old(perTokenMs), ms))
                            else old(Read())
        decreases !recorded
      {
        var prior := perTokenMs;
        var next := if prior == 0 then ms else MovingAverage.TruncDiv(prior * 4 + ms, 5);
        recorded := CompareAndSwapPerTokenMs(prior, next);
      }
    }
  }

  // ---- The pool ----

  datatype BackendConfig = BackendConfig(
    name: string, models: seq<string>, kind: string, vramTotalMB: int, maxConcurrent: int)

  function NormalizeAll(names: seq<string>): (out: seq<string>)
    ensures |out| == |names| && forall i | 0 <= i < |names| :: out[i] == Normalize(names[i])
  {
    seq(|names|, i requires 0 <= i < |names| => Normalize(names[i]))
  }

  /** A configured backend before the first health check. */
  function Fresh(c: BackendConfig): Snapshot {
    Snapshot(c.name, NormalizeAll(c.models), if c.kind == "vllm" then VLLM else Ollama, false, c.maxConcurrent, 0, 0, 0)
  }

  /** A backend serves a request if one of its configured names and the requested one normalize alike. */
  lemma ServesByNormalName(c: BackendConfig, requested: string)
    ensures Supports(Fresh(c), Normalize(requested)) <==>
            c.models == [] || exists i :: 0 <= i < |c.models| && Normalize(c.models[i]) == Normalize(requested)
  {
    var names := NormalizeAll(c.models);
    if i :| 0 <= i < |c.models| && Normalize(c.models[i]) == Normalize(requested) {
      assert names[i] in names;
    }
  }

  /** Builds the pool: one object for each configured backend, in order, all of them DOWN. */
  method NewBackendPool(cfgs: seq<BackendConfig>) returns (pool: BackendPool)
    ensures fresh(pool) && |pool.backends| == |cfgs|
    ensures forall i | 0 <= i < |cfgs| :: fresh(pool.backends[i]) && pool.backends[i].Read() == Fresh(cfgs[i])
    ensures forall i, j | 0 <= i < j < |cfgs| :: pool.backends[i] != pool.backends[j]
    ensures forall i | 0 <= i < |cfgs| ::
              !pool.backends[i].up && (pool.backends[i].kind == VLLM <==> cfgs[i].kind == "vllm")
  {
    var backends: seq<Backend> := [];
    for k := 0 to |cfgs|
      invariant |backends| == k
      invariant forall i | 0 <= i < k :: fresh(backends[i]) && backends[i].Read() == Fresh(cfgs[i])
      invariant forall i, j | 0 <= i < j < k :: backends[i] != backends[j]
    {
      var c := cfgs[k];
      var b := new Backend(
        c.name, NormalizeAll(c.models), if c.kind == "vllm" then VLLM else Ollama, c.vramTotalMB, c.maxConcurrent);
      backends := backends + [b];
    }
    pool := new BackendPool(backends);
  }

  class BackendPool {
    const backends: seq<Backend>

    constructor (backends: seq<Backend>)
      ensures this.backends == backends
    {
      this.backends := backends;
    }

    function Read(): (pool: seq<Snapshot>)
      reads this, backends
    {
      seq(|backends|, i requires 0 <= i < |backends| reads this, backends => backends[i].Read())
    }

    method Available(model: string) returns (out: seq<nat>)
      ensures out == AvailableIn(Read(), model)
      ensures Increasing(out)
      ensures forall i: nat :: i in out <==> i < |backends| && CanTake(backends[i].Read(), model)
    {
      out := [];
      AvailableExact(Read(), model, |backends|);
      for i := 0 to |backends|
        invariant out == UsableUpTo(Read(), model, i)
      {
        if Usable(backends[i].Read(), model) {
          out := out + [i];
        }
      }
    }

    method TotalConcurrency() returns (total: int)
      ensures total == Total(Read())
    {
      total := 0;
      ghost var pool := Read();
      for i := 0 to |backends|
        invariant total == Sum(pool[..i], UpCapacity)
        invariant forall k | 0 <= k < i :: !UnlimitedUp(pool[k])
      {
        assert pool[..i + 1][..i] == pool[..i];
        if backends[i].up {
          var limit := Effective(backends[i].Read());
          if limit <= 0 {
            assert UnlimitedUp(pool[i]);
            return 0;
          }
          total := total + limit;
        }
      }
      assert pool[..|backends|] == pool;
    }
  }
}
