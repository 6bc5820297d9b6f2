/**
 The choice of a backend in scheduler.go.

 Candidates are indices into the pool. Pick works on an Observation: what each read returned at
 the moment it was made, with no relation between the reads, so it also covers backends that
 change while a request is being placed. Frozen observes one state that does not change.

 Scores are real numbers; rounding of floats is not modelled.
 */
module Scheduling {
  import opened Options
  import opened Backends
  import opened States
  import opened ModelNames
  import opened Conversations

  const VRAM_GUARD_THRESHOLD := 0.90
  const COLD_LOAD_MS := 25_000.0
  const DEFAULT_PER_TOKEN_MS := 20
  const EXPECTED_TOKENS := 256

  // ---- Warmth, safety and score of one backend ----

  predicate IsWarm(b: Snapshot, store: Store, model: string) {
    b.kind == VLLM ||
    (b.name in store && store[b.name].modelStatus == ModelWarm && model in store[b.name].loadedModels)
  }

  predicate IsSafe(b: Snapshot, store: Store) {
    !(b.name in store && store[b.name].vramUsedPct > 0.0 && store[b.name].vramUsedPct >= VRAM_GUARD_THRESHOLD)
  }

  /** Field by field: nothing is known of the backend, or less than 90% of its VRAM is in use. */
  ghost predicate Below90(store: Store, name: string) {
    name in store ==> store[name].vramUsedPct < 0.9
  }

  /** Field by field: a vLLM backend, or one that was last seen with this very model loaded. */
  ghost predicate HasLoaded(b: Snapshot, store: Store, model: string) {
    b.kind == VLLM ||
    (b.name in store && store[b.name].modelStatus == ModelWarm
     && exists i :: 0 <= i < |store[b.name].loadedModels| && store[b.name].loadedModels[i] == model)
  }

  lemma ChecksMean(b: Snapshot, store: Store, model: string)
    ensures IsSafe(b, store) <==> Below90(store, b.name)
    ensures IsWarm(b, store, model) <==> HasLoaded(b, store, model)
  {
  }

  function VramPct(b: Snapshot, store: Store): real {
    if b.name in store then store[b.name].vramUsedPct else 0.0
  }

  /** The larger of our own counter and the queue the backend reports. */
  function Load(b: Snapshot, store: Store): int {
    var depth := if b.name in store then store[b.name].queueDepth else 0;
    if b.inflight > depth then b.inflight else depth
  }

  function RequestMs(b: Snapshot): real {
    EXPECTED_TOKENS as real * (if b.perTokenMs == 0 then DEFAULT_PER_TOKEN_MS else b.perTokenMs) as real
  }

  function ExpectedMs(b: Snapshot, store: Store, warm: bool): real {
    if warm then (Load(b, store) + 1) as real * RequestMs(b)
    else COLD_LOAD_MS * (1.0 + VramPct(b, store)) + Load(b, store) as real * RequestMs(b)
  }

  /** Counters and measurements are not negative. */
  ghost predicate Sane(b: Snapshot, store: Store) {
    b.inflight >= 0 && b.perTokenMs >= 0 && VramPct(b, store) >= 0.0
  }

  ghost predicate SanePool(pool: seq<Snapshot>, store: Store) {
    forall i | 0 <= i < |pool| :: Sane(pool[i], store)
  }

  /** The figures that the score is computed from, read off the fields. */
  lemma ReadingsMean(b: Snapshot, store: Store)
    ensures Load(b, store) >= b.inflight && (b.name in store ==> Load(b, store) >= store[b.name].queueDepth)
    ensures b.inflight >= 0 ==>
              Load(b, store) == b.inflight || (b.name in store && Load(b, store) == store[b.name].queueDepth)
    ensures PerToken(b) == if b.perTokenMs == 0 then 20 else b.perTokenMs
    ensures RequestMs(b) == (256 * PerToken(b)) as real
    ensures b.name in store ==> VramPct(b, store) == store[b.name].vramUsedPct
    ensures b.name !in store ==> VramPct(b, store) == 0.0
  {
  }

  lemma ExpectedPositive(b: Snapshot, store: Store, warm: bool)
    requires Sane(b, store)
    ensures ExpectedMs(b, store, warm) > 0.0
  {
    assert RequestMs(b) > 0.0;
    assert Load(b, store) as real * RequestMs(b) >= 0.0;
  }

  function Score(b: Snapshot, store: Store, warm: bool): real
    requires Sane(b, store)
  {
    ExpectedPositive(b, store, warm);
    1.0 / ExpectedMs(b, store, warm)
  }

  lemma ReciprocalOrder(x: real, y: real)
    requires x > 0.0 && y > 0.0
    ensures 1.0 / x > 1.0 / y <==> x < y
  {
    assert 1.0 / x - 1.0 / y == (y - x) / (x * y);
    assert x * y > 0.0;
    if x < y {
      assert (y - x) / (x * y) > 0.0;
    } else {
      assert (x - y) / (x * y) >= 0.0;
      assert 1.0 / y - 1.0 / x == (x - y) / (x * y);
    }
  }

  /** A higher score is a lower expected time, whatever the two backends are. */
  lemma ScoreOrder(a: Snapshot, aStore: Store, aWarm: bool, b: Snapshot, bStore: Store, bWarm: bool)
    requires Sane(a, aStore) && Sane(b, bStore)
    ensures Score(a, aStore, aWarm) > Score(b, bStore, bWarm) <==>
            ExpectedMs(a, aStore, aWarm) < ExpectedMs(b, bStore, bWarm)
  {
    ExpectedPositive(a, aStore, aWarm);
    ExpectedPositive(b, bStore, bWarm);
    ReciprocalOrder(ExpectedMs(a, aStore, aWarm), ExpectedMs(b, bStore, bWarm));
  }

  /** Among cold backends that are equal in speed and load, the one with less VRAM in use wins. */
  lemma ColdPrefersEmpty(a: Snapshot, aStore: Store, b: Snapshot, bStore: Store)
    requires Sane(a, aStore) && Sane(b, bStore)
    requires RequestMs(a) == RequestMs(b) && Load(a, aStore) == Load(b, bStore)
    ensures Score(a, aStore, false) > Score(b, bStore, false) <==> VramPct(a, aStore) < VramPct(b, bStore)
  {
    hide Score, ExpectedMs, RequestMs, Load, VramPct, Sane;
    ScoreOrder(a, aStore, false, b, bStore, false);
    ExpectedCold(a, aStore);
    ExpectedCold(b, bStore);
  }

  lemma ExpectedCold(b: Snapshot, store: Store)
    ensures ExpectedMs(b, store, false) ==
            COLD_LOAD_MS * (1.0 + VramPct(b, store)) + Load(b, store) as real * RequestMs(b)
  {
  }

  /**
   Between any two cold backends: the fuller one wins exactly if its shorter queue saves more than
   its fuller VRAM adds to the load penalty.
   */
  lemma ColdThreshold(a: Snapshot, aStore: Store, b: Snapshot, bStore: Store)
    requires Sane(a, aStore) && Sane(b, bStore)
    ensures Score(a, aStore, false) > Score(b, bStore, false) <==>
            25_000.0 * (VramPct(a, aStore) - VramPct(b, bStore)) <
              Load(b, bStore) as real * RequestMs(b) - Load(a, aStore) as real * RequestMs(a)
  {
    hide Score, ExpectedMs, RequestMs, Load, VramPct, Sane;
    ScoreOrder(a, aStore, false, b, bStore, false);
    ExpectedCold(a, aStore);
    ExpectedCold(b, bStore);
  }

  const EMPTY := Snapshot("empty", [], Ollama, true, 0, 0, 3, 20)
  const HALF_FULL := Snapshot("half", [], Ollama, true, 0, 0, 0, 20)
  const HALF_FULL_STATE := BackendState(ModelCold, [], 0, 0.5, 0, 0)

  /** Three requests ahead outweigh empty VRAM: the half full backend wins. */
  lemma EmptyLoses()
    ensures var store := map["half" := HALF_FULL_STATE];
      && Sane(EMPTY, store) && Sane(HALF_FULL, store)
      && Score(HALF_FULL, store, false) > Score(EMPTY, store, false)
  {
    var store := map["half" := HALF_FULL_STATE];
    assert VramPct(HALF_FULL, store) == 0.5 && VramPct(EMPTY, store) == 0.0;
    assert Load(EMPTY, store) == 3 && Load(HALF_FULL, store) == 0;
    assert RequestMs(EMPTY) == 5120.0;
    ColdThreshold(HALF_FULL, store, EMPTY, store);
  }

  /** Among warm backends of equal speed the one with the shorter queue wins. */
  lemma WarmPrefersIdle(a: Snapshot, aStore: Store, b: Snapshot, bStore: Store)
    requires Sane(a, aStore) && Sane(b, bStore) && RequestMs(a) == RequestMs(b)
    ensures Score(a, aStore, true) > Score(b, bStore, true) <==> Load(a, aStore) < Load(b, bStore)
  {
    hide Score, ExpectedMs, RequestMs, Load, Sane;
    ScoreOrder(a, aStore, true, b, bStore, true);
    ExpectedWarm(a, aStore);
    ExpectedWarm(b, bStore);
    TimesPositive(Load(a, aStore) + 1, Load(b, bStore) + 1, RequestMs(a),
                  ExpectedMs(a, aStore, true), ExpectedMs(b, bStore, true));
  }

  /** The latency of one token that the score assumes. */
  function PerToken(b: Snapshot): int {
    if b.perTokenMs == 0 then DEFAULT_PER_TOKEN_MS else b.perTokenMs
  }

  /** Which of two warm backends wins does not depend on the answer length that the score assumes. */
  lemma WarmIgnoresLength(a: Snapshot, aStore: Store, b: Snapshot, bStore: Store)
    requires Sane(a, aStore) && Sane(b, bStore)
    ensures Score(a, aStore, true) > Score(b, bStore, true) <==>
            (Load(a, aStore) + 1) * PerToken(a) < (Load(b, bStore) + 1) * PerToken(b)
  {
    hide Score, ExpectedMs, Load, Sane;
    ScoreOrder(a, aStore, true, b, bStore, true);
    ExpectedTokenwise(a, aStore);
    ExpectedTokenwise(b, bStore);
  }

  lemma ExpectedTokenwise(b: Snapshot, store: Store)
    requires Sane(b, store)
    ensures ExpectedMs(b, store, true) ==
            EXPECTED_TOKENS as real * ((Load(b, store) + 1) * PerToken(b)) as real
  {
    var m, p := Load(b, store) + 1, PerToken(b);
    assert (m * p) as real == m as real * p as real;
  }

  lemma ExpectedWarm(b: Snapshot, store: Store)
    requires Sane(b, store)
    ensures RequestMs(b) > 0.0
    ensures ExpectedMs(b, store, true) == (Load(b, store) + 1) as real * RequestMs(b)
  {
  }

  lemma TimesPositive(m: int, n: int, r: real, x: real, y: real)
    requires r > 0.0 && x == m as real * r && y == n as real * r
    ensures x < y <==> m < n
  {
    assert y - x == (n - m) as real * r;
    if m < n {
      assert (n - m) as real * r > 0.0;
    } else {
      assert (m - n) as real * r >= 0.0;
      assert x - y == (m - n) as real * r;
    }
  }

  /**
   When a cold backend takes over: a warm backend scores above a cold one exactly as long as waiting
   in its queue and being served takes less than the load penalty of the other and its queue.
   */
  lemma WarmAgainstCold(w: Snapshot, c: Snapshot, store: Store, cStore: Store)
    requires Sane(w, store) && Sane(c, cStore)
    ensures Score(w, store, true) > Score(c, cStore, false) <==>
            (256 * (Load(w, store) + 1) * PerToken(w)) as real <
              25_000.0 * (1.0 + VramPct(c, cStore)) + (256 * Load(c, cStore) * PerToken(c)) as real
  {
    hide Score, ExpectedMs, Load, VramPct, PerToken, Sane;
    ScoreOrder(w, store, true, c, cStore, false);
    ExpectedTokenwise(w, store);
    ExpectedCold(c, cStore);
    TokenwiseLoad(c, cStore);
  }

  lemma TokenwiseLoad(b: Snapshot, store: Store)
    ensures Load(b, store) as real * RequestMs(b) == (256 * Load(b, store) * PerToken(b)) as real
  {
    var m, p := Load(b, store), PerToken(b);
    assert (m * p) as real == m as real * p as real;
  }

  /**
   For equal time per request, in terms of the queues: the longer queue of the warm backend must cost
   less than loading the model.
   */
  lemma SpillThreshold(w: Snapshot, c: Snapshot, store: Store, cStore: Store)
    requires Sane(w, store) && Sane(c, cStore) && RequestMs(w) == RequestMs(c)
    ensures Score(w, store, true) > Score(c, cStore, false) <==>
            (Load(w, store) - Load(c, cStore) + 1) as real * RequestMs(w) < 25_000.0 * (1.0 + VramPct(c, cStore))
  {
    ScoreOrder(w, store, true, c, cStore, false);
    var r := RequestMs(w);
    var lw, lc := Load(w, store), Load(c, cStore);
    assert (lw - lc + 1) as real * r == (lw + 1) as real * r - lc as real * r;
  }

  // ---- Observations ----

  datatype PluginAnswer = NoPlugin | Refuse | Name(name: string)

  datatype Observation = Observation(
    pool: seq<Snapshot>,        // read by Available
    plugin: PluginAnswer,       // Name("") falls through to the built-in logic
    sticky: Option<string>,     // what the conversation store answered
    affinityWarm: Store, affinitySafe: Store,
    guard: Store,
    scored: seq<Snapshot>, scoreLoad: Store, scoreWarm: Store)

  ghost predicate ValidObservation(o: Observation) {
    && |o.scored| == |o.pool|
    && forall i | 0 <= i < |o.pool| ::
         && o.scored[i].name == o.pool[i].name && o.scored[i].kind == o.pool[i].kind
         && Sane(o.scored[i], o.scoreLoad)
  }

  function ScoreAt(o: Observation, model: string, i: nat): real
    requires ValidObservation(o) && i < |o.pool|
  {
    Score(o.scored[i], o.scoreLoad, IsWarm(o.scored[i], o.scoreWarm, model))
  }

  // ---- The stages of the choice ----

  ghost predicate InPool(cands: seq<nat>, n: nat) {
    forall k | 0 <= k < |cands| :: cands[k] < n
  }

  /** The candidates that are not excluded by name. */
  function Without(pool: seq<Snapshot>, cands: seq<nat>, tried: set<string>): (out: seq<nat>)
    requires InPool(cands, |pool|)
    ensures InPool(out, |pool|)
    ensures forall i: nat :: i in out <==> i in cands && pool[i].name !in tried
  {
    if cands == [] then []
    else
      var n := |cands| - 1;
      Without(pool, cands[..n], tried) + if pool[cands[n]].name in tried then [] else [cands[n]]
  }

  /** The candidates that pass the VRAM guard. */
  function Guarded(pool: seq<Snapshot>, store: Store, cands: seq<nat>): (out: seq<nat>)
    requires InPool(cands, |pool|)
    ensures InPool(out, |pool|)
    ensures forall i: nat :: i in out <==> i in cands && IsSafe(pool[i], store)
  {
    if cands == [] then []
    else
      var n := |cands| - 1;
      Guarded(pool, store, cands[..n]) + if IsSafe(pool[cands[n]], store) then [cands[n]] else []
  }

  /** The first candidate of that name. */
  function Named(pool: seq<Snapshot>, cands: seq<nat>, name: string): (r: Option<nat>)
    requires InPool(cands, |pool|)
    ensures r.Some? ==> r.value in cands && pool[r.value].name == name
    ensures r.Some? ==>
              exists k | 0 <= k < |cands| ::
                cands[k] == r.value && forall j | 0 <= j < k :: pool[cands[j]].name != name
    ensures r.None? ==> forall i | i in cands :: pool[i].name != name
  {
    if cands == [] then None
    else if pool[cands[0]].name == name then Some(cands[0])
    else Named(pool, cands[1..], name)
  }

  /** The first candidate that is the sticky backend, warm and safe. */
  function Affinity(o: Observation, model: string, cands: seq<nat>): (r: Option<nat>)
    requires InPool(cands, |o.pool|)
    ensures r.Some? ==> r.value in cands && IsSticky(o, model, r.value)
    ensures r.None? ==> forall i | i in cands :: !IsSticky(o, model, i)
  {
    if cands == [] then None
    else if IsSticky(o, model, cands[0]) then Some(cands[0])
    else Affinity(o, model, cands[1..])
  }

  /** Field by field: the backend that the conversation is pinned to, with its model loaded and VRAM to spare. */
  ghost predicate Pinned(o: Observation, model: string, i: nat) {
    && i < |o.pool| && o.sticky == Some(o.pool[i].name)
    && HasLoaded(o.pool[i], o.affinityWarm, model) && Below90(o.affinitySafe, o.pool[i].name)
  }

  lemma StickyIsPinned(o: Observation, model: string, i: nat)
    ensures IsSticky(o, model, i) <==> Pinned(o, model, i)
  {
    if i < |o.pool| {
      ChecksMean(o.pool[i], o.affinityWarm, model);
      ChecksMean(o.pool[i], o.affinitySafe, model);
    }
  }

  predicate IsSticky(o: Observation, model: string, i: nat) {
    && i < |o.pool|
    && o.sticky == Some(o.pool[i].name)
    && IsWarm(o.pool[i], o.affinityWarm, model)
    && IsSafe(o.pool[i], o.affinitySafe)
  }

  /** The first candidate of maximal score. */
  function Best(o: Observation, model: string, cands: seq<nat>): (b: nat)
    requires ValidObservation(o) && cands != [] && InPool(cands, |o.pool|)
    ensures b in cands
  {
    var n := |cands| - 1;
    if n == 0 then cands[0]
    else
      var b := Best(o, model, cands[..n]);
      if ScoreAt(o, model, cands[n]) > ScoreAt(o, model, b) then cands[n] else b
  }

  datatype Picked = Chosen(b: nat) | NoBackend | NearVRAMLimit | PluginRefused

  function Candidates(o: Observation, model: string, tried: set<string>): (cands: seq<nat>)
    ensures InPool(cands, |o.pool|)
    ensures forall i: nat :: i in cands <==> i < |o.pool| && Usable(o.pool[i], model) && o.pool[i].name !in tried
  {
    AvailableExact(o.pool, model, |o.pool|);
    var available := AvailableIn(o.pool, model);
    assert InPool(available, |o.pool|) by {
      assert forall k | 0 <= k < |available| :: available[k] in available;
    }
    Without(o.pool, available, tried)
  }

  /** The built-in logic, after the plugin had its say. */
  function BuiltIn(o: Observation, model: string, cands: seq<nat>): Picked
    requires ValidObservation(o) && InPool(cands, |o.pool|)
  {
    match Affinity(o, model, cands)
    case Some(b) => Chosen(b)
    case None =>
      var safe := Guarded(o.pool, o.guard, cands);
      if safe == [] then NearVRAMLimit else Chosen(Best(o, model, safe))
  }

  function Pick(o: Observation, model: string, tried: set<string>): Picked
    requires ValidObservation(o)
  {
    var cands := Candidates(o, model, tried);
    if cands == [] then NoBackend
    else match o.plugin
      case Refuse => PluginRefused
      case NoPlugin => BuiltIn(o, model, cands)
      case Name(name) =>
        var named := if name == "" then None else Named(o.pool, cands, name);
        if named.Some? then Chosen(named.value) else BuiltIn(o, model, cands)
  }

  /**
   b was seen UP, serving the model and with a free slot; unless a plugin named it, it was also seen
   with less than 90% of its VRAM in use, by the affinity check or by the guard.
   */
  ghost predicate SeenFit(o: Observation, model: string, b: nat) {
    && b < |o.pool| && CanTake(o.pool[b], model)
    && (Below90(o.affinitySafe, o.pool[b].name) || Below90(o.guard, o.pool[b].name)
        || o.plugin == Name(o.pool[b].name))
  }

  /**
   Whatever changes while the choice is made, the chosen backend is not excluded and was seen to
   fit.
   */
  lemma PickSound(o: Observation, model: string, tried: set<string>)
    requires ValidObservation(o) && Pick(o, model, tried).Chosen?
    ensures var b := Pick(o, model, tried).b;
      SeenFit(o, model, b) && o.pool[b].name !in tried
  {
    var cands := Candidates(o, model, tried);
    var b := Pick(o, model, tried).b;
    if BuiltIn(o, model, cands) == Chosen(b) && Affinity(o, model, cands).None? {
      assert b in Guarded(o.pool, o.guard, cands);
    }
    UsableIsCanTake(o.pool[b], model);
    ChecksMean(o.pool[b], o.guard, model);
    ChecksMean(o.pool[b], o.affinitySafe, model);
  }

  /** Able to take the request and not excluded. */
  ghost predicate Candidate(o: Observation, model: string, tried: set<string>, i: nat) {
    i < |o.pool| && CanTake(o.pool[i], model) && o.pool[i].name !in tried
  }

  lemma CandidatesExact(o: Observation, model: string, tried: set<string>)
    ensures forall i: nat :: i in Candidates(o, model, tried) <==> Candidate(o, model, tried, i)
  {
    forall i: nat | i < |o.pool| ensures Usable(o.pool[i], model) <==> CanTake(o.pool[i], model) {
      UsableIsCanTake(o.pool[i], model);
    }
    hide Usable, CanTake;
  }

  /** The plugin names a candidate. */
  ghost predicate PluginNames(o: Observation, model: string, tried: set<string>) {
    o.plugin.Name? && o.plugin.name != "" &&
    exists i: nat :: Candidate(o, model, tried, i) && o.pool[i].name == o.plugin.name
  }

  lemma NamedIffPluginNames(o: Observation, model: string, tried: set<string>)
    requires o.plugin.Name? && o.plugin.name != ""
    ensures Named(o.pool, Candidates(o, model, tried), o.plugin.name).Some? <==> PluginNames(o, model, tried)
  {
    CandidatesExact(o, model, tried);
    hide Candidates, Candidate;
    var cands := Candidates(o, model, tried);
    var named := Named(o.pool, cands, o.plugin.name);
    forall i: nat | Candidate(o, model, tried, i) ensures i in cands && i < |o.pool| {
      CandidateInPool(o, model, tried, i);
    }
    if named.Some? { assert Candidate(o, model, tried, named.value); }
  }

  lemma CandidateInPool(o: Observation, model: string, tried: set<string>, i: nat)
    requires Candidate(o, model, tried, i)
    ensures i < |o.pool|
  {
  }

  /** The built-in logic refuses exactly if no candidate is safe and none is the sticky one. */
  lemma BuiltInRefuses(o: Observation, model: string, tried: set<string>)
    requires ValidObservation(o)
    ensures BuiltIn(o, model, Candidates(o, model, tried)) == NearVRAMLimit <==>
            forall i: nat | Candidate(o, model, tried, i) :: !Below90(o.guard, o.pool[i].name) && !Pinned(o, model, i)
  {
    CandidatesExact(o, model, tried);
    var cands := Candidates(o, model, tried);
    forall i | i in cands
      ensures IsSafe(o.pool[i], o.guard) <==> Below90(o.guard, o.pool[i].name)
      ensures IsSticky(o, model, i) <==> Pinned(o, model, i)
    {
      ChecksMean(o.pool[i], o.guard, model);
      StickyIsPinned(o, model, i);
    }
    hide IsSafe, IsSticky, Best, ValidObservation, Below90, Pinned, Candidates;
    var sticky := Affinity(o, model, cands);
    var safe := Guarded(o.pool, o.guard, cands);
    if sticky.Some? {
      assert Candidate(o, model, tried, sticky.value);
    } else if safe != [] {
      assert safe[0] in safe;
      assert Candidate(o, model, tried, safe[0]);
    }
  }

  /** A request is refused for exactly one of three reasons, each read off what was observed. */
  lemma RefusalReasons(o: Observation, model: string, tried: set<string>)
    requires ValidObservation(o)
    ensures Pick(o, model, tried) == NoBackend <==> forall i: nat :: !Candidate(o, model, tried, i)
    ensures Pick(o, model, tried) == PluginRefused <==>
            o.plugin == Refuse && exists i: nat :: Candidate(o, model, tried, i)
    ensures Pick(o, model, tried) == NearVRAMLimit <==>
            && (exists i: nat :: Candidate(o, model, tried, i))
            && o.plugin != Refuse && !PluginNames(o, model, tried)
            && (forall i: nat | Candidate(o, model, tried, i) ::
                  !Below90(o.guard, o.pool[i].name) && !Pinned(o, model, i))
  {
    CandidatesExact(o, model, tried);
    hide Below90, Pinned, ValidObservation, Affinity, Guarded, BuiltIn, PluginNames, Candidates;
    var cands := Candidates(o, model, tried);
    if cands != [] { assert cands[0] in cands; }
    assert cands == [] <==> forall i: nat :: !Candidate(o, model, tried, i);
    BuiltInRefuses(o, model, tried);
    BuiltInOutcome(o, model, cands);
    if o.plugin.Name? && o.plugin.name != "" { NamedIffPluginNames(o, model, tried); }
    OnlyNamesName(o, model, tried);
  }

  lemma BuiltInOutcome(o: Observation, model: string, cands: seq<nat>)
    requires ValidObservation(o) && InPool(cands, |o.pool|)
    ensures BuiltIn(o, model, cands).Chosen? || BuiltIn(o, model, cands) == NearVRAMLimit
  {
  }

  lemma OnlyNamesName(o: Observation, model: string, tried: set<string>)
    ensures PluginNames(o, model, tried) ==> o.plugin.Name? && o.plugin.name != ""
  {
  }

  /**
   The guard can be bypassed: in a state that does not change, a backend at the VRAM limit is chosen
   exactly if the plugin names it and it is the first candidate of that name.
   */
  lemma GuardBypass(
    pool: seq<Snapshot>, store: Store, sticky: Option<string>, plugin: PluginAnswer, model: string,
    tried: set<string>, b: nat)
    requires ValidObservation(Frozen(pool, store, sticky, plugin))
    requires b < |pool| && pool[b].name in store && store[pool[b].name].vramUsedPct >= 0.9
    ensures var o := Frozen(pool, store, sticky, plugin);
      Pick(o, model, tried) == Chosen(b) <==>
        && plugin.Name? && plugin.name != ""
        && Named(pool, Candidates(o, model, tried), plugin.name) == Some(b)
  {
    hide BuiltIn, Candidates, Named, CanTake, IsSafe, ValidObservation;
    var o := Frozen(pool, store, sticky, plugin);
    ChecksMean(pool[b], store, model);
    UnsafeIsNotBuiltIn(o, model, Candidates(o, model, tried), b);
  }

  lemma UnsafeIsNotBuiltIn(o: Observation, model: string, cands: seq<nat>, b: nat)
    requires ValidObservation(o) && InPool(cands, |o.pool|) && o.affinitySafe == o.guard
    requires b < |o.pool| && !IsSafe(o.pool[b], o.guard)
    ensures BuiltIn(o, model, cands) != Chosen(b)
  {
    hide IsSafe, Best;
    assert b !in Guarded(o.pool, o.guard, cands);
  }

  // ---- The winner ----

  /** i comes before j: a higher score, or the same score and an earlier place in the pool. */
  ghost predicate Better(o: Observation, model: string, i: nat, j: nat)
    requires ValidObservation(o) && i < |o.pool| && j < |o.pool|
  {
    ScoreAt(o, model, i) > ScoreAt(o, model, j) || (ScoreAt(o, model, i) == ScoreAt(o, model, j) && i < j)
  }

  lemma {:induction false} BestIsFirst(o: Observation, model: string, cands: seq<nat>)
    requires ValidObservation(o) && cands != [] && InPool(cands, |o.pool|)
    requires Increasing(cands)
    ensures forall i | i in cands && i != Best(o, model, cands) :: Better(o, model, Best(o, model, cands), i)
  {
    var n := |cands| - 1;
    if n > 0 {
      var front := cands[..n];
      assert forall i, j | 0 <= i < j < n :: front[i] < front[j];
      BestIsFirst(o, model, front);
      var b := Best(o, model, front);
      assert b < cands[n] by {
        var k :| 0 <= k < n && front[k] == b;
      }
      forall i | i in cands && i != Best(o, model, cands) ensures Better(o, model, Best(o, model, cands), i) {
        assert i in front || i == cands[n];
      }
    }
  }

  /**
   The choice does not depend on the losers: dropping any candidates but the winner leaves the
   winner as it is.
   */
  lemma {:induction false} LosersIrrelevant(o: Observation, model: string, cands: seq<nat>, fewer: seq<nat>)
    requires ValidObservation(o) && cands != [] && InPool(cands, |o.pool|)
    requires Increasing(cands) && Increasing(fewer) && InPool(fewer, |o.pool|) && forall i | i in fewer :: i in cands
    requires Best(o, model, cands) in fewer
    ensures Best(o, model, fewer) == Best(o, model, cands)
  {
    BestIsFirst(o, model, cands);
    BestIsFirst(o, model, fewer);
  }

  lemma {:induction false} WithoutIncreasing(pool: seq<Snapshot>, cands: seq<nat>, tried: set<string>)
    requires Increasing(cands) && InPool(cands, |pool|)
    ensures Increasing(Without(pool, cands, tried))
  {
    if cands != [] {
      var n := |cands| - 1;
      WithoutIncreasing(pool, cands[..n], tried);
      var front := Without(pool, cands[..n], tried);
      forall i | 0 <= i < |front| ensures front[i] < cands[n] {
        assert front[i] in front;
      }
    }
  }

  lemma {:induction false} GuardedIncreasing(pool: seq<Snapshot>, store: Store, cands: seq<nat>)
    requires Increasing(cands) && InPool(cands, |pool|)
    ensures Increasing(Guarded(pool, store, cands))
  {
    if cands != [] {
      var n := |cands| - 1;
      GuardedIncreasing(pool, store, cands[..n]);
      var front := Guarded(pool, store, cands[..n]);
      forall i | 0 <= i < |front| ensures front[i] < cands[n] {
        assert front[i] in front;
      }
    }
  }

  // ---- A state that does not change ----

  function Frozen(pool: seq<Snapshot>, store: Store, sticky: Option<string>, plugin: PluginAnswer): Observation {
    Observation(pool, plugin, sticky, store, store, store, pool, store, store)
  }

  /** Able to take the request, with less than 90% of the VRAM in use, and not excluded. */
  ghost predicate Eligible(o: Observation, model: string, tried: set<string>, i: nat) {
    i < |o.pool| && CanTake(o.pool[i], model) && Below90(o.guard, o.pool[i].name) && o.pool[i].name !in tried
  }

  /**
   The choice in a state that does not change, without a plugin: the pinned backend if it is
   eligible, else the eligible backend that comes before all others; a refusal if there is none.
   */
  lemma PickFrozen(pool: seq<Snapshot>, store: Store, sticky: Option<string>, model: string, tried: set<string>)
    requires ValidObservation(Frozen(pool, store, sticky, NoPlugin))
    ensures var o := Frozen(pool, store, sticky, NoPlugin);
      match Pick(o, model, tried)
      case Chosen(b) =>
        && Eligible(o, model, tried, b)
        && (if exists i: nat :: Eligible(o, model, tried, i) && Pinned(o, model, i)
            then Pinned(o, model, b)
            else forall i: nat | Eligible(o, model, tried, i) && i != b :: Better(o, model, b, i))
      case _ => forall i: nat :: !Eligible(o, model, tried, i)
  {
    var o := Frozen(pool, store, sticky, NoPlugin);
    var cands := Candidates(o, model, tried);
    AvailableExact(pool, model, |pool|);
    WithoutIncreasing(pool, AvailableIn(pool, model), tried);
    GuardedIncreasing(pool, store, cands);
    var safe := Guarded(pool, store, cands);
    CandidatesExact(o, model, tried);
    forall i: nat | i < |pool|
      ensures IsSafe(pool[i], store) <==> Below90(store, pool[i].name)
      ensures IsSticky(o, model, i) <==> Pinned(o, model, i)
    {
      ChecksMean(pool[i], store, model);
      StickyIsPinned(o, model, i);
    }
    hide Candidates, Below90, IsSafe, IsSticky, Pinned, CanTake;
    assert forall i: nat :: Eligible(o, model, tried, i) <==> i in safe;
    if cands != [] && Affinity(o, model, cands).None? && safe != [] {
      BestIsFirst(o, model, safe);
    }
  }

  /**
   What the guard does to a request that no plugin decides, in figures: a backend is only chosen if
   nothing is known of it or less than 90% of its VRAM is in use; and the guard turns the request down
   exactly if something could take it but everything that could has 90% or more in use.
   */
  lemma GuardIsThreshold(pool: seq<Snapshot>, store: Store, sticky: Option<string>, model: string, tried: set<string>)
    requires ValidObservation(Frozen(pool, store, sticky, NoPlugin))
    ensures var o := Frozen(pool, store, sticky, NoPlugin);
      var takers := set i: nat | i < |pool| && CanTake(pool[i], model) && pool[i].name !in tried;
      && (Pick(o, model, tried).Chosen? ==>
            var b := Pick(o, model, tried).b;
            b in takers && (pool[b].name in store ==> store[pool[b].name].vramUsedPct < 0.9))
      && (Pick(o, model, tried) == NearVRAMLimit <==>
            takers != {} &&
            forall i | i in takers :: pool[i].name in store && store[pool[i].name].vramUsedPct >= 0.9)
  {
    var o := Frozen(pool, store, sticky, NoPlugin);
    var takers := set i: nat | i < |pool| && CanTake(pool[i], model) && pool[i].name !in tried;
    PickFrozen(pool, store, sticky, model, tried);
    RefusalReasons(o, model, tried);
    assert forall i: nat :: i in takers <==> Candidate(o, model, tried, i);
    assert takers != {} <==> exists i: nat :: Candidate(o, model, tried, i) by {
      if i: nat :| Candidate(o, model, tried, i) { assert i in takers; }
    }
    hide Pick, CanTake;
  }
}
