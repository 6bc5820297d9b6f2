/**
 The concurrency sizing of scraper.go: what one poll of a backend does to its limit, that the
 limit is the largest one that fits, and that a scraped backend is never unlimited again.
 */
module Scraping {
  import opened Options
  import opened Quotients
  import opened Sums
  import opened Backends
  import opened States
  import opened ModelNames
  import opened GateSpec

  const DEFAULT_COLD_CONCURRENT := 4
  const VLLM_CONCURRENT := 20
  const BYTES_PER_MB := 1024 * 1024
  const KV_FLOOR := 256 * BYTES_PER_MB

  /** A model that the backend reports as resident. */
  datatype Resident = Resident(name: string, size: int, sizeVRAM: int)

  // ---- Sizing ----

  /** One tenth of the model, or a floor for models too small to divide. */
  function KvPerRequest(modelBytes: int): int {
    if modelBytes / 10 == 0 then KV_FLOOR else modelBytes / 10
  }

  function AutoConcurrent(vramTotalMB: int, usedBytes: int, modelBytes: int, isCPU: bool): int {
    if vramTotalMB <= 0 || modelBytes <= 0 then
      if isCPU then 2 else 4
    else
      var freeBytes := vramTotalMB * BYTES_PER_MB - usedBytes;
      if freeBytes <= 0 then 1
      else
        var n := freeBytes / KvPerRequest(modelBytes);
        var clamped := if n < 1 then 1 else if n > 32 then 32 else n;
        if isCPU then if clamped / 2 < 1 then 1 else clamped / 2 else clamped
  }

  lemma AutoRange(vramTotalMB: int, usedBytes: int, modelBytes: int, isCPU: bool)
    ensures 1 <= AutoConcurrent(vramTotalMB, usedBytes, modelBytes, isCPU) <= 32
  {
  }

  /** Without a known size of memory or model the limit is a guess. */
  lemma UnknownSize(vramTotalMB: int, usedBytes: int, modelBytes: int)
    requires vramTotalMB <= 0 || modelBytes <= 0
    ensures AutoConcurrent(vramTotalMB, usedBytes, modelBytes, false) == 4
    ensures AutoConcurrent(vramTotalMB, usedBytes, modelBytes, true) == 2
  {
  }

  /**
   On a GPU of known size the limit is the largest n up to 32 such that n requests, at a tenth of the
   model each, or at 256 MB for a model of less than ten bytes, fit into the free memory; and 1 if not
   even two do. On a CPU there is room for half as many, and at least for 1.
   */
  lemma LargestThatFits(vramTotalMB: int, usedBytes: int, modelBytes: int, n: int)
    requires vramTotalMB > 0 && modelBytes > 0 && 1 <= n <= 32
    ensures var kv := if modelBytes >= 10 then modelBytes / 10 else 268_435_456;
      n <= AutoConcurrent(vramTotalMB, usedBytes, modelBytes, false) <==>
        n == 1 || n * kv <= vramTotalMB * 1_048_576 - usedBytes
    ensures var kv := if modelBytes >= 10 then modelBytes / 10 else 268_435_456;
      n <= AutoConcurrent(vramTotalMB, usedBytes, modelBytes, true) <==>
        n == 1 || (n <= 16 && 2 * n * kv <= vramTotalMB * 1_048_576 - usedBytes)
  {
    FitsOnGpu(vramTotalMB, usedBytes, modelBytes, n);
    CpuIsHalf(vramTotalMB, usedBytes, modelBytes, n);
    hide AutoConcurrent;
    if 1 < n <= 16 { FitsOnGpu(vramTotalMB, usedBytes, modelBytes, 2 * n); }
    AutoRange(vramTotalMB, usedBytes, modelBytes, false);
  }

  lemma FitsOnGpu(vramTotalMB: int, usedBytes: int, modelBytes: int, n: int)
    requires vramTotalMB > 0 && modelBytes > 0 && 1 <= n <= 32
    ensures var kv := if modelBytes >= 10 then modelBytes / 10 else 268_435_456;
      n <= AutoConcurrent(vramTotalMB, usedBytes, modelBytes, false) <==>
        n == 1 || n * kv <= vramTotalMB * 1_048_576 - usedBytes
  {
    var free := vramTotalMB * 1_048_576 - usedBytes;
    var kv := if modelBytes >= 10 then modelBytes / 10 else 268_435_456;
    assert kv == KvPerRequest(modelBytes) > 0;
    QuotientFits(free, kv, n);
    if free <= 0 {
      assert n * kv > 0;
    }
  }

  lemma CpuIsHalf(vramTotalMB: int, usedBytes: int, modelBytes: int, n: int)
    requires vramTotalMB > 0 && modelBytes > 0 && n >= 1
    ensures n <= AutoConcurrent(vramTotalMB, usedBytes, modelBytes, true) <==>
            n == 1 || 2 * n <= AutoConcurrent(vramTotalMB, usedBytes, modelBytes, false)
  {
  }

  /** What fits still fits when less is used. */
  lemma StillFits(vramTotalMB: int, usedBytes: int, lessUsed: int, modelBytes: int, isCPU: bool, n: int)
    requires vramTotalMB > 0 && modelBytes > 0 && lessUsed <= usedBytes && 1 <= n <= 32
    requires n <= AutoConcurrent(vramTotalMB, usedBytes, modelBytes, isCPU)
    ensures n <= AutoConcurrent(vramTotalMB, lessUsed, modelBytes, isCPU)
  {
    hide AutoConcurrent;
    LargestThatFits(vramTotalMB, usedBytes, modelBytes, n);
    LargestThatFits(vramTotalMB, lessUsed, modelBytes, n);
  }

  /** More free memory never means fewer slots, and more than one slot always fits. */
  lemma MoreMemoryMoreSlots(vramTotalMB: int, usedBytes: int, lessUsed: int, modelBytes: int, isCPU: bool)
    requires vramTotalMB > 0 && modelBytes > 0 && lessUsed <= usedBytes
    ensures AutoConcurrent(vramTotalMB, usedBytes, modelBytes, isCPU)
         <= AutoConcurrent(vramTotalMB, lessUsed, modelBytes, isCPU)
    ensures var n := AutoConcurrent(vramTotalMB, usedBytes, modelBytes, isCPU);
      n > 1 ==> n * (modelBytes / 10) <= vramTotalMB * 1_048_576 - usedBytes
  {
    AutoRange(vramTotalMB, usedBytes, modelBytes, isCPU);
    hide AutoConcurrent;
    var n := AutoConcurrent(vramTotalMB, usedBytes, modelBytes, isCPU);
    StillFits(vramTotalMB, usedBytes, lessUsed, modelBytes, isCPU, n);
    if n > 1 { SlotsFit(vramTotalMB, usedBytes, modelBytes, isCPU, n); }
  }

  lemma SlotsFit(vramTotalMB: int, usedBytes: int, modelBytes: int, isCPU: bool, n: int)
    requires vramTotalMB > 0 && modelBytes > 0 && 1 < n <= 32
    requires n <= AutoConcurrent(vramTotalMB, usedBytes, modelBytes, isCPU)
    ensures n * (modelBytes / 10) <= vramTotalMB * 1_048_576 - usedBytes
  {
    hide AutoConcurrent;
    LargestThatFits(vramTotalMB, usedBytes, modelBytes, n);
    var kv := if modelBytes >= 10 then modelBytes / 10 else 268_435_456;
    assert n * (modelBytes / 10) <= n * kv <= 2 * n * kv;
  }

  // ---- One poll ----

  function Vram(m: Resident): int { m.sizeVRAM }
  function Size(m: Resident): int { m.size }

  /** What a model occupies: VRAM on a GPU, its total size on a CPU. */
  function Footprint(m: Resident): int {
    if m.sizeVRAM == 0 then m.size else m.sizeVRAM
  }

  function Largest(models: seq<Resident>): (n: int)
    ensures n >= 0 && forall i | 0 <= i < |models| :: Footprint(models[i]) <= n
    ensures n == 0 || exists i :: 0 <= i < |models| && Footprint(models[i]) == n
  {
    if models == [] then 0
    else
      var k := |models| - 1;
      var rest := Largest(models[..k]);
      assert forall i | 0 <= i < k :: models[..k][i] == models[i];
      if Footprint(models[k]) > rest then Footprint(models[k]) else rest
  }

  function UsedBytes(models: seq<Resident>): int {
    if Sum(models, Vram) == 0 then Sum(models, Size) else Sum(models, Vram)
  }

  /** The stored limit after a successful poll that found the given models resident. */
  function AutoAfter(maxConcurrent: int, auto: int, vramTotalMB: int, models: seq<Resident>): int {
    if maxConcurrent != 0 then auto
    else if models != [] then
      AutoConcurrent(vramTotalMB, UsedBytes(models), Largest(models), Sum(models, Vram) == 0)
    else if auto == 0 then DEFAULT_COLD_CONCURRENT
    else auto
  }

  function Names(models: seq<Resident>): seq<string> {
    if models == [] then [] else Names(models[..|models| - 1]) + [Normalize(models[|models| - 1].name)]
  }

  lemma {:induction false} NamesMean(models: seq<Resident>)
    ensures |Names(models)| == |models|
    ensures forall i | 0 <= i < |models| :: Names(models)[i] == Normalize(models[i].name)
  {
    hide Normalize;
    if models != [] { NamesMean(models[..|models| - 1]); }
  }

  /**
   The figures of a poll, field by field: the bytes in use are the VRAM of all models, or their sizes
   if none uses VRAM; the largest model is measured by its VRAM, or by its size if it uses none.
   */
  lemma {:induction false} TallyMeans(models: seq<Resident>, m: Resident)
    ensures Vram(m) == m.sizeVRAM && Size(m) == m.size
    ensures Sum(models, Vram) != 0 ==> UsedBytes(models) == Sum(models, Vram)
    ensures Sum(models, Vram) == 0 ==> UsedBytes(models) == Sum(models, Size)
    ensures forall i | 0 <= i < |models| ::
              (if models[i].sizeVRAM != 0 then models[i].sizeVRAM else models[i].size) <= Largest(models)
    ensures Largest(models) > 0 ==>
              exists i :: (0 <= i < |models| &&
                           Largest(models) == if models[i].sizeVRAM != 0 then models[i].sizeVRAM else models[i].size)
  {
    forall i | 0 <= i < |models|
      ensures Footprint(models[i]) == if models[i].sizeVRAM != 0 then models[i].sizeVRAM else models[i].size
    {
    }
  }

  /** The loop over the resident models. */
  method Tally(models: seq<Resident>) returns (loaded: seq<string>, sumVRAM: int, sumSize: int, largest: int)
    ensures loaded == Names(models)
    ensures sumVRAM == Sum(models, Vram) && sumSize == Sum(models, Size)
    ensures largest == Largest(models)
  {
    loaded, sumVRAM, sumSize, largest := [], 0, 0, 0;
    for i := 0 to |models|
      invariant loaded == Names(models[..i])
      invariant sumVRAM == Sum(models[..i], Vram) && sumSize == Sum(models[..i], Size)
      invariant largest == Largest(models[..i])
    {
      var m := models[i];
      assert models[..i + 1][..i] == models[..i];
      loaded := loaded + [Normalize(m.name)];
      sumVRAM := sumVRAM + m.sizeVRAM;
      sumSize := sumSize + m.size;
      var footprint := m.sizeVRAM;
      if footprint == 0 { footprint := m.size; }
      if footprint > largest { largest := footprint; }
    }
    assert models[..|models|] == models;
  }

  /** The used fraction of the VRAM; only reported when the total is known. */
  function UsedFraction(vramTotalMB: int, usedBytes: int): real {
    if vramTotalMB > 0 then usedBytes as real / (vramTotalMB * BYTES_PER_MB) as real else 0.0
  }

  /** The fraction times the memory in bytes is what is used. */
  lemma UsedFractionMeans(vramTotalMB: int, usedBytes: int)
    requires vramTotalMB > 0
    ensures UsedFraction(vramTotalMB, usedBytes) * (vramTotalMB * 1_048_576) as real == usedBytes as real
  {
  }

  /** A successful poll of an Ollama backend: what it stores in the backend and what it reports. */
  method ScrapeOllama(b: Backend, models: seq<Resident>) returns (state: BackendState)
    modifies b`autoConcurrent
    ensures b.Read() == old(b.Read()).(
              autoConcurrent := AutoAfter(b.maxConcurrent, old(b.autoConcurrent), b.vramTotalMB, models))
    ensures state == if models == [] then BackendState(ModelCold, [], 0, 0.0, 0, b.inflight)
                     else BackendState(ModelWarm, Names(models), UsedBytes(models),
                                       UsedFraction(b.vramTotalMB, UsedBytes(models)), 0, b.inflight)
  {
    state := BackendState(ModelCold, [], 0, 0.0, 0, b.inflight);
    if b.maxConcurrent == 0 && |models| == 0 && b.autoConcurrent == 0 {
      b.SetAutoConcurrent(DEFAULT_COLD_CONCURRENT);
    }
    if |models| > 0 {
      var loaded, sumVRAM, sumSize, largest := Tally(models);
      var isCPU := sumVRAM == 0;
      var usedBytes := sumVRAM;
      if usedBytes == 0 { usedBytes := sumSize; }
      state := state.(modelStatus := ModelWarm, loadedModels := loaded, vramUsedBytes := usedBytes);
      if b.vramTotalMB > 0 {
        state := state.(vramUsedPct := usedBytes as real / (b.vramTotalMB * BYTES_PER_MB) as real);
      }
      if b.maxConcurrent == 0 {
        b.SetAutoConcurrent(AutoConcurrent(b.vramTotalMB, usedBytes, largest, isCPU));
      }
    }
  }

  // ---- Overlapping polls of one backend ----

  /** What a successful poll saw. */
  datatype Poll = OllamaPoll(models: seq<Resident>) | VLLMPoll

  /** Seeding is a check and a later store; the other polls only store. */
  datatype Pc = Polled(poll: Poll) | Storing(poll: Poll, value: int) | Scraped

  datatype State = State(auto: int, pcs: seq<Pc>)

  datatype Step = Begin(poll: Poll) | Check(t: nat) | Store(t: nat)

  predicate StepEnabled(s: State, step: Step) {
    match step
    case Begin(_) => true
    case Check(t) => t < |s.pcs| && s.pcs[t].Polled?
    case Store(t) => t < |s.pcs| && s.pcs[t].Storing?
  }

  function Apply(maxConcurrent: int, vramTotalMB: int, s: State, step: Step): State
    requires StepEnabled(s, step)
  {
    match step
    case Begin(poll) => s.(pcs := s.pcs + [Polled(poll)])
    case Check(t) =>
      var value := match s.pcs[t].poll
        case VLLMPoll => VLLM_CONCURRENT
        case OllamaPoll(models) => AutoAfter(0, s.auto, vramTotalMB, models);
      var stores := maxConcurrent == 0 && (s.pcs[t].poll == OllamaPoll([]) ==> s.auto == 0);
      s.(pcs := s.pcs[t := if stores then Storing(s.pcs[t].poll, value) else Scraped])
    case Store(t) => State(s.pcs[t].value, s.pcs[t := Scraped])
  }

  ghost predicate IsRun(maxConcurrent: int, vramTotalMB: int, tr: seq<Step>)
    decreases |tr|, 0
  {
    tr == [] ||
    (&& IsRun(maxConcurrent, vramTotalMB, tr[..|tr| - 1])
     && StepEnabled(After(maxConcurrent, vramTotalMB, tr[..|tr| - 1]), tr[|tr| - 1]))
  }

  ghost function After(maxConcurrent: int, vramTotalMB: int, tr: seq<Step>): State
    requires IsRun(maxConcurrent, vramTotalMB, tr)
    decreases |tr|
  {
    if tr == [] then State(0, [])
    else Apply(maxConcurrent, vramTotalMB, After(maxConcurrent, vramTotalMB, tr[..|tr| - 1]), tr[|tr| - 1])
  }

  /**
   Once one poll of an uncapped backend has gone through, its limit stays between 1 and 32 for
   the rest of the run, however polls overlap; a configured cap is never touched.
   */
  lemma {:induction false} ScrapedStaysLimited(maxConcurrent: int, vramTotalMB: int, tr: seq<Step>)
    requires IsRun(maxConcurrent, vramTotalMB, tr)
    ensures var s := After(maxConcurrent, vramTotalMB, tr);
      && (s.auto == 0 || 1 <= s.auto <= 32)
      && (forall t | 0 <= t < |s.pcs| && s.pcs[t].Storing? :: 1 <= s.pcs[t].value <= 32)
      && (maxConcurrent == 0 && (exists t :: 0 <= t < |s.pcs| && s.pcs[t].Scraped?) ==> s.auto >= 1)
      && (maxConcurrent != 0 ==> s.auto == 0)
      && (maxConcurrent != 0 ==> forall t | 0 <= t < |s.pcs| :: !s.pcs[t].Storing?)
    decreases |tr|
  {
    if tr != [] {
      var front, last := tr[..|tr| - 1], tr[|tr| - 1];
      ScrapedStaysLimited(maxConcurrent, vramTotalMB, front);
      var s := After(maxConcurrent, vramTotalMB, front);
      if last.Check? && s.pcs[last.t].poll.OllamaPoll? {
        var models := s.pcs[last.t].poll.models;
        AutoRange(vramTotalMB, UsedBytes(models), Largest(models), Sum(models, Vram) == 0);
      }
      var s' := After(maxConcurrent, vramTotalMB, tr);
      if maxConcurrent == 0 && exists t :: 0 <= t < |s'.pcs| && s'.pcs[t].Scraped? {
        var t :| 0 <= t < |s'.pcs| && s'.pcs[t].Scraped?;
        if t < |s.pcs| && s.pcs[t].Scraped? {
          assert s.auto >= 1;
        }
      }
    }
  }

  /**
   After one poll has gone through, a backend has a limit exactly if its configured cap is not
   negative: polls only size a backend whose cap is 0, while any cap below 1 counts as none.
   */
  lemma PolledIsLimited(maxConcurrent: int, vramTotalMB: int, tr: seq<Step>, b: Snapshot)
    requires IsRun(maxConcurrent, vramTotalMB, tr)
    requires b.maxConcurrent == maxConcurrent && b.autoConcurrent == After(maxConcurrent, vramTotalMB, tr).auto
    requires var s := After(maxConcurrent, vramTotalMB, tr); exists t :: 0 <= t < |s.pcs| && s.pcs[t].Scraped?
    ensures Effective(b) >= 1 <==> maxConcurrent >= 0
    ensures b.up ==> (UnlimitedUp(b) <==> maxConcurrent < 0)
  {
    ScrapedStaysLimited(maxConcurrent, vramTotalMB, tr);
  }

  /** A poll of a vLLM backend stores 20 if no cap is configured; one of a capped backend stores nothing. */
  lemma VLLMStoresTwenty(maxConcurrent: int, vramTotalMB: int, s: State, t: nat)
    requires t < |s.pcs| && s.pcs[t] == Polled(VLLMPoll)
    ensures var s' := Apply(maxConcurrent, vramTotalMB, s, Check(t));
      && s'.auto == s.auto
      && (maxConcurrent != 0 ==> s'.pcs[t] == Scraped)
      && (maxConcurrent == 0 ==> s'.pcs[t].Storing? && Apply(maxConcurrent, vramTotalMB, s', Store(t)).auto == 20)
  {
  }

  /** An empty poll that found no limit and is about to store the default. */
  predicate Seeds(pc: Pc) {
    pc.Storing? && pc.poll == OllamaPoll([])
  }

  ghost predicate StoredIn(tr: seq<Step>) {
    exists j :: 0 <= j < |tr| && tr[j].Store?
  }

  /** Poll t made its check in the run, and nothing had been stored until then. */
  ghost predicate CheckedFirst(tr: seq<Step>, t: nat) {
    exists i :: 0 <= i < |tr| && tr[i] == Check(t) && !StoredIn(tr[..i])
  }

  lemma CheckedFirstGrows(tr: seq<Step>, step: Step, t: nat)
    ensures CheckedFirst(tr, t) ==> CheckedFirst(tr + [step], t)
    ensures step == Check(t) && !StoredIn(tr) ==> CheckedFirst(tr + [step], t)
  {
    if i :| 0 <= i < |tr| && tr[i] == Check(t) && !StoredIn(tr[..i]) {
      assert (tr + [step])[..i] == tr[..i] && (tr + [step])[i] == Check(t);
    }
    assert (tr + [step])[..|tr|] == tr && (tr + [step])[|tr|] == step;
  }

  lemma {:induction false} SeedHistory(maxConcurrent: int, vramTotalMB: int, tr: seq<Step>)
    requires IsRun(maxConcurrent, vramTotalMB, tr)
    ensures var s := After(maxConcurrent, vramTotalMB, tr);
      && (s.auto != 0 <==> StoredIn(tr))
      && (forall t: nat | t < |s.pcs| && Seeds(s.pcs[t]) ::
            s.pcs[t].value == DEFAULT_COLD_CONCURRENT && CheckedFirst(tr, t))
    decreases |tr|
  {
    if tr != [] {
      var front, last := tr[..|tr| - 1], tr[|tr| - 1];
      SeedHistory(maxConcurrent, vramTotalMB, front);
      ScrapedStaysLimited(maxConcurrent, vramTotalMB, front);
      assert tr == front + [last];
      assert StoredIn(tr) <==> StoredIn(front) || last.Store? by {
        if StoredIn(front) {
          var j :| 0 <= j < |front| && front[j].Store?;
          assert tr[j].Store?;
        }
      }
      var s := After(maxConcurrent, vramTotalMB, tr);
      forall t: nat | t < |s.pcs| && Seeds(s.pcs[t])
        ensures s.pcs[t].value == DEFAULT_COLD_CONCURRENT && CheckedFirst(tr, t)
      {
        CheckedFirstGrows(front, last, t);
      }
    }
  }

  /**
   Whether a limit survives the model being unloaded. An empty poll whose check finds a limit leaves
   it alone; one whose check found none stores the default, and thereby replaces a limit exactly when
   another poll has stored one between the check and that store.
   */
  lemma UnloadKeepsLimit(maxConcurrent: int, vramTotalMB: int, tr: seq<Step>, t: nat)
    requires IsRun(maxConcurrent, vramTotalMB, tr) && t < |After(maxConcurrent, vramTotalMB, tr).pcs|
    ensures var s := After(maxConcurrent, vramTotalMB, tr);
      s.pcs[t] == Polled(OllamaPoll([])) && s.auto != 0 ==>
        Apply(maxConcurrent, vramTotalMB, s, Check(t)) == s.(pcs := s.pcs[t := Scraped])
    ensures var s := After(maxConcurrent, vramTotalMB, tr);
      Seeds(s.pcs[t]) ==>
        && Apply(maxConcurrent, vramTotalMB, s, Store(t)).auto == 4
        && (s.auto != 0 <==> exists i, j :: 0 <= i < j < |tr| && tr[i] == Check(t) && tr[j].Store?)
  {
    SeedHistory(maxConcurrent, vramTotalMB, tr);
    var s := After(maxConcurrent, vramTotalMB, tr);
    if Seeds(s.pcs[t]) && s.auto != 0 {
      var i :| 0 <= i < |tr| && tr[i] == Check(t) && !StoredIn(tr[..i]);
      var j :| 0 <= j < |tr| && tr[j].Store?;
      assert forall k | 0 <= k < i :: tr[..i][k] == tr[k];
      assert i < j;
    }
  }

  const SMALL := Resident("small", 10, 10)

  /**
   The polls before and after a model is loaded overlap: the limit of 32 that the second one has
   computed is replaced by the default of 4 that the first one decided on earlier.
   */
  lemma LateSeedOverwrites()
    ensures var tr := [Begin(OllamaPoll([])), Begin(OllamaPoll([SMALL])), Check(0), Check(1), Store(1)];
      && IsRun(0, 1024, tr) && After(0, 1024, tr).auto == 32
      && IsRun(0, 1024, tr + [Store(0)]) && After(0, 1024, tr + [Store(0)]).auto == 4
  {
    var t1 := Snoc(0, 1024, [], Begin(OllamaPoll([])));
    var t2 := Snoc(0, 1024, t1, Begin(OllamaPoll([SMALL])));
    var t3 := Snoc(0, 1024, t2, Check(0));
    assert After(0, 1024, t3) == State(0, [Storing(OllamaPoll([]), 4), Polled(OllamaPoll([SMALL]))]);
    SizeOfSmall();
    var t4 := Snoc(0, 1024, t3, Check(1));
    assert After(0, 1024, t4) == State(0, [Storing(OllamaPoll([]), 4), Storing(OllamaPoll([SMALL]), 32)]);
    var t5 := Snoc(0, 1024, t4, Store(1));
    var _ := Snoc(0, 1024, t5, Store(0));
    assert t5 == [Begin(OllamaPoll([])), Begin(OllamaPoll([SMALL])), Check(0), Check(1), Store(1)];
  }

  lemma SizeOfSmall()
    ensures AutoAfter(0, 0, 1024, [SMALL]) == 32
  {
    assert [SMALL][..0] == [];
    assert Sum([SMALL], Vram) == 10 && Largest([SMALL]) == 10;
  }

  lemma Snoc(maxConcurrent: int, vramTotalMB: int, tr: seq<Step>, step: Step) returns (tr': seq<Step>)
    requires IsRun(maxConcurrent, vramTotalMB, tr)
    requires StepEnabled(After(maxConcurrent, vramTotalMB, tr), step)
    ensures tr' == tr + [step] && IsRun(maxConcurrent, vramTotalMB, tr')
    ensures After(maxConcurrent, vramTotalMB, tr') ==
            Apply(maxConcurrent, vramTotalMB, After(maxConcurrent, vramTotalMB, tr), step)
  {
    tr' := tr + [step];
    assert tr'[..|tr|] == tr;
  }

  // ---- The limit of the gate ----

  /**
   The limit that the gate reads from the pool is the exact positive sum of the UP capacities
   when something is UP and nothing UP is unlimited, and the sentinel in the other cases.
   */
  lemma GateLimitFromPool(c: Config, pool: seq<Snapshot>)
    requires c.dynamic
    ensures var anyUp := exists i :: 0 <= i < |pool| && pool[i].up;
      var anyUnlimited := exists i :: 0 <= i < |pool| && UnlimitedUp(pool[i]);
      if anyUp && !anyUnlimited
      then Limit(c, Total(pool)) == Sum(pool, UpCapacity) >= 1
      else Limit(c, Total(pool)) == MAX_INT32
  {
    TotalIsZero(pool);
  }

  /** With every UP backend capped or scraped, the gate counts exactly the capacity of the UP ones. */
  lemma ScrapedPoolGatesOnCapacity(c: Config, pool: seq<Snapshot>)
    requires c.dynamic
    requires forall i | 0 <= i < |pool| && pool[i].up :: pool[i].maxConcurrent > 0 || pool[i].autoConcurrent >= 1
    requires exists i :: 0 <= i < |pool| && pool[i].up
    ensures Limit(c, Total(pool)) == Sum(pool, UpCapacity) >= 1
  {
    GateLimitFromPool(c, pool);
  }
}
