/**
 The gate and the backend slots together. A request that holds a gate slot runs the loop of
 ServeHTTP: it looks at the backends one by one, picks one it has not tried, claims a slot with a
 load and a separate swap, forwards, and returns the slot. Every step may interleave with the
 steps of any number of other requests.
 */
module WholeSystem {
  import opened Options
  import opened Sums
  import Gate = GateSpec
  import Protocol = GateProtocol
  import GateOwnership
  import GateLimits
  import Backends

  /** caps[b] is the configured cap of backend b; without a positive one the scraper's value counts. */
  datatype Config = Config(gate: Gate.Config, caps: seq<int>)

  /** Where a request that holds a gate slot stands. Backends are named by index. */
  datatype Phase =
    | Scan(tried: set<nat>, next: nat, found: set<nat>)  // Available has looked at the backends below next
    | Picked(tried: set<nat>, b: nat)                    // about to read the limit of b
    | Reserving(tried: set<nat>, b: nat, limit: int)     // about to load the counter of b
    | Loaded(tried: set<nat>, b: nat, limit: int, cur: int)  // about to swap cur for cur + 1
    | Serving(tried: set<nat>, b: nat)                   // holds a slot of b
    | Finished                                           // only the deferred Release is left

  const START := Scan({}, 0, {})

  /**
   slots[b] is the inflight counter of backend b and auto[b] the limit the scraper last stored;
   phases[t] matters once thread t holds a gate slot.
   */
  datatype State = State(g: Protocol.State, slots: seq<int>, auto: seq<int>, phases: seq<Phase>)

  datatype Step =
    | GateStep(step: Protocol.Step)
    | Rescrape(b: nat, n: int)        // the scraper stores a new limit
    | Look(t: nat, fits: bool)        // check the next backend; fits: it is UP and serves the model
    | Choose(t: nat, b: nat)
    | GiveUp(t: nat, near: set<nat>)  // nothing is left but the backends that the guard saw near the VRAM limit
    | PluginRefuses(t: nat)           // something is left, but the plugin turns the request down
    | ReadCap(t: nat)
    | LoadCounter(t: nat)
    | SwapCounter(t: nat)
    | ForwardFails(t: nat, gone: bool)
    | Answer(t: nat)

  function Init(c: Config): State {
    State(Protocol.INIT, seq(|c.caps|, _ => 0), seq(|c.caps|, _ => 0), [])
  }

  /** The limit in force for backend b; 0 means unlimited. */
  function CapOf(c: Config, s: State, b: nat): int
    requires b < |c.caps| && b < |s.auto|
  {
    if c.caps[b] > 0 then c.caps[b] else if s.auto[b] > 0 then s.auto[b] else 0
  }

  predicate HasRoom(c: Config, s: State, b: nat) {
    b < |c.caps| && b < |s.slots| && b < |s.auto| && (CapOf(c, s, b) <= 0 || s.slots[b] < CapOf(c, s, b))
  }

  predicate Active(s: State, t: nat) {
    t < |s.g.pcs| && t < |s.phases| && s.g.pcs[t].Holding?
  }

  predicate StepEnabled(c: Config, s: State, step: Step) {
    match step
    case GateStep(g) =>
      && Protocol.StepEnabled(s.g, g)
      && (g.ReadLimit? && s.g.pcs[g.t].Holding? ==> Active(s, g.t) && s.phases[g.t].Finished?)
    case Rescrape(b, _) => b < |s.auto|
    case Look(t, _) => Active(s, t) && s.phases[t].Scan? && s.phases[t].next < |c.caps|
    case Choose(t, b) =>
      && Active(s, t) && s.phases[t].Scan? && s.phases[t].next == |c.caps|
      && b < |c.caps| && b in s.phases[t].found && b !in s.phases[t].tried
    case GiveUp(t, near) =>
      && Active(s, t) && s.phases[t].Scan? && s.phases[t].next == |c.caps|
      && s.phases[t].found - s.phases[t].tried <= near
    case PluginRefuses(t) =>
      && Active(s, t) && s.phases[t].Scan? && s.phases[t].next == |c.caps|
      && s.phases[t].found - s.phases[t].tried != {}
    case ReadCap(t) => Active(s, t) && s.phases[t].Picked? && s.phases[t].b < |c.caps| && s.phases[t].b < |s.auto|
    case LoadCounter(t) => Active(s, t) && s.phases[t].Reserving? && s.phases[t].b < |s.slots|
    case SwapCounter(t) => Active(s, t) && s.phases[t].Loaded? && s.phases[t].b < |s.slots|
    case ForwardFails(t, _) => Active(s, t) && s.phases[t].Serving? && s.phases[t].b < |s.slots|
    case Answer(t) => Active(s, t) && s.phases[t].Serving? && s.phases[t].b < |s.slots|
  }

  function Apply(c: Config, s: State, step: Step): State
    requires StepEnabled(c, s, step)
  {
    match step
    case GateStep(g) =>
      s.(g := Protocol.Apply(c.gate, s.g, g), phases := if g.Arrive? then s.phases + [START] else s.phases)
    case Rescrape(b, n) =>
      s.(auto := s.auto[b := n])
    case Look(t, fits) =>
      var Scan(tried, next, found) := s.phases[t];
      var found' := if fits && HasRoom(c, s, next) then found + {next} else found;
      s.(phases := s.phases[t := Scan(tried, next + 1, found')])
    case Choose(t, b) =>
      s.(phases := s.phases[t := Picked(s.phases[t].tried + {b}, b)])
    case GiveUp(t, _) =>
      s.(phases := s.phases[t := Finished])
    case PluginRefuses(t) =>
      s.(phases := s.phases[t := Finished])
    case ReadCap(t) =>
      var Picked(tried, b) := s.phases[t];
      s.(phases := s.phases[t := Reserving(tried, b, CapOf(c, s, b))])
    case LoadCounter(t) =>
      var Reserving(tried, b, limit) := s.phases[t];
      if limit <= 0 then
        s.(slots := s.slots[b := s.slots[b] + 1], phases := s.phases[t := Serving(tried, b)])
      else if s.slots[b] >= limit then
        s.(phases := s.phases[t := Scan(tried, 0, {})])
      else
        s.(phases := s.phases[t := Loaded(tried, b, limit, s.slots[b])])
    case SwapCounter(t) =>
      var Loaded(tried, b, limit, cur) := s.phases[t];
      if s.slots[b] == cur then
        s.(slots := s.slots[b := cur + 1], phases := s.phases[t := Serving(tried, b)])
      else
        s.(phases := s.phases[t := Reserving(tried, b, limit)])
    case ForwardFails(t, gone) =>
      var Serving(tried, b) := s.phases[t];
      s.(slots := s.slots[b := s.slots[b] - 1],
         phases := s.phases[t := if gone then Finished else Scan(tried, 0, {})])
    case Answer(t) =>
      var b := s.phases[t].b;
      s.(slots := s.slots[b := s.slots[b] - 1], phases := s.phases[t := Finished])
  }

  ghost predicate IsRun(c: Config, tr: seq<Step>)
    decreases |tr|, 0
  {
    tr == [] || (IsRun(c, tr[..|tr| - 1]) && StepEnabled(c, After(c, tr[..|tr| - 1]), tr[|tr| - 1]))
  }

  ghost function After(c: Config, tr: seq<Step>): State
    requires IsRun(c, tr)
    decreases |tr|
  {
    if tr == [] then Init(c) else Apply(c, After(c, tr[..|tr| - 1]), tr[|tr| - 1])
  }

  /** Extending a run by one step. */
  lemma Advance(c: Config, tr: seq<Step>, step: Step) returns (tr': seq<Step>)
    requires IsRun(c, tr) && StepEnabled(c, After(c, tr), step)
    ensures tr' == tr + [step] && IsRun(c, tr') && After(c, tr') == Apply(c, After(c, tr), step)
  {
    hide Apply, StepEnabled;
    tr' := tr + [step];
    assert tr'[..|tr|] == tr;
  }

  // ---- The gate inside the system runs as the gate alone ----

  /** The steps of the gate in a run of the system. */
  function GateSteps(tr: seq<Step>): seq<Protocol.Step> {
    if tr == [] then []
    else
      var last := tr[|tr| - 1];
      GateSteps(tr[..|tr| - 1]) + if last.GateStep? then [last.step] else []
  }

  lemma {:induction false} GateRefined(c: Config, tr: seq<Step>)
    requires IsRun(c, tr)
    ensures Protocol.IsRun(c.gate, Protocol.INIT, GateSteps(tr))
    ensures After(c, tr).g == Protocol.After(c.gate, Protocol.INIT, GateSteps(tr))
    decreases |tr|
  {
    if tr != [] {
      var front, last := tr[..|tr| - 1], tr[|tr| - 1];
      GateRefined(c, front);
      if last.GateStep? {
        Protocol.RunSnoc(c.gate, Protocol.INIT, GateSteps(front), last.step);
      } else {
        assert GateSteps(tr) == GateSteps(front);
      }
    }
  }

  // ---- Conservation of slots ----

  function Serves(p: Phase): int {
    if p.Serving? then 1 else 0
  }

  function ServesAt(b: nat): Phase -> int {
    (p: Phase) => if p.Serving? && p.b == b then 1 else 0
  }

  function Count(n: int): int { n }

  /** A request names a backend of the pool, and the limit it read is the configured one if there is one. */
  ghost predicate PhaseSound(c: Config, p: Phase) {
    match p
    case Scan(_, next, _) => next <= |c.caps|
    case Picked(_, b) => b < |c.caps|
    case Reserving(_, b, limit) => b < |c.caps| && (c.caps[b] > 0 ==> limit == c.caps[b])
    case Loaded(_, b, limit, cur) => b < |c.caps| && (c.caps[b] > 0 ==> limit == c.caps[b]) && cur < limit
    case Serving(_, b) => b < |c.caps|
    case Finished => true
  }

  ghost predicate PhasesSound(c: Config, s: State) {
    && |s.phases| == |s.g.pcs|
    && (forall t | 0 <= t < |s.phases| :: PhaseSound(c, s.phases[t]))
    && (forall t | 0 <= t < |s.phases| :: s.phases[t].Serving? ==> s.g.pcs[t].Holding?)
  }

  ghost predicate SlotsSound(c: Config, s: State) {
    && |s.slots| == |s.auto| == |c.caps|
    && (forall b: nat | b < |c.caps| :: s.slots[b] == Sum(s.phases, ServesAt(b)))
    && (forall b: nat | b < |c.caps| && c.caps[b] > 0 :: s.slots[b] <= c.caps[b])
    && Sum(s.slots, Count) == Sum(s.phases, Serves)
  }

  ghost predicate Inv(c: Config, s: State) {
    PhasesSound(c, s) && SlotsSound(c, s)
  }

  lemma InitInv(c: Config)
    ensures Inv(c, Init(c))
  {
    SumZero(Init(c).slots, Count);
  }

  /** A thread changes phase without taking or returning a slot. */
  lemma MoveKeepsInv(c: Config, s: State, t: nat, p: Phase)
    requires Inv(c, s) && t < |s.phases| && s.g.pcs[t].Holding?
    requires !s.phases[t].Serving? && !p.Serving?
    requires PhaseSound(c, p)
    ensures Inv(c, s.(phases := s.phases[t := p]))
  {
    SumUpdate(s.phases, t, p, Serves);
    forall b: nat | b < |c.caps| ensures Sum(s.phases[t := p], ServesAt(b)) == Sum(s.phases, ServesAt(b)) {
      SumUpdate(s.phases, t, p, ServesAt(b));
    }
  }

  /** A thread takes a slot of b (delta 1) or returns one (delta -1). */
  lemma SlotKeepsInv(c: Config, s: State, t: nat, b: nat, delta: int, p: Phase)
    requires Inv(c, s) && t < |s.phases| && b < |c.caps| && s.g.pcs[t].Holding?
    requires (delta == 1 && !s.phases[t].Serving? && p.Serving? && p.b == b
              && (c.caps[b] > 0 ==> s.slots[b] < c.caps[b]))
          || (delta == -1 && s.phases[t].Serving? && s.phases[t].b == b
              && (p.Finished? || (p.Scan? && p.next == 0)))
    ensures Inv(c, s.(slots := s.slots[b := s.slots[b] + delta], phases := s.phases[t := p]))
  {
    SumUpdate(s.phases, t, p, Serves);
    SumUpdate(s.slots, b, s.slots[b] + delta, Count);
    var slots := s.slots[b := s.slots[b] + delta];
    forall d: nat | d < |c.caps| ensures slots[d] == Sum(s.phases[t := p], ServesAt(d)) {
      SumUpdate(s.phases, t, p, ServesAt(d));
    }
  }

  lemma GateStepKeepsInv(c: Config, s: State, g: Protocol.Step)
    requires Inv(c, s) && StepEnabled(c, s, GateStep(g))
    ensures Inv(c, Apply(c, s, GateStep(g)))
  {
    var s' := Apply(c, s, GateStep(g));
    if g.Arrive? {
      SumAppend(s.phases, START, Serves);
      forall b: nat | b < |c.caps| ensures Sum(s'.phases, ServesAt(b)) == Sum(s.phases, ServesAt(b)) {
        SumAppend(s.phases, START, ServesAt(b));
      }
    }
    forall t | 0 <= t < |s.phases| && s.phases[t].Serving? ensures s'.g.pcs[t].Holding? {
      assert s.g.pcs[t].Holding?;
    }
  }

  lemma InvFacts(c: Config, s: State)
    requires Inv(c, s)
    ensures |s.phases| == |s.g.pcs| && |s.slots| == |s.auto| == |c.caps|
    ensures forall t | 0 <= t < |s.phases| :: PhaseSound(c, s.phases[t])
  {
  }

  lemma RescrapeKeepsInv(c: Config, s: State, b: nat, n: int)
    requires Inv(c, s) && b < |s.auto|
    ensures Inv(c, s.(auto := s.auto[b := n]))
  {
  }

  lemma StepKeepsInv(c: Config, s: State, step: Step)
    requires Inv(c, s) && StepEnabled(c, s, step)
    ensures Inv(c, Apply(c, s, step))
  {
    hide Inv, Protocol.Apply, Protocol.StepEnabled;
    InvFacts(c, s);
    match step
    case GateStep(g) => GateStepKeepsInv(c, s, g);
    case Rescrape(b, n) => RescrapeKeepsInv(c, s, b, n);
    case GiveUp(t, _) => MoveKeepsInv(c, s, t, Finished);
    case PluginRefuses(t) => MoveKeepsInv(c, s, t, Finished);
    case LoadCounter(t) =>
      var Reserving(tried, b, limit) := s.phases[t];
      if limit <= 0 { SlotKeepsInv(c, s, t, b, 1, Serving(tried, b)); }
      else { MoveKeepsInv(c, s, t, Apply(c, s, step).phases[t]); }
    case SwapCounter(t) =>
      var b := s.phases[t].b;
      if s.slots[b] == s.phases[t].cur { SlotKeepsInv(c, s, t, b, 1, Serving(s.phases[t].tried, b)); }
      else { MoveKeepsInv(c, s, t, Apply(c, s, step).phases[t]); }
    case ForwardFails(t, gone) => SlotKeepsInv(c, s, t, s.phases[t].b, -1, Apply(c, s, step).phases[t]);
    case Answer(t) => SlotKeepsInv(c, s, t, s.phases[t].b, -1, Finished);
    case _ => MoveKeepsInv(c, s, step.t, Apply(c, s, step).phases[step.t]);
  }

  lemma {:induction false} RunKeepsInv(c: Config, tr: seq<Step>)
    requires IsRun(c, tr)
    ensures Inv(c, After(c, tr))
    decreases |tr|
  {
    if tr == [] {
      InitInv(c);
    } else {
      RunKeepsInv(c, tr[..|tr| - 1]);
      StepKeepsInv(c, After(c, tr[..|tr| - 1]), tr[|tr| - 1]);
    }
  }

  /**
   Conservation and the hard cap. In every interleaving the counter of each backend is the number
   of requests between a successful reservation and its return, it is never negative, and it never
   exceeds a positive cap.
   */
  lemma SlotConservation(c: Config, tr: seq<Step>, b: nat)
    requires IsRun(c, tr) && b < |c.caps|
    ensures var s := After(c, tr);
      && b < |s.slots| && s.slots[b] == Sum(s.phases, ServesAt(b)) >= 0
      && (c.caps[b] > 0 ==> s.slots[b] <= c.caps[b])
  {
    RunKeepsInv(c, tr);
    SumNonNegative(After(c, tr).phases, ServesAt(b));
  }

  /**
   Every way out returns the slot: when no request is inside the gate any more, all backend
   counters and the counter of the gate are back at 0.
   */
  lemma QuiescentIsEmpty(c: Config, tr: seq<Step>)
    requires IsRun(c, tr)
    requires forall t | 0 <= t < |After(c, tr).g.pcs| :: After(c, tr).g.pcs[t].Done?
    ensures var s := After(c, tr);
      && s.g.gate.inflight == 0
      && forall b | 0 <= b < |s.slots| :: s.slots[b] == 0
  {
    hide Inv, IsRun, After, StepEnabled, Apply, Protocol.IsRun, Protocol.After, Sum, GateSteps;
    RunKeepsInv(c, tr);
    NobodyServes(c, After(c, tr));
    GateRefined(c, tr);
    GateOwnership.Ownership(c.gate, GateSteps(tr));
    SumZero(After(c, tr).g.pcs, Protocol.Owns);
  }

  lemma NobodyServes(c: Config, s: State)
    requires Inv(c, s) && forall t | 0 <= t < |s.g.pcs| :: s.g.pcs[t].Done?
    ensures forall b | 0 <= b < |s.slots| :: s.slots[b] == 0
  {
    forall b: nat | b < |s.slots| ensures s.slots[b] == 0 {
      SumZero(s.phases, ServesAt(b));
    }
  }

  // ---- The pigeonhole ----

  /**
   All backends are UP with a configured cap, and the limit of the gate is read from them. What the
   scraper stores makes no difference then.
   */
  ghost predicate FixedCapacity(c: Config, pool: seq<Backends.Snapshot>, tr: seq<Step>) {
    && |pool| == |c.caps| > 0 && c.gate.dynamic
    && (forall b | 0 <= b < |pool| :: pool[b].up && c.caps[b] == pool[b].maxConcurrent > 0)
    && (forall i | 0 <= i < |tr| && tr[i].GateStep? && tr[i].step.Arrive? :: tr[i].step.live == Backends.Total(pool))
  }

  lemma {:induction false} LimitIsSumOfCaps(c: Config, pool: seq<Backends.Snapshot>, tr: seq<Step>)
    requires FixedCapacity(c, pool, tr)
    ensures Backends.Total(pool) == Sum(c.caps, Count) > 0
    ensures GateLimits.AlwaysReads(c.gate, GateSteps(tr), Sum(c.caps, Count))
  {
    forall b | 0 <= b < |pool|
      ensures Backends.UpCapacity(pool[b]) == Count(c.caps[b]) > 0 && !Backends.UnlimitedUp(pool[b])
    {
    }
    SumBelow(pool, Backends.UpCapacity, c.caps, Count);
    SumBelow(c.caps, Count, pool, Backends.UpCapacity);
    Backends.TotalIsZero(pool);
    assert pool[0].up;
    StepsOfFixed(c, pool, tr);
  }

  lemma {:induction false} StepsOfFixed(c: Config, pool: seq<Backends.Snapshot>, tr: seq<Step>)
    requires FixedCapacity(c, pool, tr) && Backends.Total(pool) > 0
    ensures GateLimits.AlwaysReads(c.gate, GateSteps(tr), Backends.Total(pool))
  {
    if tr != [] {
      var front := tr[..|tr| - 1];
      assert forall i | 0 <= i < |front| :: front[i] == tr[i];
      StepsOfFixed(c, pool, front);
    }
  }

  /**
   The slots in use never exceed the counter of the gate: whatever the limits are and however they
   change, each belongs to a request that owns a slot of the gate.
   */
  lemma SlotsWithinGate(c: Config, tr: seq<Step>)
    requires IsRun(c, tr) && Gate.Enabled(c.gate)
    ensures Sum(After(c, tr).slots, Count) <= After(c, tr).g.gate.inflight
  {
    hide IsRun, After, StepEnabled, Apply, Protocol.IsRun, Protocol.After, Sum, GateSteps;
    RunKeepsInv(c, tr);
    GateRefined(c, tr);
    GateOwnership.Ownership(c.gate, GateSteps(tr));
    ServingOwns(c, After(c, tr));
  }

  lemma ServingOwns(c: Config, s: State)
    requires Inv(c, s)
    ensures Sum(s.slots, Count) <= Sum(s.g.pcs, Protocol.Owns)
  {
    assert forall t | 0 <= t < |s.phases| :: Serves(s.phases[t]) <= Protocol.Owns(s.g.pcs[t]);
    SumBelow(s.phases, Serves, s.g.pcs, Protocol.Owns);
  }

  /** The counting argument, in one state. */
  lemma FreeSlot(c: Config, s: State)
    requires Inv(c, s) && s.g.gate.inflight == Sum(s.g.pcs, Protocol.Owns) <= Sum(c.caps, Count)
    ensures Sum(s.slots, Count) <= s.g.gate.inflight
    ensures (exists t: nat :: Active(s, t) && !s.phases[t].Serving?) ==>
              exists b :: 0 <= b < |c.caps| && b < |s.slots| && s.slots[b] < c.caps[b]
  {
    assert forall t | 0 <= t < |s.phases| :: Serves(s.phases[t]) <= Protocol.Owns(s.g.pcs[t]);
    SumBelow(s.phases, Serves, s.g.pcs, Protocol.Owns);
    if t: nat :| Active(s, t) && !s.phases[t].Serving? {
      assert Serves(s.phases[t]) < Protocol.Owns(s.g.pcs[t]);
      var b := SumShortfall(s.slots, Count, c.caps, Count);
      assert Count(s.slots[b]) < Count(c.caps[b]);
    }
  }

  /**
   Main result. With all backends UP, fixed positive caps and the gate limited to their sum, every
   interleaving keeps the slots in use within the gate's counter and that within the sum of the
   caps; and while an admitted request holds no backend slot, some backend has a free one.
   */
  lemma Pigeonhole(c: Config, pool: seq<Backends.Snapshot>, tr: seq<Step>)
    requires IsRun(c, tr) && FixedCapacity(c, pool, tr)
    ensures var s := After(c, tr);
      && Sum(s.slots, Count) <= s.g.gate.inflight <= Sum(c.caps, Count)
      && ((exists t: nat :: Active(s, t) && !s.phases[t].Serving?) ==>
            exists b :: 0 <= b < |c.caps| && b < |s.slots| && s.slots[b] < c.caps[b])
  {
    hide Inv, IsRun, After, StepEnabled, Apply, Protocol.IsRun, Protocol.After, Sum, GateSteps, Backends.Total;
    RunKeepsInv(c, tr);
    GateRefined(c, tr);
    LimitIsSumOfCaps(c, pool, tr);
    GateLimits.WorkConservation(c.gate, GateSteps(tr), Sum(c.caps, Count));
    GateOwnership.Ownership(c.gate, GateSteps(tr));
    FreeSlot(c, After(c, tr));
  }

  /**
   With a single backend an admitted request always finds room: its first look sees a free slot,
   and its reservation is never turned down.
   */
  lemma SingleBackendHasRoom(c: Config, pool: seq<Backends.Snapshot>, tr: seq<Step>, t: nat)
    requires IsRun(c, tr) && FixedCapacity(c, pool, tr) && |c.caps| == 1
    requires Active(After(c, tr), t) && !After(c, tr).phases[t].Serving?
    ensures var s := After(c, tr);
      && HasRoom(c, s, 0)
      && (StepEnabled(c, s, Look(t, true)) ==> 0 in Apply(c, s, Look(t, true)).phases[t].found)
      && (StepEnabled(c, s, LoadCounter(t)) ==> Apply(c, s, LoadCounter(t)).phases[t].Loaded?)
  {
    hide Inv, IsRun, After, StepEnabled, Apply, Sum, GateSteps, Backends.Total;
    Pigeonhole(c, pool, tr);
    RunKeepsInv(c, tr);
    InvFacts(c, After(c, tr));
    RoomIsSeen(c, After(c, tr), t);
  }

  lemma RoomIsSeen(c: Config, s: State, t: nat)
    requires Inv(c, s) && HasRoom(c, s, 0) && |c.caps| == 1 && c.caps[0] > 0
    ensures StepEnabled(c, s, Look(t, true)) ==> 0 in Apply(c, s, Look(t, true)).phases[t].found
    ensures StepEnabled(c, s, LoadCounter(t)) ==> Apply(c, s, LoadCounter(t)).phases[t].Loaded?
  {
  }

  /** Whenever request t checked a backend, that backend was UP and served the model of t. */
  ghost predicate AlwaysFits(tr: seq<Step>, t: nat) {
    forall i | 0 <= i < |tr| && tr[i].Look? && tr[i].t == t :: tr[i].fits
  }

  /** A forward of request t has failed. */
  ghost predicate ForwardFailed(tr: seq<Step>, t: nat) {
    exists i :: 0 <= i < |tr| && tr[i].ForwardFails? && tr[i].t == t
  }

  /** Where a request for a single backend can stand, depending on whether a forward has failed it. */
  ghost predicate SingleSound(p: Phase, failed: bool) {
    match p
    case Scan(tried, next, found) =>
      && found <= {0}
      && (if failed then 0 in tried else tried == {} && (next >= 1 ==> 0 in found))
    case Picked(tried, b) => b == 0 && 0 in tried
    case Reserving(tried, b, _) => b == 0 && 0 in tried
    case Loaded(tried, b, _, _) => b == 0 && 0 in tried
    case Serving(tried, b) => b == 0 && 0 in tried
    case Finished => true
  }

  lemma StepKeepsSingle(c: Config, s: State, step: Step, t: nat, failed: bool)
    requires Inv(c, s) && StepEnabled(c, s, step) && |c.caps| == 1
    requires t < |s.phases| ==> SingleSound(s.phases[t], failed)
    requires Active(s, t) && !s.phases[t].Serving? ==>
               && (step == Look(t, true) ==> 0 in Apply(c, s, step).phases[t].found)
               && (step == LoadCounter(t) ==> Apply(c, s, step).phases[t].Loaded?)
    requires t >= |s.phases| ==> !failed
    requires step.Look? && step.t == t ==> step.fits
    ensures t < |Apply(c, s, step).phases| ==>
              SingleSound(Apply(c, s, step).phases[t], failed || (step.ForwardFails? && step.t == t))
    ensures t >= |Apply(c, s, step).phases| ==> t >= |s.phases| && !(step.ForwardFails? && step.t == t)
  {
    hide Inv, Protocol.Apply, Protocol.StepEnabled;
    InvFacts(c, s);
  }

  lemma {:induction false} RunKeepsSingle(c: Config, pool: seq<Backends.Snapshot>, tr: seq<Step>, t: nat)
    requires IsRun(c, tr) && FixedCapacity(c, pool, tr) && |c.caps| == 1 && AlwaysFits(tr, t)
    ensures t < |After(c, tr).phases| ==> SingleSound(After(c, tr).phases[t], ForwardFailed(tr, t))
    ensures t >= |After(c, tr).phases| ==> !ForwardFailed(tr, t)
    decreases |tr|
  {
    hide Inv, FixedCapacity, SingleSound, Active, HasRoom, ForwardFailed, AlwaysFits, Apply, StepEnabled;
    if tr == [] {
      NothingFailed(t);
    } else {
      var front, last := tr[..|tr| - 1], tr[|tr| - 1];
      FixedFront(c, pool, tr);
      FailuresGrow(front, last, t);
      assert front + [last] == tr;
      RunKeepsSingle(c, pool, front, t);
      RunKeepsInv(c, front);
      ActiveHasPhase(After(c, front), t);
      if Active(After(c, front), t) && !After(c, front).phases[t].Serving? {
        SingleBackendHasRoom(c, pool, front, t);
        FitsIsTrue(last, t);
      }
      StepKeepsSingle(c, After(c, front), last, t, ForwardFailed(front, t));
    }
  }

  lemma ActiveHasPhase(s: State, t: nat)
    ensures Active(s, t) ==> t < |s.phases|
  {
  }

  lemma FitsIsTrue(step: Step, t: nat)
    ensures step.Look? && step.t == t && step.fits ==> step == Look(t, true)
    ensures step.LoadCounter? && step.t == t ==> step == LoadCounter(t)
  {
  }

  lemma NothingFailed(t: nat)
    ensures !ForwardFailed([], t)
  {
  }

  lemma FailuresGrow(front: seq<Step>, last: Step, t: nat)
    ensures ForwardFailed(front + [last], t) <==> ForwardFailed(front, t) || (last.ForwardFails? && last.t == t)
    ensures AlwaysFits(front + [last], t) ==> AlwaysFits(front, t) && (last.Look? && last.t == t ==> last.fits)
  {
    var tr := front + [last];
    assert tr[|front|] == last && forall i | 0 <= i < |front| :: tr[i] == front[i];
  }

  lemma FixedFront(c: Config, pool: seq<Backends.Snapshot>, tr: seq<Step>)
    requires FixedCapacity(c, pool, tr) && tr != []
    ensures FixedCapacity(c, pool, tr[..|tr| - 1])
  {
    assert forall i | 0 <= i < |tr| - 1 :: tr[..|tr| - 1][i] == tr[i];
  }

  /**
   So with a single backend that serves the model of a request, its first pick and its first
   reservation succeed, whatever other requests ask for: it is back in its loop with something tried
   exactly if a forward of its own has failed. And once it has looked again, it gives up exactly in
   that case or if the guard sees the backend near the VRAM limit; a plugin can only turn it down in
   the other case.
   */
  lemma FirstPickSucceeds(c: Config, pool: seq<Backends.Snapshot>, tr: seq<Step>, t: nat, near: set<nat>)
    requires IsRun(c, tr) && FixedCapacity(c, pool, tr) && |c.caps| == 1 && AlwaysFits(tr, t)
    requires Active(After(c, tr), t) && After(c, tr).phases[t].Scan?
    ensures After(c, tr).phases[t].tried != {} <==> ForwardFailed(tr, t)
    ensures StepEnabled(c, After(c, tr), GiveUp(t, near)) <==>
            After(c, tr).phases[t].next == 1 && (ForwardFailed(tr, t) || 0 in near)
    ensures StepEnabled(c, After(c, tr), PluginRefuses(t)) <==>
            After(c, tr).phases[t].next == 1 && !ForwardFailed(tr, t)
  {
    RunKeepsSingle(c, pool, tr, t);
    SingleEndsScan(c, After(c, tr), t, near, ForwardFailed(tr, t));
  }

  lemma SingleEndsScan(c: Config, s: State, t: nat, near: set<nat>, failed: bool)
    requires Active(s, t) && s.phases[t].Scan? && SingleSound(s.phases[t], failed) && |c.caps| == 1
    ensures s.phases[t].tried != {} <==> failed
    ensures StepEnabled(c, s, GiveUp(t, near)) <==> s.phases[t].next == 1 && (failed || 0 in near)
    ensures StepEnabled(c, s, PluginRefuses(t)) <==> s.phases[t].next == 1 && !failed
  {
    hide Protocol.StepEnabled;
    var left := s.phases[t].found - s.phases[t].tried;
    assert s.phases[t].next == 1 && !failed ==> 0 in left;
    assert forall b | b in left :: b == 0 && !failed;
  }
}
