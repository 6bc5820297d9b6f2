/**
 The whole system drains. Without new arrivals every run is finite, with a bound fixed by its
 first state and no assumption on scheduling: a failed swap may send a request back, but only
 because another request took or returned a slot, and there are only so many slots to take.
 */
module SystemDrain {
  import opened Sums
  import Gate = GateSpec
  import Protocol = GateProtocol
  import GateOwnership
  import GateProgress
  import opened WholeSystem

  // ---- The work that is left ----

  /** The weights for n backends and m requests. */
  datatype Scale = Scale(n: nat, m: nat)

  /** A change of a counter can spoil the loaded value of every request, at 2 units each. */
  function Change(k: Scale): nat { 2 * k.m + 1 }
  function ServingWeight(k: Scale): nat { k.n + 1 + Change(k) }
  function ReservingWeight(k: Scale): nat { ServingWeight(k) + Change(k) + 1 }
  function PickedWeight(k: Scale): nat { ReservingWeight(k) + 1 }

  /** The backends a request has not tried yet. */
  function Untried(k: Scale, tried: set<nat>): int {
    k.n - |tried|
  }

  function Base(k: Scale): Phase -> int {
    (p: Phase) =>
      match p
      case Scan(tried, next, _) => Untried(k, tried) * PickedWeight(k) + (k.n - next) + 1
      case Picked(tried, _) => Untried(k, tried) * PickedWeight(k) + PickedWeight(k)
      case Reserving(tried, _, _) => Untried(k, tried) * PickedWeight(k) + ReservingWeight(k)
      case Loaded(tried, _, _, _) => Untried(k, tried) * PickedWeight(k) + ReservingWeight(k) - 1
      case Serving(tried, _) => Untried(k, tried) * PickedWeight(k) + ServingWeight(k)
      case Finished => 0
  }

  /** A request whose loaded value is out of date will have to go back one step. */
  function Stale(slots: seq<int>): Phase -> int {
    (p: Phase) => if p.Loaded? && p.b < |slots| && slots[p.b] != p.cur then 2 else 0
  }

  function WorkLeft(c: Config, s: State): int {
    var k := Scale(|c.caps|, |s.phases|);
    Sum(s.phases, Base(k)) + Sum(s.phases, Stale(s.slots)) + Sum(s.g.pcs, GateProgress.Work)
  }

  // ---- Requests only ever name backends of the pool ----

  lemma {:induction false} BoundedSet(n: nat, tried: set<nat>)
    requires forall b | b in tried :: b < n
    ensures |tried| <= n
  {
    if n == 0 {
      assert tried == {};
    } else {
      var rest := tried - {n - 1};
      BoundedSet(n - 1, rest);
      if n - 1 in tried { assert |tried| == |rest| + 1; } else { assert rest == tried; }
    }
  }

  ghost predicate TriedInPool(c: Config, p: Phase) {
    && (!p.Finished? ==> forall b | b in p.tried :: b < |c.caps|)
    && (p.Scan? ==> forall b | b in p.found :: b < |c.caps|)
  }

  ghost predicate Bounded(c: Config, s: State) {
    forall t | 0 <= t < |s.phases| :: TriedInPool(c, s.phases[t])
  }

  lemma StepKeepsBounded(c: Config, s: State, step: Step)
    requires Bounded(c, s) && StepEnabled(c, s, step)
    ensures Bounded(c, Apply(c, s, step))
  {
    var s' := Apply(c, s, step);
    forall t | 0 <= t < |s'.phases| ensures TriedInPool(c, s'.phases[t]) {
      if t < |s.phases| { assert TriedInPool(c, s.phases[t]); }
    }
  }

  lemma {:induction false} RunKeepsBounded(c: Config, tr: seq<Step>)
    requires IsRun(c, tr)
    ensures Inv(c, After(c, tr)) && Bounded(c, After(c, tr))
    decreases |tr|
  {
    RunKeepsInv(c, tr);
    if tr != [] {
      RunKeepsBounded(c, tr[..|tr| - 1]);
      StepKeepsBounded(c, After(c, tr[..|tr| - 1]), tr[|tr| - 1]);
    }
  }

  lemma BaseNonNegative(c: Config, p: Phase, k: Scale)
    requires !p.Finished? ==> forall b | b in p.tried :: b < |c.caps|
    requires k.n == |c.caps|
    requires p.Scan? ==> p.next <= k.n
    ensures Base(k)(p) >= 0
  {
    if !p.Finished? {
      BoundedSet(k.n, p.tried);
      assert Untried(k, p.tried) * PickedWeight(k) >= 0;
    }
  }

  // ---- Every step consumes work ----

  lemma {:induction false} StaleBounded(phases: seq<Phase>, slots: seq<int>)
    ensures 0 <= Sum(phases, Stale(slots)) <= 2 * |phases|
  {
    if phases != [] {
      StaleBounded(phases[..|phases| - 1], slots);
    }
  }

  /** A step of t that leaves the counters alone. */
  lemma QuietConsumes(c: Config, s: State, t: nat, p: Phase)
    requires t < |s.phases|
    requires var k := Scale(|c.caps|, |s.phases|);
      Base(k)(p) + Stale(s.slots)(p) < Base(k)(s.phases[t]) + Stale(s.slots)(s.phases[t])
    ensures WorkLeft(c, s.(phases := s.phases[t := p])) < WorkLeft(c, s)
  {
    var k := Scale(|c.caps|, |s.phases|);
    SumUpdate(s.phases, t, p, Base(k));
    SumUpdate(s.phases, t, p, Stale(s.slots));
  }

  /** A step of t that changes a counter pays for everybody it may have spoilt. */
  lemma ChangeConsumes(c: Config, s: State, t: nat, p: Phase, slots: seq<int>)
    requires t < |s.phases|
    requires var k := Scale(|c.caps|, |s.phases|); Base(k)(p) + Change(k) <= Base(k)(s.phases[t])
    ensures WorkLeft(c, s.(slots := slots, phases := s.phases[t := p])) < WorkLeft(c, s)
  {
    SumUpdate(s.phases, t, p, Base(Scale(|c.caps|, |s.phases|)));
    StaleBounded(s.phases[t := p], slots);
    StaleBounded(s.phases, s.slots);
  }

  lemma ChooseConsumes(k: Scale, tried: set<nat>, b: nat, found: set<nat>)
    requires b !in tried
    ensures Base(k)(Picked(tried + {b}, b)) < Base(k)(Scan(tried, k.n, found))
  {
    assert |tried + {b}| == |tried| + 1;
    var u, w := Untried(k, tried), PickedWeight(k);
    assert (u - 1) * w == u * w - w;
  }

  lemma StepConsumesWork(c: Config, s: State, step: Step)
    requires Inv(c, s) && Bounded(c, s) && StepEnabled(c, s, step) && !step.Rescrape?
    requires step.GateStep? ==> !step.step.Arrive?
    ensures WorkLeft(c, Apply(c, s, step)) < WorkLeft(c, s)
  {
    var s' := Apply(c, s, step);
    var k := Scale(|c.caps|, |s.phases|);
    match step
    case GateStep(g) =>
      GateProgress.StepConsumesWork(c.gate, s.g, g);
    case Look(t, _) => QuietConsumes(c, s, t, s'.phases[t]);
    case Choose(t, b) =>
      ChooseConsumes(k, s.phases[t].tried, b, s.phases[t].found);
      QuietConsumes(c, s, t, s'.phases[t]);
    case GiveUp(t, _) =>
      BoundedSet(k.n, s.phases[t].tried);
      assert TriedInPool(c, s.phases[t]);
      BaseNonNegative(c, s.phases[t], k);
      GiveUpConsumes(c, s, t, k);
    case PluginRefuses(t) =>
      BoundedSet(k.n, s.phases[t].tried);
      assert TriedInPool(c, s.phases[t]);
      GiveUpConsumes(c, s, t, k);
    case ReadCap(t) => QuietConsumes(c, s, t, s'.phases[t]);
    case LoadCounter(t) =>
      if s.phases[t].limit <= 0 { ChangeConsumes(c, s, t, s'.phases[t], s'.slots); }
      else { QuietConsumes(c, s, t, s'.phases[t]); }
    case SwapCounter(t) =>
      if s.slots[s.phases[t].b] == s.phases[t].cur { ChangeConsumes(c, s, t, s'.phases[t], s'.slots); }
      else { QuietConsumes(c, s, t, s'.phases[t]); }
    case ForwardFails(t, gone) =>
      BaseNonNegative(c, Scan(s.phases[t].tried, 0, {}), k);
      ServingPays(k, s.phases[t].tried, s.phases[t].b);
      ChangeConsumes(c, s, t, s'.phases[t], s'.slots);
    case Answer(t) =>
      BaseNonNegative(c, Scan(s.phases[t].tried, 0, {}), k);
      ServingPays(k, s.phases[t].tried, s.phases[t].b);
      ChangeConsumes(c, s, t, s'.phases[t], s'.slots);
  }

  lemma GiveUpConsumes(c: Config, s: State, t: nat, k: Scale)
    requires t < |s.phases| && s.phases[t].Scan? && s.phases[t].next <= |c.caps|
    requires k == Scale(|c.caps|, |s.phases|) && |s.phases[t].tried| <= k.n
    ensures WorkLeft(c, s.(phases := s.phases[t := Finished])) < WorkLeft(c, s)
  {
    assert Untried(k, s.phases[t].tried) * PickedWeight(k) >= 0;
    QuietConsumes(c, s, t, Finished);
  }

  lemma ServingPays(k: Scale, tried: set<nat>, b: nat)
    ensures Base(k)(Scan(tried, 0, {})) + Change(k) <= Base(k)(Serving(tried, b))
  {
  }

  // ---- Drain ----

  /** A step that requests take on their own: no new request, no client that leaves, no scraper. */
  predicate IsOwnMove(step: Step) {
    !step.Rescrape? && (step.GateStep? ==> !step.step.Arrive? && !step.step.CtxDone?)
  }

  /** Some request can move on its own while any is left, without new requests or disconnects. */
  lemma SystemNotStuck(c: Config, s: State, t: nat) returns (step: Step)
    requires Inv(c, s) && Bounded(c, s) && Protocol.Inv(c.gate, s.g) && t < |s.g.pcs| && !s.g.pcs[t].Done?
    ensures StepEnabled(c, s, step)
    ensures IsOwnMove(step)
    ensures !step.PluginRefuses? && (step.GiveUp? ==> step.near == {})
  {
    var g := GateProgress.NoStuckState(c.gate, s.g, t);
    if StepEnabled(c, s, GateStep(g)) {
      step := GateStep(g);
    } else {
      step := PhaseStep(c, s, g.t);
    }
  }

  /** The next step of a request inside the loop. */
  lemma PhaseStep(c: Config, s: State, t: nat) returns (step: Step)
    requires Inv(c, s) && Bounded(c, s) && Active(s, t) && !s.phases[t].Finished?
    ensures StepEnabled(c, s, step) && !step.GateStep? && !step.Rescrape?
    ensures !step.PluginRefuses? && (step.GiveUp? ==> step.near == {})
  {
    match s.phases[t]
    case Scan(tried, next, found) =>
      if next < |c.caps| {
        step := Look(t, true);
      } else if found <= tried {
        step := GiveUp(t, {});
      } else {
        assert TriedInPool(c, s.phases[t]);
        var b :| b in found && b !in tried;
        step := Choose(t, b);
      }
    case Picked(_, _) => step := ReadCap(t);
    case Reserving(_, _, _) => step := LoadCounter(t);
    case Loaded(_, _, _, _) => step := SwapCounter(t);
    case Serving(_, _) => step := Answer(t);
  }

  ghost predicate NoArrivals(tr: seq<Step>) {
    forall i | 0 <= i < |tr| && tr[i].GateStep? :: !tr[i].step.Arrive?
  }

  /** The steps that requests take; what the scraper stores in between does not count. */
  function Moves(tr: seq<Step>): nat {
    if tr == [] then 0 else Moves(tr[..|tr| - 1]) + if tr[|tr| - 1].Rescrape? then 0 else 1
  }

  lemma {:induction false} RunConsumesWork(c: Config, tr: seq<Step>, more: seq<Step>)
    requires IsRun(c, tr + more) && NoArrivals(more)
    ensures IsRun(c, tr)
    ensures Moves(more) + WorkLeft(c, After(c, tr + more)) <= WorkLeft(c, After(c, tr))
    decreases |more|
  {
    if more == [] {
      assert tr + more == tr;
    } else {
      var front := more[..|more| - 1];
      assert (tr + more)[..|tr + more| - 1] == tr + front;
      assert forall i | 0 <= i < |front| :: front[i] == more[i];
      RunConsumesWork(c, tr, front);
      RunKeepsBounded(c, tr + front);
      if !more[|more| - 1].Rescrape? {
        StepConsumesWork(c, After(c, tr + front), more[|more| - 1]);
      }
    }
  }

  lemma WorkNonNegative(c: Config, s: State)
    requires Inv(c, s) && Bounded(c, s)
    ensures WorkLeft(c, s) >= 0
  {
    var k := Scale(|c.caps|, |s.phases|);
    forall t | 0 <= t < |s.phases| ensures Base(k)(s.phases[t]) >= 0 {
      BaseNonNegative(c, s.phases[t], k);
    }
    SumNonNegative(s.phases, Base(k));
    StaleBounded(s.phases, s.slots);
    SumNonNegative(s.g.pcs, GateProgress.Work);
  }

  /**
   Main result. After any run, once no request arrives any more, requests take at most as many steps
   as there is work left, whatever the scraper does meanwhile; and when no request can move, every
   one is done and all the counters, of the gate and of every backend, are back at 0.
   */
  lemma SystemDrains(c: Config, tr: seq<Step>, more: seq<Step>)
    requires IsRun(c, tr + more) && NoArrivals(more)
    ensures IsRun(c, tr) && Moves(more) <= WorkLeft(c, After(c, tr))
    ensures var s := After(c, tr + more);
      (forall step | IsOwnMove(step) :: !StepEnabled(c, s, step)) ==>
        && (forall t | 0 <= t < |s.g.pcs| :: s.g.pcs[t].Done?)
        && s.g.gate.inflight == 0
        && (forall b | 0 <= b < |s.slots| :: s.slots[b] == 0)
  {
    RunConsumesWork(c, tr, more);
    RunKeepsBounded(c, tr + more);
    var s := After(c, tr + more);
    WorkNonNegative(c, s);
    GateRefined(c, tr + more);
    GateOwnership.InitInv(c.gate);
    GateOwnership.RunKeepsInv(c.gate, Protocol.INIT, GateSteps(tr + more));
    if forall step | IsOwnMove(step) :: !StepEnabled(c, s, step) {
      forall t | 0 <= t < |s.g.pcs| ensures s.g.pcs[t].Done? {
        if !s.g.pcs[t].Done? {
          var step := SystemNotStuck(c, s, t);
        }
      }
      QuiescentIsEmpty(c, tr + more);
    }
  }
}
