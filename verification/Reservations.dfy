/**
 How many slots of a backend can be taken while the scraper changes its limit: never more than the
 largest limit that a reservation has read, which may be more than the limit in force.
 */
module Reservations {
  import Gate = GateSpec
  import Protocol = GateProtocol
  import Backends
  import opened WholeSystem

  /** The step reads the limit of backend b for a reservation. */
  predicate ReadsCapOf(s: State, step: Step, b: nat) {
    step.ReadCap? && step.t < |s.phases| && s.phases[step.t].Picked? && s.phases[step.t].b == b
  }

  /** The largest limit that a reservation of backend b has read in the run. */
  ghost function PeakRead(c: Config, tr: seq<Step>, b: nat): (peak: int)
    requires IsRun(c, tr) && b < |c.caps|
    decreases |tr|
  {
    if tr == [] then 0
    else
      var s, last := After(c, tr[..|tr| - 1]), tr[|tr| - 1];
      var peak := PeakRead(c, tr[..|tr| - 1], b);
      if ReadsCapOf(s, last, b) && b < |s.auto| && CapOf(c, s, b) > peak then CapOf(c, s, b) else peak
  }

  /** No reservation of backend b has read it as unlimited. */
  ghost predicate NeverUnlimited(c: Config, tr: seq<Step>, b: nat)
    requires IsRun(c, tr) && b < |c.caps|
    decreases |tr|
  {
    tr == [] ||
    var s, last := After(c, tr[..|tr| - 1]), tr[|tr| - 1];
    && NeverUnlimited(c, tr[..|tr| - 1], b)
    && (ReadsCapOf(s, last, b) && b < |s.auto| ==> CapOf(c, s, b) > 0)
  }

  /** Every reservation of b that is under way was decided against a positive limit within the bound. */
  ghost predicate Within(s: State, b: nat, bound: int) {
    && b < |s.slots| && s.slots[b] <= bound
    && (forall t | 0 <= t < |s.phases| && (s.phases[t].Reserving? || s.phases[t].Loaded?) && s.phases[t].b == b ::
          0 < s.phases[t].limit <= bound)
  }

  lemma StepKeepsWithin(c: Config, s: State, step: Step, b: nat, bound: int)
    requires Inv(c, s) && StepEnabled(c, s, step) && b < |c.caps| && Within(s, b, bound)
    requires ReadsCapOf(s, step, b) ==> 0 < CapOf(c, s, b) <= bound
    ensures Within(Apply(c, s, step), b, bound)
  {
    hide Inv, Protocol.Apply, Protocol.StepEnabled;
    InvFacts(c, s);
    if step.SwapCounter? || step.LoadCounter? { assert PhaseSound(c, s.phases[step.t]); }
  }

  /**
   The cap that a changing limit leaves: the slots taken of a backend never exceed the largest limit
   any reservation of it has read, unless one of them has read it as unlimited.
   */
  lemma {:induction false} ReservationsBounded(c: Config, tr: seq<Step>, b: nat)
    requires IsRun(c, tr) && b < |c.caps| && NeverUnlimited(c, tr, b)
    ensures Within(After(c, tr), b, PeakRead(c, tr, b))
    ensures After(c, tr).slots[b] <= PeakRead(c, tr, b)
    decreases |tr|
  {
    if tr != [] {
      var front, last := tr[..|tr| - 1], tr[|tr| - 1];
      ReservationsBounded(c, front, b);
      RunKeepsInv(c, front);
      InvFacts(c, After(c, front));
      StepKeepsWithin(c, After(c, front), last, b, PeakRead(c, tr, b));
    }
  }

  lemma StoresStayWithin(c: Config, s: State, step: Step, b: nat, bound: nat)
    requires StepEnabled(c, s, step) && b < |c.caps| && c.caps[b] <= 0
    requires b < |s.auto| && s.auto[b] <= bound
    requires step.Rescrape? && step.b == b ==> step.n <= bound
    ensures b < |Apply(c, s, step).auto| && Apply(c, s, step).auto[b] <= bound
    ensures CapOf(c, s, b) <= bound
  {
    hide Protocol.Apply, Protocol.StepEnabled;
  }

  /**
   What is read was stored before: for a backend without a configured cap the largest limit read is
   one that the scraper stored, so the slots taken stay within whatever bounds the stores.
   */
  lemma {:induction false} UncappedWithinStores(c: Config, tr: seq<Step>, b: nat, bound: nat)
    requires IsRun(c, tr) && b < |c.caps| && c.caps[b] <= 0
    requires forall i | 0 <= i < |tr| && tr[i].Rescrape? && tr[i].b == b :: tr[i].n <= bound
    ensures PeakRead(c, tr, b) <= bound
    ensures b < |After(c, tr).auto| && After(c, tr).auto[b] <= bound
    ensures NeverUnlimited(c, tr, b) ==> b < |After(c, tr).slots| && After(c, tr).slots[b] <= bound
    decreases |tr|
  {
    hide Inv, Within, NeverUnlimited, Protocol.Apply, Protocol.StepEnabled;
    RunKeepsInv(c, tr);
    InvFacts(c, After(c, tr));
    if NeverUnlimited(c, tr, b) { ReservationsBounded(c, tr, b); }
    if tr != [] {
      var front, last := tr[..|tr| - 1], tr[|tr| - 1];
      assert forall i | 0 <= i < |front| :: front[i] == tr[i];
      UncappedWithinStores(c, front, b, bound);
      StoresStayWithin(c, After(c, front), last, b, bound);
    }
  }

  // ---- Without interference ----

  /** The steps can be taken one after the other and end in s'. */
  ghost predicate Leads(c: Config, s: State, steps: seq<Step>, s': State)
    decreases |steps|
  {
    if steps == [] then s == s'
    else StepEnabled(c, s, steps[0]) && Leads(c, Apply(c, s, steps[0]), steps[1..], s')
  }

  /** b, read in state s as the class reads it. */
  ghost predicate Reads(c: Config, s: State, b: nat, backend: Backends.Snapshot) {
    && b < |c.caps| && b < |s.slots| && b < |s.auto|
    && backend.maxConcurrent == c.caps[b] && backend.autoConcurrent == s.auto[b] && backend.inflight == s.slots[b]
  }

  /**
   The three steps of a reservation, taken without interference, are what TryReserve of the class
   promises: a slot exactly if the capacity check passes, and else another round of the loop.
   */
  lemma SequentialReserve(c: Config, s: State, t: nat, backend: Backends.Snapshot) returns (steps: seq<Step>)
    requires Active(s, t) && s.phases[t].Picked? && Reads(c, s, s.phases[t].b, backend)
    ensures steps <= [ReadCap(t), LoadCounter(t), SwapCounter(t)]
    ensures HasRoom(c, s, s.phases[t].b) <==> Backends.HasCapacity(backend)
    ensures var Picked(tried, b) := s.phases[t];
      Leads(c, s, steps,
            if Backends.HasCapacity(backend)
            then s.(slots := s.slots[b := s.slots[b] + 1], phases := s.phases[t := Serving(tried, b)])
            else s.(phases := s.phases[t := Scan(tried, 0, {})]))
  {
    var Picked(tried, b) := s.phases[t];
    var limit := CapOf(c, s, b);
    var s1 := Apply(c, s, ReadCap(t));
    assert s1.phases[t] == Reserving(tried, b, limit);
    var s2 := Apply(c, s1, LoadCounter(t));
    if 0 < limit && s.slots[b] < limit {
      steps := [ReadCap(t), LoadCounter(t), SwapCounter(t)];
      assert s2.phases == s.phases[t := Loaded(tried, b, limit, s.slots[b])];
      LeadsThree(c, s, steps[0], steps[1], steps[2]);
      assert Apply(c, s2, SwapCounter(t)).phases == s.phases[t := Serving(tried, b)];
    } else {
      steps := [ReadCap(t), LoadCounter(t)];
      LeadsTwo(c, s, steps[0], steps[1]);
      assert s2.phases == s.phases[t := if limit <= 0 then Serving(tried, b) else Scan(tried, 0, {})];
    }
  }

  lemma LeadsTwo(c: Config, s: State, x: Step, y: Step)
    requires StepEnabled(c, s, x) && StepEnabled(c, Apply(c, s, x), y)
    ensures Leads(c, s, [x, y], Apply(c, Apply(c, s, x), y))
  {
    hide StepEnabled, Apply;
    var end := Apply(c, Apply(c, s, x), y);
    assert [x, y][1..] == [y] && [y][1..] == [];
    assert Leads(c, end, [], end) && Leads(c, Apply(c, s, x), [y], end);
  }

  lemma LeadsThree(c: Config, s: State, x: Step, y: Step, z: Step)
    requires StepEnabled(c, s, x) && StepEnabled(c, Apply(c, s, x), y)
    requires StepEnabled(c, Apply(c, Apply(c, s, x), y), z)
    ensures Leads(c, s, [x, y, z], Apply(c, Apply(c, Apply(c, s, x), y), z))
  {
    hide StepEnabled, Apply;
    LeadsTwo(c, Apply(c, s, x), y, z);
    assert [x, y, z][1..] == [y, z];
  }

  // ---- Past the limit in force ----

  /**
   When a reservation takes the slots of b past a limit L, whatever L is: a swap of the current value
   that was decided against a larger limit than L, or a claim that has read b as unlimited.
   */
  lemma ReservationPastLimit(c: Config, s: State, step: Step, b: nat, L: int)
    requires Inv(c, s) && StepEnabled(c, s, step) && b < |c.caps|
    ensures b < |s.slots| && b < |Apply(c, s, step).slots|
    ensures Apply(c, s, step).slots[b] > s.slots[b] && Apply(c, s, step).slots[b] > L <==>
            || (step.SwapCounter? && s.phases[step.t].b == b && s.slots[b] == s.phases[step.t].cur
                && L <= s.slots[b] < s.phases[step.t].limit)
            || (step.LoadCounter? && s.phases[step.t].b == b && s.phases[step.t].limit <= 0 && L <= s.slots[b])
  {
    hide Inv, Protocol.Apply, Protocol.StepEnabled;
    InvFacts(c, s);
    if step.SwapCounter? { assert PhaseSound(c, s.phases[step.t]); }
  }

  const UNCAPPED := Config(Gate.Config(0, false, [0, 0, 0]), [0])

  /** Two requests past a disabled gate, and one backend with the given counter and limit. */
  function Both(slots: int, auto: int, first: Phase, second: Phase): State {
    State(Protocol.State(Gate.GateState(0, [[], [], []]), [Protocol.Holding, Protocol.Holding]),
          [slots], [auto], [first, second])
  }

  /** The scraper has stored 2 and the first request has chosen the backend. */
  lemma FirstChooses() returns (tr: seq<Step>)
    ensures IsRun(UNCAPPED, tr) && After(UNCAPPED, tr) == Both(0, 2, Picked({0}, 0), START)
  {
    tr := BothArrive();
    tr := Advance(UNCAPPED, tr, Look(0, true));
    assert {} + {0} == {0};
    assert After(UNCAPPED, tr) == Both(0, 2, Scan({}, 1, {0}), START);
    tr := Advance(UNCAPPED, tr, Choose(0, 0));
  }

  /** And it has a slot. */
  lemma FirstServes() returns (tr: seq<Step>)
    ensures IsRun(UNCAPPED, tr) && After(UNCAPPED, tr) == Both(1, 2, Serving({0}, 0), START)
  {
    tr := FirstChooses();
    tr := Advance(UNCAPPED, tr, ReadCap(0));
    assert After(UNCAPPED, tr) == Both(0, 2, Reserving({0}, 0, 2), START);
    tr := Advance(UNCAPPED, tr, LoadCounter(0));
    assert After(UNCAPPED, tr) == Both(0, 2, Loaded({0}, 0, 2, 0), START);
    tr := Advance(UNCAPPED, tr, SwapCounter(0));
  }

  lemma BothArrive() returns (tr: seq<Step>)
    ensures IsRun(UNCAPPED, tr) && After(UNCAPPED, tr) == Both(0, 2, START, START)
  {
    tr := [];
    assert Init(UNCAPPED).slots == [0] && Init(UNCAPPED).auto == [0];
    tr := Advance(UNCAPPED, tr, GateStep(Protocol.Arrive(0, 0)));
    tr := Advance(UNCAPPED, tr, GateStep(Protocol.Arrive(0, 0)));
    assert After(UNCAPPED, tr) == Both(0, 0, START, START);
    tr := Advance(UNCAPPED, tr, Rescrape(0, 2));
  }

  /** The second request has read the limit of 2 and loaded the counter. */
  lemma SecondLoads() returns (tr: seq<Step>)
    ensures IsRun(UNCAPPED, tr) && After(UNCAPPED, tr) == Both(1, 2, Serving({0}, 0), Loaded({0}, 0, 2, 1))
  {
    tr := FirstServes();
    tr := Advance(UNCAPPED, tr, Look(1, true));
    assert {} + {0} == {0};
    assert After(UNCAPPED, tr) == Both(1, 2, Serving({0}, 0), Scan({}, 1, {0}));
    tr := Advance(UNCAPPED, tr, Choose(1, 0));
    assert After(UNCAPPED, tr) == Both(1, 2, Serving({0}, 0), Picked({0}, 0));
    tr := Advance(UNCAPPED, tr, ReadCap(1));
    assert After(UNCAPPED, tr) == Both(1, 2, Serving({0}, 0), Reserving({0}, 0, 2));
    tr := Advance(UNCAPPED, tr, LoadCounter(1));
  }

  /** The scraper stores 1 before that swap, which goes through: two slots are taken under a limit of 1. */
  lemma SwapPastNewLimit() returns (tr: seq<Step>)
    ensures IsRun(UNCAPPED, tr)
    ensures After(UNCAPPED, tr) == Both(2, 1, Serving({0}, 0), Serving({0}, 0))
    ensures CapOf(UNCAPPED, After(UNCAPPED, tr), 0) == 1
  {
    tr := SecondLoads();
    tr := Advance(UNCAPPED, tr, Rescrape(0, 1));
    assert After(UNCAPPED, tr) == Both(1, 1, Serving({0}, 0), Loaded({0}, 0, 2, 1));
    tr := Advance(UNCAPPED, tr, SwapCounter(1));
  }
}
