/**
 What a refusal means while the capacity is fixed. The gate turns a caller away beside a free
 backend exactly when some slot of the gate is not in use at a backend; a request inside the gate is
 refused exactly when it has failed at every backend before, found it full or unfit when it looked,
 or saw it near the VRAM limit.
 */
module Refusals {
  import opened Sums
  import Gate = GateSpec
  import Protocol = GateProtocol
  import GateOwnership
  import GateLimits
  import Backends
  import opened WholeSystem

  // ---- Turned away at the gate ----

  /** Request u owns a slot of the gate that is not in use at any backend. */
  ghost predicate Idle(s: State, u: nat) {
    u < |s.phases| && u < |s.g.pcs| && Serves(s.phases[u]) < Protocol.Owns(s.g.pcs[u])
  }

  ghost predicate SomeRoom(c: Config, s: State) {
    exists b :: HasRoom(c, s, b)
  }

  /** Both counting arguments in one state: the gate's slots against the caps, and against their use. */
  lemma RoomIffIdle(c: Config, s: State)
    requires Inv(c, s) && s.g.gate.inflight == Sum(s.g.pcs, Protocol.Owns) <= Sum(c.caps, Count)
    requires forall b | 0 <= b < |c.caps| :: c.caps[b] > 0
    ensures SomeRoom(c, s) <==> s.g.gate.inflight < Sum(c.caps, Count) || exists u: nat :: Idle(s, u)
  {
    hide SomeRoom;
    InvFacts(c, s);
    assert forall t | 0 <= t < |s.phases| :: Serves(s.phases[t]) <= Protocol.Owns(s.g.pcs[t]);
    SumBelow(s.phases, Serves, s.g.pcs, Protocol.Owns);
    SumBelow(s.slots, Count, c.caps, Count);
    RoomIsShortfall(c, s);
    assert (exists u: nat :: Idle(s, u)) <==>
           exists u | 0 <= u < |s.phases| :: Serves(s.phases[u]) < Protocol.Owns(s.g.pcs[u]) by {
      if u :| 0 <= u < |s.phases| && Serves(s.phases[u]) < Protocol.Owns(s.g.pcs[u]) { assert Idle(s, u); }
    }
  }

  lemma RoomIsShortfall(c: Config, s: State)
    requires |s.slots| == |s.auto| == |c.caps|
    requires forall b | 0 <= b < |c.caps| :: c.caps[b] > 0
    ensures SomeRoom(c, s) <==> exists b | 0 <= b < |s.slots| :: Count(s.slots[b]) < Count(c.caps[b])
  {
    if b :| 0 <= b < |s.slots| && Count(s.slots[b]) < Count(c.caps[b]) { assert HasRoom(c, s, b); }
  }

  /** The facts about the gate that a run with fixed capacity leaves behind. */
  lemma FixedGate(c: Config, pool: seq<Backends.Snapshot>, tr: seq<Step>)
    requires IsRun(c, tr) && FixedCapacity(c, pool, tr)
    ensures var s := After(c, tr);
      && Inv(c, s) && Protocol.Inv(c.gate, s.g)
      && s.g.gate.inflight == Sum(s.g.pcs, Protocol.Owns) <= Sum(c.caps, Count)
      && GateLimits.ConstantInv(s.g, Sum(c.caps, Count))
      && (forall b | 0 <= b < |c.caps| :: c.caps[b] > 0)
  {
    RunKeepsInv(c, tr);
    GateRefined(c, tr);
    LimitIsSumOfCaps(c, pool, tr);
    GateLimits.ConstantLimitRun(c.gate, GateSteps(tr), Sum(c.caps, Count));
    GateOwnership.Ownership(c.gate, GateSteps(tr));
  }

  /**
   What the gate does for a caller when the capacity is fixed. It fails to admit exactly when its
   slots are all taken, which is always so when every backend is full. But it also queues or rejects
   a caller beside a backend with room, and exactly when some owner of a gate slot is not using it at
   a backend: one that is still choosing, has just been woken, or has its answer already.
   */
  lemma TurnedAwayBesideRoom(c: Config, pool: seq<Backends.Snapshot>, tr: seq<Step>, t: nat)
    requires IsRun(c, tr) && FixedCapacity(c, pool, tr)
    requires Protocol.StepEnabled(After(c, tr).g, Protocol.EnterGate(t))
    ensures var s := After(c, tr);
      var pc := Protocol.Apply(c.gate, s.g, Protocol.EnterGate(t)).pcs[t];
      && (pc != Protocol.Holding <==> s.g.gate.inflight == Sum(c.caps, Count))
      && (!SomeRoom(c, s) ==> pc != Protocol.Holding)
      && (pc != Protocol.Holding ==> (SomeRoom(c, s) <==> exists u: nat :: Idle(s, u)))
  {
    hide Inv, IsRun, After, FixedCapacity, Sum, SomeRoom, Idle;
    FixedGate(c, pool, tr);
    RoomIffIdle(c, After(c, tr));
  }

  // ---- Refused inside the gate ----

  /** What a request found when it looked at a backend. */
  datatype Sight = Unseen | Seen(fits: bool, room: bool)

  predicate Passed(sight: Sight) {
    sight.Seen? && sight.fits && sight.room
  }

  /** How an attempt at a backend ended: the reservation was turned down, or the forward failed. */
  datatype Fate = Untried | TurnedDown | Failed

  /** A step of request t for backend b. */
  predicate ActsAt(s: State, t: nat, b: nat) {
    Active(s, t) && !s.phases[t].Finished? && b == if s.phases[t].Scan? then s.phases[t].next else s.phases[t].b
  }

  ghost function NextSight(c: Config, s: State, step: Step, t: nat, b: nat, sight: Sight): Sight {
    if step.Look? && step.t == t && ActsAt(s, t, b) then Seen(step.fits, HasRoom(c, s, b)) else sight
  }

  ghost function NextFate(s: State, step: Step, t: nat, b: nat, fate: Fate): Fate {
    if step.ForwardFails? && step.t == t && ActsAt(s, t, b) then Failed
    else if step.LoadCounter? && step.t == t && ActsAt(s, t, b) && s.phases[t].Reserving? && b < |s.slots|
            && 0 < s.phases[t].limit <= s.slots[b]
    then TurnedDown
    else fate
  }

  /** The last time t looked at backend b. Once its scan has passed b, that is the look of this scan. */
  ghost function LastLook(c: Config, tr: seq<Step>, t: nat, b: nat): Sight
    requires IsRun(c, tr)
    decreases |tr|
  {
    if tr == [] then Unseen
    else
      var front := tr[..|tr| - 1];
      NextSight(c, After(c, front), tr[|tr| - 1], t, b, LastLook(c, front, t, b))
  }

  ghost function LastFate(c: Config, tr: seq<Step>, t: nat, b: nat): Fate
    requires IsRun(c, tr)
    decreases |tr|
  {
    if tr == [] then Untried
    else
      var front := tr[..|tr| - 1];
      NextFate(After(c, front), tr[|tr| - 1], t, b, LastFate(c, front, t, b))
  }

  /** What a request holds in its hands is what the run says it has seen and attempted. */
  ghost predicate Remembers(p: Phase, b: nat, sight: Sight, fate: Fate) {
    && (!p.Finished? ==> (b in p.tried <==> fate != Untried || (!p.Scan? && b == p.b)))
    && (p.Scan? ==> (b in p.found <==> b < p.next && Passed(sight)))
    && (p.Scan? && b < p.next ==> sight.Seen?)
  }

  lemma StepIsRemembered(c: Config, s: State, step: Step, t: nat, b: nat, sight: Sight, fate: Fate)
    requires StepEnabled(c, s, step)
    requires if t < |s.phases| then Remembers(s.phases[t], b, sight, fate) else fate == Untried
    ensures var s' := Apply(c, s, step);
      var fate' := NextFate(s, step, t, b, fate);
      if t < |s'.phases| then Remembers(s'.phases[t], b, NextSight(c, s, step, t, b, sight), fate')
      else fate' == Untried
  {
    hide HasRoom, Protocol.Apply, Protocol.StepEnabled;
  }

  lemma {:induction false} RunIsRemembered(c: Config, tr: seq<Step>, t: nat, b: nat)
    requires IsRun(c, tr)
    ensures var s := After(c, tr);
      if t < |s.phases| then Remembers(s.phases[t], b, LastLook(c, tr, t, b), LastFate(c, tr, t, b))
      else LastFate(c, tr, t, b) == Untried
    decreases |tr|
  {
    hide Remembers, NextSight, NextFate, StepEnabled, Apply;
    if tr != [] {
      var front := tr[..|tr| - 1];
      RunIsRemembered(c, front, t, b);
      StepIsRemembered(c, After(c, front), tr[|tr| - 1], t, b, LastLook(c, front, t, b), LastFate(c, front, t, b));
    }
  }

  /**
   At the end of a scan, what is left for request t to choose from: backends that did not turn its
   reservation down and whose forward did not fail, seen UP, with its model and with room.
   */
  ghost predicate Left(c: Config, tr: seq<Step>, t: nat, b: nat)
    requires IsRun(c, tr)
  {
    LastFate(c, tr, t, b) == Untried && Passed(LastLook(c, tr, t, b))
  }

  lemma LeftIsFoundUntried(c: Config, tr: seq<Step>, t: nat)
    requires IsRun(c, tr) && Active(After(c, tr), t)
    requires After(c, tr).phases[t].Scan? && After(c, tr).phases[t].next == |c.caps|
    ensures forall b: nat | b < |c.caps| :: LastLook(c, tr, t, b).Seen?
    ensures var p := After(c, tr).phases[t];
      forall b: nat :: b in p.found - p.tried <==> b < |c.caps| && Left(c, tr, t, b)
  {
    hide IsRun, After, Apply, LastFate, LastLook, HasRoom, Protocol.Apply;
    var p := After(c, tr).phases[t];
    forall b: nat
      ensures b in p.found - p.tried <==> b < |c.caps| && Left(c, tr, t, b)
      ensures b < |c.caps| ==> LastLook(c, tr, t, b).Seen?
    {
      RunIsRemembered(c, tr, t, b);
    }
  }

  /**
   When a request inside the gate is refused. At the end of a scan it gives up exactly if at each
   backend its reservation was turned down or its forward failed before, or the backend was full,
   DOWN or without its model when this scan looked, or the guard saw it near the VRAM limit. If it
   is not for one of the first reasons that a backend is out, a plugin may turn the request down
   as well. Nothing is asked of other requests.
   */
  lemma RefusalExact(c: Config, tr: seq<Step>, t: nat, near: set<nat>)
    requires IsRun(c, tr) && Active(After(c, tr), t)
    requires After(c, tr).phases[t].Scan? && After(c, tr).phases[t].next == |c.caps|
    ensures forall b: nat | b < |c.caps| :: LastLook(c, tr, t, b).Seen?
    ensures StepEnabled(c, After(c, tr), GiveUp(t, near)) <==>
            forall b: nat | b < |c.caps| :: !Left(c, tr, t, b) || b in near
    ensures StepEnabled(c, After(c, tr), PluginRefuses(t)) <==>
            exists b: nat :: b < |c.caps| && Left(c, tr, t, b)
  {
    hide IsRun, After, Apply, Left, LastLook, HasRoom, Protocol.Apply;
    LeftIsFoundUntried(c, tr, t);
    var p := After(c, tr).phases[t];
    var left := p.found - p.tried;
    assert StepEnabled(c, After(c, tr), GiveUp(t, near)) <==> left <= near;
    assert StepEnabled(c, After(c, tr), PluginRefuses(t)) <==> left != {};
    forall b: nat ensures b in left <==> b < |c.caps| && Left(c, tr, t, b) {}
    if !(left <= near) {
      var b :| b in left && b !in near;
      assert Left(c, tr, t, b);
    }
    if left != {} {
      var b :| b in left;
      assert Left(c, tr, t, b);
    }
  }

  /**
   With fixed capacity there is room somewhere whenever a scan has ended, so the refusals beside a
   free backend are all refusals: they happen exactly in the cases of RefusalExact.
   */
  lemma RefusedBesideRoomExact(c: Config, pool: seq<Backends.Snapshot>, tr: seq<Step>, t: nat, near: set<nat>)
    requires IsRun(c, tr) && FixedCapacity(c, pool, tr) && Active(After(c, tr), t)
    requires After(c, tr).phases[t].Scan? && After(c, tr).phases[t].next == |c.caps|
    ensures SomeRoom(c, After(c, tr)) && StepEnabled(c, After(c, tr), GiveUp(t, near)) <==>
            forall b: nat | b < |c.caps| :: !Left(c, tr, t, b) || b in near
    ensures SomeRoom(c, After(c, tr)) && StepEnabled(c, After(c, tr), PluginRefuses(t)) <==>
            exists b: nat :: b < |c.caps| && Left(c, tr, t, b)
  {
    RefusalExact(c, tr, t, near);
    assert SomeRoom(c, After(c, tr)) by {
      FixedGate(c, pool, tr);
      RoomIffIdle(c, After(c, tr));
      assert Idle(After(c, tr), t);
    }
  }

  // ---- A caller rejected beside a free backend ----

  const ONE := Config(Gate.Config(0, true, [1, 1, 1]), [1])

  const ONE_UP := [Backends.Snapshot("gpu", [], Backends.Ollama, true, 1, 0, 0, 0)]

  /** A state of the system in which nobody has looked at the backend yet. */
  function AtGate(inflight: int, queue: seq<nat>, pcs: seq<Protocol.Pc>): State {
    State(Protocol.State(Gate.GateState(inflight, [queue, [], []]), pcs), [0], [0], seq(|pcs|, _ => START))
  }

  lemma TotalOfOne()
    ensures Backends.Total(ONE_UP) == 1 && FixedCapacity(ONE, ONE_UP, [])
  {
    assert ONE_UP[..0] == [];
    assert forall i | 0 <= i < |ONE_UP| :: !Backends.UnlimitedUp(ONE_UP[i]);
    assert Sum(ONE_UP, Backends.UpCapacity) == 1;
  }

  /** One more step in the world of one backend; a caller that arrives reads a limit of 1. */
  lemma AdvanceOne(tr: seq<Step>, step: Protocol.Step) returns (tr': seq<Step>)
    requires IsRun(ONE, tr) && FixedCapacity(ONE, ONE_UP, tr) && Protocol.StepEnabled(After(ONE, tr).g, step)
    requires !step.ReadLimit? && (step.Arrive? ==> step.live == 1)
    ensures IsRun(ONE, tr') && FixedCapacity(ONE, ONE_UP, tr')
    ensures After(ONE, tr') == Apply(ONE, After(ONE, tr), GateStep(step))
  {
    TotalOfOne();
    hide Backends.Total, Sum;
    tr' := Advance(ONE, tr, GateStep(step));
  }

  /** One request is inside and has not looked at the backend. */
  lemma OneInside() returns (tr: seq<Step>)
    ensures IsRun(ONE, tr) && FixedCapacity(ONE, ONE_UP, tr)
    ensures After(ONE, tr) == AtGate(1, [], [Protocol.Holding])
  {
    TotalOfOne();
    hide FixedCapacity, Backends.Total, Sum;
    Gate.NothingQueued(Protocol.INIT.gate.queues);
    assert Init(ONE).slots == [0] && Init(ONE).auto == [0];
    tr := AdvanceOne([], Protocol.Arrive(0, 1));
    assert After(ONE, tr) == AtGate(0, [], [Protocol.LimitRead(0, 1)]);
    tr := AdvanceOne(tr, Protocol.EnterGate(0));
  }

  /** And another one waits. */
  lemma OneInOneWaiting() returns (tr: seq<Step>)
    ensures IsRun(ONE, tr) && FixedCapacity(ONE, ONE_UP, tr)
    ensures After(ONE, tr) == AtGate(1, [1], [Protocol.Holding, Protocol.Waiting(0, false)])
  {
    hide FixedCapacity;
    tr := OneInside();
    tr := AdvanceOne(tr, Protocol.Arrive(0, 1));
    assert After(ONE, tr) == AtGate(1, [], [Protocol.Holding, Protocol.LimitRead(0, 1)]);
    tr := AdvanceOne(tr, Protocol.EnterGate(1));
    GateLimits.FirstInLine(1);
  }

  /** The limit never changes, the only backend is idle, and yet a request is rejected. */
  lemma RejectedBesideIdleBackend() returns (tr: seq<Step>)
    ensures IsRun(ONE, tr) && FixedCapacity(ONE, ONE_UP, tr)
    ensures After(ONE, tr) == AtGate(1, [1], [Protocol.Holding, Protocol.Waiting(0, false), Protocol.Done(false)])
    ensures HasRoom(ONE, After(ONE, tr), 0)
  {
    hide FixedCapacity;
    tr := OneInOneWaiting();
    tr := AdvanceOne(tr, Protocol.Arrive(0, 1));
    assert After(ONE, tr) == AtGate(1, [1], [Protocol.Holding, Protocol.Waiting(0, false), Protocol.LimitRead(0, 1)]);
    Gate.TotalUpdate(After(ONE, tr).g.gate.queues, 0, []);
    tr := AdvanceOne(tr, Protocol.EnterGate(2));
  }

  // ---- A loser of a race refused beside a free backend ----

  const TWO := Config(Gate.Config(0, true, [0, 0, 0]), [1, 1])

  /** A state of the system in which nobody has looked at the two backends yet. */
  function AtGateOfTwo(inflight: int, pcs: seq<Protocol.Pc>): State {
    State(Protocol.State(Gate.GateState(inflight, [[], [], []]), pcs), [0, 0], [0, 0], seq(|pcs|, _ => START))
  }

  /** Two requests inside the gate, at the start of their loops. */
  const BOTH_IN := Protocol.State(Gate.GateState(2, [[], [], []]), [Protocol.Holding, Protocol.Holding])

  lemma FirstEnters() returns (tr: seq<Step>)
    ensures IsRun(TWO, tr)
    ensures After(TWO, tr) == AtGateOfTwo(1, [Protocol.Holding])
  {
    tr := [];
    assert Init(TWO).slots == [0, 0] && Init(TWO).auto == [0, 0];
    Gate.NothingQueued(Protocol.INIT.gate.queues);
    tr := Advance(TWO, tr, GateStep(Protocol.Arrive(0, 2)));
    assert After(TWO, tr) == AtGateOfTwo(0, [Protocol.LimitRead(0, 2)]);
    tr := Advance(TWO, tr, GateStep(Protocol.EnterGate(0)));
  }

  lemma TwoEnter() returns (tr: seq<Step>)
    ensures IsRun(TWO, tr) && After(TWO, tr) == State(BOTH_IN, [0, 0], [0, 0], [START, START])
  {
    tr := FirstEnters();
    Gate.NothingQueued(Protocol.INIT.gate.queues);
    tr := Advance(TWO, tr, GateStep(Protocol.Arrive(0, 2)));
    assert After(TWO, tr) == AtGateOfTwo(1, [Protocol.Holding, Protocol.LimitRead(0, 2)]);
    tr := Advance(TWO, tr, GateStep(Protocol.EnterGate(1)));
  }

  /** Request t scans both backends without anything in between. */
  lemma LookTwice(tr: seq<Step>, t: nat, tried: set<nat>) returns (tr': seq<Step>)
    requires IsRun(TWO, tr) && Active(After(TWO, tr), t) && |After(TWO, tr).slots| == |After(TWO, tr).auto| == 2
    requires After(TWO, tr).phases[t] == Scan(tried, 0, {})
    ensures IsRun(TWO, tr')
    ensures var s := After(TWO, tr);
      var found := (if HasRoom(TWO, s, 0) then {0} else {}) + (if HasRoom(TWO, s, 1) then {1} else {});
      After(TWO, tr') == s.(phases := s.phases[t := Scan(tried, 2, found)])
  {
    var s := After(TWO, tr);
    var first: set<nat> := if HasRoom(TWO, s, 0) then {0} else {};
    var mid := Advance(TWO, tr, Look(t, true));
    assert After(TWO, mid) == s.(phases := s.phases[t := Scan(tried, 1, first)]) by {
      assert {} + {0} == {0};
    }
    tr' := Advance(TWO, mid, Look(t, true));
    var second := if HasRoom(TWO, s, 1) then first + {1} else first;
    assert After(TWO, tr').phases == s.phases[t := Scan(tried, 1, first)][t := Scan(tried, 2, second)];
    assert second == first + if HasRoom(TWO, s, 1) then {1} else {};
  }

  /** Request t takes a slot of backend b without anything in between. */
  lemma Take(tr: seq<Step>, t: nat, tried: set<nat>, b: nat) returns (tr': seq<Step>)
    requires IsRun(TWO, tr) && Active(After(TWO, tr), t) && b < 2
    requires |After(TWO, tr).slots| == |After(TWO, tr).auto| == 2
    requires After(TWO, tr).phases[t] == Picked(tried, b) && After(TWO, tr).slots[b] == 0
    ensures IsRun(TWO, tr')
    ensures var s := After(TWO, tr);
      After(TWO, tr') == s.(slots := s.slots[b := 1], phases := s.phases[t := Serving(tried, b)])
  {
    var s := After(TWO, tr);
    var read := Advance(TWO, tr, ReadCap(t));
    assert After(TWO, read) == s.(phases := s.phases[t := Reserving(tried, b, 1)]);
    var mid := Advance(TWO, read, LoadCounter(t));
    assert After(TWO, mid).phases == s.phases[t := Reserving(tried, b, 1)][t := Loaded(tried, b, 1, 0)];
    assert After(TWO, mid) == s.(phases := s.phases[t := Loaded(tried, b, 1, 0)]);
    tr' := Advance(TWO, mid, SwapCounter(t));
    assert s.phases[t := Loaded(tried, b, 1, 0)][t := Serving(tried, b)] == s.phases[t := Serving(tried, b)];
  }

  /** Both backends are idle and fit, but near the VRAM limit: the request is refused all the same. */
  lemma GuardRefusesBesideIdleBackends() returns (tr: seq<Step>)
    ensures IsRun(TWO, tr) && StepEnabled(TWO, After(TWO, tr), GiveUp(0, {0, 1}))
    ensures After(TWO, tr).slots == [0, 0] && HasRoom(TWO, After(TWO, tr), 0) && HasRoom(TWO, After(TWO, tr), 1)
    ensures Left(TWO, tr, 0, 0) && Left(TWO, tr, 0, 1)
  {
    tr := TwoEnter();
    tr := LookTwice(tr, 0, {});
    assert After(TWO, tr).phases[0] == Scan({}, 2, {0} + {1});
    LeftIsFoundUntried(TWO, tr, 0);
    assert 0 in {0} + {1} - {} && 1 in {0} + {1} - {};
  }

  /** Both requests find both backends free and choose backend 0. */
  lemma BothChoose() returns (tr: seq<Step>)
    ensures IsRun(TWO, tr)
    ensures After(TWO, tr) == State(BOTH_IN, [0, 0], [0, 0], [Picked({0}, 0), Picked({0}, 0)])
  {
    tr := TwoEnter();
    tr := LookTwice(tr, 0, {});
    tr := LookTwice(tr, 1, {});
    assert After(TWO, tr) == State(BOTH_IN, [0, 0], [0, 0], [Scan({}, 2, {0} + {1}), Scan({}, 2, {0} + {1})]);
    tr := Advance(TWO, tr, Choose(0, 0));
    tr := Advance(TWO, tr, Choose(1, 0));
    assert {} + {0} == {0};
  }

  /** The first one reserves the slot, the second loses the race for it. */
  lemma LoseTheRace() returns (tr: seq<Step>)
    ensures IsRun(TWO, tr)
    ensures After(TWO, tr) == State(BOTH_IN, [1, 0], [0, 0], [Serving({0}, 0), Scan({0}, 0, {})])
  {
    tr := BothChoose();
    tr := Take(tr, 0, {0}, 0);
    assert After(TWO, tr) == State(BOTH_IN, [1, 0], [0, 0], [Serving({0}, 0), Picked({0}, 0)]);
    tr := Advance(TWO, tr, ReadCap(1));
    assert After(TWO, tr) == State(BOTH_IN, [1, 0], [0, 0], [Serving({0}, 0), Reserving({0}, 0, 1)]);
    tr := Advance(TWO, tr, LoadCounter(1));
  }

  /** Backend 0 fails the first request, which moves on to backend 1. */
  lemma WinnerMovesOn() returns (tr: seq<Step>)
    ensures IsRun(TWO, tr)
    ensures After(TWO, tr) == State(BOTH_IN, [0, 1], [0, 0], [Serving({0} + {1}, 1), Scan({0}, 0, {})])
  {
    tr := LoseTheRace();
    tr := Advance(TWO, tr, ForwardFails(0, false));
    assert After(TWO, tr) == State(BOTH_IN, [0, 0], [0, 0], [Scan({0}, 0, {}), Scan({0}, 0, {})]);
    tr := LookTwice(tr, 0, {0});
    assert After(TWO, tr) == State(BOTH_IN, [0, 0], [0, 0], [Scan({0}, 2, {0} + {1}), Scan({0}, 0, {})]);
    tr := Advance(TWO, tr, Choose(0, 1));
    assert After(TWO, tr) == State(BOTH_IN, [0, 0], [0, 0], [Picked({0} + {1}, 1), Scan({0}, 0, {})]);
    tr := Take(tr, 0, {0} + {1}, 1);
  }

  /**
   The second request is refused while backend 0 is free: it never got a slot there, but having
   lost the race counts as having tried it.
   */
  lemma RefusedBesideFreeSlot() returns (tr: seq<Step>)
    ensures IsRun(TWO, tr) && StepEnabled(TWO, After(TWO, tr), GiveUp(1, {}))
    ensures HasRoom(TWO, After(TWO, tr), 0)
  {
    tr := WinnerMovesOn();
    tr := LookTwice(tr, 1, {0});
    assert After(TWO, tr).phases[1] == Scan({0}, 2, {0} + {});
  }
}
