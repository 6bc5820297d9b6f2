/**
 What the gate promises about its limit: work conservation for a constant limit, the weaker
 bound that survives a changing one, and where a changing limit breaks the stronger promise.
 */
module GateLimits {
  import opened Options
  import opened Sums
  import opened GateSpec
  import opened GateProtocol
  import opened GateOwnership

  // ---- A constant limit ----

  /** Every Acquire of the run reads the limit as L. */
  ghost predicate AlwaysReads(c: Config, tr: seq<Step>, L: int) {
    forall i | 0 <= i < |tr| && tr[i].Arrive? :: Limit(c, tr[i].live) == L
  }

  ghost predicate ConstantInv(s: State, L: int) {
    && (forall t | 0 <= t < |s.pcs| && s.pcs[t].LimitRead? :: s.pcs[t].limit == L)
    && s.gate.inflight <= L
    && (TotalQueued(s.gate.queues) > 0 ==> s.gate.inflight == L)
  }

  lemma StepKeepsConstantInv(c: Config, s: State, step: Step, L: int)
    requires Inv(c, s) && ConstantInv(s, L) && StepEnabled(s, step)
    requires step.Arrive? ==> Limit(c, step.live) == L
    ensures ConstantInv(Apply(c, s, step), L)
  {
    hide QueuesSound, QueuesBounded, LimitsSound;
    match step
    case EnterGate(t) =>
      var p := s.pcs[t].p;
      TotalUpdate(s.gate.queues, p, s.gate.queues[p] + [t]);
    case Recheck(t) =>
      if !s.pcs[t].woken {
        assert QueuesSound(s);
        var k := FindPlace(s, t);
        var p := s.pcs[t].p;
        TotalUpdate(s.gate.queues, p, Remove(s.gate.queues[p], t));
      }
    case ReleaseSlot(t) => HandOffCases(s.gate);
    case _ =>
  }

  lemma {:induction false} ConstantLimitRun(c: Config, tr: seq<Step>, L: int)
    requires IsRun(c, INIT, tr) && AlwaysReads(c, tr, L) && L >= 0
    ensures Inv(c, After(c, INIT, tr)) && ConstantInv(After(c, INIT, tr), L)
    decreases |tr|
  {
    InitInv(c);
    RunKeepsInv(c, INIT, tr);
    NothingQueued(INIT.gate.queues);
    if tr != [] {
      var front := tr[..|tr| - 1];
      assert forall i | 0 <= i < |front| && front[i].Arrive? :: front[i] == tr[i];
      ConstantLimitRun(c, front, L);
      StepKeepsConstantInv(c, After(c, INIT, front), tr[|tr| - 1], L);
    }
  }

  /**
   Work conservation. Under a constant limit L > 0 the gate never exceeds L; if anybody waits,
   every slot is taken; and a caller is turned away exactly when every slot is taken and the
   queue of its tier is at its limit.
   */
  lemma WorkConservation(c: Config, tr: seq<Step>, L: int)
    requires IsRun(c, INIT, tr) && AlwaysReads(c, tr, L) && L > 0
    ensures var s := After(c, INIT, tr);
      && s.gate.inflight <= L
      && (Members(s.gate.queues) != {} ==> s.gate.inflight == L)
      && (forall t: nat | StepEnabled(s, EnterGate(t)) :: var p := s.pcs[t].p;
            Apply(c, s, EnterGate(t)).pcs[t] == Done(false) <==>
              s.gate.inflight == L && c.limits[p] > 0 && |s.gate.queues[p]| == c.limits[p])
  {
    ConstantLimitRun(c, tr, L);
    var s := After(c, INIT, tr);
    NothingQueued(s.gate.queues);
    forall t: nat | StepEnabled(s, EnterGate(t))
      ensures var p := s.pcs[t].p;
        Apply(c, s, EnterGate(t)).pcs[t] == Done(false) <==>
          s.gate.inflight == L && c.limits[p] > 0 && |s.gate.queues[p]| == c.limits[p]
    {
      var p := s.pcs[t].p;
      TotalUpdate(s.gate.queues, p, []);
    }
  }

  // ---- A changing limit ----

  /** The largest limit that a fast-path admission of the run was decided against. */
  ghost function Peak(c: Config, tr: seq<Step>): int
    requires IsRun(c, INIT, tr)
    decreases |tr|
  {
    if tr == [] then 0
    else
      var before := After(c, INIT, tr[..|tr| - 1]);
      var last := tr[|tr| - 1];
      var peak := Peak(c, tr[..|tr| - 1]);
      if last.EnterGate? && Apply(c, before, last).pcs[last.t].Holding? && before.pcs[last.t].limit > peak
      then before.pcs[last.t].limit
      else peak
  }

  /** Whatever the limit does, a hand-off never takes inflight above the highest limit admitted under. */
  lemma {:induction false} AdmissionBounded(c: Config, tr: seq<Step>)
    requires IsRun(c, INIT, tr)
    ensures After(c, INIT, tr).gate.inflight <= Peak(c, tr)
    decreases |tr|
  {
    if tr != [] {
      AdmissionBounded(c, tr[..|tr| - 1]);
      HandOffCases(After(c, INIT, tr[..|tr| - 1]).gate);
    }
  }

  /** The step gives a slot to a request that had none. */
  ghost predicate Admits(c: Config, s: State, step: Step)
    requires StepEnabled(s, step)
  {
    var s' := Apply(c, s, step);
    exists w :: 0 <= w < |s.pcs| && w < |s'.pcs| && Owns(s.pcs[w]) == 0 && Owns(s'.pcs[w]) == 1
  }

  /**
   When the gate admits past a limit L, whatever L is: a fast path that was decided against a
   larger limit than L, or a hand-off while inflight is above L already. No other step of an enabled
   gate admits; a disabled one lets everybody in on arrival and counts nobody.
   */
  lemma AdmissionPastLimit(c: Config, s: State, step: Step, L: int)
    requires Inv(c, s) && StepEnabled(s, step)
    ensures Admits(c, s, step) && Apply(c, s, step).gate.inflight > L <==>
            || (step.EnterGate? && TotalQueued(s.gate.queues) == 0 && L <= s.gate.inflight < s.pcs[step.t].limit)
            || (step.ReleaseSlot? && TotalQueued(s.gate.queues) > 0 && L < s.gate.inflight)
  {
    hide QueuesSound, QueuesBounded, LimitsSound, FirstTier, TotalQueued;
    var s' := Apply(c, s, step);
    match step
    case EnterGate(t) =>
      assert Owns(s.pcs[t]) == 0;
      if s.gate.inflight < s.pcs[t].limit && TotalQueued(s.gate.queues) == 0 {
        assert Owns(s'.pcs[t]) == 1;
      }
    case ReleaseSlot(t) =>
      HandOffCases(s.gate);
      if TotalQueued(s.gate.queues) > 0 {
        assert QueuesSound(s);
        var w := HeadIsPending(s, FirstTier(s.gate.queues));
        assert Owns(s.pcs[w]) == 0 && Owns(s'.pcs[w]) == 1;
      }
    case _ =>
  }

  /**
   A caller is turned away exactly when the queue of its tier is at its limit. How many slots are
   taken plays no part, nor does the limit of the gate, neither the one read nor the one in force.
   */
  lemma RejectionIffFull(c: Config, s: State, t: nat)
    requires Inv(c, s) && StepEnabled(s, EnterGate(t))
    ensures var p := s.pcs[t].p;
      Apply(c, s, EnterGate(t)).pcs[t] == Done(false) <==> c.limits[p] > 0 && |s.gate.queues[p]| == c.limits[p]
  {
    var p := s.pcs[t].p;
    TotalUpdate(s.gate.queues, p, []);
  }

  // ---- No limit ----

  /**
   What it means for a caller that some backend is unlimited. It reads the sentinel and is let in
   exactly if nobody waits, short of the sentinel itself; it may still have to wait or be rejected.
   */
  lemma SentinelAdmits(c: Config, s: State, t: nat)
    requires Inv(c, s) && StepEnabled(s, EnterGate(t)) && s.pcs[t].limit == MAX_INT32
    ensures Apply(c, s, EnterGate(t)).pcs[t] == Holding <==>
            s.gate.inflight < MAX_INT32 && Members(s.gate.queues) == {}
  {
    NobodyIsMember(s.gate.queues);
  }

  lemma NobodyIsMember(queues: seq<seq<nat>>)
    ensures TotalQueued(queues) == 0 <==> Members(queues) == {}
  {
    NothingQueued(queues);
    if p :| 0 <= p < |queues| && queues[p] != [] {
      assert queues[p][0] in Members(queues);
    }
  }

  /** Without a limit from the start on, the gate lets everybody in at once, short of the sentinel. */
  lemma SentinelThroughout(c: Config, tr: seq<Step>, t: nat)
    requires IsRun(c, INIT, tr) && AlwaysReads(c, tr, MAX_INT32)
    requires StepEnabled(After(c, INIT, tr), EnterGate(t))
    ensures var s := After(c, INIT, tr);
      Apply(c, s, EnterGate(t)).pcs[t] == Holding <==> s.gate.inflight < MAX_INT32
  {
    ConstantLimitRun(c, tr, MAX_INT32);
    var s := After(c, INIT, tr);
    NobodyIsMember(s.gate.queues);
    SentinelAdmits(c, s, t);
  }

  const ONE_EACH := Config(0, true, [1, 1, 1])

  lemma FirstInLine(t: nat)
    ensures var empty: seq<seq<nat>> := [[], [], []];
      empty[0 := empty[0] + [t]] == [[t], [], []]
  {
    var empty: seq<seq<nat>> := [[], [], []];
    assert empty[0] + [t] == [t];
  }

  const FILL_ONE := [Arrive(0, 1), EnterGate(0), Arrive(0, 1), EnterGate(1)]

  lemma OneSlotTaken()
    ensures IsRun(ONE_EACH, INIT, FILL_ONE)
    ensures After(ONE_EACH, INIT, FILL_ONE) == State(GateState(1, [[1], [], []]), [Holding, Waiting(0, false)])
  {
    var c := ONE_EACH;
    var t1 := [] + [Arrive(0, 1)];
    RunSnoc(c, INIT, [], Arrive(0, 1));
    assert After(c, INIT, t1) == State(INIT.gate, [LimitRead(0, 1)]);
    NothingQueued(INIT.gate.queues);
    var t2 := t1 + [EnterGate(0)];
    RunSnoc(c, INIT, t1, EnterGate(0));
    assert After(c, INIT, t2) == State(GateState(1, [[], [], []]), [Holding]);
    var t3 := t2 + [Arrive(0, 1)];
    RunSnoc(c, INIT, t2, Arrive(0, 1));
    assert After(c, INIT, t3) == State(GateState(1, [[], [], []]), [Holding, LimitRead(0, 1)]);
    RunSnoc(c, INIT, t3, EnterGate(1));
    FirstInLine(1);
    assert t3 + [EnterGate(1)] == FILL_ONE;
  }

  /** The limit grows from 1 to 2: a request is rejected, and another left waiting, beside a free slot. */
  lemma GrownLimitRejectsBesideFreeSlot()
    ensures var tr := FILL_ONE + [Arrive(0, 2)] + [EnterGate(2)];
      && IsRun(ONE_EACH, INIT, tr)
      && After(ONE_EACH, INIT, tr) == State(GateState(1, [[1], [], []]), [Holding, Waiting(0, false), Done(false)])
  {
    var c := ONE_EACH;
    OneSlotTaken();
    var t5 := FILL_ONE + [Arrive(0, 2)];
    RunSnoc(c, INIT, FILL_ONE, Arrive(0, 2));
    assert After(c, INIT, t5) == State(GateState(1, [[1], [], []]), [Holding, Waiting(0, false), LimitRead(0, 2)]);
    TotalUpdate(After(c, INIT, t5).gate.queues, 0, []);
    RunSnoc(c, INIT, t5, EnterGate(2));
  }

  /** The limit goes from 1 to none: a request is rejected although the gate should not count any more. */
  lemma SentinelRejects()
    ensures var tr := FILL_ONE + [Arrive(0, 0)] + [EnterGate(2)];
      && IsRun(ONE_EACH, INIT, tr) && Limit(ONE_EACH, 0) == MAX_INT32
      && After(ONE_EACH, INIT, tr) == State(GateState(1, [[1], [], []]), [Holding, Waiting(0, false), Done(false)])
  {
    var c := ONE_EACH;
    OneSlotTaken();
    var t5 := FILL_ONE + [Arrive(0, 0)];
    RunSnoc(c, INIT, FILL_ONE, Arrive(0, 0));
    assert After(c, INIT, t5) ==
           State(GateState(1, [[1], [], []]), [Holding, Waiting(0, false), LimitRead(0, MAX_INT32)]);
    TotalUpdate(After(c, INIT, t5).gate.queues, 0, []);
    RunSnoc(c, INIT, t5, EnterGate(2));
  }

  lemma LastInLine(t: nat)
    ensures HandOff(GateState(2, [[t], [], []])) == (GateState(2, [[], [], []]), Some(t))
  {
    var queues: seq<seq<nat>> := [[t], [], []];
    assert FirstTier(queues) == 0;
    assert queues[0][1..] == [];
    assert queues[0 := queues[0][1..]] == [[], [], []];
  }

  const FILL_TWO := [Arrive(0, 2), EnterGate(0), Arrive(0, 2), EnterGate(1)]

  lemma TwoSlotsTaken()
    ensures IsRun(ONE_EACH, INIT, FILL_TWO)
    ensures After(ONE_EACH, INIT, FILL_TWO) == State(GateState(2, [[], [], []]), [Holding, Holding])
  {
    var c := ONE_EACH;
    var t1 := [] + [Arrive(0, 2)];
    RunSnoc(c, INIT, [], Arrive(0, 2));
    assert After(c, INIT, t1) == State(INIT.gate, [LimitRead(0, 2)]);
    NothingQueued(INIT.gate.queues);
    var t2 := t1 + [EnterGate(0)];
    RunSnoc(c, INIT, t1, EnterGate(0));
    assert After(c, INIT, t2) == State(GateState(1, [[], [], []]), [Holding]);
    var t3 := t2 + [Arrive(0, 2)];
    RunSnoc(c, INIT, t2, Arrive(0, 2));
    assert After(c, INIT, t3) == State(GateState(1, [[], [], []]), [Holding, LimitRead(0, 2)]);
    RunSnoc(c, INIT, t3, EnterGate(1));
    assert t3 + [EnterGate(1)] == FILL_TWO;
  }

  /** The limit shrinks from 2 to 1: a hand-off starts a waiter while inflight is above the limit. */
  lemma ShrunkLimitAdmitsPastCapacity()
    ensures var tr := FILL_TWO + [Arrive(0, 2)] + [EnterGate(2)] + [ReadLimit(0, 1)] + [ReleaseSlot(0)];
      && IsRun(ONE_EACH, INIT, tr)
      && After(ONE_EACH, INIT, tr) == State(GateState(2, [[], [], []]), [Done(true), Holding, Waiting(0, true)])
  {
    var c := ONE_EACH;
    TwoSlotsTaken();
    var t5 := FILL_TWO + [Arrive(0, 2)];
    RunSnoc(c, INIT, FILL_TWO, Arrive(0, 2));
    assert After(c, INIT, t5) == State(GateState(2, [[], [], []]), [Holding, Holding, LimitRead(0, 2)]);
    var t6 := t5 + [EnterGate(2)];
    RunSnoc(c, INIT, t5, EnterGate(2));
    FirstInLine(2);
    assert After(c, INIT, t6) == State(GateState(2, [[2], [], []]), [Holding, Holding, Waiting(0, false)]);
    var t7 := t6 + [ReadLimit(0, 1)];
    RunSnoc(c, INIT, t6, ReadLimit(0, 1));
    assert After(c, INIT, t7) == State(GateState(2, [[2], [], []]), [Leaving(1, true), Holding, Waiting(0, false)]);
    LastInLine(2);
    RunSnoc(c, INIT, t7, ReleaseSlot(0));
  }

  lemma TwoHaveRead()
    ensures var tr := [Arrive(0, 2)] + [Arrive(0, 2)];
      && IsRun(ONE_EACH, INIT, tr)
      && After(ONE_EACH, INIT, tr) == State(INIT.gate, [LimitRead(0, 2), LimitRead(0, 2)])
  {
    assert [] + [Arrive(0, 2)] == [Arrive(0, 2)];
    RunSnoc(ONE_EACH, INIT, [], Arrive(0, 2));
    assert After(ONE_EACH, INIT, [Arrive(0, 2)]) == State(INIT.gate, [LimitRead(0, 2)]);
    RunSnoc(ONE_EACH, INIT, [Arrive(0, 2)], Arrive(0, 2));
  }

  lemma EntersEmpty(s: State, t: nat)
    requires s.gate.queues == [[], [], []] && t < |s.pcs| && s.pcs[t].LimitRead?
    requires s.gate.inflight < s.pcs[t].limit
    ensures Apply(ONE_EACH, s, EnterGate(t)) ==
            State(GateState(s.gate.inflight + 1, [[], [], []]), s.pcs[t := Holding])
  {
    NothingQueued(s.gate.queues);
  }

  /**
   The limit is 2 when a request reads it and 1 when it gets the lock: it is admitted past the
   limit in force although nobody waits and nobody has released anything.
   */
  lemma StaleLimitAdmitsPastCapacity()
    ensures var tr := [Arrive(0, 2)] + [Arrive(0, 2)] + [EnterGate(0)] + [Arrive(0, 1)] + [EnterGate(1)];
      && IsRun(ONE_EACH, INIT, tr)
      && After(ONE_EACH, INIT, tr) == State(GateState(2, [[], [], []]), [Holding, Holding, LimitRead(0, 1)])
  {
    hide TotalQueued, Enter;
    var c := ONE_EACH;
    TwoHaveRead();
    var t2 := [Arrive(0, 2)] + [Arrive(0, 2)];
    var t3 := t2 + [EnterGate(0)];
    EntersEmpty(After(c, INIT, t2), 0);
    RunSnoc(c, INIT, t2, EnterGate(0));
    assert After(c, INIT, t3) == State(GateState(1, [[], [], []]), [Holding, LimitRead(0, 2)]);
    var t4 := t3 + [Arrive(0, 1)];
    RunSnoc(c, INIT, t3, Arrive(0, 1));
    assert After(c, INIT, t4) == State(GateState(1, [[], [], []]), [Holding, LimitRead(0, 2), LimitRead(0, 1)]);
    EntersEmpty(After(c, INIT, t4), 1);
    RunSnoc(c, INIT, t4, EnterGate(1));
  }

  // ---- The cancellation race ----

  const RACE := FILL_ONE + [ReadLimit(0, 1)] + [ReleaseSlot(0)] + [CtxDone(1)] + [Recheck(1)]

  /** The client leaves after its request was woken: the request finds its channel closed and owns the slot. */
  lemma WokenThenCancelled()
    ensures IsRun(ONE_EACH, INIT, RACE)
    ensures After(ONE_EACH, INIT, RACE) == State(GateState(1, [[], [], []]), [Done(true), GivingBack])
  {
    var c := ONE_EACH;
    OneSlotTaken();
    var t5 := FILL_ONE + [ReadLimit(0, 1)];
    RunSnoc(c, INIT, FILL_ONE, ReadLimit(0, 1));
    assert After(c, INIT, t5) == State(GateState(1, [[1], [], []]), [Leaving(1, true), Waiting(0, false)]);
    var t6 := t5 + [ReleaseSlot(0)];
    RunSnoc(c, INIT, t5, ReleaseSlot(0));
    OneInLine(1);
    assert After(c, INIT, t6) == State(GateState(1, [[], [], []]), [Done(true), Waiting(0, true)]);
    var t7 := t6 + [CtxDone(1)];
    RunSnoc(c, INIT, t6, CtxDone(1));
    assert After(c, INIT, t7) == State(GateState(1, [[], [], []]), [Done(true), Cancelled(0, true)]);
    RunSnoc(c, INIT, t7, Recheck(1));
  }

  lemma OneInLine(t: nat)
    ensures HandOff(GateState(1, [[t], [], []])) == (GateState(1, [[], [], []]), Some(t))
  {
    var queues: seq<seq<nat>> := [[t], [], []];
    assert FirstTier(queues) == 0;
    assert queues[0][1..] == [];
    assert queues[0 := queues[0][1..]] == [[], [], []];
  }

  /** It returns the slot with one Release, after which the gate is as it was at the start. */
  lemma LateCancelReturnsSlot()
    ensures var tr := RACE + [ReadLimit(1, 1)] + [ReleaseSlot(1)];
      IsRun(ONE_EACH, INIT, tr) && After(ONE_EACH, INIT, tr) == State(INIT.gate, [Done(true), Done(false)])
  {
    var c := ONE_EACH;
    WokenThenCancelled();
    var t9 := RACE + [ReadLimit(1, 1)];
    RunSnoc(c, INIT, RACE, ReadLimit(1, 1));
    assert After(c, INIT, t9) == State(GateState(1, [[], [], []]), [Done(true), Leaving(1, false)]);
    RunSnoc(c, INIT, t9, ReleaseSlot(1));
    NothingQueued(INIT.gate.queues);
    HandOffCases(After(c, INIT, t9).gate);
  }
}
