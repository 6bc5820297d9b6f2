/**
 Progress of the gate: how long a waiter can be passed over, and that the gate drains once
 requests stop arriving.
 */
module GateProgress {
  import opened Options
  import opened Sums
  import opened GateSpec
  import opened GateProtocol
  import opened GateOwnership
  import opened GateOrder

  // ---- Bounded bypass ----

  /** The waiters in tiers above p. */
  function Above(queues: seq<seq<nat>>, p: nat): nat
    requires p <= |queues|
  {
    TotalQueued(queues[..p])
  }

  /** How many waiters of the queue stand before t. */
  function Place(q: seq<nat>, t: nat): nat {
    if q == [] || q[0] == t then 0 else 1 + Place(q[1..], t)
  }

  /** The waiters that a Release would wake before t. */
  function Ahead(s: State, t: nat): nat
    requires IsPending(s.pcs, t)
  {
    Above(s.gate.queues, s.pcs[t].p) + Place(s.gate.queues[s.pcs[t].p], t)
  }

  function Releases(tr: seq<Step>): nat {
    if tr == [] then 0 else Releases(tr[..|tr| - 1]) + if tr[|tr| - 1].ReleaseSlot? then 1 else 0
  }

  /** No request joins a tier above p during the run. */
  ghost predicate NoneAbove(c: Config, s: State, tr: seq<Step>, p: Priority)
    requires IsRun(c, s, tr)
  {
    forall k | 0 <= k < |tr| && tr[k].EnterGate? ::
      IsRun(c, s, tr[..k]) && StepEnabled(After(c, s, tr[..k]), tr[k]) &&
      (After(c, s, tr[..k]).pcs[tr[k].t].p >= p
       || !Apply(c, After(c, s, tr[..k]), tr[k]).pcs[tr[k].t].Waiting?)
  }

  lemma {:induction false} PlaceAppend(q: seq<nat>, t: nat, u: nat)
    requires t in q
    ensures Place(q + [u], t) == Place(q, t)
  {
    if q[0] != t {
      assert (q + [u])[1..] == q[1..] + [u];
      PlaceAppend(q[1..], t, u);
    }
  }

  lemma {:induction false} PlaceRemove(q: seq<nat>, t: nat, u: nat)
    requires t in q && u != t
    ensures Place(Remove(q, u), t) <= Place(q, t)
    ensures q[0] == u ==> Place(Remove(q, u), t) == Place(q, t) - 1
  {
    if q[0] == t {
    } else if q[0] == u {
    } else {
      PlaceRemove(q[1..], t, u);
      assert ([q[0]] + Remove(q[1..], u))[1..] == Remove(q[1..], u);
    }
  }

  lemma {:induction false} RemoveShorter<T>(q: seq<T>, u: T)
    ensures |Remove(q, u)| == if u in q then |q| - 1 else |q|
  {
    if q != [] && q[0] != u { RemoveShorter(q[1..], u); }
  }

  /** Replacing one queue changes the count above p by the difference of the two, or not at all. */
  lemma AboveUpdate(queues: seq<seq<nat>>, p: nat, r: nat, q: seq<nat>)
    requires p <= |queues| && r < |queues|
    ensures Above(queues[r := q], p) == if r < p then Above(queues, p) - |queues[r]| + |q| else Above(queues, p)
  {
    if r < p {
      assert queues[r := q][..p] == queues[..p][r := q];
      TotalUpdate(queues[..p], r, q);
    } else {
      assert queues[r := q][..p] == queues[..p];
    }
  }

  /** The step from s does not let anybody in front of t, and a Release moves t forward. */
  lemma StepAhead(c: Config, s: State, step: Step, t: nat)
    requires Inv(c, s) && StepEnabled(s, step)
    requires Entered(s.pcs, t) && IsPending(Apply(c, s, step).pcs, t)
    requires step.EnterGate? ==>
      s.pcs[step.t].p >= Apply(c, s, step).pcs[t].p || !Apply(c, s, step).pcs[step.t].Waiting?
    ensures IsPending(s.pcs, t) && Apply(c, s, step).pcs[t].p == s.pcs[t].p
    ensures Ahead(Apply(c, s, step), t) + (if step.ReleaseSlot? then 1 else 0) <= Ahead(s, t)
  {
    var s' := Apply(c, s, step);
    var p := s'.pcs[t].p;
    if step.EnterGate? {
      var u, r := step.t, s.pcs[step.t].p;
      assert TierSound(s.gate.queues[p], s.pcs, p) && PendingIn(s.pcs, t, p);
      if s'.pcs[u].Waiting? {
        AboveUpdate(s.gate.queues, p, r, s.gate.queues[r] + [u]);
        PlaceAppend(s.gate.queues[p], t, u);
      }
    } else {
      StepEffect(c, s, step);
      match Leaver(s, step)
      case None =>
        if step.ReleaseSlot? {
          var _ := NextInLine(c, s, t);
          assert false;
        }
      case Some(u) =>
        LeaverAhead(c, s, s', t, u, step.ReleaseSlot?);
    }
  }

  /** Taking u out of its queue never moves t back; taking the next in line moves t forward. */
  lemma LeaverAhead(c: Config, s: State, s': State, t: nat, u: nat, head: bool)
    requires Inv(c, s) && IsPending(s.pcs, t) && IsPending(s'.pcs, t) && s'.pcs[t].p == s.pcs[t].p
    requires IsPending(s.pcs, u) && u != t
    requires forall p: Priority :: s'.gate.queues[p] == Remove(s.gate.queues[p], u)
    requires head ==> HandOff(s.gate).1 == Some(u)
    ensures Ahead(s', t) + (if head then 1 else 0) <= Ahead(s, t)
  {
    var p, r := s.pcs[t].p, s.pcs[u].p;
    assert TierSound(s.gate.queues[p], s.pcs, p) && PendingIn(s.pcs, t, p);
    assert TierSound(s.gate.queues[r], s.pcs, r) && PendingIn(s.pcs, u, r);
    forall q: Priority | q != r ensures s'.gate.queues[q] == s.gate.queues[q] {
      RemoveElsewhere(s, q, u);
    }
    assert s'.gate.queues == s.gate.queues[r := Remove(s.gate.queues[r], u)];
    AboveUpdate(s.gate.queues, p, r, Remove(s.gate.queues[r], u));
    RemoveShorter(s.gate.queues[r], u);
    PlaceRemove(s.gate.queues[p], t, u);
    if head {
      var b := NextInLine(c, s, t);
    }
  }

  /**
   Bounded bypass. As long as t waits and nobody joins a tier above its own, every Release of
   the run has brought it one place forward, whatever else happened in between; so t is woken
   or has left by the Release number Ahead(s, t) + 1 at the latest.
   */
  lemma {:induction false} BoundedBypass(c: Config, s: State, tr: seq<Step>, t: nat)
    requires Inv(c, s) && IsRun(c, s, tr)
    requires IsPending(s.pcs, t) && NoneAbove(c, s, tr, s.pcs[t].p)
    ensures Inv(c, After(c, s, tr)) && Entered(After(c, s, tr).pcs, t)
    ensures IsPending(After(c, s, tr).pcs, t) ==>
              After(c, s, tr).pcs[t].p == s.pcs[t].p && Ahead(After(c, s, tr), t) + Releases(tr) <= Ahead(s, t)
    ensures Releases(tr) > Ahead(s, t) ==> !IsPending(After(c, s, tr).pcs, t)
    decreases |tr|
  {
    if tr != [] {
      var front, step := tr[..|tr| - 1], tr[|tr| - 1];
      forall k | 0 <= k < |front| && front[k].EnterGate? ensures front[..k] == tr[..k] {}
      BoundedBypass(c, s, front, t);
      var s1 := After(c, s, front);
      StepKeepsInv(c, s1, step);
      if IsPending(After(c, s, tr).pcs, t) {
        assert tr[..|tr| - 1] == front;
        StepKeepsTier(c, s1, step, t);
        StepAhead(c, s1, step, t);
      }
    }
  }

  /** A waiter that is still pending after a step was pending before it, in the same tier. */
  lemma StepKeepsTier(c: Config, s: State, step: Step, t: nat)
    requires Inv(c, s) && StepEnabled(s, step) && Entered(s.pcs, t)
    requires IsPending(Apply(c, s, step).pcs, t)
    ensures IsPending(s.pcs, t) && Apply(c, s, step).pcs[t].p == s.pcs[t].p
  {
    if !step.EnterGate? { StepEffect(c, s, step); }
  }

  // ---- Drain ----

  /** How many steps a thread can still take. */
  function Work(pc: Pc): int {
    match pc
    case LimitRead(_, _) => 6
    case Waiting(_, _) => 5
    case Cancelled(_, _) => 4
    case GivingBack => 3
    case Holding => 3
    case Leaving(_, _) => 2
    case Done(_) => 0
  }

  /** Every step but an arrival leaves strictly less work. */
  lemma StepConsumesWork(c: Config, s: State, step: Step)
    requires StepEnabled(s, step) && !step.Arrive?
    ensures Sum(Apply(c, s, step).pcs, Work) < Sum(s.pcs, Work)
  {
    match step
    case EnterGate(t) => SumUpdate(s.pcs, t, Apply(c, s, step).pcs[t], Work);
    case Resume(t) => SumUpdate(s.pcs, t, Holding, Work);
    case CtxDone(t) => SumUpdate(s.pcs, t, Cancelled(s.pcs[t].p, s.pcs[t].woken), Work);
    case Recheck(t) => SumUpdate(s.pcs, t, Apply(c, s, step).pcs[t], Work);
    case ReadLimit(t, live) => SumUpdate(s.pcs, t, Apply(c, s, step).pcs[t], Work);
    case ReleaseSlot(t) =>
      var done := Done(s.pcs[t].admitted);
      SumUpdate(s.pcs, t, done, Work);
      var woken := HandOff(s.gate).1;
      var pcs := s.pcs[t := done];
      if woken.Some? && woken.value < |pcs| && (pcs[woken.value].Waiting? || pcs[woken.value].Cancelled?) {
        SumUpdate(pcs, woken.value, pcs[woken.value].(woken := true), Work);
      }
  }

  /**
   While work is left some thread can move on its own: no step that brings a new request and
   no client that gives up is needed.
   */
  lemma NoStuckState(c: Config, s: State, t: nat) returns (step: Step)
    requires Inv(c, s) && t < |s.pcs| && !s.pcs[t].Done?
    ensures StepEnabled(s, step) && !step.Arrive? && !step.CtxDone?
  {
    if IsPending(s.pcs, t) && s.pcs[t].Waiting? {
      assert TierSound(s.gate.queues[s.pcs[t].p], s.pcs, s.pcs[t].p) && PendingIn(s.pcs, t, s.pcs[t].p);
      NothingQueued(s.gate.queues);
      if forall u | 0 <= u < |s.pcs| :: Owns(s.pcs[u]) == 0 {
        SumZero(s.pcs, Owns);
      }
      var u :| 0 <= u < |s.pcs| && Owns(s.pcs[u]) != 0;
      step := OwnStep(s, u);
    } else {
      step := OwnStep(s, t);
    }
  }

  /** The next step of a thread that is neither done nor blocked in the select. */
  lemma OwnStep(s: State, t: nat) returns (step: Step)
    requires t < |s.pcs| && !s.pcs[t].Done? && !(s.pcs[t].Waiting? && !s.pcs[t].woken)
    ensures StepEnabled(s, step) && !step.Arrive? && !step.CtxDone?
  {
    match s.pcs[t]
    case LimitRead(_, _) => step := EnterGate(t);
    case Waiting(_, _) => step := Resume(t);
    case Cancelled(_, _) => step := Recheck(t);
    case GivingBack => step := ReadLimit(t, 0);
    case Holding => step := ReadLimit(t, 0);
    case Leaving(_, _) => step := ReleaseSlot(t);
  }

  ghost predicate NoArrivals(tr: seq<Step>) {
    forall i | 0 <= i < |tr| :: !tr[i].Arrive?
  }

  lemma {:induction false} RunConsumesWork(c: Config, s: State, tr: seq<Step>)
    requires IsRun(c, s, tr) && NoArrivals(tr)
    ensures |tr| + Sum(After(c, s, tr).pcs, Work) <= Sum(s.pcs, Work)
    decreases |tr|
  {
    if tr != [] {
      RunConsumesWork(c, s, tr[..|tr| - 1]);
      StepConsumesWork(c, After(c, s, tr[..|tr| - 1]), tr[|tr| - 1]);
    }
  }

  /**
   Drain. Once requests stop arriving a run is at most as long as the work at its start; and a
   run that cannot be continued has finished every request, emptied every queue and returned
   every slot.
   */
  lemma Drain(c: Config, s: State, tr: seq<Step>)
    requires Inv(c, s) && IsRun(c, s, tr) && NoArrivals(tr)
    ensures |tr| <= Sum(s.pcs, Work)
    ensures var s' := After(c, s, tr);
      (forall step: Step | !step.Arrive? && !step.CtxDone? :: !StepEnabled(s', step)) ==>
        && s'.gate == INIT.gate
        && forall t | 0 <= t < |s'.pcs| :: s'.pcs[t].Done?
  {
    RunConsumesWork(c, s, tr);
    RunKeepsInv(c, s, tr);
    var s' := After(c, s, tr);
    SumNonNegative(s'.pcs, Work);
    if forall step: Step | !step.Arrive? && !step.CtxDone? :: !StepEnabled(s', step) {
      forall t | 0 <= t < |s'.pcs| ensures s'.pcs[t].Done? {
        if !s'.pcs[t].Done? { var step := NoStuckState(c, s', t); }
      }
      SumZero(s'.pcs, Owns);
      NothingQueued(s'.gate.queues);
      assert s'.gate.queues == INIT.gate.queues;
    }
  }
}
