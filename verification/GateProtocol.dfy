/**
 The gate as a protocol between any number of threads. A thread is one request: it
 runs Acquire once and, if admitted, Release once. Each mutex section of gate.go is one
 atomic step; the reads of the limit, the choice of a select and the gap between the
 unlock and the Release of a waiter that was woken and cancelled are steps of their own.

 A thread is named by its index, which is also the ticket it queues. Whether its ready
 channel is closed is part of its program point.
 */
module GateProtocol {
  import opened Options
  import opened Sums
  import opened GateSpec

  datatype Pc =
    | LimitRead(p: Priority, limit: int)      // Acquire has read the limit and not yet locked
    | Waiting(p: Priority, woken: bool)       // in the select; woken: ready is closed
    | Cancelled(p: Priority, woken: bool)     // took the ctx.Done arm and has not yet locked
    | GivingBack                              // found ready closed, unlocked, about to call Release
    | Holding                                 // Acquire returned true
    | Leaving(limit: int, admitted: bool)     // Release has read the limit and not yet locked
    | Done(admitted: bool)

  datatype State = State(gate: GateState<nat>, pcs: seq<Pc>)

  const INIT := State(GateState(0, [[], [], []]), [])

  datatype Step =
    | Arrive(p: Priority, live: int)   // a new request calls Acquire and reads the limit
    | EnterGate(t: nat)
    | Resume(t: nat)
    | CtxDone(t: nat)
    | Recheck(t: nat)                  // the locked section of the cancel path
    | ReadLimit(t: nat, live: int)     // Release reads the limit
    | ReleaseSlot(t: nat)              // the locked section of Release

  /** A waiter whose channel is still open. */
  predicate Pending(pc: Pc) {
    (pc.Waiting? || pc.Cancelled?) && !pc.woken
  }

  /** A slot belongs to whoever holds it, was woken with it, or is on the way to return it. */
  function Owns(pc: Pc): int {
    match pc
    case Waiting(_, woken) => if woken then 1 else 0
    case Cancelled(_, woken) => if woken then 1 else 0
    case GivingBack => 1
    case Holding => 1
    case Leaving(_, _) => 1
    case _ => 0
  }

  /** Closes the ready channel of the waiter that a hand-off chose. */
  function Wake(pcs: seq<Pc>, woken: Option<nat>): seq<Pc> {
    match woken
    case None => pcs
    case Some(t) =>
      if t < |pcs| && (pcs[t].Waiting? || pcs[t].Cancelled?) then pcs[t := pcs[t].(woken := true)] else pcs
  }

  predicate StepEnabled(s: State, step: Step) {
    match step
    case Arrive(_, _) => true
    case EnterGate(t) => t < |s.pcs| && s.pcs[t].LimitRead?
    case Resume(t) => t < |s.pcs| && s.pcs[t].Waiting? && s.pcs[t].woken
    case CtxDone(t) => t < |s.pcs| && s.pcs[t].Waiting?
    case Recheck(t) => t < |s.pcs| && s.pcs[t].Cancelled?
    case ReadLimit(t, _) => t < |s.pcs| && (s.pcs[t].Holding? || s.pcs[t].GivingBack?)
    case ReleaseSlot(t) => t < |s.pcs| && s.pcs[t].Leaving?
  }

  function AfterEnter(p: Priority, verdict: Verdict): Pc {
    match verdict
    case Admitted => Holding
    case Rejected => Done(false)
    case Queued => Waiting(p, false)
  }

  function Apply(c: Config, s: State, step: Step): State
    requires StepEnabled(s, step)
  {
    match step
    case Arrive(p, live) =>
      var limit := Limit(c, live);
      s.(pcs := s.pcs + [if limit <= 0 then Holding else LimitRead(p, limit)])
    case EnterGate(t) =>
      var LimitRead(p, limit) := s.pcs[t];
      var (gate, verdict) := Enter(s.gate, c, limit, p, t);
      State(gate, s.pcs[t := AfterEnter(p, verdict)])
    case Resume(t) =>
      s.(pcs := s.pcs[t := Holding])
    case CtxDone(t) =>
      s.(pcs := s.pcs[t := Cancelled(s.pcs[t].p, s.pcs[t].woken)])
    case Recheck(t) =>
      var Cancelled(p, woken) := s.pcs[t];
      if woken then s.(pcs := s.pcs[t := GivingBack])
      else State(Withdraw(s.gate, p, t), s.pcs[t := Done(false)])
    case ReadLimit(t, live) =>
      var limit := Limit(c, live);
      var admitted := s.pcs[t].Holding?;
      s.(pcs := s.pcs[t := if limit <= 0 then Done(admitted) else Leaving(limit, admitted)])
    case ReleaseSlot(t) =>
      var (gate, woken) := HandOff(s.gate);
      State(gate, Wake(s.pcs[t := Done(s.pcs[t].admitted)], woken))
  }

  // ---- Runs ----

  /** The state after a sequence of steps from s; the steps are enabled one after the other. */
  ghost predicate IsRun(c: Config, s: State, tr: seq<Step>)
    decreases |tr|, 0
  {
    tr == [] ||
    (&& IsRun(c, s, tr[..|tr| - 1])
     && StepEnabled(After(c, s, tr[..|tr| - 1]), tr[|tr| - 1]))
  }

  ghost function After(c: Config, s: State, tr: seq<Step>): State
    requires IsRun(c, s, tr)
    decreases |tr|
  {
    if tr == [] then s else Apply(c, After(c, s, tr[..|tr| - 1]), tr[|tr| - 1])
  }

  /** Extending a run by one step. */
  lemma RunSnoc(c: Config, s: State, tr: seq<Step>, step: Step)
    requires IsRun(c, s, tr)
    ensures IsRun(c, s, tr + [step]) <==> StepEnabled(After(c, s, tr), step)
    ensures StepEnabled(After(c, s, tr), step) ==>
              After(c, s, tr + [step]) == Apply(c, After(c, s, tr), step)
  {
    assert (tr + [step])[..|tr|] == tr;
  }

  // ---- The ownership invariant ----

  ghost predicate NoDuplicates(q: seq<nat>) {
    forall i, j | 0 <= i < j < |q| :: q[i] != q[j]
  }

  /** Thread t is a waiter of tier p whose channel is open. */
  ghost predicate PendingIn(pcs: seq<Pc>, t: nat, p: Priority) {
    t < |pcs| && Pending(pcs[t]) && pcs[t].p == p
  }

  /** The queue of tier p holds the pending waiters of that tier, each once. */
  ghost predicate TierSound(q: seq<nat>, pcs: seq<Pc>, p: Priority) {
    && NoDuplicates(q)
    && (forall t: nat :: t in q <==> PendingIn(pcs, t, p))
  }

  ghost predicate QueuesSound(s: State) {
    forall p: Priority :: TierSound(s.gate.queues[p], s.pcs, p)
  }

  ghost predicate LimitsSound(c: Config, s: State) {
    && (forall t | 0 <= t < |s.pcs| :: s.pcs[t].LimitRead? || s.pcs[t].Leaving? ==> s.pcs[t].limit > 0)
    && (!Enabled(c) ==> forall t | 0 <= t < |s.pcs| :: s.pcs[t].Holding? || s.pcs[t].Done?)
  }

  ghost predicate QueuesBounded(c: Config, s: State)
  {
    forall p: Priority :: c.limits[p] > 0 ==> |s.gate.queues[p]| <= c.limits[p]
  }

  ghost predicate Inv(c: Config, s: State)
  {
    && QueuesSound(s)
    && LimitsSound(c, s)
    && QueuesBounded(c, s)
    && s.gate.inflight == (if Enabled(c) then Sum(s.pcs, Owns) else 0)
    && (TotalQueued(s.gate.queues) > 0 ==> s.gate.inflight >= 1)
  }
}
