/**
 Priority and FIFO order over whole histories. The log of a run says who ever joined
 each queue, who was woken and who withdrew; each queue is its log of joiners with
 those who left taken out, so a wake-up always goes to the oldest joiner still there.
 */
module GateOrder {
  import opened Options
  import opened Sums
  import opened GateSpec
  import opened GateProtocol
  import opened GateOwnership

  // ---- Histories ----

  /**
   What has happened at the queues: for each tier the threads that ever joined its queue, oldest
   first; the threads whose channel a Release has closed, one entry for each close; the threads
   that removed themselves.
   */
  datatype Log = Log(joined: Queues<nat>, woken: seq<nat>, withdrawn: set<nat>)

  const NO_LOG := Log([[], [], []], [], {})

  function LogStep(c: Config, s: State, step: Step, log: Log): Log
    requires StepEnabled(s, step)
  {
    match step
    case EnterGate(t) =>
      var p := s.pcs[t].p;
      if Apply(c, s, step).pcs[t].Waiting? then log.(joined := log.joined[p := log.joined[p] + [t]]) else log
    case Recheck(t) =>
      if s.pcs[t].woken then log else log.(withdrawn := log.withdrawn + {t})
    case ReleaseSlot(_) =>
      var woken := HandOff(s.gate).1;
      if woken.Some? then log.(woken := log.woken + [woken.value]) else log
    case _ => log
  }

  ghost function LogOf(c: Config, tr: seq<Step>): Log
    requires IsRun(c, INIT, tr)
    decreases |tr|
  {
    if tr == [] then NO_LOG
    else LogStep(c, After(c, INIT, tr[..|tr| - 1]), tr[|tr| - 1], LogOf(c, tr[..|tr| - 1]))
  }

  // ---- A log with those who left taken out ----

  predicate IsPending(pcs: seq<Pc>, t: nat) {
    t < |pcs| && Pending(pcs[t])
  }

  function Keep(log: seq<nat>, pcs: seq<Pc>): seq<nat> {
    if log == [] then []
    else (if IsPending(pcs, log[0]) then [log[0]] else []) + Keep(log[1..], pcs)
  }

  lemma {:induction false} KeepAppend(log: seq<nat>, t: nat, pcs: seq<Pc>)
    ensures Keep(log + [t], pcs) == Keep(log, pcs) + if IsPending(pcs, t) then [t] else []
  {
    if log == [] {
      assert (log + [t])[1..] == [];
    } else {
      assert (log + [t])[1..] == log[1..] + [t];
      KeepAppend(log[1..], t, pcs);
    }
  }

  lemma {:induction false} KeepSame(log: seq<nat>, pcs: seq<Pc>, pcs': seq<Pc>)
    requires forall t | t in log :: IsPending(pcs, t) == IsPending(pcs', t)
    ensures Keep(log, pcs) == Keep(log, pcs')
  {
    if log != [] {
      assert log[0] in log;
      KeepSame(log[1..], pcs, pcs');
    }
  }

  lemma {:induction false} KeepDrop(log: seq<nat>, pcs: seq<Pc>, pcs': seq<Pc>, t: nat)
    requires NoDuplicates(log)
    requires IsPending(pcs, t) && !IsPending(pcs', t)
    requires forall u | u in log && u != t :: IsPending(pcs, u) == IsPending(pcs', u)
    ensures Keep(log, pcs') == Remove(Keep(log, pcs), t)
  {
    if log == [] {
    } else {
      assert log[0] in log;
      if log[0] == t {
        KeepSame(log[1..], pcs, pcs');
        assert Keep(log, pcs') == Keep(log[1..], pcs);
        assert Keep(log, pcs)[1..] == Keep(log[1..], pcs);
      } else {
        KeepDrop(log[1..], pcs, pcs', t);
        var rest := Keep(log[1..], pcs);
        if IsPending(pcs, log[0]) {
          assert Keep(log, pcs)[1..] == rest;
        } else {
          assert Keep(log, pcs) == rest && Keep(log, pcs') == Keep(log[1..], pcs');
        }
      }
    }
  }

  /** The head of what is kept is the oldest entry that is still pending. */
  lemma {:induction false} KeepHead(log: seq<nat>, pcs: seq<Pc>) returns (j: nat)
    requires Keep(log, pcs) != []
    ensures j < |log| && log[j] == Keep(log, pcs)[0]
    ensures forall i | 0 <= i < j :: !IsPending(pcs, log[i])
  {
    if IsPending(pcs, log[0]) {
      j := 0;
    } else {
      var k := KeepHead(log[1..], pcs);
      j := k + 1;
      forall i | 0 <= i < j ensures !IsPending(pcs, log[i]) {
        if i > 0 { assert log[i] == log[1..][i - 1]; }
      }
    }
  }

  // ---- The invariant ----

  /** A thread past its locked section of Acquire can never join a queue again. */
  predicate Entered(pcs: seq<Pc>, t: nat) {
    t < |pcs| && !pcs[t].LimitRead?
  }

  ghost predicate TierHistory(q: seq<nat>, pcs: seq<Pc>, log: seq<nat>, woken: seq<nat>, withdrawn: set<nat>) {
    && q == Keep(log, pcs)
    && NoDuplicates(log)
    && (forall t | t in log :: Entered(pcs, t))
    && (forall t | t in log :: IsPending(pcs, t) || t in woken || t in withdrawn)
  }

  ghost predicate LeaversHistory(pcs: seq<Pc>, woken: seq<nat>, withdrawn: set<nat>) {
    && NoDuplicates(woken)
    && (forall t | t in woken :: Entered(pcs, t) && !IsPending(pcs, t))
    && (forall t | t in withdrawn :: Entered(pcs, t) && !IsPending(pcs, t) && t !in woken)
  }

  ghost predicate History(s: State, log: Log) {
    && LeaversHistory(s.pcs, log.woken, log.withdrawn)
    && forall p: Priority :: TierHistory(s.gate.queues[p], s.pcs, log.joined[p], log.woken, log.withdrawn)
  }

  /** Steps that neither queue, wake nor remove anybody. */
  lemma QuietStep(q: seq<nat>, pcs: seq<Pc>, pcs': seq<Pc>, log: seq<nat>, woken: seq<nat>, withdrawn: set<nat>)
    requires TierHistory(q, pcs, log, woken, withdrawn)
    requires forall t: nat | Entered(pcs, t) :: Entered(pcs', t) && IsPending(pcs', t) == IsPending(pcs, t)
    ensures TierHistory(q, pcs', log, woken, withdrawn)
  {
    forall t | t in log ensures IsPending(pcs, t) == IsPending(pcs', t) {
      assert Entered(pcs, t);
    }
    KeepSame(log, pcs, pcs');
  }

  /** A step after which t, once pending, has left; the logs of leavers only grow. */
  lemma LeaveStep(q: seq<nat>, pcs: seq<Pc>, pcs': seq<Pc>, log: seq<nat>, t: nat,
                  woken: seq<nat>, withdrawn: set<nat>, woken': seq<nat>, withdrawn': set<nat>)
    requires TierHistory(q, pcs, log, woken, withdrawn)
    requires IsPending(pcs, t) && !IsPending(pcs', t)
    requires forall u: nat | Entered(pcs, u) :: Entered(pcs', u)
    requires forall u: nat | Entered(pcs, u) && u != t :: IsPending(pcs', u) == IsPending(pcs, u)
    requires t in woken' || t in withdrawn'
    requires (forall u | u in woken :: u in woken') && withdrawn <= withdrawn'
    ensures TierHistory(Remove(q, t), pcs', log, woken', withdrawn')
  {
    forall u | u in log && u != t ensures IsPending(pcs, u) == IsPending(pcs', u) {
      assert Entered(pcs, u);
    }
    KeepDrop(log, pcs, pcs', t);
  }

  lemma JoinStep(q: seq<nat>, pcs: seq<Pc>, pcs': seq<Pc>, log: seq<nat>, t: nat, woken: seq<nat>, withdrawn: set<nat>)
    requires TierHistory(q, pcs, log, woken, withdrawn)
    requires !Entered(pcs, t) && Entered(pcs', t) && IsPending(pcs', t)
    requires forall u: nat | Entered(pcs, u) :: Entered(pcs', u) && IsPending(pcs', u) == IsPending(pcs, u)
    ensures TierHistory(q + [t], pcs', log + [t], woken, withdrawn)
  {
    QuietStep(q, pcs, pcs', log, woken, withdrawn);
    KeepAppend(log, t, pcs');
  }

  /** A removal that concerns another tier leaves a queue as it is. */
  lemma RemoveElsewhere(s: State, p: Priority, t: nat)
    requires QueuesSound(s) && IsPending(s.pcs, t)
    ensures s.pcs[t].p != p ==> Remove(s.gate.queues[p], t) == s.gate.queues[p]
  {
    assert TierSound(s.gate.queues[p], s.pcs, p);
    if s.pcs[t].p != p {
      assert t in s.gate.queues[p] <==> PendingIn(s.pcs, t, p);
      RemoveAbsent(s.gate.queues[p], t);
    }
  }

  lemma EnterKeepsHistory(c: Config, s: State, t: nat, log: Log)
    requires Inv(c, s) && History(s, log) && StepEnabled(s, EnterGate(t))
    ensures History(Apply(c, s, EnterGate(t)), LogStep(c, s, EnterGate(t), log))
  {
    var s', log' := Apply(c, s, EnterGate(t)), LogStep(c, s, EnterGate(t), log);
    forall p: Priority
      ensures TierHistory(s'.gate.queues[p], s'.pcs, log'.joined[p], log.woken, log.withdrawn)
    {
      if s'.pcs[t].Waiting? && s.pcs[t].p == p {
        JoinStep(s.gate.queues[p], s.pcs, s'.pcs, log.joined[p], t, log.woken, log.withdrawn);
      } else {
        QuietStep(s.gate.queues[p], s.pcs, s'.pcs, log.joined[p], log.woken, log.withdrawn);
      }
    }
  }

  /** The waiter that a step takes out of its queue, if any. */
  function Leaver(s: State, step: Step): Option<nat>
    requires StepEnabled(s, step)
  {
    match step
    case Recheck(t) => if s.pcs[t].woken then None else Some(t)
    case ReleaseSlot(t) => HandOff(s.gate).1
    case _ => None
  }

  /** Apart from joining, a step changes the queues and the pending waiters by its leaver alone. */
  lemma StepEffect(c: Config, s: State, step: Step)
    requires Inv(c, s) && StepEnabled(s, step) && !step.EnterGate?
    ensures var s' := Apply(c, s, step);
      match Leaver(s, step)
      case None => s'.gate.queues == s.gate.queues && SamePending(s.pcs, s'.pcs)
      case Some(w) =>
        && IsPending(s.pcs, w) && PendingExcept(s.pcs, s'.pcs, w)
        && forall p: Priority :: s'.gate.queues[p] == Remove(s.gate.queues[p], w)
  {
    match step
    case Recheck(t) =>
      if !s.pcs[t].woken {
        forall p: Priority ensures Apply(c, s, step).gate.queues[p] == Remove(s.gate.queues[p], t) {
          RemoveElsewhere(s, p, t);
        }
      }
    case ReleaseSlot(t) => ReleaseEffect(c, s, t);
    case _ =>
  }

  lemma ReleaseEffect(c: Config, s: State, t: nat)
    requires Inv(c, s) && StepEnabled(s, ReleaseSlot(t))
    ensures var s', woken := Apply(c, s, ReleaseSlot(t)), HandOff(s.gate).1;
      match woken
      case None => s'.gate.queues == s.gate.queues && SamePending(s.pcs, s'.pcs)
      case Some(w) =>
        && IsPending(s.pcs, w) && PendingExcept(s.pcs, s'.pcs, w)
        && forall p: Priority :: s'.gate.queues[p] == Remove(s.gate.queues[p], w)
  {
    HandOffCases(s.gate);
    if HandOff(s.gate).1.Some? {
      var w := HandOff(s.gate).1.value;
      var first := FirstTier(s.gate.queues);
      assert TierSound(s.gate.queues[first], s.pcs, first) && w == s.gate.queues[first][0];
      assert PendingIn(s.pcs, w, first);
      forall p: Priority ensures HandOff(s.gate).0.queues[p] == Remove(s.gate.queues[p], w) {
        RemoveElsewhere(s, p, w);
      }
    }
  }

  ghost predicate SamePending(pcs: seq<Pc>, pcs': seq<Pc>) {
    forall u: nat | Entered(pcs, u) :: Entered(pcs', u) && IsPending(pcs', u) == IsPending(pcs, u)
  }

  ghost predicate PendingExcept(pcs: seq<Pc>, pcs': seq<Pc>, w: nat) {
    && !IsPending(pcs', w)
    && (forall u: nat | Entered(pcs, u) :: Entered(pcs', u))
    && (forall u: nat | Entered(pcs, u) && u != w :: IsPending(pcs', u) == IsPending(pcs, u))
  }

  lemma LeaveKeepsLeavers(pcs: seq<Pc>, pcs': seq<Pc>, w: nat, woken: seq<nat>, withdrawn: set<nat>)
    requires LeaversHistory(pcs, woken, withdrawn)
    requires IsPending(pcs, w) && PendingExcept(pcs, pcs', w)
    ensures LeaversHistory(pcs', woken + [w], withdrawn)
    ensures LeaversHistory(pcs', woken, withdrawn + {w})
  {
    assert w !in woken && w !in withdrawn;
    assert Entered(pcs, w);
  }

  lemma OtherKeepsHistory(c: Config, s: State, step: Step, log: Log)
    requires Inv(c, s) && History(s, log) && StepEnabled(s, step) && !step.EnterGate?
    ensures History(Apply(c, s, step), LogStep(c, s, step, log))
  {
    var s', log' := Apply(c, s, step), LogStep(c, s, step, log);
    StepEffect(c, s, step);
    match Leaver(s, step)
    case None =>
      assert log' == log;
      forall p: Priority ensures TierHistory(s'.gate.queues[p], s'.pcs, log.joined[p], log.woken, log.withdrawn) {
        QuietStep(s.gate.queues[p], s.pcs, s'.pcs, log.joined[p], log.woken, log.withdrawn);
      }
    case Some(w) =>
      LeaveKeepsLeavers(s.pcs, s'.pcs, w, log.woken, log.withdrawn);
      forall p: Priority ensures TierHistory(s'.gate.queues[p], s'.pcs, log.joined[p], log'.woken, log'.withdrawn) {
        LeaveStep(s.gate.queues[p], s.pcs, s'.pcs, log.joined[p], w,
                  log.woken, log.withdrawn, log'.woken, log'.withdrawn);
      }
  }

  lemma {:induction false} RunKeepsHistory(c: Config, tr: seq<Step>)
    requires IsRun(c, INIT, tr)
    ensures Inv(c, After(c, INIT, tr)) && History(After(c, INIT, tr), LogOf(c, tr))
    decreases |tr|
  {
    hide Inv, History, Apply, LogStep;
    if tr == [] {
      InitInv(c);
      InitHistory();
    } else {
      var front, step := tr[..|tr| - 1], tr[|tr| - 1];
      RunKeepsHistory(c, front);
      var s := After(c, INIT, front);
      StepKeepsInv(c, s, step);
      if step.EnterGate? {
        EnterKeepsHistory(c, s, step.t, LogOf(c, front));
      } else {
        OtherKeepsHistory(c, s, step, LogOf(c, front));
      }
    }
  }

  lemma InitHistory()
    ensures History(INIT, NO_LOG)
  {
  }

  // ---- Main results ----

  /**
   Each queue is at every moment the log of those who joined it without those who left, in the
   order of joining; no channel is ever closed twice, and nobody who withdrew is woken.
   */
  lemma QueueIsLog(c: Config, tr: seq<Step>, p: Priority)
    requires IsRun(c, INIT, tr)
    ensures After(c, INIT, tr).gate.queues[p] == Keep(LogOf(c, tr).joined[p], After(c, INIT, tr).pcs)
    ensures NoDuplicates(LogOf(c, tr).joined[p])
    ensures NoDuplicates(LogOf(c, tr).woken)
    ensures forall t | t in LogOf(c, tr).withdrawn :: t !in LogOf(c, tr).woken
  {
    RunKeepsHistory(c, tr);
  }

  /**
   Priority and FIFO. If a Release wakes b then no waiter of a higher tier is left, and
   everybody who joined the tier of b before b has been woken or has withdrawn already.
   */
  lemma WakeOrder(c: Config, tr: seq<Step>, t: nat) returns (b: nat, j: nat)
    requires IsRun(c, INIT, tr) && StepEnabled(After(c, INIT, tr), ReleaseSlot(t))
    requires exists u :: IsPending(After(c, INIT, tr).pcs, u)
    ensures var s := After(c, INIT, tr);
      && IsPending(s.pcs, b) && !IsPending(Apply(c, s, ReleaseSlot(t)).pcs, b)
      && (forall u: nat | IsPending(s.pcs, u) && u != b :: IsPending(Apply(c, s, ReleaseSlot(t)).pcs, u))
      && (forall u: nat | IsPending(s.pcs, u) :: s.pcs[u].p >= s.pcs[b].p)
      && var log := LogOf(c, tr);
         var joined := log.joined[s.pcs[b].p];
         && j < |joined| && joined[j] == b
         && forall i | 0 <= i < j :: joined[i] in log.woken || joined[i] in log.withdrawn
  {
    RunKeepsHistory(c, tr);
    var s := After(c, INIT, tr);
    var u: nat :| IsPending(s.pcs, u);
    b := NextInLine(c, s, u);
    StepEffect(c, s, ReleaseSlot(t));
    var p := s.pcs[b].p;
    var log := LogOf(c, tr);
    assert TierHistory(s.gate.queues[p], s.pcs, log.joined[p], log.woken, log.withdrawn);
    j := KeepHead(log.joined[p], s.pcs);
  }

  /** If anybody waits, the next to be woken is at the head of the highest tier in which somebody does. */
  lemma NextInLine(c: Config, s: State, u: nat) returns (b: nat)
    requires Inv(c, s) && IsPending(s.pcs, u)
    ensures IsPending(s.pcs, b) && HandOff(s.gate).1 == Some(b)
    ensures s.gate.queues[s.pcs[b].p] != [] && s.gate.queues[s.pcs[b].p][0] == b
    ensures forall v: nat | IsPending(s.pcs, v) :: s.pcs[v].p >= s.pcs[b].p
  {
    forall v: nat | IsPending(s.pcs, v) ensures v in s.gate.queues[s.pcs[v].p] {
      assert TierSound(s.gate.queues[s.pcs[v].p], s.pcs, s.pcs[v].p) && PendingIn(s.pcs, v, s.pcs[v].p);
    }
    var p := FirstTier(s.gate.queues);
    assert p <= s.pcs[u].p;
    b := s.gate.queues[p][0];
    assert TierSound(s.gate.queues[p], s.pcs, p) && PendingIn(s.pcs, b, p);
  }
}
