/**
 The ownership invariant of the gate holds in every reachable state: the counter equals the
 number of slot owners, an open channel stands in exactly one queue, a closed one in none.
 */
module GateOwnership {
  import opened Options
  import opened Sums
  import opened GateSpec
  import opened GateProtocol

  lemma InitInv(c: Config)
    ensures Inv(c, INIT)
  {
    NothingQueued(INIT.gate.queues);
  }

  // ---- The queues ----

  /** Moving a thread without waking, queueing or removing it. */
  lemma MoveKeepsTier(q: seq<nat>, pcs: seq<Pc>, p: Priority, t: nat, pc: Pc)
    requires TierSound(q, pcs, p) && t < |pcs|
    requires PendingIn(pcs, t, p) <==> Pending(pc) && pc.p == p
    ensures TierSound(q, pcs[t := pc], p)
  {
    forall u: nat ensures u in q <==> PendingIn(pcs[t := pc], u, p) {
      assert u in q <==> PendingIn(pcs, u, p);
    }
  }

  lemma NewKeepsTier(q: seq<nat>, pcs: seq<Pc>, p: Priority, pc: Pc)
    requires TierSound(q, pcs, p) && !Pending(pc)
    ensures TierSound(q, pcs + [pc], p)
  {
    forall u: nat ensures u in q <==> PendingIn(pcs + [pc], u, p) {
      assert u in q <==> PendingIn(pcs, u, p);
    }
  }

  lemma JoinKeepsTier(q: seq<nat>, pcs: seq<Pc>, p: Priority, t: nat)
    requires TierSound(q, pcs, p) && t < |pcs| && !Pending(pcs[t])
    ensures TierSound(q + [t], pcs[t := Waiting(p, false)], p)
  {
    assert t in q <==> PendingIn(pcs, t, p);
    forall u: nat ensures u in q + [t] <==> PendingIn(pcs[t := Waiting(p, false)], u, p) {
      assert u in q <==> PendingIn(pcs, u, p);
    }
  }

  /** Taking the ticket at place k out of its queue, when its thread stops being pending. */
  lemma CutKeepsTier(q: seq<nat>, pcs: seq<Pc>, p: Priority, k: nat, pc: Pc)
    requires TierSound(q, pcs, p) && k < |q| && !Pending(pc)
    ensures q[k] < |pcs| && PendingIn(pcs, q[k], p)
    ensures TierSound(q[..k] + q[k + 1..], pcs[q[k] := pc], p)
  {
    var t := q[k];
    assert t in q;
    var rest := q[..k] + q[k + 1..];
    forall i, j | 0 <= i < j < |rest| ensures rest[i] != rest[j] {
      assert rest[i] == q[if i < k then i else i + 1];
      assert rest[j] == q[if j < k then j else j + 1];
    }
    forall u: nat ensures u in rest <==> PendingIn(pcs[t := pc], u, p) {
      assert u in q <==> PendingIn(pcs, u, p);
      if u in rest {
        var i :| 0 <= i < |rest| && rest[i] == u;
        assert u == q[if i < k then i else i + 1];
      }
      if u in q && u != t {
        var i :| 0 <= i < |q| && q[i] == u;
        assert rest[if i < k then i else i - 1] == u;
      }
    }
  }

  // ---- The steps ----

  /** A step that moves one thread and leaves the gate alone. */
  lemma MoveKeepsInv(c: Config, s: State, t: nat, pc: Pc)
    requires Inv(c, s) && t < |s.pcs|
    requires Owns(pc) == Owns(s.pcs[t])
    requires Pending(pc) == Pending(s.pcs[t]) && (Pending(pc) ==> pc.p == s.pcs[t].p)
    requires pc.LimitRead? || pc.Leaving? ==> pc.limit > 0
    requires Enabled(c) || pc.Holding? || pc.Done?
    ensures Inv(c, s.(pcs := s.pcs[t := pc]))
  {
    SumUpdate(s.pcs, t, pc, Owns);
    forall p: Priority ensures TierSound(s.gate.queues[p], s.pcs[t := pc], p) {
      MoveKeepsTier(s.gate.queues[p], s.pcs, p, t, pc);
    }
  }

  lemma ArriveKeepsInv(c: Config, s: State, p: Priority, live: int)
    requires Inv(c, s)
    ensures Inv(c, Apply(c, s, Arrive(p, live)))
  {
    var limit := Limit(c, live);
    var pc := if limit <= 0 then Holding else LimitRead(p, limit);
    hide TierSound;
    SumAppend(s.pcs, pc, Owns);
    forall p: Priority ensures TierSound(s.gate.queues[p], s.pcs + [pc], p) {
      NewKeepsTier(s.gate.queues[p], s.pcs, p, pc);
    }
  }

  lemma EnterKeepsInv(c: Config, s: State, t: nat)
    requires Inv(c, s) && StepEnabled(s, EnterGate(t))
    ensures Inv(c, Apply(c, s, EnterGate(t)))
  {
    var LimitRead(p, limit) := s.pcs[t];
    var (gate, verdict) := Enter(s.gate, c, limit, p, t);
    var pc := AfterEnter(p, verdict);
    SumUpdate(s.pcs, t, pc, Owns);
    forall q: Priority ensures TierSound(gate.queues[q], s.pcs[t := pc], q) {
      if verdict == Queued && q == p {
        JoinKeepsTier(s.gate.queues[p], s.pcs, p, t);
      } else {
        MoveKeepsTier(s.gate.queues[q], s.pcs, q, t, pc);
      }
    }
    SumNonNegative(s.pcs, Owns);
    TotalUpdate(s.gate.queues, p, s.gate.queues[p] + [t]);
  }

  /** The ticket at place k of tier p leaves the queues and its thread goes on to pc. */
  lemma CutKeepsQueues(s: State, p: Priority, k: nat, pc: Pc)
    requires QueuesSound(s) && k < |s.gate.queues[p]| && !Pending(pc)
    ensures var q := s.gate.queues[p];
      && PendingIn(s.pcs, q[k], p)
      && QueuesSound(State(s.gate.(queues := s.gate.queues[p := q[..k] + q[k + 1..]]), s.pcs[q[k] := pc]))
  {
    var q := s.gate.queues[p];
    assert TierSound(q, s.pcs, p);
    CutKeepsTier(q, s.pcs, p, k, pc);
    var queues := s.gate.queues[p := q[..k] + q[k + 1..]];
    forall r: Priority ensures TierSound(queues[r], s.pcs[q[k] := pc], r) {
      if r != p { MoveKeepsTier(s.gate.queues[r], s.pcs, r, q[k], pc); }
    }
  }

  /** The search loop of the cancel path finds its channel. */
  lemma FindPlace(s: State, t: nat) returns (k: nat)
    requires QueuesSound(s) && t < |s.pcs| && Pending(s.pcs[t])
    ensures var q := s.gate.queues[s.pcs[t].p];
      k < |q| && q[k] == t && Remove(q, t) == q[..k] + q[k + 1..]
  {
    var p := s.pcs[t].p;
    var q := s.gate.queues[p];
    assert TierSound(q, s.pcs, p) && PendingIn(s.pcs, t, p);
    k :| 0 <= k < |q| && q[k] == t;
    RemoveAt(q, k);
  }

  lemma RecheckKeepsInv(c: Config, s: State, t: nat)
    requires Inv(c, s) && StepEnabled(s, Recheck(t))
    ensures Inv(c, Apply(c, s, Recheck(t)))
  {
    var Cancelled(p, woken) := s.pcs[t];
    if woken {
      MoveKeepsInv(c, s, t, GivingBack);
    } else {
      var k := FindPlace(s, t);
      CutKeepsQueues(s, p, k, Done(false));
      SumUpdate(s.pcs, t, Done(false), Owns);
      TotalUpdate(s.gate.queues, p, Remove(s.gate.queues[p], t));
    }
  }

  /** What a hand-off does to the queues: nothing if they are empty, else it drops one head. */
  lemma HandOffCases(g: GateState<nat>)
    ensures TotalQueued(g.queues) == 0 <==> FirstTier(g.queues) == NUM_PRIORITIES
    ensures TotalQueued(g.queues) == 0 ==> HandOff(g) == (g.(inflight := g.inflight - 1), None)
    ensures TotalQueued(g.queues) > 0 ==>
              var p := FirstTier(g.queues);
              && p < NUM_PRIORITIES && g.queues[p] != []
              && HandOff(g).1 == Some(g.queues[p][0])
              && HandOff(g).0.inflight == g.inflight
              && HandOff(g).0.queues == g.queues[p := g.queues[p][..0] + g.queues[p][1..]]
              && TotalQueued(HandOff(g).0.queues) == TotalQueued(g.queues) - 1
  {
    NothingQueued(g.queues);
    var p := FirstTier(g.queues);
    if p < NUM_PRIORITIES {
      TotalUpdate(g.queues, p, g.queues[p][1..]);
      assert g.queues[p][..0] + g.queues[p][1..] == g.queues[p][1..];
    }
  }

  /** The releasing thread gives up its slot, before anybody is woken. */
  lemma DoneKeepsQueues(s: State, t: nat, done: Pc)
    requires QueuesSound(s) && t < |s.pcs| && s.pcs[t].Leaving? && done.Done?
    ensures QueuesSound(s.(pcs := s.pcs[t := done]))
    ensures Sum(s.pcs[t := done], Owns) == Sum(s.pcs, Owns) - 1
  {
    SumUpdate(s.pcs, t, done, Owns);
    forall p: Priority ensures TierSound(s.gate.queues[p], s.pcs[t := done], p) {
      MoveKeepsTier(s.gate.queues[p], s.pcs, p, t, done);
    }
  }

  lemma ReleaseKeepsInv(c: Config, s: State, t: nat)
    requires Inv(c, s) && StepEnabled(s, ReleaseSlot(t))
    ensures Inv(c, Apply(c, s, ReleaseSlot(t)))
  {
    hide TierSound;
    var done := Done(s.pcs[t].admitted);
    var mid := s.(pcs := s.pcs[t := done]);
    DoneKeepsQueues(s, t, done);
    HandOffCases(s.gate);
    if TotalQueued(s.gate.queues) > 0 {
      var p := FirstTier(s.gate.queues);
      var w := HeadIsPending(mid, p);
      CutKeepsQueues(mid, p, 0, mid.pcs[w].(woken := true));
      SumUpdate(mid.pcs, w, mid.pcs[w].(woken := true), Owns);
    } else {
      SumNonNegative(mid.pcs, Owns);
    }
  }

  lemma HeadIsPending(s: State, p: Priority) returns (w: nat)
    requires QueuesSound(s) && s.gate.queues[p] != []
    ensures w == s.gate.queues[p][0] && PendingIn(s.pcs, w, p)
  {
    w := s.gate.queues[p][0];
    assert TierSound(s.gate.queues[p], s.pcs, p) && w in s.gate.queues[p];
  }

  lemma StepKeepsInv(c: Config, s: State, step: Step)
    requires Inv(c, s) && StepEnabled(s, step)
    ensures Inv(c, Apply(c, s, step))
  {
    match step
    case Arrive(p, live) => ArriveKeepsInv(c, s, p, live);
    case EnterGate(t) => EnterKeepsInv(c, s, t);
    case Resume(t) => MoveKeepsInv(c, s, t, Holding);
    case CtxDone(t) => MoveKeepsInv(c, s, t, Cancelled(s.pcs[t].p, s.pcs[t].woken));
    case Recheck(t) => RecheckKeepsInv(c, s, t);
    case ReadLimit(t, live) =>
      if Limit(c, live) > 0 {
        MoveKeepsInv(c, s, t, Leaving(Limit(c, live), s.pcs[t].Holding?));
      } else {
        SumUpdate(s.pcs, t, Done(s.pcs[t].Holding?), Owns);
      }
    case ReleaseSlot(t) => ReleaseKeepsInv(c, s, t);
  }

  lemma {:induction false} RunKeepsInv(c: Config, s: State, tr: seq<Step>)
    requires Inv(c, s) && IsRun(c, s, tr)
    ensures Inv(c, After(c, s, tr))
    decreases |tr|
  {
    if tr != [] {
      RunKeepsInv(c, s, tr[..|tr| - 1]);
      StepKeepsInv(c, After(c, s, tr[..|tr| - 1]), tr[|tr| - 1]);
    }
  }

  /**
   Main result. In every state of every run, for any positive static limit and for any values
   the limit function may have returned: inflight is the number of slot owners, no queue is
   longer than its limit, and while anybody waits some owner exists whose Release will come.
   A static limit that is not positive leaves the gate untouched.
   */
  lemma Ownership(c: Config, tr: seq<Step>)
    requires IsRun(c, INIT, tr)
    ensures var s := After(c, INIT, tr);
      && (Enabled(c) ==> s.gate.inflight == Sum(s.pcs, Owns))
      && (!Enabled(c) ==> s.gate == INIT.gate)
      && (forall p: Priority :: c.limits[p] > 0 ==> |s.gate.queues[p]| <= c.limits[p])
      && (Members(s.gate.queues) != {} ==> exists t :: 0 <= t < |s.pcs| && Owns(s.pcs[t]) == 1)
  {
    InitInv(c);
    RunKeepsInv(c, INIT, tr);
    var s := After(c, INIT, tr);
    NothingQueued(s.gate.queues);
    if !Enabled(c) {
      assert s.gate.queues == INIT.gate.queues;
    }
    if Members(s.gate.queues) != {} {
      if forall t | 0 <= t < |s.pcs| :: Owns(s.pcs[t]) == 0 {
        SumZero(s.pcs, Owns);
      }
    }
  }

  lemma QueuesAreDistinct(s: State)
    requires QueuesSound(s)
    ensures Distinct(s.gate.queues)
  {
    var queues := s.gate.queues;
    forall p, i, q, j |
      && 0 <= p < NUM_PRIORITIES && 0 <= i < |queues[p]|
      && 0 <= q < NUM_PRIORITIES && 0 <= j < |queues[q]|
      && queues[p][i] == queues[q][j]
      ensures p == q && i == j
    {
      OnePlace(s, p, i, q, j);
    }
  }

  lemma OnePlace(s: State, p: Priority, i: nat, q: Priority, j: nat)
    requires QueuesSound(s)
    requires i < |s.gate.queues[p]| && j < |s.gate.queues[q]|
    requires s.gate.queues[p][i] == s.gate.queues[q][j]
    ensures p == q && i == j
  {
    assert TierSound(s.gate.queues[p], s.pcs, p) && TierSound(s.gate.queues[q], s.pcs, q);
    assert PendingIn(s.pcs, s.gate.queues[p][i], p) && PendingIn(s.pcs, s.gate.queues[q][j], q);
  }

  /**
   The channel of a waiter is in exactly one place of exactly one queue while it is open, and
   nowhere once it is closed; so the search loop of the cancel path always finds it.
   */
  lemma ChannelPlace(c: Config, tr: seq<Step>, t: nat)
    requires IsRun(c, INIT, tr) && t < |After(c, INIT, tr).pcs|
    ensures var s := After(c, INIT, tr);
      && Distinct(s.gate.queues)
      && (t in Members(s.gate.queues) <==> Pending(s.pcs[t]))
      && (forall p: Priority :: t in s.gate.queues[p] <==> Pending(s.pcs[t]) && s.pcs[t].p == p)
  {
    InitInv(c);
    RunKeepsInv(c, INIT, tr);
    var s := After(c, INIT, tr);
    QueuesAreDistinct(s);
    forall p: Priority ensures t in s.gate.queues[p] <==> PendingIn(s.pcs, t, p) {
      assert TierSound(s.gate.queues[p], s.pcs, p);
    }
    if Pending(s.pcs[t]) {
      assert t in s.gate.queues[s.pcs[t].p];
    }
  }
}
