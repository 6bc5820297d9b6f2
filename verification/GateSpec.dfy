/**
 The gate of gate.go as a value: a counter of slots in use and three FIFO queues,
 with one function for each section of code that runs under the mutex.

 The queues hold tickets of any type. The class Gate instantiates it with the
 channels of the program, the protocol with the index of the waiting thread.
 */
module GateSpec {
  import opened Options

  const NUM_PRIORITIES: nat := 3
  const MAX_INT32: int := 0x7FFF_FFFF

  /** 0 is interactive, 1 is batch, 2 is background; lower values are served first. */
  type Priority = p: nat | p < NUM_PRIORITIES

  /** One queue length limit a tier; a limit <= 0 leaves the queue of its tier unbounded. */
  type Limits = s: seq<int> | |s| == NUM_PRIORITIES witness [0, 0, 0]

  /** One queue a tier. */
  type Queues<T> = s: seq<seq<T>> | |s| == NUM_PRIORITIES witness [[], [], []]

  datatype Config = Config(maxInflight: int, dynamic: bool, limits: Limits)

  datatype GateState<T> = GateState(inflight: int, queues: Queues<T>)

  datatype Verdict = Admitted | Rejected | Queued

  /** live is what the installed limit function returned for this call. */
  function Limit(c: Config, live: int): int {
    if c.dynamic then if live > 0 then live else MAX_INT32 else c.maxInflight
  }

  /** A gate with a limit function is always on; a static one only if its limit is positive. */
  predicate Enabled(c: Config) {
    c.dynamic || c.maxInflight > 0
  }

  /**
   The limit that a call sees, in figures: a gate without a limit function has its static limit; one
   with such a function what that returns if it is positive, and 2147483647 if not. So whether it
   counts does not depend on when it is asked.
   */
  lemma LimitMeans(c: Config, live: int, later: int)
    ensures !c.dynamic ==> Limit(c, live) == c.maxInflight
    ensures c.dynamic && live >= 1 ==> Limit(c, live) == live
    ensures c.dynamic && live <= 0 ==> Limit(c, live) == 2_147_483_647
    ensures Limit(c, live) >= 1 <==> Limit(c, later) >= 1
    ensures Enabled(c) <==> Limit(c, live) >= 1
  {
  }

  function TotalQueued<T>(queues: seq<seq<T>>): nat {
    if queues == [] then 0 else TotalQueued(queues[..|queues| - 1]) + |queues[|queues| - 1]|
  }

  lemma {:induction false} NothingQueued<T>(queues: seq<seq<T>>)
    ensures TotalQueued(queues) == 0 <==> forall p | 0 <= p < |queues| :: queues[p] == []
  {
    if queues == [] {
    } else {
      var n := |queues| - 1;
      NothingQueued(queues[..n]);
      if TotalQueued(queues) == 0 {
        forall p | 0 <= p < |queues| ensures queues[p] == [] {
          if p < n { assert queues[..n][p] == []; }
        }
      }
    }
  }

  lemma {:induction false} TotalUpdate<T>(queues: seq<seq<T>>, p: nat, q: seq<T>)
    requires p < |queues|
    ensures TotalQueued(queues[p := q]) == TotalQueued(queues) - |queues[p]| + |q|
    ensures |queues[p]| <= TotalQueued(queues)
  {
    var n := |queues| - 1;
    if p == n {
      assert queues[p := q][..n] == queues[..n];
    } else {
      TotalUpdate(queues[..n], p, q);
      assert queues[p := q][..n] == queues[..n][p := q];
    }
  }

  /** The tier that is served next; |queues| if nobody waits. */
  function FirstTier<T>(queues: seq<seq<T>>): (p: nat)
    ensures p <= |queues|
    ensures forall k | 0 <= k < p :: queues[k] == []
    ensures p < |queues| ==> queues[p] != []
  {
    if queues == [] || queues[0] != [] then 0
    else
      var q := FirstTier(queues[1..]);
      assert forall k | 0 < k < q + 1 :: queues[k] == queues[1..][k - 1];
      q + 1
  }

  /** Removes the first occurrence of x, if there is one. */
  function Remove<T(==)>(q: seq<T>, x: T): seq<T> {
    if q == [] then [] else if q[0] == x then q[1..] else [q[0]] + Remove(q[1..], x)
  }

  lemma {:induction false} RemoveAt<T>(q: seq<T>, i: nat)
    requires i < |q|
    requires q[i] !in q[..i]
    ensures Remove(q, q[i]) == q[..i] + q[i + 1..]
  {
    if i == 0 {
    } else {
      assert q[0] == q[..i][0];
      assert q[1..][..i - 1] == q[..i][1..];
      RemoveAt(q[1..], i - 1);
      assert q == [q[0]] + q[1..];
      calc {
        Remove(q, q[i]);
        [q[0]] + (q[1..][..i - 1] + q[1..][i..]);
        q[..i] + q[i + 1..];
      }
    }
  }

  lemma {:induction false} RemoveAbsent<T>(q: seq<T>, x: T)
    requires x !in q
    ensures Remove(q, x) == q
  {
    if q == [] {
    } else {
      RemoveAbsent(q[1..], x);
    }
  }

  /** The critical section of Acquire: fast path, admission control, or join the queue. */
  function Enter<T>(g: GateState<T>, c: Config, limit: int, p: Priority, ready: T): (GateState<T>, Verdict)
  {
    if g.inflight < limit && TotalQueued(g.queues) == 0 then
      (g.(inflight := g.inflight + 1), Admitted)
    else if c.limits[p] > 0 && |g.queues[p]| >= c.limits[p] then
      (g, Rejected)
    else
      (g.(queues := g.queues[p := g.queues[p] + [ready]]), Queued)
  }

  /** The critical section of a cancelled waiter that has not been woken. */
  function Withdraw<T(==)>(g: GateState<T>, p: Priority, ready: T): GateState<T>
  {
    g.(queues := g.queues[p := Remove(g.queues[p], ready)])
  }

  /** The critical section of Release, with the waiter it wakes. */
  function HandOff<T>(g: GateState<T>): (GateState<T>, Option<T>)
  {
    var p := FirstTier(g.queues);
    if p == |g.queues| then
      (g.(inflight := g.inflight - 1), None)
    else
      (g.(queues := g.queues[p := g.queues[p][1..]]), Some(g.queues[p][0]))
  }

  // ---- What is queued where ----

  ghost function Members<T>(queues: seq<seq<T>>): set<T> {
    set p, i | 0 <= p < |queues| && 0 <= i < |queues[p]| :: queues[p][i]
  }

  /** Every ticket stands in exactly one place. */
  ghost predicate Distinct<T>(queues: seq<seq<T>>) {
    forall p, i, q, j |
      && 0 <= p < |queues| && 0 <= i < |queues[p]|
      && 0 <= q < |queues| && 0 <= j < |queues[q]|
      && queues[p][i] == queues[q][j] :: p == q && i == j
  }

  lemma JoinMembers<T>(queues: seq<seq<T>>, p: nat, x: T)
    requires p < |queues| && Distinct(queues) && x !in Members(queues)
    ensures Distinct(queues[p := queues[p] + [x]])
    ensures Members(queues[p := queues[p] + [x]]) == Members(queues) + {x}
  {
    var after := queues[p := queues[p] + [x]];
    assert after[p][|queues[p]|] == x;
    forall y | y in Members(queues) ensures y in Members(after) {
      var q, i :| 0 <= q < |queues| && 0 <= i < |queues[q]| && queues[q][i] == y;
      assert after[q][i] == y;
    }
    forall q, i | 0 <= q < |queues| && 0 <= i < |queues[q]| ensures queues[q][i] != x {
      assert queues[q][i] in Members(queues);
    }
  }

  lemma CutMembers<T>(queues: seq<seq<T>>, p: nat, k: nat)
    requires p < |queues| && k < |queues[p]| && Distinct(queues)
    ensures Distinct(queues[p := queues[p][..k] + queues[p][k + 1..]])
    ensures Members(queues[p := queues[p][..k] + queues[p][k + 1..]]) == Members(queues) - {queues[p][k]}
  {
    var x := queues[p][k];
    var after := queues[p := queues[p][..k] + queues[p][k + 1..]];
    forall q, i | 0 <= q < |after| && 0 <= i < |after[q]|
      ensures after[q][i] == queues[q][if q == p && i >= k then i + 1 else i]
    {
    }
    forall y | y in Members(queues) && y != x ensures y in Members(after) {
      var q, i :| 0 <= q < |queues| && 0 <= i < |queues[q]| && queues[q][i] == y;
      assert after[q][if q == p && i > k then i - 1 else i] == y;
    }
  }
}
