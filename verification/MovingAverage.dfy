/**
 The per-token latency average of backend.go: integer arithmetic with weight one fifth for the
 new sample, updated by a compare-and-swap loop.

 The first half bounds the rounding error of the integer average against the exact one. The
 second half runs any number of updaters, with the load and the swap as separate steps.
 */
module MovingAverage {

  /** Integer division of the program: rounds toward zero. */
  function TruncDiv(a: int, b: int): int
    requires b > 0
  {
    if a >= 0 then a / b else -(-a / b)
  }

  /** A stored 0 means that there is no sample yet. */
  function Next(prior: int, ms: int): int {
    if prior == 0 then ms else TruncDiv(prior * 4 + ms, 5)
  }

  function Fold(start: int, samples: seq<int>): int {
    if samples == [] then start
    else Next(Fold(start, samples[..|samples| - 1]), samples[|samples| - 1])
  }

  /** The same average without rounding. */
  function Exact(samples: seq<int>): real
    requires samples != []
  {
    var n := |samples| - 1;
    if n == 0 then samples[0] as real
    else (Exact(samples[..n]) * 4.0 + samples[n] as real) / 5.0
  }

  ghost predicate Positive(samples: seq<int>) {
    forall i | 0 <= i < |samples| :: samples[i] >= 1
  }

  /** One step of the integer average, for a stored value and a sample that are both positive. */
  lemma NextBounds(prior: int, ms: int)
    requires prior >= 1 && ms >= 1
    ensures prior * 4 + ms - 4 <= 5 * Next(prior, ms) <= prior * 4 + ms
    ensures prior <= ms ==> prior <= Next(prior, ms) <= ms
    ensures ms <= prior ==> ms <= Next(prior, ms) <= prior
  {
  }

  /** The rounding error never exceeds 4 ms, however many samples were folded in. */
  lemma {:induction false} TracksExact(samples: seq<int>)
    requires samples != [] && Positive(samples)
    ensures Fold(0, samples) >= 1
    ensures 0.0 <= Exact(samples) - Fold(0, samples) as real <= 4.0
  {
    var n := |samples| - 1;
    var front := samples[..n];
    if n == 0 {
      assert Fold(0, front) == 0;
    } else {
      assert forall i | 0 <= i < n :: front[i] == samples[i];
      TracksExact(front);
      NextBounds(Fold(0, front), samples[n]);
      var prior, next := Fold(0, front), Fold(0, samples);
      assert next == Next(prior, samples[n]);
      assert prior as real * 4.0 + samples[n] as real - 4.0 <= 5.0 * next as real
          <= prior as real * 4.0 + samples[n] as real;
    }
  }

  /** The stored value stays between the smallest and the largest sample. */
  lemma {:induction false} StaysInRange(samples: seq<int>, lo: int, hi: int)
    requires samples != [] && 1 <= lo
    requires forall i | 0 <= i < |samples| :: lo <= samples[i] <= hi
    ensures lo <= Fold(0, samples) <= hi
  {
    var n := |samples| - 1;
    if n == 0 {
      assert Fold(0, samples[..n]) == 0;
    } else {
      assert forall i | 0 <= i < n :: samples[..n][i] == samples[i];
      StaysInRange(samples[..n], lo, hi);
      NextBounds(Fold(0, samples[..n]), samples[n]);
    }
  }

  /** n times the same sample s. */
  function Repeat(s: int, n: nat): seq<int> {
    seq(n, _ => s)
  }

  /** A value is a fixed point for the constant sample s exactly when it lies in [s - 4, s]. */
  lemma FixedPoints(v: int, s: int)
    requires v >= 1 && s >= 1
    ensures Next(v, s) == v <==> s - 4 <= v <= s
  {
  }

  function Distance(v: int, s: int): nat {
    if v > s then v - s else if v < s - 4 then s - 4 - v else 0
  }

  /**
   Under a constant sample s the average reaches [s - 4, s] in at most as many steps as its
   distance to that interval, and then never moves again.
   */
  lemma {:induction false} Settles(v: int, s: int, n: nat)
    requires v >= 1 && s >= 1
    ensures Fold(v, Repeat(s, n)) >= 1
    ensures Distance(Fold(v, Repeat(s, n)), s) <= if n < Distance(v, s) then Distance(v, s) - n else 0
    ensures n >= Distance(v, s) ==>
              s - 4 <= Fold(v, Repeat(s, n)) <= s && Fold(v, Repeat(s, n + 1)) == Fold(v, Repeat(s, n))
  {
    if n == 0 {
    } else {
      Settles(v, s, n - 1);
      assert Repeat(s, n)[..n - 1] == Repeat(s, n - 1);
      NextBounds(Fold(v, Repeat(s, n - 1)), s);
    }
    assert Repeat(s, n + 1)[..n] == Repeat(s, n);
    FixedPoints(Fold(v, Repeat(s, n)), s);
  }

  // ---- Concurrent updates ----

  datatype Pc = Ready(ms: int) | Loaded(ms: int, prior: int) | Recorded(ms: int)

  /** commits lists the updaters whose swap succeeded, in that order. */
  datatype State = State(value: int, pcs: seq<Pc>, commits: seq<nat>)

  datatype Step = Start(ms: int) | Load(t: nat) | Swap(t: nat)

  predicate StepEnabled(s: State, step: Step) {
    match step
    case Start(_) => true
    case Load(t) => t < |s.pcs| && s.pcs[t].Ready?
    case Swap(t) => t < |s.pcs| && s.pcs[t].Loaded?
  }

  predicate Succeeds(s: State, step: Step) {
    step.Swap? && step.t < |s.pcs| && s.pcs[step.t].Loaded? && s.value == s.pcs[step.t].prior
  }

  function Apply(s: State, step: Step): State
    requires StepEnabled(s, step)
  {
    match step
    case Start(ms) => s.(pcs := s.pcs + [Ready(ms)])
    case Load(t) => s.(pcs := s.pcs[t := Loaded(s.pcs[t].ms, s.value)])
    case Swap(t) =>
      var Loaded(ms, prior) := s.pcs[t];
      if s.value == prior then State(Next(prior, ms), s.pcs[t := Recorded(ms)], s.commits + [t])
      else s.(pcs := s.pcs[t := Ready(ms)])
  }

  ghost predicate IsRun(s: State, tr: seq<Step>)
    decreases |tr|, 0
  {
    tr == [] || (IsRun(s, tr[..|tr| - 1]) && StepEnabled(After(s, tr[..|tr| - 1]), tr[|tr| - 1]))
  }

  ghost function After(s: State, tr: seq<Step>): State
    requires IsRun(s, tr)
    decreases |tr|
  {
    if tr == [] then s else Apply(After(s, tr[..|tr| - 1]), tr[|tr| - 1])
  }

  const INIT := State(0, [], [])

  /** The samples of the given updaters. */
  function Samples(pcs: seq<Pc>, commits: seq<nat>): seq<int>
    requires forall i | 0 <= i < |commits| :: commits[i] < |pcs|
  {
    seq(|commits|, i requires 0 <= i < |commits| => pcs[commits[i]].ms)
  }

  /** The commit log names each finished updater once and nobody else. */
  ghost predicate LogSound(pcs: seq<Pc>, commits: seq<nat>) {
    && (forall i, j | 0 <= i < j < |commits| :: commits[i] != commits[j])
    && (forall t: nat :: t in commits <==> t < |pcs| && pcs[t].Recorded?)
  }

  lemma LogInRange(pcs: seq<Pc>, commits: seq<nat>)
    requires LogSound(pcs, commits)
    ensures forall i | 0 <= i < |commits| :: commits[i] < |pcs| && pcs[commits[i]].Recorded?
  {
    forall i | 0 <= i < |commits| ensures commits[i] < |pcs| && pcs[commits[i]].Recorded? {
      assert commits[i] in commits;
    }
  }

  ghost predicate Inv(s: State) {
    && LogSound(s.pcs, s.commits)
    && (forall i | 0 <= i < |s.commits| :: s.commits[i] < |s.pcs|)
    && s.value == Fold(0, Samples(s.pcs, s.commits))
  }

  /** A thread that is not finished moves on without finishing. */
  lemma QuietKeepsLog(pcs: seq<Pc>, commits: seq<nat>, t: nat, pc: Pc)
    requires LogSound(pcs, commits) && t <= |pcs| && !pc.Recorded?
    requires t < |pcs| ==> !pcs[t].Recorded?
    ensures var pcs' := if t < |pcs| then pcs[t := pc] else pcs + [pc];
      && LogSound(pcs', commits)
      && (forall i | 0 <= i < |commits| :: commits[i] < |pcs| && commits[i] < |pcs'| && commits[i] != t)
      && Samples(pcs', commits) == Samples(pcs, commits)
  {
    LogInRange(pcs, commits);
  }

  lemma CommitKeepsLog(pcs: seq<Pc>, commits: seq<nat>, t: nat, ms: int)
    requires LogSound(pcs, commits) && t < |pcs| && !pcs[t].Recorded?
    ensures LogSound(pcs[t := Recorded(ms)], commits + [t])
    ensures forall i | 0 <= i < |commits + [t]| :: (commits + [t])[i] < |pcs|
    ensures forall i | 0 <= i < |commits| :: commits[i] < |pcs|
    ensures Samples(pcs[t := Recorded(ms)], commits + [t]) == Samples(pcs, commits) + [ms]
  {
    LogInRange(pcs, commits);
    assert t !in commits;
    var pcs' := pcs[t := Recorded(ms)];
    forall u: nat ensures u in commits + [t] <==> u < |pcs'| && pcs'[u].Recorded? {
      assert u in commits <==> u < |pcs| && pcs[u].Recorded?;
    }
  }

  lemma StepKeepsInv(s: State, step: Step)
    requires Inv(s) && StepEnabled(s, step)
    ensures Inv(Apply(s, step))
  {
    match step
    case Start(ms) => QuietKeepsLog(s.pcs, s.commits, |s.pcs|, Ready(ms));
    case Load(t) => QuietKeepsLog(s.pcs, s.commits, t, Loaded(s.pcs[t].ms, s.value));
    case Swap(t) =>
      var ms := s.pcs[t].ms;
      if Succeeds(s, step) {
        CommitKeepsLog(s.pcs, s.commits, t, ms);
        var samples := Samples(s.pcs, s.commits);
        assert (samples + [ms])[..|samples|] == samples;
      } else {
        QuietKeepsLog(s.pcs, s.commits, t, Ready(ms));
      }
  }

  lemma {:induction false} RunKeepsInv(tr: seq<Step>)
    requires IsRun(INIT, tr)
    ensures Inv(After(INIT, tr))
    decreases |tr|
  {
    if tr != [] {
      RunKeepsInv(tr[..|tr| - 1]);
      StepKeepsInv(After(INIT, tr[..|tr| - 1]), tr[|tr| - 1]);
    }
  }

  /**
   Linearization. In every interleaving the stored average is the fold of the samples in the
   order in which their swaps succeeded, one sample for each finished updater; so with samples
   of at least 1 ms it is within 4 ms of the exact average in that order.
   */
  lemma Linearizes(tr: seq<Step>)
    requires IsRun(INIT, tr)
    ensures var s := After(INIT, tr);
      && LogSound(s.pcs, s.commits)
      && (forall i | 0 <= i < |s.commits| :: s.commits[i] < |s.pcs|)
      && var samples := Samples(s.pcs, s.commits);
         && s.value == Fold(0, samples)
         && (samples != [] && Positive(samples) ==> 0.0 <= Exact(samples) - s.value as real <= 4.0)
  {
    RunKeepsInv(tr);
    var s := After(INIT, tr);
    var samples := Samples(s.pcs, s.commits);
    if samples != [] && Positive(samples) { TracksExact(samples); }
  }

  /**
   A swap fails only because another updater got in between: if the value differs from what t
   loaded, some other thread's swap has succeeded since.
   */
  lemma {:induction false} FailedSwapHasWinner(s: State, tr: seq<Step>, t: nat)
    requires IsRun(s, tr) && t < |s.pcs| && s.pcs[t].Loaded? && s.pcs[t].prior == s.value
    requires forall i | 0 <= i < |tr| :: tr[i].Start? || tr[i].t != t
    ensures StepEnabled(After(s, tr), Swap(t)) && After(s, tr).pcs[t] == s.pcs[t]
    ensures !Succeeds(After(s, tr), Swap(t)) ==>
              exists j :: 0 <= j < |tr| && IsRun(s, tr[..j]) && Succeeds(After(s, tr[..j]), tr[j])
    decreases |tr|
  {
    if tr != [] {
      var front := tr[..|tr| - 1];
      FailedSwapHasWinner(s, front, t);
      if !Succeeds(After(s, front), Swap(t)) {
        var j :| 0 <= j < |front| && IsRun(s, front[..j]) && Succeeds(After(s, front[..j]), front[j]);
        assert front[..j] == tr[..j];
      } else if !Succeeds(After(s, tr), Swap(t)) {
        assert Succeeds(After(s, tr[..|tr| - 1]), tr[|tr| - 1]);
      }
    }
  }
}
