/** Sums of a function over a sequence, used to count owners, slots and remaining work. */
module Sums {

  function Sum<T>(s: seq<T>, f: T -> int): int {
    if s == [] then 0 else Sum(s[..|s| - 1], f) + f(s[|s| - 1])
  }

  lemma SumAppend<T>(s: seq<T>, x: T, f: T -> int)
    ensures Sum(s + [x], f) == Sum(s, f) + f(x)
  {
    assert (s + [x])[..|s|] == s;
  }

  lemma {:induction false} SumUpdate<T>(s: seq<T>, i: nat, x: T, f: T -> int)
    requires i < |s|
    ensures Sum(s[i := x], f) == Sum(s, f) - f(s[i]) + f(x)
  {
    var n := |s| - 1;
    if i == n {
      assert s[i := x][..n] == s[..n];
    } else {
      SumUpdate(s[..n], i, x, f);
      assert s[i := x][..n] == s[..n][i := x];
    }
  }

  /** A pointwise bound carries over to the sums, strictly if it is strict somewhere. */
  lemma {:induction false} SumBelow<A, B>(s: seq<A>, f: A -> int, t: seq<B>, g: B -> int)
    requires |s| == |t|
    requires forall i | 0 <= i < |s| :: f(s[i]) <= g(t[i])
    ensures Sum(s, f) <= Sum(t, g)
    ensures (exists i | 0 <= i < |s| :: f(s[i]) < g(t[i])) <==> Sum(s, f) < Sum(t, g)
  {
    if s == [] {
    } else {
      var n := |s| - 1;
      assert f(s[n]) <= g(t[n]);
      forall i | 0 <= i < n ensures f(s[..n][i]) <= g(t[..n][i]) {
        assert f(s[i]) <= g(t[i]);
      }
      SumBelow(s[..n], f, t[..n], g);
      if i :| 0 <= i < |s| && f(s[i]) < g(t[i]) {
        if i < n {
          assert f(s[..n][i]) < g(t[..n][i]);
        }
      }
      if Sum(s[..n], f) < Sum(t[..n], g) {
        var i :| 0 <= i < |s[..n]| && f(s[..n][i]) < g(t[..n][i]);
        assert f(s[i]) < g(t[i]);
      }
    }
  }

  /** If one sum falls short of another over the same index range, some term does. */
  lemma {:induction false} SumShortfall<A, B>(s: seq<A>, f: A -> int, t: seq<B>, g: B -> int) returns (i: nat)
    requires |s| == |t|
    requires Sum(s, f) < Sum(t, g)
    ensures i < |s| && f(s[i]) < g(t[i])
  {
    var n := |s| - 1;
    if f(s[n]) < g(t[n]) {
      i := n;
    } else {
      i := SumShortfall(s[..n], f, t[..n], g);
    }
  }

  lemma {:induction false} SumNonNegative<T>(s: seq<T>, f: T -> int)
    requires forall i | 0 <= i < |s| :: f(s[i]) >= 0
    ensures Sum(s, f) >= 0
    ensures forall i | 0 <= i < |s| :: f(s[i]) <= Sum(s, f)
  {
    if s == [] {
    } else {
      var n := |s| - 1;
      forall i | 0 <= i < n ensures f(s[..n][i]) >= 0 {
        assert f(s[i]) >= 0;
      }
      SumNonNegative(s[..n], f);
      forall i | 0 <= i < |s| ensures f(s[i]) <= Sum(s, f) {
        assert f(s[n]) >= 0;
        if i < n {
          assert f(s[..n][i]) <= Sum(s[..n], f);
        }
      }
    }
  }

  lemma {:induction false} SumZero<T>(s: seq<T>, f: T -> int)
    requires forall i | 0 <= i < |s| :: f(s[i]) == 0
    ensures Sum(s, f) == 0
  {
    if s != [] {
      var n := |s| - 1;
      forall i | 0 <= i < n ensures f(s[..n][i]) == 0 {
        assert f(s[i]) == 0;
      }
      SumZero(s[..n], f);
    }
  }
}
