/** What integer quotients of positive divisors mean. */
module Quotients {

  lemma QuotientFits(a: int, b: int, n: int)
    requires b > 0
    ensures n <= a / b <==> n * b <= a
  {
    if n <= a / b {
      assert n * b <= a / b * b;
    } else {
      assert n * b >= (a / b + 1) * b;
    }
  }

  lemma NestedQuotientFits(a: int, b: int, c: int, n: int)
    requires b > 0 && c > 0
    ensures n <= a / b / c <==> n * c * b <= a
  {
    QuotientFits(a / b, c, n);
    QuotientFits(a, b, n * c);
  }
}
