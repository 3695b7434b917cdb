/** Facts about division by a variable, which the verifier does not find on its own. */
module Arithmetic {
  lemma MulAtLeast(d: int, x: int)
    requires d > 0 && x >= 1
    ensures d * x >= d
  {}

  lemma DivideUnique(n: int, d: int, q: int, r: int)
    requires d > 0 && 0 <= r < d && n == d * q + r
    ensures n / d == q && n % d == r
  {
    var x := n / d - q;
    assert d * x == r - n % d by {
      assert n == d * (n / d) + n % d;
      assert d * x == d * (n / d) - d * q;
    }
    if x >= 1 { MulAtLeast(d, x); }
    if x <= -1 { MulAtLeast(d, -x); }
  }

  lemma DivideOneLess(n: nat, d: nat)
    requires d >= 1 && d <= n
    ensures n / d == (n - d) / d + 1 && n % d == (n - d) % d
  {
    assert d * (n / d - 1) == d * (n / d) - d;
    DivideUnique(n - d, d, n / d - 1, n % d);
  }

  lemma DivideSmall(n: nat, d: nat)
    requires n < d
    ensures n / d == 0 && n % d == n
  {
    DivideUnique(n, d, 0, n);
  }
}
