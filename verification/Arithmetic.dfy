/** Facts about products and floors that the solver is asked for one at a time. */
module Arithmetic {
  function Abs(x: int): nat {
    if x < 0 then -x else x
  }

  function Max(a: int, b: int): int {
    if a >= b then a else b
  }

  function Min(a: int, b: int): int {
    if a <= b then a else b
  }

  lemma Scale(a: int, b: int, d: int)
    requires a <= b && d >= 0
    ensures a * d <= b * d && d * a <= d * b
  {
    assert (b - a) * d >= 0;
    assert (b - a) * d == b * d - a * d;
  }

  lemma Cancel(d: int, a: int, b: int)
    requires d > 0 && d * a < d * b + d
    ensures a <= b
  {
    assert d * a < d * (b + 1);
    if b + 1 <= a { Scale(b + 1, a, d); }
  }

  lemma DivRem(n: int, d: int)
    requires d > 0
    ensures n == d * (n / d) + n % d && 0 <= n % d < d
  {
  }

  /** The floor of a quotient lies between the bounds of the quotient. */
  lemma FloorBetween(n: int, d: int, lo: int, hi: int)
    requires d > 0 && d * lo <= n <= d * hi
    ensures lo <= n / d <= hi
    ensures n == d * (n / d) + n % d && 0 <= n % d < d
  {
    var q := n / d;
    assert n == d * q + n % d;
    Cancel(d, q, hi);
    Cancel(d, lo, q);
  }

  lemma Distribute(d: int, a: int, b: int)
    ensures d * (a + b) == d * a + d * b
    ensures d * (a - b) == d * a - d * b
    ensures (a + b) * d == d * a + d * b
    ensures (a - b) * d == d * a - d * b
  {
  }
}
