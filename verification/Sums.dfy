/** Sums of integer sequences. */
module Sums {
  function Sum(xs: seq<int>): int {
    if xs == [] then 0 else Sum(xs[..|xs| - 1]) + xs[|xs| - 1]
  }

  lemma {:induction false} SumOfParts(xs: seq<int>, ys: seq<int>)
    ensures Sum(xs + ys) == Sum(xs) + Sum(ys)
  {
    if ys == [] {
      assert xs + ys == xs;
    } else {
      SumOfParts(xs, ys[..|ys| - 1]);
      assert (xs + ys)[..|xs + ys| - 1] == xs + ys[..|ys| - 1];
    }
  }

  lemma SumGrows(xs: seq<int>, x: int)
    ensures Sum(xs + [x]) == Sum(xs) + x
  {
    assert (xs + [x])[..|xs|] == xs;
  }

  lemma {:induction false} SumBounds(xs: seq<int>, lo: int, hi: int)
    requires forall i :: 0 <= i < |xs| ==> lo <= xs[i] <= hi
    ensures |xs| * lo <= Sum(xs) <= |xs| * hi
  {
    if xs != [] {
      var front := xs[..|xs| - 1];
      SumBounds(front, lo, hi);
      assert |xs| * lo == |front| * lo + lo && |xs| * hi == |front| * hi + hi;
    }
  }

  lemma {:induction false} SumNonNegative(xs: seq<int>)
    requires forall k :: 0 <= k < |xs| ==> xs[k] >= 0
    ensures Sum(xs) >= 0
  {
    if xs != [] { SumNonNegative(xs[..|xs| - 1]); }
  }

  // ---- sums of a quantity ----------------------------------------------------------------------

  function Mapped<T>(f: T -> int, xs: seq<T>): seq<int> {
    seq(|xs|, i requires 0 <= i < |xs| => f(xs[i]))
  }

  lemma MappedParts<T>(f: T -> int, a: seq<T>, b: seq<T>)
    ensures Sum(Mapped(f, a + b)) == Sum(Mapped(f, a)) + Sum(Mapped(f, b))
  {
    assert Mapped(f, a + b) == Mapped(f, a) + Mapped(f, b);
    SumOfParts(Mapped(f, a), Mapped(f, b));
  }

  lemma MappedOne<T>(f: T -> int, x: T)
    ensures Sum(Mapped(f, [x])) == f(x)
  {
    assert Mapped(f, [x]) == [] + [f(x)];
    SumGrows([], f(x));
  }

  lemma MappedOut<T>(f: T -> int, a: seq<T>, x: T, b: seq<T>)
    ensures Sum(Mapped(f, a + ([x] + b))) == Sum(Mapped(f, a + b)) + f(x)
  {
    MappedParts(f, a, b);
    MappedParts(f, a, [x] + b);
    MappedParts(f, [x], b);
    MappedOne(f, x);
  }

  lemma TakeOut<T>(ys: seq<T>, x: T) returns (a: seq<T>, b: seq<T>)
    requires x in multiset(ys)
    ensures ys == a + ([x] + b) && multiset(a + b) == multiset(ys) - multiset{x}
  {
    var j :| 0 <= j < |ys| && ys[j] == x;
    a, b := ys[..j], ys[j + 1..];
    assert ys == a + ([x] + b);
  }

  /** A sum does not depend on the order of its terms. */
  lemma {:induction false} SumForgetsOrder<T>(f: T -> int, xs: seq<T>, ys: seq<T>)
    requires multiset(xs) == multiset(ys)
    ensures Sum(Mapped(f, xs)) == Sum(Mapped(f, ys))
  {
    assert |multiset(xs)| == |multiset(ys)|;
    if xs != [] {
      var x := xs[|xs| - 1];
      var front := xs[..|xs| - 1];
      assert xs == front + [x];
      assert x in multiset(ys);
      var a, b := TakeOut(ys, x);
      assert multiset(front) == multiset(xs) - multiset{x};
      SumForgetsOrder(f, front, a + b);
      MappedOut(f, a, x, b);
      MappedOut(f, front, x, []);
      assert front + [] == front && front + ([x] + []) == xs;
    }
  }
}
