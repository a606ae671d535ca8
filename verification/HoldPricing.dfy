/**
 * Money carried from a hold into its booking: the even split of a quote over the nights
 * and the spread of a promo discount. Amounts are minor units, in the order of the dates.
 */
module HoldPricing {
  import opened Arithmetic
  import opened Sums

  function Last(xs: seq<int>): int
    requires xs != []
  {
    xs[|xs| - 1]
  }

  // ---- the even split --------------------------------------------------------------------

  function NightShare(roomMinor: int, nights: nat, i: nat): int
    requires i < nights
  {
    var each := roomMinor / nights;
    if i == nights - 1 then roomMinor - each * (nights - 1) else each
  }

  function EvenSplit(roomMinor: int, nights: nat): seq<int> {
    seq(nights, i requires 0 <= i < nights => NightShare(roomMinor, nights, i))
  }

  method NightlyFrom(roomMinor: int, nights: nat) returns (out: seq<int>)
    requires nights >= 1
    ensures out == EvenSplit(roomMinor, nights)
  {
    out := [];
    var each := roomMinor / nights;
    for i := 0 to nights
      invariant |out| == i && forall k :: 0 <= k < i ==> out[k] == NightShare(roomMinor, nights, k)
    {
      out := out + [if i == nights - 1 then roomMinor - each * (nights - 1) else each];
    }
  }

  lemma {:induction false} ConstantSum(xs: seq<int>, c: int)
    requires forall i :: 0 <= i < |xs| ==> xs[i] == c
    ensures Sum(xs) == c * |xs|
  {
    if xs != [] {
      ConstantSum(xs[..|xs| - 1], c);
      assert c * |xs| == c * (|xs| - 1) + c;
    }
  }

  /** The split loses nothing, and the last night takes less than a unit per night more than the others. */
  lemma EvenSplitConserves(roomMinor: int, nights: nat)
    requires nights >= 1
    ensures Sum(EvenSplit(roomMinor, nights)) == roomMinor
    ensures forall i :: 0 <= i < nights - 1 ==> EvenSplit(roomMinor, nights)[i] == roomMinor / nights
    ensures roomMinor / nights <= Last(EvenSplit(roomMinor, nights)) < roomMinor / nights + nights
  {
    var xs := EvenSplit(roomMinor, nights);
    var each := roomMinor / nights;
    assert xs == xs[..nights - 1] + [Last(xs)];
    ConstantSum(xs[..nights - 1], each);
    SumGrows(xs[..nights - 1], Last(xs));
    assert roomMinor == each * nights + roomMinor % nights;
    assert each * nights == each * (nights - 1) + each;
  }

  // ---- the discount ------------------------------------------------------------------------

  function AtLeastOne(n: int): int {
    if n < 1 then 1 else n
  }

  /** What night i gives when the nights before it gave `given`. */
  function ShareOf(nightly: seq<int>, discount: int, total: int, i: nat, given: int): int
    requires i < |nightly|
  {
    if i == |nightly| - 1 then discount - given else (discount * nightly[i]) / AtLeastOne(total)
  }

  /** What the first n nights give to the discount. */
  function Shares(nightly: seq<int>, discount: int, total: int, n: nat): (shares: seq<int>)
    requires n <= |nightly|
    ensures |shares| == n
  {
    if n == 0 then []
    else
      var before := Shares(nightly, discount, total, n - 1);
      before + [ShareOf(nightly, discount, total, n - 1, Sum(before))]
  }

  function Minus(xs: seq<int>, ys: seq<int>): (zs: seq<int>)
    requires |xs| == |ys|
    ensures |zs| == |xs|
  {
    seq(|xs|, i requires 0 <= i < |xs| => xs[i] - ys[i])
  }

  function Discounted(nightly: seq<int>, discount: int): (out: seq<int>)
    ensures |out| == |nightly|
  {
    if discount <= 0 then nightly else Minus(nightly, Shares(nightly, discount, Sum(nightly), |nightly|))
  }

  lemma MinusGrows(xs: seq<int>, ys: seq<int>, y: int)
    requires |ys| < |xs|
    ensures Minus(xs[..|ys| + 1], ys + [y]) == Minus(xs[..|ys|], ys) + [xs[|ys|] - y]
  {
  }

  method ApplyDiscount(nightly: seq<int>, discount: int) returns (out: seq<int>)
    ensures out == Discounted(nightly, discount)
  {
    if discount <= 0 {
      return nightly;
    }
    var total := Sum(nightly);
    out := [];
    var given := 0;
    ghost var shares: seq<int> := [];
    for i := 0 to |nightly|
      invariant |out| == |shares| == i
      invariant shares == Shares(nightly, discount, total, i)
      invariant given == Sum(shares)
      invariant out == Minus(nightly[..i], shares)
    {
      var share := ShareOf(nightly, discount, total, i, given);
      SumGrows(shares, share);
      MinusGrows(nightly, shares, share);
      shares := shares + [share];
      given := given + share;
      out := out + [nightly[i] - share];
    }
    assert nightly[..|nightly|] == nightly;
  }

  lemma {:induction false} SumOfDifferences(xs: seq<int>, ys: seq<int>, zs: seq<int>)
    requires |xs| == |ys| == |zs| && forall i :: 0 <= i < |xs| ==> zs[i] == xs[i] - ys[i]
    ensures Sum(zs) == Sum(xs) - Sum(ys)
  {
    if xs != [] {
      var n := |xs| - 1;
      SumOfDifferences(xs[..n], ys[..n], zs[..n]);
    }
  }

  /** The nights lose exactly the discount, for any nightly amounts. */
  lemma DiscountConserves(nightly: seq<int>, discount: int)
    requires nightly != []
    ensures Sum(Discounted(nightly, discount)) == Sum(nightly) - (if discount <= 0 then 0 else discount)
  {
    if discount > 0 {
      var n, total := |nightly|, Sum(nightly);
      var shares := Shares(nightly, discount, total, n);
      SumGrows(Shares(nightly, discount, total, n - 1), Last(shares));
      SumOfDifferences(nightly, shares, Discounted(nightly, discount));
    }
  }

  lemma {:induction false} ShareAt(nightly: seq<int>, discount: int, total: int, n: nat, i: nat)
    requires i < n <= |nightly| && i < |nightly| - 1
    ensures Shares(nightly, discount, total, n)[i] == (discount * nightly[i]) / AtLeastOne(total)
  {
    if i < n - 1 { ShareAt(nightly, discount, total, n - 1, i); }
  }

  /** Every night but the last loses its share of the discount, rounded down. */
  lemma EarlyNightIs(nightly: seq<int>, discount: int, i: nat)
    requires discount > 0 && i < |nightly| - 1
    ensures Discounted(nightly, discount)[i] ==
      nightly[i] - (discount * nightly[i]) / (if Sum(nightly) > 1 then Sum(nightly) else 1)
  {
    ShareAt(nightly, discount, Sum(nightly), |nightly|, i);
  }

  lemma ShareWithin(a: int, discount: int, total: int)
    requires 0 <= a && 0 <= discount <= total && total > 0
    ensures 0 <= (discount * a) / total <= a
    ensures 0 <= discount * a - total * ((discount * a) / total) < total
  {
    Scale(0, discount, a);
    Scale(discount, total, a);
    FloorBetween(discount * a, total, 0, a);
  }

  ghost predicate Discountable(nightly: seq<int>, discount: int) {
    && nightly != []
    && (forall i :: 0 <= i < |nightly| ==> nightly[i] >= 0)
    && 0 < discount <= Sum(nightly)
  }

  /**
   * Every night but the last stays between zero and its price, and less than one unit above
   * its pro-rata value: `over` is the excess in units of one over the total.
   */
  lemma EarlyNightsWithin(nightly: seq<int>, discount: int, i: nat) returns (over: int)
    requires Discountable(nightly, discount) && i < |nightly| - 1
    ensures 0 <= Discounted(nightly, discount)[i] <= nightly[i]
    ensures over == Sum(nightly) * Discounted(nightly, discount)[i] - nightly[i] * (Sum(nightly) - discount)
    ensures 0 <= over < Sum(nightly)
  {
    var share := EarlyShare(nightly, discount, i);
    over := EarlyNightArithmetic(nightly[i], discount, Sum(nightly), share);
  }

  lemma EarlyShare(nightly: seq<int>, discount: int, i: nat) returns (share: int)
    requires Discountable(nightly, discount) && i < |nightly| - 1
    ensures share == (discount * nightly[i]) / Sum(nightly)
    ensures Discounted(nightly, discount)[i] == nightly[i] - share
  {
    ShareAt(nightly, discount, Sum(nightly), |nightly|, i);
    share := (discount * nightly[i]) / Sum(nightly);
  }

  lemma EarlyNightArithmetic(a: int, discount: int, total: int, share: int) returns (over: int)
    requires 0 <= a && 0 <= discount <= total && total > 0 && share == (discount * a) / total
    ensures 0 <= share <= a
    ensures over == total * (a - share) - a * (total - discount) && 0 <= over < total
  {
    ShareWithin(a, discount, total);
    Distribute(total, a, share);
    Distribute(a, total, discount);
    over := discount * a - total * share;
  }

  /** What flooring leaves behind on the first n nights, in units of one over the total. */
  function Leftover(nightly: seq<int>, discount: int, n: nat): int
    requires n <= |nightly| && Sum(nightly) > 0
  {
    if n == 0 then 0 else Leftover(nightly, discount, n - 1) + (discount * nightly[n - 1]) % Sum(nightly)
  }

  lemma {:induction false} LeftoverBounds(nightly: seq<int>, discount: int, n: nat)
    requires n <= |nightly| && Sum(nightly) > 0
    ensures 0 <= Leftover(nightly, discount, n) <= n * (Sum(nightly) - 1)
  {
    if n > 0 {
      LeftoverBounds(nightly, discount, n - 1);
      assert n * (Sum(nightly) - 1) == (n - 1) * (Sum(nightly) - 1) + (Sum(nightly) - 1);
    }
  }

  lemma {:induction false} SharesPlusLeftover(nightly: seq<int>, discount: int, n: nat)
    requires Sum(nightly) > 0 && n < |nightly|
    ensures Sum(nightly) * Sum(Shares(nightly, discount, Sum(nightly), n)) + Leftover(nightly, discount, n)
      == discount * Sum(nightly[..n])
  {
    if n > 0 {
      var total, a := Sum(nightly), nightly[n - 1];
      var before := Shares(nightly, discount, Sum(nightly), n - 1);
      SharesPlusLeftover(nightly, discount, n - 1);
      SumGrows(before, (discount * a) / total);
      assert nightly[..n][..n - 1] == nightly[..n - 1];
      Distribute(total, Sum(before), (discount * a) / total);
      Distribute(discount, Sum(nightly[..n - 1]), a);
      DivRem(discount * a, total);
    }
  }

  /** The last night is its pro-rata value less everything flooring left behind on the others. */
  lemma LastNightExactly(nightly: seq<int>, discount: int)
    requires Discountable(nightly, discount)
    ensures
      var total := Sum(nightly);
      total * Last(Discounted(nightly, discount))
      == Last(nightly) * (total - discount) - Leftover(nightly, discount, |nightly| - 1)
  {
    var n := |nightly| - 1;
    var total := Sum(nightly);
    var before := Shares(nightly, discount, Sum(nightly), n);
    SharesPlusLeftover(nightly, discount, n);
    var front := Sum(nightly[..n]);
    var a, s := Last(nightly), Sum(before);
    assert Last(Discounted(nightly, discount)) == a - (discount - s);
    assert total == front + a;
    LastNightArithmetic(total, front, a, s, discount, Leftover(nightly, discount, n));
  }

  lemma LastNightArithmetic(total: int, front: int, a: int, s: int, discount: int, leftover: int)
    requires total == front + a && total * s + leftover == discount * front
    ensures total * (a - (discount - s)) == a * (total - discount) - leftover
  {
    calc {
      total * (a - (discount - s));
      total * a - total * discount + total * s;
      total * a - (front + a) * discount + (discount * front - leftover);
      total * a - a * discount - leftover;
      a * (total - discount) - leftover;
    }
  }

  /**
   * So the last night is never above its pro-rata value and less than one unit per other night
   * below it: `under` is the shortfall in units of one over the total.
   */
  lemma LastNightWithin(nightly: seq<int>, discount: int) returns (under: int)
    requires Discountable(nightly, discount)
    ensures under == Last(nightly) * (Sum(nightly) - discount) - Sum(nightly) * Last(Discounted(nightly, discount))
    ensures 0 <= under <= (|nightly| - 1) * (Sum(nightly) - 1)
  {
    under := Leftover(nightly, discount, |nightly| - 1);
    LastNightExactly(nightly, discount);
    LeftoverBounds(nightly, discount, |nightly| - 1);
  }

  /** Exactly when the last night does not go below zero. */
  lemma LastNightNonNegativeIff(nightly: seq<int>, discount: int)
    requires Discountable(nightly, discount)
    ensures Last(Discounted(nightly, discount)) >= 0 <==>
      Leftover(nightly, discount, |nightly| - 1) <= Last(nightly) * (Sum(nightly) - discount)
  {
    var total, last := Sum(nightly), Last(Discounted(nightly, discount));
    LastNightExactly(nightly, discount);
    if last >= 0 {
      Scale(0, last, total);
    } else {
      Scale(last, -1, total);
    }
  }

  /** It can: three nights of one unit and a discount of two leave the last night at minus one. */
  lemma LastNightCanBeNegative()
    ensures Discountable([1, 1, 1], 2)
    ensures Discounted([1, 1, 1], 2) == [1, 1, -1]
  {
    OnesSum();
    OnesShares();
    assert [0, 0][..1] == [0] && [0][..0] == [];
    assert Sum([0, 0]) == 0;
  }

  lemma OnesSum()
    ensures Sum([1, 1, 1]) == 3
  {
    assert [1, 1, 1][..2] == [1, 1] && [1, 1][..1] == [1] && [1][..0] == [];
    assert Sum([1]) == 1 && Sum([1, 1]) == 2;
  }

  lemma OnesShares()
    ensures Shares([1, 1, 1], 2, 3, 2) == [0, 0]
  {
    assert Shares([1, 1, 1], 2, 3, 0) == [];
    assert Shares([1, 1, 1], 2, 3, 1) == [0];
  }

  /** A hold of at least one night brings exactly its room price less the discount into the booking. */
  lemma HoldMoneyConserved(roomMinor: int, nights: nat, discount: int)
    requires nights >= 1 && 0 <= discount
    ensures Sum(Discounted(EvenSplit(roomMinor, nights), discount)) == roomMinor - discount
  {
    EvenSplitConserves(roomMinor, nights);
    DiscountConserves(EvenSplit(roomMinor, nights), discount);
  }
}
