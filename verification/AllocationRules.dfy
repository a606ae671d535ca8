/** Exactly what each part of an allocation is, and when there is none. */
module AllocationRules {
  import opened Wrappers
  import opened Sorting
  import opened Sums
  import opened Arithmetic
  import opened Money

  /** The parts with a larger ratio, or with the same one and an earlier place. */
  ghost function Ahead(ratios: seq<int>, i: nat): set<int>
    requires i < |ratios|
  {
    set j | 0 <= j < |ratios| && (ratios[j] > ratios[i] || (ratios[j] == ratios[i] && j < i))
  }

  ghost function Floored(whole: nat, ratios: seq<int>, total: int): seq<int>
    requires total > 0
  {
    seq(|ratios|, i requires 0 <= i < |ratios| => whole * ratios[i] / total)
  }

  lemma {:induction false} PrefixSize(xs: seq<int>, n: nat)
    requires n <= |xs| && forall j, k :: 0 <= j < k < |xs| ==> xs[j] != xs[k]
    ensures |set k | 0 <= k < n :: xs[k]| == n
  {
    var first := set k | 0 <= k < n :: xs[k];
    if n == 0 {
      assert first == {};
    } else {
      PrefixSize(xs, n - 1);
      var before := set k | 0 <= k < n - 1 :: xs[k];
      assert first == before + {xs[n - 1]} && xs[n - 1] !in before;
    }
  }

  lemma OrderBefore(ratios: seq<int>, k: nat, m: nat)
    requires k < m < |Order(ratios)|
    ensures 0 <= Order(ratios)[k] < |ratios| && 0 <= Order(ratios)[m] < |ratios|
    ensures Order(ratios)[k] in Ahead(ratios, Order(ratios)[m]) && Order(ratios)[m] !in Ahead(ratios, Order(ratios)[k])
  {
    OrderedOnce(ratios);
    OrderIsPermutation(ratios);
    assert ByRatio(ratios)(Order(ratios)[k], Order(ratios)[m]);
  }

  lemma PlaceIs(ratios: seq<int>, i: nat) returns (k: nat)
    requires i < |ratios|
    ensures k < |Order(ratios)| && Order(ratios)[k] == i && |Ahead(ratios, i)| == k
  {
    var order := Order(ratios);
    OrderIsPermutation(ratios);
    OrderedOnce(ratios);
    EveryPlace(ratios, i);
    k :| 0 <= k < |order| && order[k] == i;
    PrefixSize(order, k);
    var before := set j | 0 <= j < k :: order[j];
    forall j | j in before ensures j in Ahead(ratios, i) {
      var m :| 0 <= m < k && order[m] == j;
      OrderBefore(ratios, m, k);
    }
    forall j | j in Ahead(ratios, i) ensures j in before {
      EveryPlace(ratios, j);
      var m :| 0 <= m < |order| && order[m] == j;
      if k < m { OrderBefore(ratios, k, m); }
    }
    assert before == Ahead(ratios, i);
  }

  lemma EveryPlace(ratios: seq<int>, i: nat)
    requires i < |ratios|
    ensures i in Order(ratios)
  {
    OrderIsPermutation(ratios);
    assert Indices(|ratios|)[i] == i;
    assert i in multiset(Indices(|ratios|)) && i in multiset(Order(ratios));
  }

  /**
   * A part is its share rounded down, and one more when fewer parts are ahead of it than units are left
   * over: units go to the largest ratios, the earlier of equal ones, one each. Amounts below zero are
   * split like their opposites.
   */
  lemma PartIsExact(minor: int, ratios: seq<int>, i: nat)
    requires Ratios(ratios) && i < |ratios|
    ensures Allocation(minor, ratios).Ok? && |Allocation(minor, ratios).value| == |ratios|
    ensures var whole, total := if minor < 0 then -minor else minor, Sum(ratios);
      var left := whole - Sum(Floored(whole, ratios, total));
      var part := whole * ratios[i] / total + if |Ahead(ratios, i)| < left then 1 else 0;
      Allocation(minor, ratios).value[i] == if minor < 0 then -part else part
  {
    var whole: nat := Abs(minor);
    AllocationConserves(minor, ratios);
    PartIsFloorOrOneMore(whole, ratios, i);
    OrderedOnce(ratios);
    var k := PlaceIs(ratios, i);
    assert Floors(whole, ratios, Sum(ratios)) == Floored(whole, ratios, Sum(ratios));
    var first := Order(ratios)[..Left(whole, ratios)];
    assert k < Left(whole, ratios) ==> first[k] == i;
  }

  /** An allocation fails exactly without ratios, with a negative one, or when all are zero. */
  lemma AllocationFailsIff(minor: int, ratios: seq<int>)
    ensures Allocation(minor, ratios) == Err(NoRatios) <==> |ratios| == 0
    ensures Allocation(minor, ratios) == Err(NegativeRatio) <==> exists i :: 0 <= i < |ratios| && ratios[i] < 0
    ensures Allocation(minor, ratios) == Err(AllZero) <==>
      |ratios| > 0 && forall i :: 0 <= i < |ratios| ==> ratios[i] == 0
  {
    if forall i :: 0 <= i < |ratios| ==> ratios[i] >= 0 {
      SumNonNegative(ratios);
      ZeroSumIff(ratios);
    }
  }

  lemma {:induction false} ZeroSumIff(ratios: seq<int>)
    requires forall i :: 0 <= i < |ratios| ==> ratios[i] >= 0
    ensures Sum(ratios) >= 0 && (Sum(ratios) == 0 <==> forall i :: 0 <= i < |ratios| ==> ratios[i] == 0)
  {
    if ratios != [] { ZeroSumIff(ratios[..|ratios| - 1]); }
  }
}
