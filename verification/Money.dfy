/** Splitting an amount by ratios: Money.allocate. */
module Money {
  import opened Wrappers
  import opened Sorting
  import opened Sums
  import opened Arithmetic

  datatype RatioError = NoRatios | NegativeRatio | AllZero

  /** Inputs for which allocate throws. */
  function RatioFault(ratios: seq<int>): Option<RatioError> {
    if ratios == [] then Some(NoRatios)
    else if exists i :: 0 <= i < |ratios| && ratios[i] < 0 then Some(NegativeRatio)
    else if Sum(ratios) == 0 then Some(AllZero)
    else None
  }

  function Ratio(ratios: seq<int>, i: int): int {
    if 0 <= i < |ratios| then ratios[i] else 0
  }

  /** Larger ratios first, then earlier ones. */
  function ByRatio(ratios: seq<int>): (int, int) -> bool {
    (i, j) => Ratio(ratios, i) > Ratio(ratios, j) || (Ratio(ratios, i) == Ratio(ratios, j) && i <= j)
  }

  function Indices(n: nat): seq<int> {
    seq(n, i => i)
  }

  function Order(ratios: seq<int>): seq<int> {
    Sort(ByRatio(ratios), Indices(|ratios|))
  }

  function Floors(whole: nat, ratios: seq<int>, total: int): seq<int>
    requires total > 0
  {
    seq(|ratios|, i requires 0 <= i < |ratios| => whole * ratios[i] / total)
  }

  /** One more for each of these indices. */
  function AddOnes(parts: seq<int>, indices: seq<int>): (r: seq<int>)
    ensures |r| == |parts|
  {
    if indices == [] then parts
    else
      var r := AddOnes(parts, indices[..|indices| - 1]);
      var i := indices[|indices| - 1];
      if 0 <= i < |r| then r[i := r[i] + 1] else r
  }

  function Left(whole: nat, ratios: seq<int>): int
    requires Sum(ratios) > 0
  {
    whole - Sum(Floors(whole, ratios, Sum(ratios)))
  }

  function Sign(x: int): int {
    if x < 0 then -1 else 1
  }

  function Times(sign: int, xs: seq<int>): seq<int> {
    seq(|xs|, i requires 0 <= i < |xs| => sign * xs[i])
  }

  /** The first units left over go to the largest ratios. */
  function WholeParts(whole: nat, ratios: seq<int>): seq<int>
    requires Sum(ratios) > 0
  {
    var n := Left(whole, ratios);
    var order := Order(ratios);
    AddOnes(Floors(whole, ratios, Sum(ratios)), if 0 <= n <= |order| then order[..n] else order)
  }

  function Allocation(minor: int, ratios: seq<int>): Result<seq<int>, RatioError> {
    match RatioFault(ratios)
    case Some(e) => Err(e)
    case None =>
      if Sum(ratios) <= 0 then Err(AllZero) else Ok(Times(Sign(minor), WholeParts(Abs(minor), ratios)))
  }

  ghost predicate Ratios(ratios: seq<int>) {
    (forall i :: 0 <= i < |ratios| ==> ratios[i] >= 0) && Sum(ratios) > 0
  }

  // ---- what is left over -----------------------------------------------------------------------------

  function Remainders(whole: nat, ratios: seq<int>, total: int, indices: seq<int>): seq<int>
    requires total > 0
  {
    seq(|indices|, k requires 0 <= k < |indices| => whole * Ratio(ratios, indices[k]) % total)
  }

  /** The units left over, times the total, are the remainders of the divisions. */
  lemma {:induction false} LeftIsRemainders(whole: nat, ratios: seq<int>, total: int)
    requires total > 0
    ensures whole * Sum(ratios) - total * Sum(Floors(whole, ratios, total))
      == Sum(Remainders(whole, ratios, total, Indices(|ratios|)))
  {
    if ratios != [] {
      var n := |ratios| - 1;
      var front := ratios[..n];
      LeftIsRemainders(whole, front, total);
      assert Floors(whole, ratios, total)[..n] == Floors(whole, front, total);
      assert Remainders(whole, ratios, total, Indices(n + 1))[..n] == Remainders(whole, front, total, Indices(n));
      DivRem(whole * ratios[n], total);
      Distribute(whole, Sum(front), ratios[n]);
      Distribute(total, Sum(Floors(whole, front, total)), whole * ratios[n] / total);
    }
  }

  lemma RemaindersForgetOrder(whole: nat, ratios: seq<int>, total: int, xs: seq<int>, ys: seq<int>)
    requires total > 0 && multiset(xs) == multiset(ys)
    ensures Sum(Remainders(whole, ratios, total, xs)) == Sum(Remainders(whole, ratios, total, ys))
  {
    var f := i => whole * Ratio(ratios, i) % total;
    SumForgetsOrder(f, xs, ys);
    assert Mapped(f, xs) == Remainders(whole, ratios, total, xs);
    assert Mapped(f, ys) == Remainders(whole, ratios, total, ys);
  }

  lemma OrderIsPermutation(ratios: seq<int>)
    ensures |Order(ratios)| == |ratios|
    ensures multiset(Order(ratios)) == multiset(Indices(|ratios|))
    ensures SortedBy(ByRatio(ratios), Order(ratios))
  {
    SortPermutes(ByRatio(ratios), Indices(|ratios|));
    SortSorts(ByRatio(ratios), Indices(|ratios|));
  }

  /** Indices from position k of the order on have a zero ratio when the one at k has. */
  lemma ZerosAreLast(ratios: seq<int>, k: nat, j: nat)
    requires Ratios(ratios) && k <= j < |Order(ratios)| && Ratio(ratios, Order(ratios)[k]) == 0
    ensures Ratio(ratios, Order(ratios)[j]) == 0
  {
    OrderIsPermutation(ratios);
    assert k < j ==> ByRatio(ratios)(Order(ratios)[k], Order(ratios)[j]);
  }

  lemma {:induction false} RemaindersAreSmall(whole: nat, ratios: seq<int>, total: int, indices: seq<int>)
    requires total > 0
    ensures 0 <= Sum(Remainders(whole, ratios, total, indices)) <= |indices| * (total - 1)
  {
    forall k | 0 <= k < |indices| ensures 0 <= Remainders(whole, ratios, total, indices)[k] <= total - 1 {
      DivRem(whole * Ratio(ratios, indices[k]), total);
    }
    SumBounds(Remainders(whole, ratios, total, indices), 0, total - 1);
  }

  lemma {:induction false} NothingFromZeros(whole: nat, ratios: seq<int>, total: int, indices: seq<int>)
    requires total > 0 && forall k :: 0 <= k < |indices| ==> Ratio(ratios, indices[k]) == 0
    ensures Sum(Remainders(whole, ratios, total, indices)) == 0
  {
    forall k | 0 <= k < |indices| ensures Remainders(whole, ratios, total, indices)[k] == 0 {
      Zero(whole, total);
    }
    SumBounds(Remainders(whole, ratios, total, indices), 0, 0);
  }

  lemma Zero(whole: nat, total: int)
    requires total > 0
    ensures whole * 0 % total == 0
  {
  }

  /** Fewer units are left over than there are ratios ahead of the first zero. */
  lemma LeftIsSmall(whole: nat, ratios: seq<int>, k: nat)
    requires Ratios(ratios) && k <= |ratios|
    requires forall j :: k <= j < |Order(ratios)| ==> Ratio(ratios, Order(ratios)[j]) == 0
    ensures 0 <= Left(whole, ratios) <= k
  {
    var total, order := Sum(ratios), Order(ratios);
    OrderIsPermutation(ratios);
    LeftIsRemainders(whole, ratios, total);
    RemaindersForgetOrder(whole, ratios, total, order, Indices(|ratios|));
    var a, b := order[..k], order[k..];
    assert Remainders(whole, ratios, total, order)
      == Remainders(whole, ratios, total, a) + Remainders(whole, ratios, total, b);
    SumOfParts(Remainders(whole, ratios, total, a), Remainders(whole, ratios, total, b));
    RemaindersAreSmall(whole, ratios, total, a);
    NothingFromZeros(whole, ratios, total, b);
    Quotient(whole, total, Sum(Floors(whole, ratios, total)), k);
  }

  lemma Quotient(whole: nat, total: int, floors: int, k: nat)
    requires total > 0 && 0 <= whole * total - total * floors <= k * (total - 1)
    ensures 0 <= whole - floors <= k
  {
    Distribute(total, whole, floors);
    assert total * (whole - floors) <= total * k;
    Cancel(total, whole - floors, k);
    Cancel(total, 0, whole - floors);
  }

  // ---- the loop --------------------------------------------------------------------------------------

  method Allocate(minor: int, ratios: seq<int>) returns (r: Result<seq<int>, RatioError>)
    ensures r == Allocation(minor, ratios)
  {
    if ratios == [] { return Err(NoRatios); }
    if exists i :: 0 <= i < |ratios| && ratios[i] < 0 { return Err(NegativeRatio); }
    var total := Sum(ratios);
    if total == 0 { return Err(AllZero); }
    SumNonNegative(ratios);
    var whole := Abs(minor);
    var floors := Floors(whole, ratios, total);
    var remainder := whole - Sum(floors);
    var order := Order(ratios);
    OrderIsPermutation(ratios);
    OrderedOnce(ratios);
    LeftIsSmall(whole, ratios, |ratios|);
    forall k | 0 <= k < remainder ensures Ratio(ratios, order[k]) != 0 { FirstAreNotZero(whole, ratios, k); }
    var parts := HandOut(ratios, floors, order, remainder);
    return Ok(Times(Sign(minor), parts));
  }

  method HandOut(ratios: seq<int>, floors: seq<int>, order: seq<int>, left: nat) returns (parts: seq<int>)
    requires |floors| == |ratios| && left <= |order|
    requires forall k :: 0 <= k < |order| ==> 0 <= order[k] < |ratios|
    requires forall k :: 0 <= k < left ==> Ratio(ratios, order[k]) != 0
    ensures parts == AddOnes(floors, order[..left])
  {
    parts := floors;
    var remainder := left;
    for k := 0 to |order|
      invariant remainder == if k <= left then left - k else 0
      invariant parts == AddOnes(floors, order[..if k <= left then k else left])
    {
      if remainder == 0 { break; }
      var i := order[k];
      assert order[..k + 1][..k] == order[..k];
      if ratios[i] == 0 { continue; }
      parts := parts[i := parts[i] + 1];
      remainder := remainder - 1;
    }
  }

  lemma FirstAreNotZero(whole: nat, ratios: seq<int>, k: nat)
    requires Ratios(ratios) && k < |Order(ratios)| && k < Left(whole, ratios)
    ensures Ratio(ratios, Order(ratios)[k]) != 0
  {
    OrderIsPermutation(ratios);
    if Ratio(ratios, Order(ratios)[k]) == 0 {
      forall j | k <= j < |Order(ratios)| ensures Ratio(ratios, Order(ratios)[j]) == 0 { ZerosAreLast(ratios, k, j); }
      LeftIsSmall(whole, ratios, k);
    }
  }

  // ---- what the parts are ------------------------------------------------------------------------------

  lemma {:induction false} SumUpdate(xs: seq<int>, i: nat, x: int)
    requires i < |xs|
    ensures Sum(xs[i := x]) == Sum(xs) + x - xs[i]
  {
    var n := |xs| - 1;
    if i < n {
      SumUpdate(xs[..n], i, x);
      assert xs[i := x][..n] == xs[..n][i := x];
    } else {
      assert xs[i := x][..n] == xs[..n];
    }
  }

  lemma {:induction false} AddOnesSum(parts: seq<int>, indices: seq<int>)
    requires forall k :: 0 <= k < |indices| ==> 0 <= indices[k] < |parts|
    ensures Sum(AddOnes(parts, indices)) == Sum(parts) + |indices|
  {
    if indices != [] {
      var front, i := indices[..|indices| - 1], indices[|indices| - 1];
      AddOnesSum(parts, front);
      var r := AddOnes(parts, front);
      SumUpdate(r, i, r[i] + 1);
    }
  }

  lemma {:induction false} AddOnesAt(parts: seq<int>, indices: seq<int>, i: nat)
    requires i < |parts| && forall j, k :: 0 <= j < k < |indices| ==> indices[j] != indices[k]
    ensures AddOnes(parts, indices)[i] == parts[i] + if i in indices then 1 else 0
  {
    if indices != [] {
      var front, last := indices[..|indices| - 1], indices[|indices| - 1];
      AddOnesAt(parts, front, i);
      assert i in indices <==> i in front || i == last;
    }
  }

  lemma OrderedOnce(ratios: seq<int>)
    ensures forall j, k :: 0 <= j < k < |Order(ratios)| ==> Order(ratios)[j] != Order(ratios)[k]
    ensures forall k :: 0 <= k < |Order(ratios)| ==> 0 <= Order(ratios)[k] < |ratios|
  {
    var order := Order(ratios);
    OrderIsPermutation(ratios);
    forall k | 0 <= k < |order| ensures 0 <= order[k] < |ratios| {
      assert order[k] in multiset(order) && order[k] in Indices(|ratios|);
    }
    forall j, k | 0 <= j < k < |order| ensures order[j] != order[k] {
      IndexOnce(|ratios|, order[j]);
      assert order == order[..k] + ([order[k]] + order[k + 1..]);
      assert order[j] in multiset(order[..k]);
      assert order[j] == order[k] ==> multiset(order)[order[j]] >= 2;
    }
  }

  lemma {:induction false} IndexOnce(n: nat, i: int)
    ensures multiset(Indices(n))[i] <= 1
  {
    if n > 0 {
      IndexOnce(n - 1, i);
      assert Indices(n) == Indices(n - 1) + [n - 1];
      assert i == n - 1 ==> i !in multiset(Indices(n - 1));
    }
  }

  /** The parts add up to the whole, and each is its exact share rounded down or up. */
  lemma AllocationConserves(minor: int, ratios: seq<int>)
    requires Ratios(ratios)
    ensures var parts := Allocation(minor, ratios);
      parts.Ok? && |parts.value| == |ratios| && Sum(parts.value) == minor
  {
    var whole, total := Abs(minor), Sum(ratios);
    assert ratios != [];
    OrderedOnce(ratios);
    OrderIsPermutation(ratios);
    LeftIsSmall(whole, ratios, |ratios|);
    AddOnesSum(Floors(whole, ratios, total), Order(ratios)[..Left(whole, ratios)]);
    TimesSum(Sign(minor), WholeParts(whole, ratios));
    assert Sign(minor) * whole == minor;
  }

  lemma {:induction false} TimesSum(sign: int, xs: seq<int>)
    ensures Sum(Times(sign, xs)) == sign * Sum(xs)
  {
    if xs != [] {
      var n := |xs| - 1;
      TimesSum(sign, xs[..n]);
      assert Times(sign, xs)[..n] == Times(sign, xs[..n]);
      Distribute(sign, Sum(xs[..n]), xs[n]);
    }
  }

  /** Each part is its exact share rounded down or up; a zero ratio gets nothing. */
  lemma PartIsShare(whole: nat, ratios: seq<int>, i: nat)
    requires Ratios(ratios) && i < |ratios|
    ensures |WholeParts(whole, ratios)| == |ratios|
    ensures var part := WholeParts(whole, ratios)[i];
      && (part == whole * ratios[i] / Sum(ratios) || part == whole * ratios[i] / Sum(ratios) + 1)
      && (ratios[i] == 0 ==> part == 0)
  {
    PartIsFloorOrOneMore(whole, ratios, i);
    ZeroIsNotFirst(whole, ratios, i);
    assert ratios[i] == 0 ==> whole * ratios[i] == 0;
  }

  lemma PartIsFloorOrOneMore(whole: nat, ratios: seq<int>, i: nat)
    requires Ratios(ratios) && i < |ratios|
    ensures |WholeParts(whole, ratios)| == |ratios| && 0 <= Left(whole, ratios) <= |Order(ratios)|
    ensures WholeParts(whole, ratios)[i]
      == whole * ratios[i] / Sum(ratios) + if i in Order(ratios)[..Left(whole, ratios)] then 1 else 0
  {
    OrderedOnce(ratios);
    OrderIsPermutation(ratios);
    LeftIsSmall(whole, ratios, |ratios|);
    AddOnesAt(Floors(whole, ratios, Sum(ratios)), Order(ratios)[..Left(whole, ratios)], i);
  }

  lemma ZeroIsNotFirst(whole: nat, ratios: seq<int>, i: nat)
    requires Ratios(ratios) && i < |ratios| && 0 <= Left(whole, ratios) <= |Order(ratios)|
    ensures ratios[i] == 0 ==> i !in Order(ratios)[..Left(whole, ratios)]
  {
    var first := Order(ratios)[..Left(whole, ratios)];
    if i in first {
      var k :| 0 <= k < |first| && first[k] == i;
      FirstAreNotZero(whole, ratios, k);
    }
  }

  lemma NoLargerLater(ratios: seq<int>, k: nat, m: nat)
    requires k < |Order(ratios)| && m < |Order(ratios)|
    ensures k < m ==> Ratio(ratios, Order(ratios)[m]) <= Ratio(ratios, Order(ratios)[k])
  {
    OrderIsPermutation(ratios);
    assert k < m ==> ByRatio(ratios)(Order(ratios)[k], Order(ratios)[m]);
  }

  /** A part rounded up has no part of a larger ratio rounded down beside it. */
  lemma LargerRatiosFirst(whole: nat, ratios: seq<int>, i: nat, j: nat)
    requires Ratios(ratios) && i < |ratios| && j < |ratios| && ratios[j] > ratios[i]
    requires WholeParts(whole, ratios)[i] == whole * ratios[i] / Sum(ratios) + 1
    ensures WholeParts(whole, ratios)[j] == whole * ratios[j] / Sum(ratios) + 1
  {
    var order := Order(ratios);
    OrderIsPermutation(ratios);
    PartIsFloorOrOneMore(whole, ratios, i);
    PartIsFloorOrOneMore(whole, ratios, j);
    var n := Left(whole, ratios);
    var k :| 0 <= k < n && order[k] == i;
    assert Indices(|ratios|)[j] == j;
    assert j in multiset(Indices(|ratios|)) && j in multiset(order);
    var m :| 0 <= m < |order| && order[m] == j;
    NoLargerLater(ratios, k, m);
    assert order[..n][m] == j;
  }
}
