/**
 * The program sorts with Array.prototype.sort, which is stable. Sort is one stable
 * sort; StableSortIsUnique shows that any other one gives the same result, so nothing
 * proved about Sort depends on the algorithm behind the library call.
 */
module Sorting {
  ghost predicate TotalPreorder<T(!new)>(le: (T, T) -> bool) {
    && (forall a, b :: le(a, b) || le(b, a))
    && (forall a, b, c :: le(a, b) && le(b, c) ==> le(a, c))
  }

  /** le never ties two different elements of xs. */
  ghost predicate Separates<T(!new)>(le: (T, T) -> bool, xs: seq<T>) {
    forall i, j :: 0 <= i < |xs| && 0 <= j < |xs| && le(xs[i], xs[j]) && le(xs[j], xs[i]) ==> xs[i] == xs[j]
  }

  ghost predicate SortedBy<T>(le: (T, T) -> bool, xs: seq<T>) {
    forall i, j :: 0 <= i < j < |xs| ==> le(xs[i], xs[j])
  }

  function Insert<T>(le: (T, T) -> bool, x: T, xs: seq<T>): seq<T> {
    if xs == [] || le(x, xs[0]) then [x] + xs else [xs[0]] + Insert(le, x, xs[1..])
  }

  function Sort<T>(le: (T, T) -> bool, xs: seq<T>): seq<T> {
    if xs == [] then [] else Insert(le, xs[0], Sort(le, xs[1..]))
  }

  ghost function Tie<T>(le: (T, T) -> bool, x: T, y: T): seq<T> {
    if le(x, y) && le(y, x) then [y] else []
  }

  /** The elements of xs that tie with x, in their order in xs. */
  ghost function Ties<T>(le: (T, T) -> bool, x: T, xs: seq<T>): seq<T> {
    if xs == [] then [] else Tie(le, x, xs[0]) + Ties(le, x, xs[1..])
  }

  lemma {:induction false} InsertKeeps<T>(le: (T, T) -> bool, x: T, xs: seq<T>)
    ensures multiset(Insert(le, x, xs)) == multiset{x} + multiset(xs)
  {
    if xs == [] || le(x, xs[0]) {
    } else {
      InsertKeeps(le, x, xs[1..]);
      assert xs == [xs[0]] + xs[1..];
    }
  }

  lemma {:induction false} InsertSorted<T(!new)>(le: (T, T) -> bool, x: T, xs: seq<T>)
    requires TotalPreorder(le) && SortedBy(le, xs)
    ensures SortedBy(le, Insert(le, x, xs))
  {
    if xs == [] {
    } else if le(x, xs[0]) {
      var r := [x] + xs;
      forall i, j | 0 <= i < j < |r| ensures le(r[i], r[j]) {
        if i == 0 && j > 1 { assert le(xs[0], xs[j - 1]); }
        if i > 0 { assert le(xs[i - 1], xs[j - 1]); }
      }
    } else {
      var rest := Insert(le, x, xs[1..]);
      InsertSorted(le, x, xs[1..]);
      InsertKeeps(le, x, xs[1..]);
      forall j | 0 <= j < |rest| ensures le(xs[0], rest[j]) {
        assert rest[j] in multiset(rest);
        assert rest[j] == x || rest[j] in xs[1..];
      }
    }
  }

  lemma {:induction false} SortPermutes<T>(le: (T, T) -> bool, xs: seq<T>)
    ensures multiset(Sort(le, xs)) == multiset(xs)
    ensures |Sort(le, xs)| == |xs|
    ensures forall x :: x in Sort(le, xs) <==> x in xs
  {
    if xs != [] {
      SortPermutes(le, xs[1..]);
      InsertKeeps(le, xs[0], Sort(le, xs[1..]));
      assert xs == [xs[0]] + xs[1..];
    }
    assert |multiset(Sort(le, xs))| == |multiset(xs)|;
    forall x ensures x in Sort(le, xs) <==> x in xs {
      assert x in Sort(le, xs) <==> x in multiset(Sort(le, xs));
      assert x in xs <==> x in multiset(xs);
    }
  }

  lemma {:induction false} SortSorts<T(!new)>(le: (T, T) -> bool, xs: seq<T>)
    requires TotalPreorder(le)
    ensures SortedBy(le, Sort(le, xs))
  {
    if xs != [] {
      SortSorts(le, xs[1..]);
      InsertSorted(le, xs[0], Sort(le, xs[1..]));
    }
  }

  lemma TiesFirst<T>(le: (T, T) -> bool, t: T, x: T, xs: seq<T>)
    ensures Ties(le, t, [x] + xs) == Tie(le, t, x) + Ties(le, t, xs)
  {
    assert ([x] + xs)[1..] == xs;
  }

  lemma {:induction false} InsertStable<T(!new)>(le: (T, T) -> bool, x: T, xs: seq<T>, t: T)
    requires TotalPreorder(le)
    ensures Ties(le, t, Insert(le, x, xs)) == Tie(le, t, x) + Ties(le, t, xs)
  {
    if xs == [] || le(x, xs[0]) {
      TiesFirst(le, t, x, xs);
    } else {
      InsertStable(le, x, xs[1..], t);
      TiesFirst(le, t, xs[0], Insert(le, x, xs[1..]));
      // x goes behind xs[0] only when they do not tie, so at most one of them ties with t
      NotBoth(le, x, xs[0], t);
    }
  }

  lemma NotBoth<T(!new)>(le: (T, T) -> bool, x: T, y: T, t: T)
    requires TotalPreorder(le) && !le(x, y)
    ensures Tie(le, t, x) == [] || Tie(le, t, y) == []
  {
    assert le(x, t) && le(t, y) ==> le(x, y);
  }

  lemma {:induction false} SortStable<T(!new)>(le: (T, T) -> bool, xs: seq<T>, t: T)
    requires TotalPreorder(le)
    ensures Ties(le, t, Sort(le, xs)) == Ties(le, t, xs)
  {
    if xs != [] {
      var rest := Sort(le, xs[1..]);
      SortStable(le, xs[1..], t);
      InsertStable(le, xs[0], rest, t);
    }
  }

  lemma {:induction false} TiesMembers<T>(le: (T, T) -> bool, t: T, xs: seq<T>)
    ensures forall x :: x in Ties(le, t, xs) <==> x in xs && le(t, x) && le(x, t)
  {
    if xs != [] {
      TiesMembers(le, t, xs[1..]);
      assert xs == [xs[0]] + xs[1..];
    }
  }

  lemma {:induction false} StableMembers<T(!new)>(le: (T, T) -> bool, xs: seq<T>, ys: seq<T>)
    requires TotalPreorder(le)
    requires forall t :: Ties(le, t, xs) == Ties(le, t, ys)
    ensures forall x :: x in xs ==> x in ys
  {
    forall x | x in xs ensures x in ys {
      TiesMembers(le, x, xs);
      TiesMembers(le, x, ys);
      assert le(x, x);
      assert x in Ties(le, x, xs);
    }
  }

  /** Any sequence sorted by le that keeps the order of ties is the one Sort returns. */
  lemma {:induction false} StableSortIsUnique<T(!new)>(le: (T, T) -> bool, xs: seq<T>, ys: seq<T>)
    requires TotalPreorder(le)
    requires SortedBy(le, ys)
    requires forall t :: Ties(le, t, ys) == Ties(le, t, xs)
    ensures ys == Sort(le, xs)
  {
    var zs := Sort(le, xs);
    SortSorts(le, xs);
    forall t ensures Ties(le, t, ys) == Ties(le, t, zs) { SortStable(le, xs, t); }
    SortedWithSameTies(le, ys, zs);
  }

  /** A sorted sequence stays as it is. */
  lemma {:induction false} SortedStays<T(!new)>(le: (T, T) -> bool, xs: seq<T>)
    requires SortedBy(le, xs)
    ensures Sort(le, xs) == xs
  {
    if xs != [] {
      SortedStays(le, xs[1..]);
      assert xs == [xs[0]] + xs[1..];
      assert |xs| > 1 ==> le(xs[0], xs[1]);
    }
  }

  lemma {:induction false} SortedWithSameTies<T(!new)>(le: (T, T) -> bool, ys: seq<T>, zs: seq<T>)
    requires TotalPreorder(le)
    requires SortedBy(le, ys) && SortedBy(le, zs)
    requires forall t :: Ties(le, t, ys) == Ties(le, t, zs)
    ensures ys == zs
  {
    StableMembers(le, ys, zs);
    StableMembers(le, zs, ys);
    assert zs != [] ==> zs[0] in zs && zs[0] in ys;
    if ys != [] {
      var a, b := ys[0], zs[0];
      assert a in zs && b in ys;
      SortedHeadsAgree(le, ys, zs);
      assert Ties(le, a, ys) == [a] + Ties(le, a, ys[1..]);
      assert Ties(le, a, zs) == [b] + Ties(le, a, zs[1..]);
      assert a == ([a] + Ties(le, a, ys[1..]))[0];
      assert a == b;
      forall t ensures Ties(le, t, ys[1..]) == Ties(le, t, zs[1..]) {
        var h := Tie(le, t, a);
        assert Ties(le, t, ys) == h + Ties(le, t, ys[1..]);
        assert Ties(le, t, zs) == h + Ties(le, t, zs[1..]);
        assert Ties(le, t, ys[1..]) == Ties(le, t, ys)[|h|..];
        assert Ties(le, t, zs[1..]) == Ties(le, t, zs)[|h|..];
      }
      SortedWithSameTies(le, ys[1..], zs[1..]);
      assert ys == [a] + ys[1..] && zs == [b] + zs[1..];
    }
  }

  /** When le separates the elements, sorting forgets the order they came in. */
  lemma {:induction false} SortForgetsOrder<T(!new)>(le: (T, T) -> bool, xs: seq<T>, ys: seq<T>)
    requires TotalPreorder(le) && Separates(le, xs)
    requires multiset(xs) == multiset(ys)
    ensures Sort(le, xs) == Sort(le, ys)
  {
    SortSorts(le, xs);
    SortSorts(le, ys);
    SortPermutes(le, xs);
    SortPermutes(le, ys);
    SortedPermutationsAgree(le, Sort(le, xs), Sort(le, ys));
  }

  lemma SortedHeadsAgree<T(!new)>(le: (T, T) -> bool, xs: seq<T>, ys: seq<T>)
    requires TotalPreorder(le) && SortedBy(le, xs) && SortedBy(le, ys)
    requires xs != [] && ys != [] && xs[0] in ys && ys[0] in xs
    ensures le(xs[0], ys[0]) && le(ys[0], xs[0])
  {
    var i :| 0 <= i < |xs| && xs[i] == ys[0];
    var j :| 0 <= j < |ys| && ys[j] == xs[0];
    assert le(xs[0], xs[0]) && le(ys[0], ys[0]);
    assert i > 0 ==> le(xs[0], xs[i]);
    assert j > 0 ==> le(ys[0], ys[j]);
  }

  lemma {:induction false} SortedPermutationsAgree<T(!new)>(le: (T, T) -> bool, xs: seq<T>, ys: seq<T>)
    requires TotalPreorder(le) && SortedBy(le, xs) && SortedBy(le, ys)
    requires multiset(xs) == multiset(ys)
    requires NoTies(le, multiset(xs))
    ensures xs == ys
  {
    assert |multiset(xs)| == |multiset(ys)|;
    if xs != [] {
      assert xs[0] in multiset(ys) && ys[0] in multiset(xs);
      SortedHeadsAgree(le, xs, ys);
      assert xs[0] == ys[0];
      RestsPermute(xs, ys);
      NoTiesWithin(le, multiset(xs), multiset(xs[1..]));
      SortedPermutationsAgree(le, xs[1..], ys[1..]);
    }
  }

  /** le never ties two different elements. */
  ghost predicate NoTies<T(!new)>(le: (T, T) -> bool, elements: multiset<T>) {
    forall a, b :: a in elements && b in elements && le(a, b) && le(b, a) ==> a == b
  }

  lemma NoTiesWithin<T(!new)>(le: (T, T) -> bool, all: multiset<T>, some: multiset<T>)
    requires NoTies(le, all) && some <= all
    ensures NoTies(le, some)
  {
  }

  lemma RestsPermute<T>(xs: seq<T>, ys: seq<T>)
    requires multiset(xs) == multiset(ys) && xs != [] && ys != [] && xs[0] == ys[0]
    ensures multiset(xs[1..]) == multiset(ys[1..]) <= multiset(xs)
    ensures xs == [xs[0]] + xs[1..] && ys == [xs[0]] + ys[1..]
  {
    assert xs == [xs[0]] + xs[1..] && ys == [xs[0]] + ys[1..];
    assert multiset(xs) == multiset{xs[0]} + multiset(xs[1..]);
    assert multiset(ys) == multiset{xs[0]} + multiset(ys[1..]);
    assert multiset(xs[1..]) == multiset(xs) - multiset{xs[0]} == multiset(ys[1..]);
  }
}
