/** Reading a paginated list: the page loops of the Channex client. */
module Paging {
  import opened Wrappers

  const PAGE_LIMIT := 100
  const LAST_PAGE := 49

  /** A page of the list, and the size of the whole list if the server reports it. */
  datatype Response<T> = Response(data: seq<T>, total: Option<nat>)

  function Slice<T>(all: seq<T>, lo: nat, hi: nat): seq<T>
    requires lo <= hi
  {
    if lo >= |all| then [] else if hi >= |all| then all[lo..] else all[lo..hi]
  }

  function Serve<T>(all: seq<T>, reports: bool, page: nat): Response<T>
    requires page >= 1
  {
    Response(Slice(all, (page - 1) * PAGE_LIMIT, page * PAGE_LIMIT), if reports then Some(|all|) else None)
  }

  function Total<T>(r: Response<T>): nat {
    if r.total.Some? then r.total.value else |r.data|
  }

  /** How much of a list is read: without a reported total a page passes for the whole list. */
  function Reachable(size: nat, reports: bool): nat {
    if reports || size < PAGE_LIMIT then size else PAGE_LIMIT
  }

  method ListAll<T>(all: seq<T>, reports: bool) returns (out: seq<T>)
    ensures out == all[..Reachable(|all|, reports)]
    ensures out == all <==> reports || |all| <= PAGE_LIMIT
  {
    out := [];
    var page := 1;
    while true
      invariant page >= 1 && (page - 1) * PAGE_LIMIT <= |all| && out == all[..(page - 1) * PAGE_LIMIT]
      invariant page > 1 ==> reports
      decreases |all| + PAGE_LIMIT - page * PAGE_LIMIT
    {
      var body := Serve(all, reports, page);
      out := out + body.data;
      if page * PAGE_LIMIT >= Total(body) || body.data == [] { break; }
      page := page + 1;
    }
  }

  /** The first item that satisfies a predicate. */
  function FirstMatch<T>(all: seq<T>, match': T -> bool): Option<T> {
    if all == [] then None
    else if FirstMatch(all[..|all| - 1], match').Some? then FirstMatch(all[..|all| - 1], match')
    else if match'(all[|all| - 1]) then Some(all[|all| - 1])
    else None
  }

  lemma {:induction false} FirstMatchParts<T>(a: seq<T>, b: seq<T>, match': T -> bool)
    ensures FirstMatch(a + b, match')
      == if FirstMatch(a, match').Some? then FirstMatch(a, match') else FirstMatch(b, match')
  {
    if b == [] {
      assert a + b == a;
    } else {
      FirstMatchParts(a, b[..|b| - 1], match');
      assert (a + b)[..|a + b| - 1] == a + b[..|b| - 1];
    }
  }

  lemma {:induction false} FirstMatchIff<T>(all: seq<T>, match': T -> bool)
    ensures FirstMatch(all, match').Some? <==> exists i :: 0 <= i < |all| && match'(all[i])
  {
    if all != [] {
      FirstMatchIff(all[..|all| - 1], match');
      assert forall i :: 0 <= i < |all| - 1 ==> all[..|all| - 1][i] == all[i];
    }
  }

  /** The first match has no other one before it. */
  lemma {:induction false} FirstMatchIs<T>(all: seq<T>, match': T -> bool) returns (i: nat)
    requires FirstMatch(all, match').Some?
    ensures i < |all| && all[i] == FirstMatch(all, match').value && match'(all[i])
    ensures forall j :: 0 <= j < i ==> !match'(all[j])
  {
    var n := |all| - 1;
    if FirstMatch(all[..n], match').Some? {
      i := FirstMatchIs(all[..n], match');
      assert forall j :: 0 <= j < i ==> all[..n][j] == all[j];
    } else {
      i := n;
      FirstMatchIff(all[..n], match');
      assert forall j :: 0 <= j < n ==> all[..n][j] == all[j];
    }
  }

  /** How much of a list findExisting looks at: it stops after page 49. */
  function Searched(size: nat, reports: bool): nat {
    var reachable := Reachable(size, reports);
    if reachable <= LAST_PAGE * PAGE_LIMIT then reachable else LAST_PAGE * PAGE_LIMIT
  }

  method FindIn<T>(data: seq<T>, match': T -> bool) returns (found: Option<T>)
    ensures found == FirstMatch(data, match')
  {
    for i := 0 to |data|
      invariant FirstMatch(data[..i], match').None?
    {
      assert data[..i + 1][..i] == data[..i];
      if match'(data[i]) {
        FirstMatchParts(data[..i + 1], data[i + 1..], match');
        assert data[..i + 1] + data[i + 1..] == data;
        return Some(data[i]);
      }
    }
    assert data[..|data|] == data;
    return None;
  }

  /** What the first pages hold, page after page. */
  lemma SearchedSoFar<T>(all: seq<T>, reports: bool, page: nat, match': T -> bool)
    requires 1 <= page <= LAST_PAGE && (page - 1) * PAGE_LIMIT <= |all| && (page > 1 ==> reports)
    requires FirstMatch(all[..(page - 1) * PAGE_LIMIT], match').None?
    ensures var body, n := Serve(all, reports, page), Searched(|all|, reports);
      var upTo := (page - 1) * PAGE_LIMIT + |body.data|;
      && upTo <= n
      && FirstMatch(all[..upTo], match') == FirstMatch(body.data, match')
      && (FirstMatch(body.data, match').Some? ==> FirstMatch(all[..n], match') == FirstMatch(body.data, match'))
      && (page * PAGE_LIMIT >= Total(body) || body.data == [] || page == LAST_PAGE ==> upTo == n)
  {
    var body, n := Serve(all, reports, page), Searched(|all|, reports);
    var lo := (page - 1) * PAGE_LIMIT;
    var upTo := lo + |body.data|;
    SearchedUpTo(all, reports, page);
    FirstMatchParts(all[..lo], body.data, match');
    assert all[..lo] + body.data == all[..upTo];
    FirstMatchParts(all[..upTo], all[upTo..n], match');
    assert all[..upTo] + all[upTo..n] == all[..n];
  }

  lemma SearchedUpTo<T>(all: seq<T>, reports: bool, page: nat)
    requires 1 <= page <= LAST_PAGE && (page - 1) * PAGE_LIMIT <= |all| && (page > 1 ==> reports)
    ensures var body, n := Serve(all, reports, page), Searched(|all|, reports);
      var lo, upTo := (page - 1) * PAGE_LIMIT, (page - 1) * PAGE_LIMIT + |body.data|;
      && upTo <= n <= |all| && body.data == all[lo..upTo]
      && (page * PAGE_LIMIT >= Total(body) || body.data == [] || page == LAST_PAGE ==> upTo == n)
  {
  }

  /** The first match among the first 4900 items; a match further on is created a second time. */
  method FindExisting<T>(all: seq<T>, reports: bool, match': T -> bool) returns (found: Option<T>)
    ensures found == FirstMatch(all[..Searched(|all|, reports)], match')
  {
    var page := 1;
    while page < 50
      invariant 1 <= page <= 50 && (page - 1) * PAGE_LIMIT <= |all|
      invariant page > 1 ==> reports
      invariant FirstMatch(all[..(page - 1) * PAGE_LIMIT], match').None?
      invariant page == 50 ==> Searched(|all|, reports) == LAST_PAGE * PAGE_LIMIT
    {
      var body := Serve(all, reports, page);
      SearchedSoFar(all, reports, page, match');
      found := FindIn(body.data, match');
      if found.Some? { return found; }
      if page * PAGE_LIMIT >= Total(body) || body.data == [] { break; }
      page := page + 1;
    }
    return None;
  }

  /** A match is found exactly when there is one among the items searched. */
  lemma FoundIff<T>(all: seq<T>, reports: bool, match': T -> bool)
    ensures FirstMatch(all[..Searched(|all|, reports)], match').Some? <==>
      exists i :: 0 <= i < Searched(|all|, reports) && match'(all[i])
  {
    FirstMatchIff(all[..Searched(|all|, reports)], match');
  }

  /** Whatever is looked for, an item of the list is found when there is one. */
  ghost predicate NothingOverlooked<T(!new)>(all: seq<T>, reports: bool) {
    forall match': T -> bool ::
      (exists i :: 0 <= i < |all| && match'(all[i])) ==> FirstMatch(all[..Searched(|all|, reports)], match').Some?
  }

  /** The items findExisting never looks at all occur among those it does. */
  ghost predicate RestRepeats<T(!new)>(all: seq<T>, reports: bool) {
    forall i :: Searched(|all|, reports) <= i < |all| ==> all[i] in all[..Searched(|all|, reports)]
  }

  lemma OverlookedItem<T(!new)>(all: seq<T>, reports: bool, i: nat)
    requires NothingOverlooked(all, reports) && i < |all|
    ensures all[i] in all[..Searched(|all|, reports)]
  {
    var searched := all[..Searched(|all|, reports)];
    var match' := (x: T) => x == all[i];
    FirstMatchIff(searched, match');
    assert match'(all[i]);
    assert FirstMatch(searched, match').Some?;
    var j :| 0 <= j < |searched| && match'(searched[j]);
  }

  lemma FoundInRest<T(!new)>(all: seq<T>, reports: bool, match': T -> bool, i: nat)
    requires RestRepeats(all, reports) && i < |all| && match'(all[i])
    ensures FirstMatch(all[..Searched(|all|, reports)], match').Some?
  {
    var n := Searched(|all|, reports);
    FoundIff(all, reports, match');
    if i >= n { assert all[i] in all[..n]; }
    assert exists j :: 0 <= j < n && match'(all[j]) by {
      var j :| 0 <= j < n && all[j] == all[i];
      assert match'(all[j]);
    }
  }

  /**
   * findExisting overlooks nothing, whatever it looks for, exactly when the items it never
   * looks at are repetitions.
   */
  lemma NothingOverlookedIff<T(!new)>(all: seq<T>, reports: bool)
    ensures NothingOverlooked(all, reports) <==> RestRepeats(all, reports)
  {
    if NothingOverlooked(all, reports) {
      forall i | Searched(|all|, reports) <= i < |all| ensures all[i] in all[..Searched(|all|, reports)] {
        OverlookedItem(all, reports, i);
      }
    }
    if RestRepeats(all, reports) {
      forall match': T -> bool | exists i :: 0 <= i < |all| && match'(all[i])
        ensures FirstMatch(all[..Searched(|all|, reports)], match').Some?
      {
        var i :| 0 <= i < |all| && match'(all[i]);
        FoundInRest(all, reports, match', i);
      }
    }
  }

  ghost predicate Distinct<T>(all: seq<T>) {
    forall i, j :: 0 <= i < j < |all| ==> all[i] != all[j]
  }

  lemma NewItem<T>(all: seq<T>, n: nat)
    requires Distinct(all) && n < |all|
    ensures all[n] !in all[..n]
  {
  }

  /** What findExisting returns is the first of all items that matches, when it is among those searched. */
  lemma FoundIsFirst<T>(all: seq<T>, reports: bool, match': T -> bool) returns (i: nat)
    requires FirstMatch(all[..Searched(|all|, reports)], match').Some?
    ensures i < Searched(|all|, reports) <= |all| && match'(all[i])
    ensures FirstMatch(all[..Searched(|all|, reports)], match') == Some(all[i])
    ensures forall j :: 0 <= j < i ==> !match'(all[j])
  {
    var n := Searched(|all|, reports);
    i := FirstMatchIs(all[..n], match');
    assert forall j :: 0 <= j < n ==> all[..n][j] == all[j];
  }

  /**
   * Rows of the provider are distinct; then it overlooks nothing exactly up to 4900 of them, or
   * 100 without a reported total.
   */
  lemma DistinctOverlookedIff<T(!new)>(all: seq<T>, reports: bool)
    requires Distinct(all)
    ensures NothingOverlooked(all, reports) <==> |all| <= if reports then 4_900 else 100
  {
    var n := Searched(|all|, reports);
    NothingOverlookedIff(all, reports);
    if n < |all| { NewItem(all, n); }
  }

  /** The last of 4901 items is there and is not found. */
  lemma LastOf4901()
    ensures var all := seq(4_901, i => i);
      FirstMatch(all, x => x == 4_900).Some? && FirstMatch(all[..Searched(|all|, true)], x => x == 4_900).None?
  {
    var all, last := seq(4_901, i => i), (x: int) => x == 4_900;
    FirstMatchIff(all, last);
    assert last(all[4_900]);
    FirstMatchIff(all[..4_900], last);
  }
}
