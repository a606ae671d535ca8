/** The rolling horizon of rate cells. Days are day numbers; day 0 is 1 January 1970. */
module Horizon {
  import opened Wrappers

  datatype Restrictions = Restrictions(
    rate: Option<int>, rates: Option<map<int, int>>, minStay: Option<int>, minStayArrival: Option<int>,
    minStayThrough: Option<int>, maxStay: Option<int>, closedToArrival: Option<bool>,
    closedToDeparture: Option<bool>, stopSell: Option<bool>)

  /** What is seeded when even the last cell has no values. */
  const DEFAULTS := Restrictions(Some(10_000), None, Some(1), None, None, None, None, None, Some(false))

  datatype Cell = Cell(day: int, values: Restrictions)

  type Lookup = int -> Option<Restrictions>

  const DEFAULT_HORIZON_DAYS := 730

  /** Fifty-two weeks: the same weekday a year earlier. */
  const YEAR_BACK := 364

  function Inherited(lookup: Lookup, defaults: Restrictions, day: int): Restrictions {
    match lookup(day - YEAR_BACK)
    case Some(values) => values
    case None => defaults
  }

  /** Days from..from + days - 1, once each and in order, all with the defaults. */
  method SeedHorizon(from: int, days: int, defaults: Restrictions) returns (out: seq<Cell>)
    ensures |out| == if days > 0 then days else 0
    ensures forall i :: 0 <= i < |out| ==> out[i] == Cell(from + i, defaults)
  {
    out := [];
    var i := 0;
    while i < days
      invariant 0 <= i && |out| == i && (i > 0 ==> i <= days)
      invariant forall k :: 0 <= k < |out| ==> out[k] == Cell(from + k, defaults)
    {
      out := out + [Cell(from + i, defaults)];
      i := i + 1;
    }
  }

  /** Every day after the last seeded one up to the target, once each and in order. */
  method ExtendHorizon(lastSeeded: int, today: int, days: int, lookup: Lookup, defaults: Restrictions)
    returns (out: seq<Cell>)
    ensures |out| == if today + days - 1 > lastSeeded then today + days - 1 - lastSeeded else 0
    ensures forall i :: 0 <= i < |out| ==>
      out[i] == Cell(lastSeeded + 1 + i, Inherited(lookup, defaults, lastSeeded + 1 + i))
  {
    var target := today + days - 1;
    out := [];
    var d := lastSeeded + 1;
    while d <= target
      invariant d == lastSeeded + 1 + |out| && (target > lastSeeded ==> d <= target + 1)
      invariant target <= lastSeeded ==> out == []
      invariant forall i :: 0 <= i < |out| ==>
        out[i] == Cell(lastSeeded + 1 + i, Inherited(lookup, defaults, lastSeeded + 1 + i))
    {
      out := out + [Cell(d, Inherited(lookup, defaults, d))];
      d := d + 1;
    }
  }

  // ---- the stored cells of a plan ------------------------------------------------------------------

  type Table = map<int, Restrictions>

  lemma LastOfBoth(days: set<int>, x: int, m: int)
    requires m in days && forall d :: d in days ==> d <= m
    ensures exists n :: n in days + {x} && forall d :: d in days + {x} ==> d <= n
  {
    var n := if x > m then x else m;
    assert n in days + {x};
    forall d | d in days + {x} ensures d <= n {
      assert d == x || d in days;
    }
  }

  lemma {:induction false} HasLast(days: set<int>)
    requires |days| > 0
    ensures exists m :: m in days && forall d :: d in days ==> d <= m
  {
    assert (forall x :: x !in days) ==> days == {};
    var x :| x in days;
    var rest := days - {x};
    assert days == rest + {x};
    if rest != {} {
      HasLast(rest);
      var m :| m in rest && forall d :: d in rest ==> d <= m;
      LastOfBoth(rest, x, m);
    }
  }

  /** The last stored day; 1 January 1970 for a plan without cells. */
  function LastDay(t: Table): int {
    if |t.Keys| == 0 then 0
    else
      HasLast(t.Keys);
      var m :| m in t.Keys && forall d :: d in t.Keys ==> d <= m;
      m
  }

  /** The day after which the job writes: it does not go back before yesterday. */
  function From(last: int, today: int): int {
    if last < today - 1 then today - 1 else last
  }

  function Defaults(t: Table, last: int): Restrictions {
    if last in t then t[last] else DEFAULTS
  }

  /** The value the job writes for a day: the stored one of the weekday a year earlier, or the defaults. */
  function Written(t: Table, last: int, day: int): Restrictions {
    if day - YEAR_BACK in t then t[day - YEAR_BACK] else Defaults(t, last)
  }

  /** The table with cells added between two days; stored ones stay. */
  function Filled(t: Table, last: int, from: int, end: int): Table
    decreases end - from
  {
    if end <= from + 1 then t
    else
      var filled := Filled(t, last, from, end - 1);
      if end - 1 in t then filled else filled[end - 1 := Written(t, last, end - 1)]
  }

  lemma {:induction false} FilledIs(t: Table, last: int, from: int, end: int)
    ensures forall d :: d in Filled(t, last, from, end) <==> d in t || from < d < end
    ensures forall d :: d in Filled(t, last, from, end) ==>
      Filled(t, last, from, end)[d] == if d in t then t[d] else Written(t, last, d)
    decreases end - from
  {
    if end > from + 1 { FilledIs(t, last, from, end - 1); }
  }

  /** The table with the cells added that follow a given day. */
  function ExtendedAfter(t: Table, last: int, today: int, days: int): Table {
    Filled(t, last, From(last, today), today + days)
  }

  /** The table after the job ran on a day. */
  function Extended(t: Table, today: int, days: int): Table {
    ExtendedAfter(t, LastDay(t), today, days)
  }

  /** The last stored day, 1 January 1970 without any. */
  ghost predicate IsLast(t: Table, last: int) {
    if t == map[] then last == 0 else last in t && forall d :: d in t ==> d <= last
  }

  /**
   * For every table: the job adds exactly the days after the last stored one, and after yesterday, for the
   * given number of days from today. A new day has the values of 364 days earlier, else those of the last
   * day, else a rate of 100.00, one night, open. Stored days stay as they are.
   */
  lemma ExtendedIs(t: Table, today: int, days: int, last: int, d: int)
    requires IsLast(t, last)
    ensures d in Extended(t, today, days) <==> d in t || (last < d && today <= d < today + days)
    ensures d in t ==> Extended(t, today, days)[d] == t[d]
    ensures d in Extended(t, today, days) && d !in t ==>
      Extended(t, today, days)[d] ==
        if d - 364 in t then t[d - 364]
        else if last in t then t[last]
        else Restrictions(Some(10_000), None, Some(1), None, None, None, None, None, Some(false))
  {
    if t == map[] { assert t.Keys == {}; } else { assert last in t.Keys; }
    assert LastDay(t) == last;
    FilledAt(t, last, From(last, today), today + days, d);
  }

  /** How many days are to be added. */
  function Missing(last: int, today: int, days: int): nat {
    var n := today + days - 1 - From(last, today);
    if n > 0 then n else 0
  }

  class Plan {
    var cells: Table

    method RateCells(first: int, end: int) returns (found: Table)
      ensures found == map d | d in cells && first <= d <= end :: cells[d]
    {
      found := map d | d in cells && first <= d <= end :: cells[d];
    }

    /** Stored cells are left as they are, days of the added cells are distinct. */
    method SeedRateCells(added: seq<Cell>, ghost first: int)
      requires forall i :: 0 <= i < |added| ==> added[i].day == first + i
      modifies this
      ensures forall d :: d in cells <==> d in old(cells) || first <= d < first + |added|
      ensures forall d :: d in cells ==> cells[d] == if d in old(cells) then old(cells)[d] else added[d - first].values
    {
      for i := 0 to |added|
        invariant forall d :: d in cells <==> d in old(cells) || first <= d < first + i
        invariant forall d ::
          d in cells ==> cells[d] == if d in old(cells) then old(cells)[d] else added[d - first].values
      {
        if added[i].day !in cells { cells := cells[added[i].day := added[i].values]; }
      }
    }

    /** The cells the job adds to a plan. */
    method PlanCells(last: int, today: int, days: int) returns (newCells: seq<Cell>)
      ensures |newCells| == Missing(last, today, days)
      ensures forall i :: 0 <= i < |newCells| ==>
        newCells[i] == Cell(From(last, today) + 1 + i, Written(cells, last, From(last, today) + 1 + i))
    {
      var target := today + days - 1;
      if last >= target { return []; }
      var from := if last < today - 1 then today - 1 else last;
      var priorYear := RateCells(from + 1 - YEAR_BACK, target - YEAR_BACK);
      var defaults := if last in cells then cells[last] else DEFAULTS;
      newCells := ExtendHorizon(from, today, days, LookupIn(priorYear), defaults);
      forall i | 0 <= i < |newCells| ensures newCells[i].values == Written(cells, last, from + 1 + i) {
        WindowSuffices(cells, priorYear, last, from, today + days, from + 1 + i);
      }
    }

    /** The job for one plan: how many cells it added, and which table it leaves. */
    method Extend(today: int, days: int) returns (added: nat)
      modifies this
      ensures cells == Extended(old(cells), today, days)
      ensures |cells.Keys| == |old(cells).Keys| + added
    {
      var last := LastDay(cells);
      var newCells := PlanCells(last, today, days);
      ghost var before := cells;
      NothingAfterLast(before);
      SeedRateCells(newCells, From(last, today) + 1);
      SeededIsExtended(before, cells, newCells, last, today, days);
      KeysAdded(before, last, today, days);
      added := |newCells|;
    }
  }

  function LookupIn(t: Table): Lookup {
    d => if d in t then Some(t[d]) else None
  }

  lemma NothingAfterLast(t: Table)
    ensures forall d :: d in t ==> d <= LastDay(t)
  {
    assert forall d :: d in t ==> d in t.Keys;
  }

  /** The cells fetched for a year back are all a new day may look up. */
  lemma WindowSuffices(t: Table, window: Table, last: int, from: int, end: int, d: int)
    requires window == map x | x in t && from + 1 - YEAR_BACK <= x <= end - 1 - YEAR_BACK :: t[x]
    requires from < d < end
    ensures Inherited(LookupIn(window), Defaults(t, last), d) == Written(t, last, d)
  {
  }

  lemma SeededIsExtended(before: Table, after: Table, added: seq<Cell>, last: int, today: int, days: int)
    requires forall d :: d in after <==> d in before || From(last, today) < d < today + days
    requires forall d :: d in before ==> d in after && after[d] == before[d]
    requires forall d :: d in after && d !in before ==>
      0 <= d - From(last, today) - 1 < |added| && after[d] == added[d - From(last, today) - 1].values
    requires forall i :: 0 <= i < |added| ==> added[i].values == Written(before, last, From(last, today) + 1 + i)
    ensures after == ExtendedAfter(before, last, today, days)
  {
    var expected := ExtendedAfter(before, last, today, days);
    FilledIs(before, last, From(last, today), today + days);
    forall d | d in after ensures after[d] == expected[d] {
      if d !in before { assert added[d - From(last, today) - 1].values == Written(before, last, d); }
    }
  }

  lemma KeysAdded(t: Table, last: int, today: int, days: int)
    requires forall d :: d in t ==> d <= last
    ensures |ExtendedAfter(t, last, today, days).Keys| == |t.Keys| + Missing(last, today, days)
  {
    FilledSize(t, last, From(last, today), today + days);
  }

  lemma {:induction false} FilledSize(t: Table, last: int, from: int, end: int)
    requires forall d :: d in t ==> d <= from
    ensures |Filled(t, last, from, end).Keys| == |t.Keys| + if end > from + 1 then end - from - 1 else 0
    decreases end - from
  {
    if end > from + 1 {
      FilledSize(t, last, from, end - 1);
      FilledIs(t, last, from, end - 1);
      assert Filled(t, last, from, end).Keys == Filled(t, last, from, end - 1).Keys + {end - 1};
    }
  }

  // ---- runs of the job --------------------------------------------------------------------------------

  function Job(days: int): (Table, int) -> Table {
    (t: Table, today: int) => Extended(t, today, days)
  }

  /** A job run on each of the k days after `start`. */
  function Daily(job: (Table, int) -> Table, t: Table, start: int, k: nat): Table {
    if k == 0 then t else job(Daily(job, t, start, k - 1), start + k)
  }

  ghost predicate Contiguous(t: Table, first: int, last: int) {
    first <= last && forall d :: d in t <==> first <= d <= last
  }

  lemma ContiguousLast(t: Table, first: int, last: int)
    requires Contiguous(t, first, last)
    ensures LastDay(t) == last
  {
    assert last in t.Keys;
  }

  /** The stored value, carried forward a year at a time. */
  function Carried(t: Table, first: int, last: int, day: int): Restrictions
    requires first <= last && (forall d :: first <= d <= last ==> d in t) && first <= day
    decreases day - first
  {
    if day <= last then t[day]
    else if day - YEAR_BACK >= first then Carried(t, first, last, day - YEAR_BACK)
    else t[last]
  }

  lemma OneRun(t: Table, first: int, last: int, today: int, days: int)
    requires Contiguous(t, first, last) && today - 1 <= last <= today + days - 1
    ensures Contiguous(Extended(t, today, days), first, today + days - 1)
    ensures forall d :: first <= d <= last ==> Extended(t, today, days)[d] == t[d]
    ensures forall d :: last < d < today + days ==>
      Extended(t, today, days)[d] == (if first <= d - YEAR_BACK <= last then t[d - YEAR_BACK] else t[last])
  {
    ContiguousLast(t, first, last);
    OneRunAfter(t, first, last, today, days);
  }

  lemma OneRunAfter(t: Table, first: int, last: int, today: int, days: int)
    requires Contiguous(t, first, last) && today - 1 <= last <= today + days - 1
    ensures Contiguous(ExtendedAfter(t, last, today, days), first, today + days - 1)
    ensures forall d :: first <= d <= last ==> ExtendedAfter(t, last, today, days)[d] == t[d]
    ensures forall d :: last < d < today + days ==>
      ExtendedAfter(t, last, today, days)[d] == (if first <= d - YEAR_BACK <= last then t[d - YEAR_BACK] else t[last])
  {
    var after := ExtendedAfter(t, last, today, days);
    forall d ensures d in after <==> first <= d <= today + days - 1 {
      FilledAt(t, last, From(last, today), today + days, d);
    }
    forall d | first <= d <= last ensures after[d] == t[d] {
      FilledAt(t, last, From(last, today), today + days, d);
    }
    forall d | last < d < today + days
      ensures after[d] == (if first <= d - YEAR_BACK <= last then t[d - YEAR_BACK] else t[last])
    {
      FilledAt(t, last, From(last, today), today + days, d);
    }
  }

  lemma FilledAt(t: Table, last: int, from: int, end: int, d: int)
    ensures var filled := Filled(t, last, from, end);
      && (d in filled <==> d in t || from < d < end)
      && (d in filled ==> filled[d] == if d in t then t[d] else Written(t, last, d))
  {
    FilledIs(t, last, from, end);
  }

  /** A table grown up to `end` holds what is carried. */
  ghost predicate Carries(t: Table, first: int, last: int, now: Table, end: int)
    requires Contiguous(t, first, last)
  {
    Contiguous(now, first, end) && forall d :: first <= d <= end ==> now[d] == Carried(t, first, last, d)
  }

  /** Run `ahead` days before the last one wanted, the job adds one day of what is carried. */
  ghost predicate GrowsCarried(job: (Table, int) -> Table, t: Table, first: int, last: int, ahead: int)
    requires Contiguous(t, first, last)
  {
    forall now: Table, today: int :: last < today + ahead && Carries(t, first, last, now, today + ahead - 1) ==>
      Carries(t, first, last, job(now, today), today + ahead)
  }

  lemma {:induction false} RunsCarry(
    job: (Table, int) -> Table, t: Table, first: int, last: int, start: int, ahead: int, k: nat)
    requires Contiguous(t, first, last) && last == start + ahead
    requires GrowsCarried(job, t, first, last, ahead)
    ensures Carries(t, first, last, Daily(job, t, start, k), last + k)
  {
    if k > 0 {
      RunsCarry(job, t, first, last, start, ahead, k - 1);
      var prev := Daily(job, t, start, k - 1);
      assert Carries(t, first, last, prev, start + k + ahead - 1);
      assert Carries(t, first, last, job(prev, start + k), start + k + ahead);
    }
  }

  /** Day by day, every new cell carries the value of its weekday a year earlier. */
  lemma JobCarries(t: Table, first: int, last: int, days: int)
    requires Contiguous(t, first, last) && days >= 1
    ensures GrowsCarried(Job(days), t, first, last, days - 1)
  {
    var job := Job(days);
    forall now: Table, today: int | last < today + (days - 1) && Carries(t, first, last, now, today + (days - 1) - 1)
      ensures Carries(t, first, last, job(now, today), today + (days - 1))
    {
      NextRunCarries(t, first, last, now, today, days);
    }
  }

  lemma DailyCarries(t: Table, first: int, last: int, start: int, days: int, k: nat)
    requires Contiguous(t, first, last) && last == start + days - 1 && days >= 1
    ensures Carries(t, first, last, Daily(Job(days), t, start, k), last + k)
  {
    JobCarries(t, first, last, days);
    RunsCarry(Job(days), t, first, last, start, days - 1, k);
  }

  lemma NextRunCarries(t: Table, first: int, last: int, now: Table, today: int, days: int)
    requires Contiguous(t, first, last) && days >= 1 && last < today + (days - 1)
    requires Carries(t, first, last, now, today + (days - 1) - 1)
    ensures Carries(t, first, last, Extended(now, today, days), today + (days - 1))
  {
    var end := today + days - 1;
    OneRun(now, first, end - 1, today, days);
    NotYearBack(t, first, last, end);
    var after := Extended(now, today, days);
    assert after[end] == Carried(t, first, last, end);
  }

  /** Short of a year of cells, the value carried is the last one. */
  lemma {:induction false} NotYearBack(t: Table, first: int, last: int, day: int)
    requires Contiguous(t, first, last) && last < day
    ensures day - YEAR_BACK < first ==> Carried(t, first, last, day) == Carried(t, first, last, day - 1)
  {
  }

  /** Every day up to `end` that is more than a year behind the last stored one carries its value. */
  ghost predicate CarriesLast(t: Table, first: int, last: int, end: int)
    requires Contiguous(t, first, last)
  {
    forall d :: last + YEAR_BACK < d <= end ==> Carried(t, first, last, d) == t[last]
  }

  /**
   * One catch-up run of k days writes what k daily runs write exactly when the days more than
   * a year behind the last stored one carry the value of the last stored one.
   */
  lemma CatchUpIff(t: Table, first: int, last: int, start: int, days: int, k: nat)
    requires Contiguous(t, first, last) && last == start + days - 1 && 1 <= days && k <= days
    ensures Job(days)(t, start + k) == Daily(Job(days), t, start, k) <==> CarriesLast(t, first, last, last + k)
  {
    DailyCarries(t, first, last, start, days, k);
    OnceCarries(t, first, last, start + k, days, last + k);
    OnceOrDaily(t, first, last, Job(days)(t, start + k), Daily(Job(days), t, start, k), last + k);
  }

  /** What is carried, but the last stored value on days more than a year behind it. */
  ghost predicate CarriesOnce(t: Table, first: int, last: int, once: Table, end: int)
    requires Contiguous(t, first, last)
  {
    && Contiguous(once, first, end)
    && forall d :: first <= d <= end ==>
      once[d] == if d > last + YEAR_BACK then t[last] else Carried(t, first, last, d)
  }

  lemma OnceCarries(t: Table, first: int, last: int, today: int, days: int, end: int)
    requires Contiguous(t, first, last) && today - 1 <= last <= end == today + days - 1
    ensures CarriesOnce(t, first, last, Job(days)(t, today), end)
  {
    OneRun(t, first, last, today, days);
    forall d | first <= d <= end
      ensures Extended(t, today, days)[d] == if d > last + YEAR_BACK then t[last] else Carried(t, first, last, d)
    {
      OnceAgainstCarried(t, first, last, today, days, d);
    }
  }

  lemma OnceOrDaily(t: Table, first: int, last: int, once: Table, daily: Table, end: int)
    requires Contiguous(t, first, last)
    ensures CarriesOnce(t, first, last, once, end) && Carries(t, first, last, daily, end) ==>
      (once == daily <==> CarriesLast(t, first, last, end))
  {
    if CarriesOnce(t, first, last, once, end) && Carries(t, first, last, daily, end) {
      forall d | first <= d <= end ensures once[d] == if d > last + YEAR_BACK then t[last] else daily[d] {
        assert daily[d] == Carried(t, first, last, d);
      }
      SameIff(once, daily, first, last + YEAR_BACK, end, t[last]);
      CarriedDaily(t, first, last, daily, end);
    }
  }

  lemma CarriedDaily(t: Table, first: int, last: int, daily: Table, end: int)
    requires Contiguous(t, first, last) && Carries(t, first, last, daily, end)
    ensures CarriesLast(t, first, last, end) <==> forall d :: last + YEAR_BACK < d <= end ==> daily[d] == t[last]
  {
  }

  lemma OnceAgainstCarried(t: Table, first: int, last: int, today: int, days: int, d: int)
    requires Contiguous(t, first, last) && today - 1 <= last <= today + days - 1
    requires first <= d < today + days
    ensures d in Extended(t, today, days)
    ensures Extended(t, today, days)[d] == if d > last + YEAR_BACK then t[last] else Carried(t, first, last, d)
  {
    OneRun(t, first, last, today, days);
    if last < d <= last + YEAR_BACK && d - YEAR_BACK >= first {
      assert Carried(t, first, last, d) == Carried(t, first, last, d - YEAR_BACK) == t[d - YEAR_BACK];
    }
  }

  lemma SameIff(a: Table, b: Table, first: int, split: int, end: int, v: Restrictions)
    requires Contiguous(a, first, end) && Contiguous(b, first, end) && first <= split
    requires forall d :: first <= d <= end ==> a[d] == if d > split then v else b[d]
    ensures a == b <==> forall d :: split < d <= end ==> b[d] == v
  {
    if forall d :: split < d <= end ==> b[d] == v {
      assert forall d :: d in a ==> a[d] == b[d];
    }
  }

  /** Catching up on at most 364 days leaves the same cells as running every day. */
  lemma CatchUpIsDaily(t: Table, first: int, last: int, start: int, days: int, k: nat)
    requires Contiguous(t, first, last) && last == start + days - 1 && 1 <= days && k <= days
    requires k <= YEAR_BACK
    ensures Job(days)(t, start + k) == Daily(Job(days), t, start, k)
  {
    CatchUpIff(t, first, last, start, days, k);
  }

  /** With a year of cells, what is carried repeats with period 364, so every weekday keeps its value. */
  lemma {:induction false} CarriedRepeats(t: Table, first: int, last: int, i: nat)
    requires Contiguous(t, first, last) && first <= last + 1 - YEAR_BACK
    ensures Carried(t, first, last, last + 1 + i) == t[last + 1 - YEAR_BACK + i % YEAR_BACK]
    ensures (last + 1 + i - (last + 1 - YEAR_BACK + i % YEAR_BACK)) % 7 == 0
    decreases i
  {
    var r := i % YEAR_BACK;
    SameWeekday(i);
    assert last + 1 + i - (last + 1 - YEAR_BACK + r) == i + YEAR_BACK - r;
    if i >= YEAR_BACK {
      CarriedRepeats(t, first, last, i - YEAR_BACK);
      YearBefore(i);
      assert Carried(t, first, last, last + 1 + i) == Carried(t, first, last, last + 1 + (i - YEAR_BACK));
    }
  }

  lemma YearBefore(i: nat)
    requires i >= YEAR_BACK
    ensures i % YEAR_BACK == (i - YEAR_BACK) % YEAR_BACK
  {
  }

  /** Days in the same place of the year fall on the same weekday. */
  lemma SameWeekday(i: nat)
    ensures (i + YEAR_BACK - i % YEAR_BACK) % 7 == 0
  {
    var weeks := 52 * (i / YEAR_BACK + 1);
    assert i + YEAR_BACK - i % YEAR_BACK == 7 * weeks;
    WholeWeeks(weeks);
  }

  lemma WholeWeeks(weeks: int)
    ensures 7 * weeks % 7 == 0
  {
  }

  /** The day of the last stored year that a later day takes its value from. */
  function Origin(last: int, d: int): int {
    last + 1 - YEAR_BACK + (d - last - 1) % YEAR_BACK
  }

  /** The first k - 364 days of the last stored year have the value of its last day. */
  ghost predicate FlatStart(t: Table, last: int, k: nat)
    requires forall d :: last - YEAR_BACK < d <= last ==> d in t
  {
    forall d :: last - YEAR_BACK < d <= last && d <= last + k - 2 * YEAR_BACK ==> t[d] == t[last]
  }

  lemma OriginIs(t: Table, first: int, last: int, d: int)
    requires Contiguous(t, first, last) && first <= last + 1 - YEAR_BACK && last + YEAR_BACK < d
    ensures last - YEAR_BACK < Origin(last, d) <= last && Origin(last, d) <= d - 2 * YEAR_BACK
    ensures Carried(t, first, last, d) == t[Origin(last, d)]
  {
    CarriedRepeats(t, first, last, d - last - 1);
    assert (d - last - 1) % YEAR_BACK == (d - last - 1 - YEAR_BACK) % YEAR_BACK <= d - last - 1 - YEAR_BACK;
  }

  lemma FlatCarriesLast(t: Table, first: int, last: int, k: nat)
    requires Contiguous(t, first, last) && first <= last + 1 - YEAR_BACK
    requires FlatStart(t, last, k)
    ensures CarriesLast(t, first, last, last + k)
  {
    forall d | last + YEAR_BACK < d <= last + k ensures Carried(t, first, last, d) == t[last] {
      OriginIs(t, first, last, d);
    }
  }

  lemma CarriesLastFlat(t: Table, first: int, last: int, k: nat)
    requires Contiguous(t, first, last) && first <= last + 1 - YEAR_BACK
    requires CarriesLast(t, first, last, last + k)
    ensures FlatStart(t, last, k)
  {
    forall d | last - YEAR_BACK < d <= last && d <= last + k - 2 * YEAR_BACK ensures t[d] == t[last] {
      OriginIs(t, first, last, d + 2 * YEAR_BACK);
      assert Origin(last, d + 2 * YEAR_BACK) == d;
    }
  }

  /**
   * With a year of cells the condition is about stored values only: a longer catch-up is
   * right exactly when the first k - 364 days of the last year have the value of its last day.
   */
  lemma LongCatchUpIff(t: Table, first: int, last: int, start: int, days: int, k: nat)
    requires Contiguous(t, first, last) && last == start + days - 1 && 1 <= days && k <= days
    requires first <= last + 1 - YEAR_BACK
    ensures Job(days)(t, start + k) == Daily(Job(days), t, start, k) <==> FlatStart(t, last, k)
  {
    CatchUpIff(t, first, last, start, days, k);
    if CarriesLast(t, first, last, last + k) { CarriesLastFlat(t, first, last, k); }
    if FlatStart(t, last, k) { FlatCarriesLast(t, first, last, k); }
  }

  /** A job that has not run until yesterday is the last stored day leaves a hole, and only such a job. */
  lemma HoleIff(t: Table, first: int, last: int, today: int, days: int)
    requires Contiguous(t, first, last) && days >= 1 && last < today + days - 1
    ensures Contiguous(Extended(t, today, days), first, today + days - 1) <==> today - 1 <= last
  {
    ContiguousLast(t, first, last);
    var after := Extended(t, today, days);
    if today - 1 <= last {
      OneRun(t, first, last, today, days);
    } else {
      FilledIs(t, last, From(last, today), today + days);
      assert last + 1 !in after;
    }
  }

  /** A day without a cell before one with a cell never gets one from later runs. */
  lemma HoleStays(t: Table, start: int, days: int, k: nat, d: int, later: int)
    requires d !in t && later in t && d < later
    ensures d !in Daily(Job(days), t, start, k) && later in Daily(Job(days), t, start, k)
  {
    forall now: Table, today | d !in now && later in now
      ensures d !in Job(days)(now, today) && later in Job(days)(now, today)
    {
      HoleNotFilled(now, today, days, d, later);
    }
    RunsKeepHole(Job(days), t, start, k, d, later);
  }

  lemma {:induction false} RunsKeepHole(job: (Table, int) -> Table, t: Table, start: int, k: nat, d: int, later: int)
    requires d !in t && later in t
    requires forall now: Table, today: int :: d !in now && later in now ==>
      d !in job(now, today) && later in job(now, today)
    ensures d !in Daily(job, t, start, k) && later in Daily(job, t, start, k)
  {
    if k > 0 { RunsKeepHole(job, t, start, k - 1, d, later); }
  }

  lemma HoleNotFilled(t: Table, today: int, days: int, d: int, later: int)
    requires d !in t && later in t && d < later
    ensures d !in Extended(t, today, days) && later in Extended(t, today, days)
  {
    NothingAfterLast(t);
    FilledIs(t, LastDay(t), From(LastDay(t), today), today + days);
  }

  // ---- inputs for which a catch-up differs --------------------------------------------------------------

  /** The cells of a plan seeded on day 0 for n days. */
  function Seeded(n: nat): (t: Table)
    ensures forall d :: d in t <==> 0 <= d < n
    ensures forall d :: d in t ==> t[d] == DEFAULTS
  {
    if n == 0 then map[] else Seeded(n - 1)[n - 1 := DEFAULTS]
  }

  /**
   * A plan seeded on day 0 has day 366 closed. When the job is down until day 365, its one
   * catch-up does not write what daily runs would have written.
   */
  lemma CatchUpOf365Differs()
    ensures var t := Seeded(DEFAULT_HORIZON_DAYS)[366 := DEFAULTS.(stopSell := Some(true))];
      Job(DEFAULT_HORIZON_DAYS)(t, 365) != Daily(Job(DEFAULT_HORIZON_DAYS), t, 0, 365)
  {
    var t, last := Seeded(DEFAULT_HORIZON_DAYS)[366 := DEFAULTS.(stopSell := Some(true))], DEFAULT_HORIZON_DAYS - 1;
    assert Contiguous(t, 0, last);
    LongCatchUpIff(t, 0, last, 0, DEFAULT_HORIZON_DAYS, 365);
    assert t[366] != t[last];
  }

  /** A plan seeded on day 0 whose job is down until day 731 gets cells from then on, and none for day 730. */
  lemma YesterdayStaysEmpty()
    ensures var t := Seeded(DEFAULT_HORIZON_DAYS);
      729 in t && 730 !in Extended(t, 731, DEFAULT_HORIZON_DAYS) && 731 in Extended(t, 731, DEFAULT_HORIZON_DAYS)
  {
    var t := Seeded(DEFAULT_HORIZON_DAYS);
    assert Contiguous(t, 0, 729);
    ContiguousLast(t, 0, 729);
    FilledIs(t, 729, From(729, 731), 731 + DEFAULT_HORIZON_DAYS);
  }
}
