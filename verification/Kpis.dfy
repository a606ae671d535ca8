/** The KPI set over daily facts and the channel mix. Ratios are basis points, money minor units. */
module Kpis {
  import opened Wrappers
  import opened Texts
  import opened Sorting
  import opened Sums
  import opened Arithmetic

  datatype DailyFact = DailyFact(
    roomsAvailable: int, roomsSold: int, roomRevenueMinor: int, totalRevenueMinor: int, commissionMinor: int,
    withheldTaxMinor: int, bookingsCreated: int, cancellations: int, arrivals: int, noShows: int, directNights: int)

  /** The totals are themselves such a fact. */
  datatype KpiSet = KpiSet(
    totals: DailyFact, occupancyBps: Option<int>, adrMinor: Option<int>, revparMinor: Option<int>,
    trevparMinor: Option<int>, netAdrMinor: Option<int>, cancellationRateBps: Option<int>,
    noShowRateBps: Option<int>, directShareBps: Option<int>)

  /** Math.round of a quotient: the nearest integer, halves up. */
  function Round(n: int, d: int): int
    requires d > 0
  {
    (2 * n + d) / (2 * d)
  }

  function RatioBps(num: int, den: int): Option<int> {
    if den > 0 then Some(Round(num * 10_000, den)) else None
  }

  function PerUnit(minor: int, den: int): Option<int> {
    if den > 0 then Some(Round(minor, den)) else None
  }

  const ZERO_FACT := DailyFact(0, 0, 0, 0, 0, 0, 0, 0, 0, 0, 0)

  function Plus(a: DailyFact, b: DailyFact): DailyFact {
    DailyFact(
      a.roomsAvailable + b.roomsAvailable, a.roomsSold + b.roomsSold, a.roomRevenueMinor + b.roomRevenueMinor,
      a.totalRevenueMinor + b.totalRevenueMinor, a.commissionMinor + b.commissionMinor,
      a.withheldTaxMinor + b.withheldTaxMinor, a.bookingsCreated + b.bookingsCreated,
      a.cancellations + b.cancellations, a.arrivals + b.arrivals, a.noShows + b.noShows,
      a.directNights + b.directNights)
  }

  function Totals(rows: seq<DailyFact>): DailyFact {
    if rows == [] then ZERO_FACT else Plus(Totals(rows[..|rows| - 1]), rows[|rows| - 1])
  }

  function KpisOf(t: DailyFact): KpiSet {
    KpiSet(
      t,
      RatioBps(t.roomsSold, t.roomsAvailable),
      PerUnit(t.roomRevenueMinor, t.roomsSold),
      PerUnit(t.roomRevenueMinor, t.roomsAvailable),
      PerUnit(t.totalRevenueMinor, t.roomsAvailable),
      PerUnit(t.roomRevenueMinor - t.commissionMinor - t.withheldTaxMinor, t.roomsSold),
      RatioBps(t.cancellations, t.bookingsCreated),
      RatioBps(t.noShows, t.arrivals),
      RatioBps(t.directNights, t.roomsSold))
  }

  function Kpis(rows: seq<DailyFact>): KpiSet {
    KpisOf(Totals(rows))
  }

  // ---- rounding --------------------------------------------------------------------------------------

  /** A rounded quotient misses by at most half the divisor. */
  lemma RoundIsNear(n: int, d: int)
    requires d > 0
    ensures -d <= 2 * (n - d * Round(n, d)) < d
  {
    DivRem(2 * n + d, 2 * d);
    var q := Round(n, d);
    assert 2 * n + d == (2 * d) * q + (2 * n + d) % (2 * d);
    assert (2 * d) * q == 2 * (d * q);
  }

  /** Rounding keeps the order of quotients. */
  lemma RoundIsMonotone(n: int, d: int, m: int, e: int)
    requires d > 0 && e > 0 && n * e <= m * d
    ensures Round(n, d) <= Round(m, e)
  {
    var p, q := Round(n, d), Round(m, e);
    if p > q {
      RoundFromBelow(n, d, q + 1);
      RoundFromAbove(m, e, q + 1);
      CrossBounds(n, d, m, e, 2 * q + 1);
    }
  }

  lemma RoundFromBelow(n: int, d: int, q: int)
    requires d > 0
    ensures Round(n, d) >= q <==> 2 * n >= d * (2 * q - 1)
  {
    RoundIsNear(n, d);
    var r := Round(n, d);
    Distribute(d, 2 * q, 1);
    Distribute(d, 2 * r, 1);
    if r >= q { Scale(2 * q - 1, 2 * r - 1, d); }
    if r < q {
      Scale(2 * r + 1, 2 * q - 1, d);
      Distribute(d, 2 * r, 1);
    }
  }

  lemma RoundFromAbove(n: int, d: int, q: int)
    requires d > 0
    ensures Round(n, d) < q <==> 2 * n < d * (2 * q - 1)
  {
    RoundFromBelow(n, d, q);
  }

  /** Two quotients on different sides of a bound are in that order. */
  lemma CrossBounds(n: int, d: int, m: int, e: int, b: int)
    requires d > 0 && e > 0 && 2 * n >= d * b && 2 * m < e * b
    ensures n * e > m * d
  {
    Scale(d * b, 2 * n, e);
    Scale(2 * m + 1, e * b, d);
    assert (d * b) * e == (e * b) * d;
    assert 2 * (n * e) == (2 * n) * e && 2 * (m * d) == (2 * m) * d;
    Distribute(d, 2 * m, 1);
  }

  // ---- blends ----------------------------------------------------------------------------------------

  /** The totals of two ranges together are the sums of their totals. */
  lemma {:induction false} TotalsOfParts(xs: seq<DailyFact>, ys: seq<DailyFact>)
    ensures Totals(xs + ys) == Plus(Totals(xs), Totals(ys))
  {
    if ys == [] {
      assert xs + ys == xs;
    } else {
      TotalsOfParts(xs, ys[..|ys| - 1]);
      assert (xs + ys)[..|xs + ys| - 1] == xs + ys[..|ys| - 1];
    }
  }

  ghost predicate Between(x: Option<int>, a: Option<int>, b: Option<int>) {
    a.Some? && b.Some? ==> x.Some? && (a.value <= x.value <= b.value || b.value <= x.value <= a.value)
  }

  /** The rounded ratio of two ranges together lies between their own rounded ratios. */
  lemma BlendIsBetween(n: int, d: int, m: int, e: int)
    ensures Between(PerUnit(n + m, d + e), PerUnit(n, d), PerUnit(m, e))
    ensures Between(RatioBps(n + m, d + e), RatioBps(n, d), RatioBps(m, e))
  {
    if d > 0 && e > 0 {
      MediantIsBetween(n, d, m, e);
      Distribute(10_000, n, m);
      MediantIsBetween(n * 10_000, d, m * 10_000, e);
    }
  }

  lemma MediantIsBetween(n: int, d: int, m: int, e: int)
    requires d > 0 && e > 0
    ensures Round(n, d) <= Round(n + m, d + e) <= Round(m, e) || Round(m, e) <= Round(n + m, d + e) <= Round(n, d)
  {
    Distribute(n, d, e);
    Distribute(d, n, m);
    Distribute(e, n, m);
    Distribute(m, d, e);
    if n * e <= m * d {
      RoundIsMonotone(n, d, n + m, d + e);
      RoundIsMonotone(n + m, d + e, m, e);
    } else {
      RoundIsMonotone(m, e, n + m, d + e);
      RoundIsMonotone(n + m, d + e, n, d);
    }
  }

  lemma RatiosBlend(s: DailyFact, t: DailyFact)
    ensures var both, a, b := KpisOf(Plus(s, t)), KpisOf(s), KpisOf(t);
      && Between(both.occupancyBps, a.occupancyBps, b.occupancyBps)
      && Between(both.cancellationRateBps, a.cancellationRateBps, b.cancellationRateBps)
      && Between(both.noShowRateBps, a.noShowRateBps, b.noShowRateBps)
      && Between(both.directShareBps, a.directShareBps, b.directShareBps)
  {
    BlendIsBetween(s.roomsSold, s.roomsAvailable, t.roomsSold, t.roomsAvailable);
    BlendIsBetween(s.cancellations, s.bookingsCreated, t.cancellations, t.bookingsCreated);
    BlendIsBetween(s.noShows, s.arrivals, t.noShows, t.arrivals);
    BlendIsBetween(s.directNights, s.roomsSold, t.directNights, t.roomsSold);
  }

  lemma RatesBlend(s: DailyFact, t: DailyFact)
    ensures var both, a, b := KpisOf(Plus(s, t)), KpisOf(s), KpisOf(t);
      && Between(both.adrMinor, a.adrMinor, b.adrMinor)
      && Between(both.revparMinor, a.revparMinor, b.revparMinor)
      && Between(both.trevparMinor, a.trevparMinor, b.trevparMinor)
      && Between(both.netAdrMinor, a.netAdrMinor, b.netAdrMinor)
  {
    BlendIsBetween(s.roomRevenueMinor, s.roomsSold, t.roomRevenueMinor, t.roomsSold);
    BlendIsBetween(s.roomRevenueMinor, s.roomsAvailable, t.roomRevenueMinor, t.roomsAvailable);
    BlendIsBetween(s.totalRevenueMinor, s.roomsAvailable, t.totalRevenueMinor, t.roomsAvailable);
    BlendIsBetween(
      s.roomRevenueMinor - s.commissionMinor - s.withheldTaxMinor, s.roomsSold,
      t.roomRevenueMinor - t.commissionMinor - t.withheldTaxMinor, t.roomsSold);
  }

  /** The totals of two ranges add up, and no KPI of both together is outside the range of its two values. */
  lemma KpisBlend(xs: seq<DailyFact>, ys: seq<DailyFact>)
    ensures var both, a, b := Kpis(xs + ys), Kpis(xs), Kpis(ys);
      && both.totals == Plus(a.totals, b.totals)
      && Between(both.occupancyBps, a.occupancyBps, b.occupancyBps)
      && Between(both.adrMinor, a.adrMinor, b.adrMinor)
      && Between(both.revparMinor, a.revparMinor, b.revparMinor)
      && Between(both.trevparMinor, a.trevparMinor, b.trevparMinor)
      && Between(both.netAdrMinor, a.netAdrMinor, b.netAdrMinor)
      && Between(both.cancellationRateBps, a.cancellationRateBps, b.cancellationRateBps)
      && Between(both.noShowRateBps, a.noShowRateBps, b.noShowRateBps)
      && Between(both.directShareBps, a.directShareBps, b.directShareBps)
  {
    TotalsOfParts(xs, ys);
    RatiosBlend(Totals(xs), Totals(ys));
    RatesBlend(Totals(xs), Totals(ys));
  }

  // ---- revenue per room and per night sold -------------------------------------------------------------

  /**
   * Revenue per available room is occupancy times the average rate, up to the rounding of the
   * three: in ten-thousandths of a minor unit the two differ by at most 10000 plus half the rate.
   */
  lemma RevparIsOccupancyTimesRate(rows: seq<DailyFact>)
    requires 0 < Totals(rows).roomsSold <= Totals(rows).roomsAvailable && Totals(rows).roomRevenueMinor >= 0
    ensures var k := Kpis(rows);
      2 * Abs(10_000 * k.revparMinor.value - k.occupancyBps.value * k.adrMinor.value) <= 20_000 + k.adrMinor.value
  {
    var t := Totals(rows);
    var a, s, r := t.roomsAvailable, t.roomsSold, t.roomRevenueMinor;
    RoundIsNear(r, a);
    RoundIsNear(r, s);
    RoundIsNear(s * 10_000, a);
    RoundFromBelow(r, s, 0);
    ThreeRoundings(a, s, r, Round(r, a), Round(s * 10_000, a), Round(r, s));
  }

  lemma ThreeRoundings(a: int, s: int, r: int, p: int, o: int, d: int)
    requires 0 < s <= a && d >= 0
    requires -a <= 2 * (r - a * p) <= a && -s <= 2 * (r - s * d) <= s && -a <= 2 * (s * 10_000 - a * o) <= a
    ensures 2 * Abs(10_000 * p - o * d) <= 20_000 + d
  {
    var e1, e2, e3 := r - a * p, r - s * d, s * 10_000 - a * o;
    Errors(a, s, r, p, o, d);
    var x := 10_000 * p - o * d;
    Scale(-a, 2 * e3, d);
    Scale(2 * e3, a, d);
    assert (2 * e3) * d == 2 * (e3 * d);
    assert (-a) * d == -(a * d);
    var y := 10_000 * e2 - 10_000 * e1 + e3 * d;
    assert -(20_000 * a + a * d) <= 2 * y <= 20_000 * a + a * d;
    Distribute(a, 20_000, d);
    assert a * (2 * x) == 2 * (a * x);
    Cancel(a, 2 * x, 20_000 + d);
    assert a * (-(2 * x)) == -(2 * (a * x));
    Cancel(a, -(2 * x), 20_000 + d);
  }

  /** The three rounding errors put together. */
  lemma Errors(a: int, s: int, r: int, p: int, o: int, d: int)
    ensures a * (10_000 * p - o * d) == 10_000 * (r - s * d) - 10_000 * (r - a * p) + (s * 10_000 - a * o) * d
  {
    Distribute(a, 10_000 * p, o * d);
    assert a * (10_000 * p) == 10_000 * (a * p);
    assert a * (o * d) == (a * o) * d;
    Distribute(d, s * 10_000, a * o);
    assert d * (s * 10_000) == 10_000 * (s * d);
    assert d * (a * o) == (a * o) * d;
  }

  // ---- channel mix -------------------------------------------------------------------------------------

  datatype ChannelRow = ChannelRow(channel: Text, nights: int, revenueMinor: int, commissionMinor: int)

  datatype MixRow = MixRow(
    row: ChannelRow, nightShareBps: Option<int>, revenueShareBps: Option<int>, netAdrMinor: Option<int>)

  function Nights(): ChannelRow -> int {
    (r: ChannelRow) => r.nights
  }

  function Revenue(): ChannelRow -> int {
    (r: ChannelRow) => r.revenueMinor
  }

  /** Most nights first, then by the collation of channel names. */
  function ByNights(collate: (Text, Text) -> bool): (ChannelRow, ChannelRow) -> bool {
    (a: ChannelRow, b: ChannelRow) => a.nights > b.nights || (a.nights == b.nights && collate(a.channel, b.channel))
  }

  function MixOf(r: ChannelRow, nights: int, revenue: int): MixRow {
    MixRow(r, RatioBps(r.nights, nights), RatioBps(r.revenueMinor, revenue),
      PerUnit(r.revenueMinor - r.commissionMinor, r.nights))
  }

  function ChannelMix(rows: seq<ChannelRow>, collate: (Text, Text) -> bool): (mix: seq<MixRow>)
  {
    var sorted := Sort(ByNights(collate), rows);
    seq(|sorted|, i requires 0 <= i < |sorted| =>
      MixOf(sorted[i], Sum(Mapped(Nights(), rows)), Sum(Mapped(Revenue(), rows))))
  }

  /** Rounded shares in basis points. */
  function Shares(xs: seq<int>, total: int): seq<int>
    requires total > 0
  {
    seq(|xs|, i requires 0 <= i < |xs| => Round(xs[i] * 10_000, total))
  }

  lemma {:induction false} SharesMiss(xs: seq<int>, total: int)
    requires total > 0
    ensures -(|xs| * total) <= 2 * (10_000 * Sum(xs) - total * Sum(Shares(xs, total))) <= |xs| * total
  {
    if xs != [] {
      var n := |xs| - 1;
      var front := xs[..n];
      var share := Round(xs[n] * 10_000, total);
      SharesMiss(front, total);
      assert Shares(xs, total)[..n] == Shares(front, total);
      RoundIsNear(xs[n] * 10_000, total);
      assert xs == front + [xs[n]];
      assert Shares(xs, total) == Shares(front, total) + [share];
      MissesAdd(n, total, Sum(front), Sum(Shares(front, total)), xs[n], share);
    }
  }

  /** A share that misses by at most half a basis point adds at most that to what the others miss. */
  lemma MissesAdd(n: int, total: int, sum: int, shares: int, x: int, share: int)
    requires -(n * total) <= 2 * (10_000 * sum - total * shares) <= n * total
    requires -total <= 2 * (10_000 * x - total * share) <= total
    ensures -((n + 1) * total) <= 2 * (10_000 * (sum + x) - total * (shares + share)) <= (n + 1) * total
  {
    Distribute(total, shares, share);
    Distribute(total, n, 1);
  }

  /** Shares of a positive total sum to 10000 within half a basis point a row. */
  lemma SharesSum(xs: seq<int>)
    requires Sum(xs) > 0
    ensures 2 * Abs(Sum(Shares(xs, Sum(xs))) - 10_000) <= |xs|
  {
    var total, shares := Sum(xs), Sum(Shares(xs, Sum(xs)));
    SharesMiss(xs, total);
    Distribute(total, 10_000, shares);
    CancelWithin(total, 10_000 - shares, |xs|);
  }

  lemma CancelWithin(total: int, x: int, n: int)
    requires total > 0 && -(n * total) <= 2 * (total * x) <= n * total
    ensures 2 * Abs(x) <= n
  {
    assert total * (2 * x) == 2 * (total * x);
    assert total * (-(2 * x)) == -(2 * (total * x));
    Cancel(total, 2 * x, n);
    Cancel(total, -(2 * x), n);
  }

  /** The night and revenue shares a mix shows. */
  function NightShares(mix: seq<MixRow>): seq<int>
    requires forall i :: 0 <= i < |mix| ==> mix[i].nightShareBps.Some?
  {
    seq(|mix|, i requires 0 <= i < |mix| => mix[i].nightShareBps.value)
  }

  function RevenueShares(mix: seq<MixRow>): seq<int>
    requires forall i :: 0 <= i < |mix| ==> mix[i].revenueShareBps.Some?
  {
    seq(|mix|, i requires 0 <= i < |mix| => mix[i].revenueShareBps.value)
  }

  /** Of a mix with nights, the night shares sum to 100 % within half a basis point a channel. */
  lemma NightSharesSum(rows: seq<ChannelRow>, collate: (Text, Text) -> bool)
    requires Sum(Mapped(Nights(), rows)) > 0
    ensures var mix := ChannelMix(rows, collate);
      && |mix| == |rows| && (forall i :: 0 <= i < |mix| ==> mix[i].nightShareBps.Some?)
      && 2 * Abs(Sum(NightShares(mix)) - 10_000) <= |rows|
  {
    var sorted := Sort(ByNights(collate), rows);
    SortPermutes(ByNights(collate), rows);
    SumForgetsOrder(Nights(), sorted, rows);
    SharesSum(Mapped(Nights(), sorted));
    assert NightShares(ChannelMix(rows, collate)) == Shares(Mapped(Nights(), sorted), Sum(Mapped(Nights(), sorted)));
  }

  /** The same for revenue shares. */
  lemma RevenueSharesSum(rows: seq<ChannelRow>, collate: (Text, Text) -> bool)
    requires Sum(Mapped(Revenue(), rows)) > 0
    ensures var mix := ChannelMix(rows, collate);
      && |mix| == |rows| && (forall i :: 0 <= i < |mix| ==> mix[i].revenueShareBps.Some?)
      && 2 * Abs(Sum(RevenueShares(mix)) - 10_000) <= |rows|
  {
    var sorted := Sort(ByNights(collate), rows);
    SortPermutes(ByNights(collate), rows);
    SumForgetsOrder(Revenue(), sorted, rows);
    SharesSum(Mapped(Revenue(), sorted));
    assert RevenueShares(ChannelMix(rows, collate))
      == Shares(Mapped(Revenue(), sorted), Sum(Mapped(Revenue(), sorted)));
  }
}
