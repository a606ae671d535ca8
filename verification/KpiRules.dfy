/** What the figures of the KPI set and of the channel mix are, written out over the rows. */
module KpiRules {
  import opened Wrappers
  import opened Texts
  import opened Sorting
  import opened Sums
  import opened Arithmetic
  import opened Kpis

  /** A quotient rounded to the nearest integer, halves up; none without a positive divisor. */
  ghost predicate IsQuotient(figure: Option<int>, num: int, den: int) {
    if den <= 0 then figure == None
    else figure.Some? && -den <= 2 * (num - den * figure.value) < den
  }

  ghost function Total(rows: seq<DailyFact>, field: DailyFact -> int): int {
    Sum(Mapped(field, rows))
  }

  lemma {:induction false} TotalNext(rows: seq<DailyFact>, field: DailyFact -> int)
    requires rows != []
    ensures Total(rows, field) == Total(rows[..|rows| - 1], field) + field(rows[|rows| - 1])
  {
    var front, last := rows[..|rows| - 1], rows[|rows| - 1];
    assert rows == front + [last];
    MappedParts(field, front, [last]);
    MappedOne(field, last);
  }

  /** The totals are the sums of each column. */
  lemma {:induction false} TotalsAreSums(rows: seq<DailyFact>)
    ensures var t := Kpis.Totals(rows);
      && t.roomsAvailable == Total(rows, (r: DailyFact) => r.roomsAvailable)
      && t.roomsSold == Total(rows, (r: DailyFact) => r.roomsSold)
      && t.roomRevenueMinor == Total(rows, (r: DailyFact) => r.roomRevenueMinor)
      && t.totalRevenueMinor == Total(rows, (r: DailyFact) => r.totalRevenueMinor)
      && t.commissionMinor == Total(rows, (r: DailyFact) => r.commissionMinor)
      && t.withheldTaxMinor == Total(rows, (r: DailyFact) => r.withheldTaxMinor)
      && t.bookingsCreated == Total(rows, (r: DailyFact) => r.bookingsCreated)
      && t.cancellations == Total(rows, (r: DailyFact) => r.cancellations)
      && t.arrivals == Total(rows, (r: DailyFact) => r.arrivals)
      && t.noShows == Total(rows, (r: DailyFact) => r.noShows)
      && t.directNights == Total(rows, (r: DailyFact) => r.directNights)
  {
    ColumnIs(rows, (r: DailyFact) => r.roomsAvailable);
    ColumnIs(rows, (r: DailyFact) => r.roomsSold);
    ColumnIs(rows, (r: DailyFact) => r.roomRevenueMinor);
    ColumnIs(rows, (r: DailyFact) => r.totalRevenueMinor);
    ColumnIs(rows, (r: DailyFact) => r.commissionMinor);
    ColumnIs(rows, (r: DailyFact) => r.withheldTaxMinor);
    ColumnIs(rows, (r: DailyFact) => r.bookingsCreated);
    ColumnIs(rows, (r: DailyFact) => r.cancellations);
    ColumnIs(rows, (r: DailyFact) => r.arrivals);
    ColumnIs(rows, (r: DailyFact) => r.noShows);
    ColumnIs(rows, (r: DailyFact) => r.directNights);
  }

  /** A column that adds up over two facts, and is nothing in no fact. */
  ghost predicate Adds(field: DailyFact -> int) {
    field(ZERO_FACT) == 0 && forall a, b :: field(Plus(a, b)) == field(a) + field(b)
  }

  lemma {:induction false} ColumnIs(rows: seq<DailyFact>, field: DailyFact -> int)
    requires Adds(field)
    ensures field(Kpis.Totals(rows)) == Total(rows, field)
  {
    if rows == [] {
      assert Mapped(field, rows) == [];
    } else {
      ColumnIs(rows[..|rows| - 1], field);
      TotalNext(rows, field);
    }
  }

  lemma RatioIs(num: int, den: int)
    ensures IsQuotient(RatioBps(num, den), num * 10_000, den) && IsQuotient(PerUnit(num, den), num, den)
  {
    if den > 0 {
      RoundIsNear(num * 10_000, den);
      RoundIsNear(num, den);
    }
  }

  /**
   * Every figure of a range of days: rates in basis points, money per room night sold or available; the
   * net rate is what is left of the room revenue after commission and withheld tax.
   */
  lemma FiguresAre(rows: seq<DailyFact>)
    ensures var k, t := Kpis.Kpis(rows), Kpis.Totals(rows);
      && k.totals == t
      && IsQuotient(k.occupancyBps, 10_000 * t.roomsSold, t.roomsAvailable)
      && IsQuotient(k.adrMinor, t.roomRevenueMinor, t.roomsSold)
      && IsQuotient(k.revparMinor, t.roomRevenueMinor, t.roomsAvailable)
      && IsQuotient(k.trevparMinor, t.totalRevenueMinor, t.roomsAvailable)
      && IsQuotient(k.netAdrMinor, t.roomRevenueMinor - (t.commissionMinor + t.withheldTaxMinor), t.roomsSold)
      && IsQuotient(k.cancellationRateBps, 10_000 * t.cancellations, t.bookingsCreated)
      && IsQuotient(k.noShowRateBps, 10_000 * t.noShows, t.arrivals)
      && IsQuotient(k.directShareBps, 10_000 * t.directNights, t.roomsSold)
  {
    var t := Kpis.Totals(rows);
    RatioIs(t.roomsSold, t.roomsAvailable);
    RatioIs(t.roomRevenueMinor, t.roomsSold);
    RatioIs(t.roomRevenueMinor, t.roomsAvailable);
    RatioIs(t.totalRevenueMinor, t.roomsAvailable);
    RatioIs(t.roomRevenueMinor - t.commissionMinor - t.withheldTaxMinor, t.roomsSold);
    RatioIs(t.cancellations, t.bookingsCreated);
    RatioIs(t.noShows, t.arrivals);
    RatioIs(t.directNights, t.roomsSold);
  }

  // ---- channel mix ------------------------------------------------------------------------------------

  lemma ByNightsIsPreorder(collate: (Text, Text) -> bool)
    requires TotalPreorder(collate)
    ensures TotalPreorder(ByNights(collate))
  {
    var le := ByNights(collate);
    forall a, b ensures le(a, b) || le(b, a) { assert collate(a.channel, b.channel) || collate(b.channel, a.channel); }
    forall a, b, c | le(a, b) && le(b, c) ensures le(a, c) {
      assert collate(a.channel, b.channel) && collate(b.channel, c.channel) ==> collate(a.channel, c.channel);
    }
  }

  /**
   * The mix lists every channel row once, most nights first and then by name; each with its share of
   * all nights and of all revenue, and its revenue per night after commission.
   */
  lemma MixIs(rows: seq<ChannelRow>, collate: (Text, Text) -> bool)
    requires TotalPreorder(collate)
    ensures var mix := ChannelMix(rows, collate);
      && |mix| == |rows|
      && multiset(seq(|mix|, i requires 0 <= i < |mix| => mix[i].row)) == multiset(rows)
      && (forall i, j :: 0 <= i < j < |mix| ==>
            || mix[i].row.nights > mix[j].row.nights
            || (mix[i].row.nights == mix[j].row.nights && collate(mix[i].row.channel, mix[j].row.channel)))
      && forall i :: 0 <= i < |mix| ==>
        && IsQuotient(
          mix[i].nightShareBps, mix[i].row.nights * 10_000, Sum(Mapped((r: ChannelRow) => r.nights, rows)))
        && IsQuotient(
          mix[i].revenueShareBps, mix[i].row.revenueMinor * 10_000,
          Sum(Mapped((r: ChannelRow) => r.revenueMinor, rows)))
        && IsQuotient(mix[i].netAdrMinor, mix[i].row.revenueMinor - mix[i].row.commissionMinor, mix[i].row.nights)
  {
    var mix, sorted := ChannelMix(rows, collate), Sort(ByNights(collate), rows);
    SortPermutes(ByNights(collate), rows);
    ByNightsIsPreorder(collate);
    SortSorts(ByNights(collate), rows);
    assert seq(|mix|, i requires 0 <= i < |mix| => mix[i].row) == sorted;
    forall i, j | 0 <= i < j < |mix|
      ensures mix[i].row.nights > mix[j].row.nights
        || (mix[i].row.nights == mix[j].row.nights && collate(mix[i].row.channel, mix[j].row.channel))
    {
      assert ByNights(collate)(sorted[i], sorted[j]);
    }
    ColumnsAre(rows);
    forall i | 0 <= i < |mix|
      ensures IsQuotient(
        mix[i].nightShareBps, sorted[i].nights * 10_000, Sum(Mapped((r: ChannelRow) => r.nights, rows)))
      ensures IsQuotient(
        mix[i].revenueShareBps, sorted[i].revenueMinor * 10_000, Sum(Mapped((r: ChannelRow) => r.revenueMinor, rows)))
      ensures IsQuotient(mix[i].netAdrMinor, sorted[i].revenueMinor - sorted[i].commissionMinor, sorted[i].nights)
    {
      RatioIs(sorted[i].nights, Sum(Mapped(Nights(), rows)));
      RatioIs(sorted[i].revenueMinor, Sum(Mapped(Revenue(), rows)));
      RatioIs(sorted[i].revenueMinor - sorted[i].commissionMinor, sorted[i].nights);
    }
  }

  lemma ColumnsAre(rows: seq<ChannelRow>)
    ensures Mapped(Nights(), rows) == Mapped((r: ChannelRow) => r.nights, rows)
    ensures Mapped(Revenue(), rows) == Mapped((r: ChannelRow) => r.revenueMinor, rows)
  {
  }
}
