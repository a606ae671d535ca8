/**
 * What each step of the booking engine does, written out: over the rows of the tables, night by
 * night, with the rooms sold counted as rows instead of by the engine's own functions.
 */
module BookingSteps {
  import opened Wrappers
  import opened Counting
  import opened Sums
  import opened BookingEngine
  import HoldPricing

  // ---- rows counted ---------------------------------------------------------------------------------

  /** The confirmed bookings of a room type for a night. */
  ghost function BookingsOn(t: Tables, rt: RoomTypeId, d: int): set<int> {
    set i | 0 <= i < |t.bookings|
      && t.bookings[i].confirmed && t.bookings[i].stay.roomType == rt
      && t.bookings[i].stay.arrival <= d && d < t.bookings[i].stay.departure
  }

  /** The holds of a room type for a night that have not run out. */
  ghost function HoldsOn(t: Tables, rt: RoomTypeId, d: int): set<int> {
    set i | 0 <= i < |t.holds|
      && t.holds[i].state == Held && t.now < t.holds[i].expiresAt && t.holds[i].stay.roomType == rt
      && t.holds[i].stay.arrival <= d && d < t.holds[i].stay.departure
  }

  /** What is left of n rooms, floored at zero. */
  function AtLeastZero(n: int): int {
    if n >= 0 then n else 0
  }

  /** The index has a room for a night. */
  predicate HasRoom(t: Tables, rt: RoomTypeId, d: int) {
    (rt, d) in t.stored && t.stored[(rt, d)] > 0
  }

  /** Every night of a stay of one night or more has a room in the index. */
  ghost predicate RoomEveryNight(t: Tables, s: Stay) {
    && s.roomType in t.rooms && s.arrival < s.departure
    && forall d :: s.arrival <= d < s.departure ==> HasRoom(t, s.roomType, d)
  }

  ghost function Places<T>(xs: seq<T>, f: T -> bool): set<int> {
    set i | 0 <= i < |xs| && f(xs[i])
  }

  lemma {:induction false} CountIsSize<T>(xs: seq<T>, f: T -> bool)
    ensures Count(xs, f) == |Places(xs, f)|
  {
    if xs == [] {
      assert Places(xs, f) == {};
    } else {
      var n := |xs| - 1;
      CountIsSize(xs[..n], f);
      PlacesNext(xs, f);
    }
  }

  lemma PlacesNext<T>(xs: seq<T>, f: T -> bool)
    requires xs != []
    ensures var n := |xs| - 1;
      Places(xs, f) == if f(xs[n]) then Places(xs[..n], f) + {n} else Places(xs[..n], f)
  {
    assert forall i :: 0 <= i < |xs| - 1 ==> xs[..|xs| - 1][i] == xs[i];
  }

  lemma CountsAreRows(t: Tables, rt: RoomTypeId, d: int)
    ensures Booked(t, rt, d) == |BookingsOn(t, rt, d)|
    ensures HeldOn(t, rt, d) == |HoldsOn(t, rt, d)|
  {
    CountIsSize(t.bookings, BooksNight(rt, d));
    CountIsSize(t.holds, HoldsNight(rt, d, t.now));
    assert Places(t.bookings, BooksNight(rt, d)) == BookingsOn(t, rt, d);
    assert Places(t.holds, HoldsNight(rt, d, t.now)) == HoldsOn(t, rt, d);
  }

  /** No night is ever sold more often than there are rooms, in any run. */
  lemma NoNightIsOversold(t: Tables, steps: seq<Step>, rt: RoomTypeId, d: int)
    requires t.holds == [] && t.bookings == []
    requires forall cell :: cell in t.stored && cell.0 in t.rooms ==> t.stored[cell] <= t.rooms[cell.0]
    requires rt in t.rooms
    ensures var u := Run(t, steps);
      rt in u.rooms && u.rooms[rt] == t.rooms[rt] && |BookingsOn(u, rt, d)| + |HoldsOn(u, rt, d)| <= t.rooms[rt]
  {
    RunsAreSafe(t, steps);
    RoomsStay(t, steps);
    CountsAreRows(Run(t, steps), rt, d);
  }

  lemma {:induction false} RoomsStay(t: Tables, steps: seq<Step>)
    ensures Run(t, steps).rooms == t.rooms
  {
    if steps != [] {
      var before := Run(t, steps[..|steps| - 1]);
      RoomsStay(t, steps[..|steps| - 1]);
      ExpireKeepsRooms(before, |before.holds|);
    }
  }

  lemma {:induction false} ExpireKeepsRooms(t: Tables, n: nat)
    requires n <= |t.holds|
    ensures ExpireUpTo(t, n).rooms == t.rooms
  {
    if n > 0 { ExpireKeepsRooms(t, n - 1); }
  }

  // ---- step by step -------------------------------------------------------------------------------------

  lemma {:induction false} FewestIsPositiveIff(t: Tables, rt: RoomTypeId, first: int, end: int)
    requires first < end
    ensures MinStored(t, rt, first, end) >= 1 <==> forall d :: first <= d < end ==> HasRoom(t, rt, d)
    decreases end - first
  {
    assert Stored(t, rt, end - 1) >= 1 <==> HasRoom(t, rt, end - 1);
    if first < end - 1 {
      FewestIsPositiveIff(t, rt, first, end - 1);
    }
  }

  lemma OffersIff(t: Tables, s: Stay)
    ensures SearchOffers(t, s) <==> RoomEveryNight(t, s)
  {
    if s.arrival < s.departure { FewestIsPositiveIff(t, s.roomType, s.arrival, s.departure); }
  }

  /** Of the cells of a stay that was recomputed, and of all others. */
  lemma RecomputeShows(t: Tables, s: Stay, rt: RoomTypeId, d: int)
    requires s.roomType in t.rooms
    ensures Stored(Recompute(t, s), rt, d) ==
      if rt == s.roomType && s.arrival <= d < s.departure
      then AtLeastZero(t.rooms[rt] - |BookingsOn(t, rt, d)| - |HoldsOn(t, rt, d)|) else Stored(t, rt, d)
  {
    RecomputeAt(t, s, rt, d);
    CountsAreRows(t, rt, d);
  }

  /**
   * BE-5: a hold is made exactly when the stay is sold and every night has a room. It lives for
   * 15 minutes, keeps the quote, and takes one room from each of its nights.
   */
  lemma CreateHoldDoes(
    t: Tables, s: Stay, sellable: bool, roomMinor: int, discountMinor: int, rt: RoomTypeId, d: int)
    ensures var u := Next(t, CreateHold(s, sellable, roomMinor, discountMinor));
      if sellable && RoomEveryNight(t, s) then
        && u == t.(holds := t.holds + [Hold(s, t.now + 15 * 60 * 1000, Held, roomMinor, discountMinor)],
                   stored := u.stored)
        && Stored(u, rt, d) ==
          if rt == s.roomType && s.arrival <= d < s.departure
          then AtLeastZero(t.rooms[rt] - |BookingsOn(t, rt, d)| - |HoldsOn(t, rt, d)| - 1) else Stored(t, rt, d)
      else u == t
  {
    OffersIff(t, s);
    var h := Hold(s, t.now + HOLD_MS, Held, roomMinor, discountMinor);
    var placed := t.(holds := t.holds + [h]);
    PlacedCounts(t, h, rt, d);
    CountsAreRows(t, rt, d);
    CountsAreRows(placed, rt, d);
    assert BookingsOn(placed, rt, d) == BookingsOn(t, rt, d);
    if s.roomType in t.rooms { RecomputeShows(placed, s, rt, d); }
  }

  /** The stay of a hold can be booked: it has not run out, or it is still on offer, a price a night. */
  ghost predicate CanStillBook(t: Tables, h: Hold, nightly: Option<seq<int>>) {
    || t.now < h.expiresAt
    || (RoomEveryNight(t, h.stay) && nightly.Some? && |nightly.value| == h.stay.departure - h.stay.arrival)
  }

  /**
   * A confirmation of a held hold: unpaid it is declined; paid it is booked exactly when the hold
   * has not run out or the stay is still on offer, with an index that has a room for every night.
   */
  lemma ConfirmAnswers(t: Tables, i: nat, nightly: Option<seq<int>>, paid: bool)
    requires i < |t.holds| && t.holds[i].state == Held
    ensures ConfirmResult(t, i, nightly, paid) ==
      if !paid then Err(PaymentDeclined)
      else if CanStillBook(t, t.holds[i], nightly) then Ok(|t.bookings|)
      else Err(NotAvailable)
    ensures !paid || !CanStillBook(t, t.holds[i], nightly) ==> Next(t, Confirm(i, nightly, paid)) == t
  {
    OffersIff(t, t.holds[i].stay);
  }

  /** A confirmation of a hold that is not held books nothing. */
  lemma ConfirmOfOthers(t: Tables, i: nat, nightly: Option<seq<int>>, paid: bool)
    requires i < |t.holds| ==> t.holds[i].state != Held
    ensures Next(t, Confirm(i, nightly, paid)) == t
    ensures ConfirmResult(t, i, nightly, paid) ==
      if i < |t.holds| && t.holds[i].state.Converted? then Ok(t.holds[i].state.bookingId) else Err(HoldGone)
  {
  }

  /** The price of a booking: the offer of the moment, or the price of the hold, less the discount. */
  ghost function Price(t: Tables, h: Hold, nightly: Option<seq<int>>): int {
    var room :=
      if RoomEveryNight(t, h.stay) && nightly.Some? && |nightly.value| == h.stay.departure - h.stay.arrival
      then Sum(nightly.value) else h.roomMinor;
    if h.discountMinor > 0 then room - h.discountMinor else room
  }

  lemma AmountIsPrice(t: Tables, h: Hold, nightly: Option<seq<int>>)
    requires h.stay.arrival < h.stay.departure
    ensures BookingAmount(t, h, nightly) == Price(t, h, nightly)
  {
    OffersIff(t, h.stay);
    var nights := h.stay.departure - h.stay.arrival;
    HoldPricing.DiscountConserves(HoldPricing.EvenSplit(h.roomMinor, nights), h.discountMinor);
    HoldPricing.EvenSplitConserves(h.roomMinor, nights);
    if StillOffered(t, h.stay, nightly) { HoldPricing.DiscountConserves(nightly.value, h.discountMinor); }
  }

  /**
   * A confirmation that books: one confirmed booking of the stay at its price is added, the hold is
   * converted to it, and each night of the stay shows what is left beside it.
   */
  lemma ConfirmDoes(t: Tables, i: nat, nightly: Option<seq<int>>, rt: RoomTypeId, d: int)
    requires i < |t.holds| && t.holds[i].state == Held && CanStillBook(t, t.holds[i], nightly)
    requires t.holds[i].stay.roomType in t.rooms && t.holds[i].stay.arrival < t.holds[i].stay.departure
    ensures var u, h := Next(t, Confirm(i, nightly, true)), t.holds[i];
      && u == t.(
        bookings := t.bookings + [Booking(h.stay, true, Price(t, h, nightly))],
        holds := t.holds[i := h.(state := Converted(|t.bookings|))], stored := u.stored)
      && Stored(u, rt, d) ==
        if rt == h.stay.roomType && h.stay.arrival <= d < h.stay.departure
        then AtLeastZero(t.rooms[rt] - (|BookingsOn(t, rt, d)| + 1) - |HoldsOn(t, rt, d) - {i}|)
        else Stored(t, rt, d)
  {
    var h := t.holds[i];
    ConfirmAnswers(t, i, nightly, true);
    AmountIsPrice(t, h, nightly);
    FinalizedRowsAre(t, i, nightly);
    FinalizedShows(t, i, nightly, rt, d);
  }

  lemma FinalizedRowsAre(t: Tables, i: nat, nightly: Option<seq<int>>)
    requires i < |t.holds|
    ensures var u, h := Finalized(t, i, t.holds[i], nightly), t.holds[i];
      u == t.(
        bookings := t.bookings + [Booking(h.stay, true, BookingAmount(t, h, nightly))],
        holds := t.holds[i := h.(state := Converted(|t.bookings|))], stored := u.stored)
  {
  }

  lemma FinalizedShows(t: Tables, i: nat, nightly: Option<seq<int>>, rt: RoomTypeId, d: int)
    requires i < |t.holds| && t.holds[i].stay.roomType in t.rooms
    ensures var u, h := Finalized(t, i, t.holds[i], nightly), t.holds[i];
      Stored(u, rt, d) ==
        if rt == h.stay.roomType && h.stay.arrival <= d < h.stay.departure
        then AtLeastZero(t.rooms[rt] - (|BookingsOn(t, rt, d)| + 1) - |HoldsOn(t, rt, d) - {i}|)
        else Stored(t, rt, d)
  {
    var u, h := Finalized(t, i, t.holds[i], nightly), t.holds[i];
    FinalizedCounts(t, i, h, nightly, rt, d);
    CountsAreRows(t, rt, d);
    if rt == h.stay.roomType && h.stay.arrival <= d < h.stay.departure {
      ConfirmLeavesIndexExact(t, i, nightly, d);
      assert i in HoldsOn(t, rt, d) <==> Live(h, t.now);
    } else {
      FinalizedElsewhere(t, i, nightly, rt, d);
    }
  }

  lemma FinalizedElsewhere(t: Tables, i: nat, nightly: Option<seq<int>>, rt: RoomTypeId, d: int)
    requires i < |t.holds| && t.holds[i].stay.roomType in t.rooms && !Covers(t.holds[i].stay, rt, d)
    ensures Stored(Finalized(t, i, t.holds[i], nightly), rt, d) == Stored(t, rt, d)
  {
    var h := t.holds[i];
    var withBooking := t.(bookings := t.bookings + [Booking(h.stay, true, BookingAmount(t, h, nightly))]);
    var booked := Recompute(withBooking, h.stay);
    var converted := booked.(holds := booked.holds[i := booked.holds[i].(state := Converted(|t.bookings|))]);
    RecomputeAt(withBooking, h.stay, rt, d);
    RecomputeAt(converted, h.stay, rt, d);
  }

  /** A cancellation gives the room of a confirmed booking back on each of its nights. */
  lemma GuestCancelDoes(t: Tables, b: nat, allowed: bool, rt: RoomTypeId, d: int)
    requires b < |t.bookings| ==> t.bookings[b].stay.roomType in t.rooms
    ensures var u := Next(t, GuestCancel(b, allowed));
      if b < |t.bookings| && allowed then
        var s := t.bookings[b].stay;
        && u == t.(bookings := t.bookings[b := Booking(s, false, 0)], stored := u.stored)
        && Stored(u, rt, d) ==
          if rt == s.roomType && s.arrival <= d < s.departure
          then AtLeastZero(t.rooms[rt] - |BookingsOn(t, rt, d) - {b}| - |HoldsOn(t, rt, d)|) else Stored(t, rt, d)
      else u == t
  {
    if b < |t.bookings| && allowed {
      var cancelled := t.(bookings := t.bookings[b := t.bookings[b].(confirmed := false, amountMinor := 0)]);
      RecomputeShows(cancelled, t.bookings[b].stay, rt, d);
      CancelledRows(t, cancelled, b, rt, d);
    }
  }

  lemma CancelledRows(t: Tables, u: Tables, b: nat, rt: RoomTypeId, d: int)
    requires b < |t.bookings|
    requires u == t.(bookings := t.bookings[b := t.bookings[b].(confirmed := false, amountMinor := 0)])
    ensures BookingsOn(u, rt, d) == BookingsOn(t, rt, d) - {b} && HoldsOn(u, rt, d) == HoldsOn(t, rt, d)
  {
  }

  /** A held hold has run out. */
  predicate RunOut(t: Tables, i: nat)
    requires i < |t.holds|
  {
    t.holds[i].state == Held && t.holds[i].expiresAt <= t.now
  }

  /** One of the first n holds has run out and covers the night. */
  ghost predicate Frees(t: Tables, n: nat, rt: RoomTypeId, d: int)
    requires n <= |t.holds|
  {
    exists i: nat :: i < n && RunOut(t, i)
      && t.holds[i].stay.roomType == rt && t.holds[i].stay.arrival <= d < t.holds[i].stay.departure
  }

  /** The sweep expires exactly the holds that have run out, and each of their nights shows what is left again. */
  lemma ExpireHoldsDoes(t: Tables, rt: RoomTypeId, d: int)
    requires forall i :: 0 <= i < |t.holds| ==> t.holds[i].stay.roomType in t.rooms
    ensures var u := Next(t, ExpireHolds);
      && u == t.(holds := u.holds, stored := u.stored) && |u.holds| == |t.holds|
      && (forall i: nat :: i < |t.holds| ==>
           u.holds[i] == if RunOut(t, i) then t.holds[i].(state := Expired) else t.holds[i])
      && Stored(u, rt, d) ==
        if Frees(t, |t.holds|, rt, d)
        then AtLeastZero(t.rooms[rt] - |BookingsOn(t, rt, d)| - |HoldsOn(t, rt, d)|) else Stored(t, rt, d)
  {
    SweptSoFar(t, |t.holds|, rt, d);
  }

  lemma {:induction false} SweptSoFar(t: Tables, n: nat, rt: RoomTypeId, d: int)
    requires n <= |t.holds|
    requires forall i :: 0 <= i < |t.holds| ==> t.holds[i].stay.roomType in t.rooms
    ensures var u := ExpireUpTo(t, n);
      && u == t.(holds := u.holds, stored := u.stored) && |u.holds| == |t.holds|
      && (forall i: nat :: i < |t.holds| ==>
           u.holds[i] == if i < n && RunOut(t, i) then t.holds[i].(state := Expired) else t.holds[i])
      && Stored(u, rt, d) ==
        if Frees(t, n, rt, d)
        then AtLeastZero(t.rooms[rt] - |BookingsOn(t, rt, d)| - |HoldsOn(t, rt, d)|) else Stored(t, rt, d)
  {
    if n > 0 {
      SweptSoFar(t, n - 1, rt, d);
      SweepNext(t, n - 1, ExpireUpTo(t, n - 1), rt, d);
    }
  }

  /** The sweep of one more row. */
  lemma SweepNext(t: Tables, n: nat, u: Tables, rt: RoomTypeId, d: int)
    requires n < |t.holds| && t.holds[n].stay.roomType in t.rooms
    requires u == t.(holds := u.holds, stored := u.stored) && |u.holds| == |t.holds|
    requires forall i: nat :: i < |t.holds| ==>
      u.holds[i] == if i < n && RunOut(t, i) then t.holds[i].(state := Expired) else t.holds[i]
    ensures var h, after := t.holds[n], ExpireOne(u, n);
      && after == t.(holds := after.holds, stored := after.stored)
      && after.holds == (if RunOut(t, n) then u.holds[n := h.(state := Expired)] else u.holds)
      && Stored(after, rt, d) ==
        if RunOut(t, n) && h.stay.roomType == rt && h.stay.arrival <= d < h.stay.departure
        then AtLeastZero(t.rooms[rt] - |BookingsOn(t, rt, d)| - |HoldsOn(t, rt, d)|) else Stored(u, rt, d)
  {
    if RunOut(t, n) {
      var freed := u.(holds := u.holds[n := u.holds[n].(state := Expired)]);
      RecomputeShows(freed, t.holds[n].stay, rt, d);
      assert HoldsOn(freed, rt, d) == HoldsOn(t, rt, d);
    }
  }

  /** The clock moves nothing else. */
  lemma TickDoes(t: Tables, ms: nat)
    ensures Next(t, Tick(ms)) == t.(now := t.now + ms)
  {
  }

  /** An expired hold whose stay is still on offer books it. */
  lemma ExpiredHoldStillBooks(rt: RoomTypeId)
    ensures var s := Stay(rt, 0, 1);
      var t := Tables(map[rt := 2], [Hold(s, 10, Held, 100, 0)], [], map[(rt, 0) := 1], 10);
      ConfirmResult(t, 0, Some([100]), true) == Ok(0)
  {
    var s := Stay(rt, 0, 1);
    var t := Tables(map[rt := 2], [Hold(s, 10, Held, 100, 0)], [], map[(rt, 0) := 1], 10);
    assert HasRoom(t, rt, 0);
    ConfirmAnswers(t, 0, Some([100]), true);
  }
}
