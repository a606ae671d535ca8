/**
 * The direct booking engine over its tables: holds, bookings, and the stored availability
 * index that search reads. Dates are day numbers, instants are milliseconds, ids are row
 * numbers. A step of the engine is one transaction; a step that throws changes nothing.
 *
 * What the rates, restrictions, party size and promo code say about a stay is an input of
 * the step (`sellable`); the availability side of search is modelled.
 */
module BookingEngine {
  import opened Wrappers
  import opened Counting
  import opened Sums
  import HoldPricing

  type RoomTypeId = string
  type Cell = (RoomTypeId, int)

  const HOLD_MS := 15 * 60_000

  datatype Stay = Stay(roomType: RoomTypeId, arrival: int, departure: int)

  datatype HoldState = Held | Expired | Converted(bookingId: nat)

  /** `roomMinor` and `discountMinor` are the room price and the discount of the quote. */
  datatype Hold = Hold(stay: Stay, expiresAt: int, state: HoldState, roomMinor: int, discountMinor: int)

  datatype Booking = Booking(stay: Stay, confirmed: bool, amountMinor: int)

  datatype Tables = Tables(
    rooms: map<RoomTypeId, nat>, holds: seq<Hold>, bookings: seq<Booking>, stored: map<Cell, nat>, now: int)

  datatype EngineError = NotAvailable | HoldGone | PaymentDeclined | NotFound | NotCancellable

  // ---- counting -----------------------------------------------------------------------------

  predicate Covers(s: Stay, roomType: RoomTypeId, date: int) {
    s.roomType == roomType && s.arrival <= date < s.departure
  }

  function BooksNight(roomType: RoomTypeId, date: int): Booking -> bool {
    (b: Booking) => b.confirmed && Covers(b.stay, roomType, date)
  }

  predicate Live(h: Hold, now: int) {
    h.state == Held && h.expiresAt > now
  }

  function HoldsNight(roomType: RoomTypeId, date: int, now: int): Hold -> bool {
    (h: Hold) => Live(h, now) && Covers(h.stay, roomType, date)
  }

  function Booked(t: Tables, roomType: RoomTypeId, date: int): nat {
    Count(t.bookings, BooksNight(roomType, date))
  }

  function HeldOn(t: Tables, roomType: RoomTypeId, date: int): nat {
    Count(t.holds, HoldsNight(roomType, date, t.now))
  }

  function Floor0(n: int): nat {
    if n < 0 then 0 else n
  }

  /** INV-2: rooms less booked less live holds, floored at zero. */
  function Recount(t: Tables, roomType: RoomTypeId, date: int): nat
    requires roomType in t.rooms
  {
    Floor0(t.rooms[roomType] - Booked(t, roomType, date) - HeldOn(t, roomType, date))
  }

  // ---- the index ---------------------------------------------------------------------------

  function Stored(t: Tables, roomType: RoomTypeId, date: int): nat {
    if (roomType, date) in t.stored then t.stored[(roomType, date)] else 0
  }

  /** The stored cells after the nights of [first, end) are recomputed. */
  function Rewritten(t: Tables, roomType: RoomTypeId, first: int, end: int): map<Cell, nat>
    requires roomType in t.rooms
    decreases end - first
  {
    if end <= first then t.stored
    else Rewritten(t, roomType, first, end - 1)[(roomType, end - 1) := Recount(t, roomType, end - 1)]
  }

  function Recompute(t: Tables, s: Stay): Tables {
    if s.roomType in t.rooms then t.(stored := Rewritten(t, s.roomType, s.arrival, s.departure)) else t
  }

  /** The fewest rooms left on any night of [first, end). */
  function MinStored(t: Tables, roomType: RoomTypeId, first: int, end: int): nat
    requires first < end
    decreases end - first
  {
    var last := Stored(t, roomType, end - 1);
    if end - 1 == first then last
    else
      var before := MinStored(t, roomType, first, end - 1);
      if last < before then last else before
  }

  predicate SearchOffers(t: Tables, s: Stay) {
    s.arrival < s.departure && s.roomType in t.rooms && MinStored(t, s.roomType, s.arrival, s.departure) >= 1
  }

  // ---- steps -------------------------------------------------------------------------------

  datatype Step =
    | CreateHold(stay: Stay, sellable: bool, roomMinor: int, discountMinor: int)
    | ExpireHolds
    /** `nightly` is what the offer asks per night now, when the rate side still sells the stay. */
    | Confirm(hold: nat, nightly: Option<seq<int>>, paid: bool)
    | GuestCancel(booking: nat, allowed: bool)
    | Tick(ms: nat)

  function Placed(t: Tables, h: Hold): Tables {
    Recompute(t.(holds := t.holds + [h]), h.stay)
  }

  function ExpireUpTo(t: Tables, n: nat): Tables
    requires n <= |t.holds|
    ensures |ExpireUpTo(t, n).holds| == |t.holds| && ExpireUpTo(t, n).now == t.now
  {
    if n == 0 then t else ExpireOne(ExpireUpTo(t, n - 1), n - 1)
  }

  function ExpireOne(t: Tables, i: nat): Tables
    requires i < |t.holds|
  {
    var h := t.holds[i];
    if h.state == Held && h.expiresAt <= t.now
    then Recompute(t.(holds := t.holds[i := h.(state := Expired)]), h.stay)
    else t
  }

  /** The stay is still offered, on the availability side and on the rate side. */
  predicate StillOffered(t: Tables, s: Stay, nightly: Option<seq<int>>) {
    SearchOffers(t, s) && nightly.Some? && |nightly.value| == s.departure - s.arrival
  }

  function BookingAmount(t: Tables, h: Hold, nightly: Option<seq<int>>): int {
    if StillOffered(t, h.stay, nightly) then Sum(HoldPricing.Discounted(nightly.value, h.discountMinor))
    else if h.stay.arrival < h.stay.departure then
      Sum(HoldPricing.Discounted(HoldPricing.EvenSplit(h.roomMinor, h.stay.departure - h.stay.arrival),
        h.discountMinor))
    else 0
  }

  /** The booking is written and its nights recomputed; then the hold is converted and they are recomputed again. */
  function Finalized(t: Tables, i: nat, h: Hold, nightly: Option<seq<int>>): Tables
    requires i < |t.holds|
  {
    var booked := Recompute(t.(bookings := t.bookings + [Booking(h.stay, true, BookingAmount(t, h, nightly))]), h.stay);
    Recompute(booked.(holds := booked.holds[i := booked.holds[i].(state := Converted(|t.bookings|))]), h.stay)
  }

  function ConfirmResult(t: Tables, i: nat, nightly: Option<seq<int>>, paid: bool): Result<nat, EngineError> {
    if i >= |t.holds| then Err(HoldGone)
    else
      var h := t.holds[i];
      match h.state
      case Converted(b) => Ok(b)
      case Expired => Err(HoldGone)
      case Held =>
        if !paid then Err(PaymentDeclined)
        else if !StillOffered(t, h.stay, nightly) && h.expiresAt <= t.now then Err(NotAvailable)
        else Ok(|t.bookings|)
  }

  function Cancelled(t: Tables, b: nat): Tables
    requires b < |t.bookings|
  {
    Recompute(t.(bookings := t.bookings[b := t.bookings[b].(confirmed := false, amountMinor := 0)]), t.bookings[b].stay)
  }

  function Next(t: Tables, step: Step): Tables {
    match step
    case CreateHold(s, sellable, roomMinor, discountMinor) =>
      if sellable && SearchOffers(t, s) then Placed(t, Hold(s, t.now + HOLD_MS, Held, roomMinor, discountMinor)) else t
    case ExpireHolds => ExpireUpTo(t, |t.holds|)
    case Confirm(i, nightly, paid) =>
      if i < |t.holds| && t.holds[i].state == Held && ConfirmResult(t, i, nightly, paid).Ok?
      then Finalized(t, i, t.holds[i], nightly) else t
    case GuestCancel(b, allowed) => if b < |t.bookings| && allowed then Cancelled(t, b) else t
    case Tick(ms) => t.(now := t.now + ms)
  }

  function Run(t: Tables, steps: seq<Step>): Tables {
    if steps == [] then t else Next(Run(t, steps[..|steps| - 1]), steps[|steps| - 1])
  }

  // ---- the invariant --------------------------------------------------------------------------

  /** The index never promises more than a recount would. */
  ghost predicate IndexSound(t: Tables) {
    forall rt, d :: rt in t.rooms ==> Stored(t, rt, d) <= Recount(t, rt, d)
  }

  ghost predicate NotOversold(t: Tables) {
    forall rt, d :: rt in t.rooms ==> Booked(t, rt, d) + HeldOn(t, rt, d) <= t.rooms[rt]
  }

  /** Each converted hold has a booking of its own for its stay. */
  ghost predicate ConvertedOnce(t: Tables) {
    && (forall i :: 0 <= i < |t.holds| && t.holds[i].state.Converted? ==>
          t.holds[i].state.bookingId < |t.bookings| && t.bookings[t.holds[i].state.bookingId].stay == t.holds[i].stay)
    && (forall i, j :: 0 <= i < j < |t.holds| && t.holds[i].state.Converted? && t.holds[j].state.Converted? ==>
          t.holds[i].state.bookingId != t.holds[j].state.bookingId)
  }

  /** Holds are for at least one night of a room type the property has. */
  ghost predicate HoldsReal(t: Tables) {
    forall i :: 0 <= i < |t.holds|
      ==> t.holds[i].stay.roomType in t.rooms && t.holds[i].stay.arrival < t.holds[i].stay.departure
  }

  ghost predicate BookingsReal(t: Tables) {
    forall i :: 0 <= i < |t.bookings| ==> t.bookings[i].stay.roomType in t.rooms
  }

  ghost predicate Inv(t: Tables) {
    IndexSound(t) && NotOversold(t) && ConvertedOnce(t) && HoldsReal(t) && BookingsReal(t)
  }

  /** No holds, no bookings, and an index seeded with at most the room count. */
  ghost predicate Initial(t: Tables) {
    t.holds == [] && t.bookings == [] && forall rt, d :: rt in t.rooms ==> Stored(t, rt, d) <= t.rooms[rt]
  }

  lemma {:induction false} RewrittenAt(t: Tables, roomType: RoomTypeId, first: int, end: int, rt: RoomTypeId, d: int)
    requires roomType in t.rooms
    ensures Stored(t.(stored := Rewritten(t, roomType, first, end)), rt, d)
      == (if rt == roomType && first <= d < end then Recount(t, rt, d) else Stored(t, rt, d))
    decreases end - first
  {
    if first < end { RewrittenAt(t, roomType, first, end - 1, rt, d); }
  }

  /** After a recompute the nights of the stay are exact and the others are as they were. */
  lemma RecomputeAt(t: Tables, s: Stay, rt: RoomTypeId, d: int)
    ensures Booked(Recompute(t, s), rt, d) == Booked(t, rt, d) && HeldOn(Recompute(t, s), rt, d) == HeldOn(t, rt, d)
    ensures s.roomType in t.rooms ==>
      Stored(Recompute(t, s), rt, d) == (if Covers(s, rt, d) then Recount(t, rt, d) else Stored(t, rt, d))
  {
    if s.roomType in t.rooms {
      RewrittenAt(t, s.roomType, s.arrival, s.departure, rt, d);
    }
  }

  lemma {:induction false} OfferedEveryNight(t: Tables, roomType: RoomTypeId, first: int, end: int, d: int)
    requires first <= d < end
    ensures Stored(t, roomType, d) >= MinStored(t, roomType, first, end)
    decreases end - first
  {
    if d < end - 1 { OfferedEveryNight(t, roomType, first, end - 1, d); }
  }

  /** Where search offers a stay, every night has a room that is neither booked nor held. */
  lemma OfferedHasRoom(t: Tables, s: Stay, rt: RoomTypeId, d: int)
    requires IndexSound(t) && SearchOffers(t, s) && Covers(s, rt, d)
    ensures Booked(t, rt, d) + HeldOn(t, rt, d) + 1 <= t.rooms[rt]
  {
    OfferedEveryNight(t, s.roomType, s.arrival, s.departure, d);
    assert Stored(t, rt, d) <= Recount(t, rt, d);
  }

  /** A change of rows that moves counts only on the nights of a stay, followed by a recompute of that stay. */
  lemma RecomputeRestoresIndex(t: Tables, u: Tables, s: Stay)
    requires IndexSound(t) && u.rooms == t.rooms && u.stored == t.stored && s.roomType in t.rooms
    requires forall rt, d ::
      !Covers(s, rt, d) ==> Booked(u, rt, d) + HeldOn(u, rt, d) <= Booked(t, rt, d) + HeldOn(t, rt, d)
    ensures IndexSound(Recompute(u, s))
    ensures forall d :: Covers(s, s.roomType, d) ==> Stored(Recompute(u, s), s.roomType, d) == Recount(u, s.roomType, d)
  {
    var v := Recompute(u, s);
    forall rt, d | rt in v.rooms
      ensures Stored(v, rt, d) <= Recount(v, rt, d)
      ensures Covers(s, rt, d) ==> Stored(v, rt, d) == Recount(u, rt, d)
    {
      RecomputeAt(u, s, rt, d);
      assert Stored(t, rt, d) <= Recount(t, rt, d);
    }
  }

  // ---- every step keeps the invariant --------------------------------------------------------

  lemma PlacedCounts(t: Tables, h: Hold, rt: RoomTypeId, d: int)
    ensures HeldOn(t.(holds := t.holds + [h]), rt, d) == HeldOn(t, rt, d) + One(Live(h, t.now) && Covers(h.stay, rt, d))
  {
    CountGrows(t.holds, h, HoldsNight(rt, d, t.now));
  }

  lemma PlacedKeeps(t: Tables, h: Hold)
    requires Inv(t) && SearchOffers(t, h.stay) && h.state == Held
    ensures Inv(Placed(t, h))
  {
    var u := t.(holds := t.holds + [h]);
    forall rt, d ensures HeldOn(u, rt, d) == HeldOn(t, rt, d) + One(Live(h, t.now) && Covers(h.stay, rt, d)) {
      PlacedCounts(t, h, rt, d);
    }
    RecomputeRestoresIndex(t, u, h.stay);
    forall rt, d | rt in t.rooms ensures Booked(u, rt, d) + HeldOn(u, rt, d) <= t.rooms[rt] {
      assert Booked(t, rt, d) + HeldOn(t, rt, d) <= t.rooms[rt];
      if Covers(h.stay, rt, d) { OfferedHasRoom(t, h.stay, rt, d); }
    }
    RecomputeKeepsCounts(u, h.stay);
  }

  lemma RecomputeKeepsCounts(u: Tables, s: Stay)
    ensures NotOversold(Recompute(u, s)) <==> NotOversold(u)
    ensures ConvertedOnce(Recompute(u, s)) <==> ConvertedOnce(u)
    ensures HoldsReal(Recompute(u, s)) <==> HoldsReal(u)
    ensures BookingsReal(Recompute(u, s)) <==> BookingsReal(u)
  {
    var v := Recompute(u, s);
    forall rt, d ensures Booked(v, rt, d) == Booked(u, rt, d) && HeldOn(v, rt, d) == HeldOn(u, rt, d) {
      RecomputeAt(u, s, rt, d);
    }
  }

  lemma HoldStateCounts(t: Tables, i: nat, state: HoldState, rt: RoomTypeId, d: int)
    requires i < |t.holds| && state != Held
    ensures
      var h := t.holds[i];
      HeldOn(t.(holds := t.holds[i := h.(state := state)]), rt, d) + One(Live(h, t.now) && Covers(h.stay, rt, d))
        == HeldOn(t, rt, d)
  {
    CountUpdate(t.holds, i, t.holds[i].(state := state), HoldsNight(rt, d, t.now));
  }

  lemma ExpireOneKeeps(t: Tables, i: nat)
    requires Inv(t) && i < |t.holds|
    ensures Inv(ExpireOne(t, i))
  {
    var h := t.holds[i];
    if h.state == Held && h.expiresAt <= t.now {
      var u := t.(holds := t.holds[i := h.(state := Expired)]);
      forall rt, d ensures HeldOn(u, rt, d) == HeldOn(t, rt, d) { HoldStateCounts(t, i, Expired, rt, d); }
      RecomputeRestoresIndex(t, u, h.stay);
      forall rt, d | rt in t.rooms ensures Booked(u, rt, d) + HeldOn(u, rt, d) <= t.rooms[rt] {
        assert Booked(t, rt, d) + HeldOn(t, rt, d) <= t.rooms[rt];
      }
      RecomputeKeepsCounts(u, h.stay);
    }
  }

  lemma {:induction false} ExpireKeeps(t: Tables, n: nat)
    requires Inv(t) && n <= |t.holds|
    ensures Inv(ExpireUpTo(t, n))
  {
    if n > 0 {
      ExpireKeeps(t, n - 1);
      var u := ExpireUpTo(t, n - 1);
      assert ExpireUpTo(t, n) == ExpireOne(u, n - 1);
      ExpireOneKeeps(u, n - 1);
    }
  }

  lemma BookedCounts(t: Tables, b: Booking, rt: RoomTypeId, d: int)
    ensures Booked(t.(bookings := t.bookings + [b]), rt, d)
      == Booked(t, rt, d) + One(b.confirmed && Covers(b.stay, rt, d))
  {
    CountGrows(t.bookings, b, BooksNight(rt, d));
  }

  /** Counts after a confirmation: one more booking on the nights of the stay, one live hold less if it was live. */
  lemma FinalizedCounts(t: Tables, i: nat, h: Hold, nightly: Option<seq<int>>, rt: RoomTypeId, d: int)
    requires i < |t.holds| && t.holds[i].stay == h.stay
    ensures Booked(Finalized(t, i, h, nightly), rt, d) == Booked(t, rt, d) + One(Covers(h.stay, rt, d))
    ensures HeldOn(Finalized(t, i, h, nightly), rt, d) + One(Live(t.holds[i], t.now) && Covers(h.stay, rt, d))
      == HeldOn(t, rt, d)
  {
    var b := Booking(h.stay, true, BookingAmount(t, h, nightly));
    var withBooking := t.(bookings := t.bookings + [b]);
    var booked := Recompute(withBooking, h.stay);
    var state := Converted(|t.bookings|);
    var converted := booked.(holds := booked.holds[i := booked.holds[i].(state := state)]);
    BookedCounts(t, b, rt, d);
    RecomputeAt(withBooking, h.stay, rt, d);
    HoldStateCounts(booked, i, state, rt, d);
    RecomputeAt(converted, h.stay, rt, d);
  }

  /** The index stays sound over a confirmation, whatever the counts do. */
  lemma FinalizedIndexSound(t: Tables, i: nat, h: Hold, nightly: Option<seq<int>>)
    requires IndexSound(t) && i < |t.holds| && t.holds[i].stay == h.stay && h.stay.roomType in t.rooms
    ensures IndexSound(Finalized(t, i, h, nightly))
  {
    var b := Booking(h.stay, true, BookingAmount(t, h, nightly));
    var withBooking := t.(bookings := t.bookings + [b]);
    forall rt, d | !Covers(h.stay, rt, d) ensures Booked(withBooking, rt, d) == Booked(t, rt, d) {
      BookedCounts(t, b, rt, d);
    }
    RecomputeRestoresIndex(t, withBooking, h.stay);
    var booked := Recompute(withBooking, h.stay);
    var state := Converted(|t.bookings|);
    var converted := booked.(holds := booked.holds[i := booked.holds[i].(state := state)]);
    forall rt, d | !Covers(h.stay, rt, d) ensures HeldOn(converted, rt, d) == HeldOn(booked, rt, d) {
      HoldStateCounts(booked, i, state, rt, d);
    }
    RecomputeRestoresIndex(booked, converted, h.stay);
  }

  lemma FinalizedRows(t: Tables, i: nat, h: Hold, nightly: Option<seq<int>>)
    requires i < |t.holds| && t.holds[i].stay == h.stay && h.stay.roomType in t.rooms
    requires ConvertedOnce(t) && HoldsReal(t) && BookingsReal(t)
    ensures ConvertedOnce(Finalized(t, i, h, nightly)) && HoldsReal(Finalized(t, i, h, nightly))
      && BookingsReal(Finalized(t, i, h, nightly))
  {
    var u := Finalized(t, i, h, nightly);
    assert u.bookings == t.bookings + [Booking(h.stay, true, BookingAmount(t, h, nightly))];
    assert u.holds == t.holds[i := t.holds[i].(state := Converted(|t.bookings|))];
  }

  lemma ConfirmKeeps(t: Tables, i: nat, nightly: Option<seq<int>>, paid: bool)
    requires Inv(t) && i < |t.holds| && t.holds[i].state == Held && ConfirmResult(t, i, nightly, paid).Ok?
    ensures Inv(Finalized(t, i, t.holds[i], nightly))
  {
    var h := t.holds[i];
    var u := Finalized(t, i, h, nightly);
    FinalizedIndexSound(t, i, h, nightly);
    FinalizedRows(t, i, h, nightly);
    forall rt, d | rt in t.rooms ensures Booked(u, rt, d) + HeldOn(u, rt, d) <= t.rooms[rt] {
      FinalizedCounts(t, i, h, nightly, rt, d);
      assert Booked(t, rt, d) + HeldOn(t, rt, d) <= t.rooms[rt];
      // a live hold hands its own room over; an expired one was just found on offer
      if !Live(h, t.now) && Covers(h.stay, rt, d) { OfferedHasRoom(t, h.stay, rt, d); }
    }
  }

  lemma CancelKeeps(t: Tables, b: nat)
    requires Inv(t) && b < |t.bookings|
    ensures Inv(Cancelled(t, b))
  {
    var s := t.bookings[b].stay;
    var cancelled := t.bookings[b].(confirmed := false, amountMinor := 0);
    var u := t.(bookings := t.bookings[b := cancelled]);
    forall rt, d ensures Booked(u, rt, d) <= Booked(t, rt, d) {
      CountUpdate(t.bookings, b, cancelled, BooksNight(rt, d));
    }
    RecomputeRestoresIndex(t, u, s);
    forall rt, d | rt in t.rooms ensures Booked(u, rt, d) + HeldOn(u, rt, d) <= t.rooms[rt] {
      assert Booked(t, rt, d) + HeldOn(t, rt, d) <= t.rooms[rt];
    }
    RecomputeKeepsCounts(u, s);
  }

  lemma TickKeeps(t: Tables, ms: nat)
    requires Inv(t)
    ensures Inv(t.(now := t.now + ms))
  {
    var u := t.(now := t.now + ms);
    forall rt, d | rt in t.rooms
      ensures Stored(u, rt, d) <= Recount(u, rt, d) && Booked(u, rt, d) + HeldOn(u, rt, d) <= t.rooms[rt]
    {
      CountMonotone(t.holds, HoldsNight(rt, d, u.now), HoldsNight(rt, d, t.now));
      assert Stored(t, rt, d) <= Recount(t, rt, d);
      assert Booked(t, rt, d) + HeldOn(t, rt, d) <= t.rooms[rt];
    }
  }

  lemma StepKeeps(t: Tables, step: Step)
    requires Inv(t)
    ensures Inv(Next(t, step))
  {
    match step
    case CreateHold(s, sellable, roomMinor, discountMinor) =>
      if sellable && SearchOffers(t, s) { PlacedKeeps(t, Hold(s, t.now + HOLD_MS, Held, roomMinor, discountMinor)); }
    case ExpireHolds => ExpireKeeps(t, |t.holds|);
    case Confirm(i, nightly, paid) =>
      if i < |t.holds| && t.holds[i].state == Held && ConfirmResult(t, i, nightly, paid).Ok? {
        ConfirmKeeps(t, i, nightly, paid);
      }
    case GuestCancel(b, allowed) => if b < |t.bookings| && allowed { CancelKeeps(t, b); }
    case Tick(ms) => TickKeeps(t, ms);
  }

  lemma InitialInv(t: Tables)
    requires Initial(t)
    ensures Inv(t)
  {
    forall rt, d | rt in t.rooms ensures Stored(t, rt, d) <= Recount(t, rt, d) { }
  }

  /** In every run no night is oversold and the index never promises a room that a recount would not find. */
  lemma {:induction false} RunsAreSafe(t: Tables, steps: seq<Step>)
    requires Initial(t)
    ensures Inv(Run(t, steps))
  {
    if steps == [] {
      InitialInv(t);
    } else {
      RunsAreSafe(t, steps[..|steps| - 1]);
      StepKeeps(Run(t, steps[..|steps| - 1]), steps[|steps| - 1]);
    }
  }

  // ---- what a single confirmation guarantees -------------------------------------------------

  /** Right after a confirmation the index is a recount on every night of the stay. */
  lemma ConfirmLeavesIndexExact(t: Tables, i: nat, nightly: Option<seq<int>>, d: int)
    requires i < |t.holds| && t.holds[i].stay.roomType in t.rooms
      && Covers(t.holds[i].stay, t.holds[i].stay.roomType, d)
    ensures
      var u := Finalized(t, i, t.holds[i], nightly);
      Stored(u, t.holds[i].stay.roomType, d) == Recount(u, t.holds[i].stay.roomType, d)
  {
    var h := t.holds[i];
    var withBooking := t.(bookings := t.bookings + [Booking(h.stay, true, BookingAmount(t, h, nightly))]);
    var booked := Recompute(withBooking, h.stay);
    var converted := booked.(holds := booked.holds[i := booked.holds[i].(state := Converted(|t.bookings|))]);
    RecomputeAt(converted, h.stay, h.stay.roomType, d);
  }

  /** BE-6: once a hold is confirmed, confirming it again changes nothing and names the same booking. */
  lemma ConfirmIsIdempotent(t: Tables, i: nat, nightly: Option<seq<int>>, paid: bool, again: Option<seq<int>>,
    paidAgain: bool)
    requires i < |t.holds| && t.holds[i].state == Held && ConfirmResult(t, i, nightly, paid).Ok?
    ensures
      var u := Next(t, Confirm(i, nightly, paid));
      && Next(u, Confirm(i, again, paidAgain)) == u
      && ConfirmResult(u, i, again, paidAgain) == ConfirmResult(t, i, nightly, paid)
      && |u.bookings| == |t.bookings| + 1
  {
  }

  /**
   * Money: a booking made from the hold alone is worth the quoted room price less the
   * discount; one made while the stay is still on offer is worth the room price asked at
   * that moment less the discount. So the guest's booking carries the quoted price exactly
   * when the stay is gone from the offers or still asks what was quoted.
   */
  lemma BookingCarriesQuoteIff(t: Tables, h: Hold, nightly: Option<seq<int>>)
    requires h.stay.arrival < h.stay.departure && h.discountMinor >= 0
    ensures BookingAmount(t, h, nightly) == h.roomMinor - h.discountMinor <==>
      !StillOffered(t, h.stay, nightly) || Sum(nightly.value) == h.roomMinor
  {
    var nights := h.stay.departure - h.stay.arrival;
    HoldPricing.HoldMoneyConserved(h.roomMinor, nights, h.discountMinor);
    if StillOffered(t, h.stay, nightly) {
      HoldPricing.DiscountConserves(nightly.value, h.discountMinor);
    }
  }

  // ---- the consumer of booking.revision_applied ----------------------------------------------

  /**
   * The background consumer of a booking event recomputes the nights of the booking from
   * rooms and bookings only: live holds are not subtracted.
   */
  function Derived(t: Tables, roomType: RoomTypeId, nights: set<int>): Tables
    requires roomType in t.rooms
  {
    t.(stored := t.stored + map cell | cell in (set d | d in nights :: (roomType, d)) ::
      Floor0(t.rooms[roomType] - Booked(t, cell.0, cell.1)))
  }

  lemma DerivedAt(t: Tables, roomType: RoomTypeId, nights: set<int>, rt: RoomTypeId, d: int)
    requires roomType in t.rooms
    ensures
      Stored(Derived(t, roomType, nights), rt, d)
      == (if rt == roomType && d in nights then Floor0(t.rooms[roomType] - Booked(t, roomType, d))
        else Stored(t, rt, d))
    ensures Booked(Derived(t, roomType, nights), rt, d) == Booked(t, rt, d)
    ensures HeldOn(Derived(t, roomType, nights), rt, d) == HeldOn(t, rt, d)
  {
  }

  /** It keeps the index sound exactly when no live hold covers any of those nights. */
  lemma DeriveSoundIff(t: Tables, roomType: RoomTypeId, nights: set<int>)
    requires Inv(t) && roomType in t.rooms
    ensures IndexSound(Derived(t, roomType, nights)) <==> forall d :: d in nights ==> HeldOn(t, roomType, d) == 0
  {
    var u := Derived(t, roomType, nights);
    forall rt, d | rt in t.rooms
      ensures Stored(u, rt, d) <= Recount(u, rt, d) <==> (rt == roomType && d in nights ==> HeldOn(t, roomType, d) == 0)
    {
      DerivedAt(t, roomType, nights, rt, d);
      assert Stored(t, rt, d) <= Recount(t, rt, d);
      assert Booked(t, rt, d) + HeldOn(t, rt, d) <= t.rooms[rt];
    }
    if IndexSound(u) {
      forall d | d in nights ensures HeldOn(t, roomType, d) == 0 {
        assert Stored(u, roomType, d) <= Recount(u, roomType, d);
      }
    }
  }

  /**
   * Where the last room of a night is under a live hold, one such recompute puts it back on
   * offer and the next guest's hold oversells the night.
   */
  lemma DerivedIndexOversells(t: Tables, s: Stay, sellable: bool, roomMinor: int, discountMinor: int)
    requires Inv(t) && s.roomType in t.rooms && s.departure == s.arrival + 1 && sellable
    requires HeldOn(t, s.roomType, s.arrival) > 0
    requires Booked(t, s.roomType, s.arrival) + HeldOn(t, s.roomType, s.arrival) == t.rooms[s.roomType]
    ensures !NotOversold(Next(Derived(t, s.roomType, {s.arrival}), CreateHold(s, sellable, roomMinor, discountMinor)))
    ensures Next(t, CreateHold(s, sellable, roomMinor, discountMinor)) == t
  {
    var rt, d := s.roomType, s.arrival;
    var u := Derived(t, rt, {d});
    DerivedAt(t, rt, {d}, rt, d);
    assert SearchOffers(u, s);
    var h := Hold(s, u.now + HOLD_MS, Held, roomMinor, discountMinor);
    PlacedCounts(u, h, rt, d);
    RecomputeAt(u.(holds := u.holds + [h]), s, rt, d);
    var v := Placed(u, h);
    assert Booked(v, rt, d) + HeldOn(v, rt, d) == v.rooms[rt] + 1;
    if SearchOffers(t, s) { OfferedHasRoom(t, s, rt, d); }
  }

  // ---- a confirmation whose claim and booking are apart ---------------------------------------

  /**
   * Phase three of a confirmation that claimed its hold earlier, at `claimedAt`: the hold as
   * it was read then decides, the row may have changed since.
   */
  function LateResult(t: Tables, h: Hold, claimedAt: int, nightly: Option<seq<int>>): bool {
    StillOffered(t, h.stay, nightly) || h.expiresAt > claimedAt
  }

  /**
   * A hold that was live when claimed is booked whatever has happened to its row since. A late
   * booking, of such a hold or of a stay still on offer, oversells no night exactly when the row
   * is still live, or every night has a room to spare.
   */
  lemma LateFinalizeSafeIff(t: Tables, i: nat, h: Hold, claimedAt: int, nightly: Option<seq<int>>)
    requires Inv(t) && i < |t.holds| && t.holds[i].stay == h.stay
    ensures h.expiresAt > claimedAt ==> LateResult(t, h, claimedAt, nightly)
    ensures NotOversold(Finalized(t, i, h, nightly)) <==>
      || Live(t.holds[i], t.now)
      || (forall d :: h.stay.arrival <= d < h.stay.departure ==>
            Booked(t, h.stay.roomType, d) + HeldOn(t, h.stay.roomType, d) < t.rooms[h.stay.roomType])
  {
    var u := Finalized(t, i, h, nightly);
    var live := Live(t.holds[i], t.now);
    forall rt, d | rt in t.rooms
      ensures Booked(u, rt, d) + HeldOn(u, rt, d)
        == Booked(t, rt, d) + HeldOn(t, rt, d) + One(Covers(h.stay, rt, d) && !live)
      ensures Booked(t, rt, d) + HeldOn(t, rt, d) <= t.rooms[rt]
    {
      FinalizedCounts(t, i, h, nightly, rt, d);
    }
    if NotOversold(u) && !live {
      forall d | h.stay.arrival <= d < h.stay.departure
        ensures Booked(t, h.stay.roomType, d) + HeldOn(t, h.stay.roomType, d) < t.rooms[h.stay.roomType]
      {
        assert Booked(u, h.stay.roomType, d) + HeldOn(u, h.stay.roomType, d) <= u.rooms[h.stay.roomType];
      }
    }
  }

  lemma RunOfFour(t: Tables, a: Step, b: Step, c: Step, d: Step)
    ensures Run(t, [a, b, c, d]) == Next(Next(Next(Next(t, a), b), c), d)
  {
    var steps := [a, b, c, d];
    assert steps[..3] == [a, b, c] && [a, b, c][..2] == [a, b] && [a, b][..1] == [a] && [a][..0] == [];
    assert Run(t, [a]) == Next(Run(t, []), a);
    assert Run(t, [a, b]) == Next(Run(t, [a]), b);
    assert Run(t, [a, b, c]) == Next(Run(t, [a, b]), c);
  }

  /** An expired hold gives its room back: the stay is on offer again. */
  lemma ExpiredIsOnOffer(t: Tables, h: Hold)
    requires h.stay == Stay(h.stay.roomType, 0, 1) && t.rooms == map[h.stay.roomType := 1]
    requires t.bookings == [] && t.holds == [h] && h.state == Held && h.expiresAt <= t.now
    ensures SearchOffers(Next(t, ExpireHolds), h.stay) && Next(t, ExpireHolds).holds == [h.(state := Expired)]
    ensures Next(t, ExpireHolds).rooms == t.rooms && Next(t, ExpireHolds).bookings == []
      && Next(t, ExpireHolds).now == t.now
  {
    var rt := h.stay.roomType;
    var gone := h.(state := Expired);
    var u := t.(holds := [gone]);
    assert [h][0 := gone] == [gone];
    assert ExpireUpTo(t, 1) == ExpireOne(ExpireUpTo(t, 0), 0) == Recompute(u, h.stay);
    RecomputeAt(u, h.stay, rt, 0);
    CountGrows([], gone, HoldsNight(rt, 0, t.now));
    assert [] + [gone] == [gone];
    assert Stored(Recompute(u, h.stay), rt, 0) == 1;
  }

  lemma PlacedHolds(t: Tables, h: Hold, rt: RoomTypeId, d: int)
    requires Live(h, t.now) && Covers(h.stay, rt, d)
    ensures HeldOn(Placed(t, h), rt, d) == HeldOn(t, rt, d) + 1
    ensures Placed(t, h).holds == t.holds + [h] && Placed(t, h).now == t.now && Placed(t, h).rooms == t.rooms
  {
    PlacedCounts(t, h, rt, d);
    RecomputeAt(t.(holds := t.holds + [h]), h.stay, rt, d);
  }

  lemma LateOversellsFullNight(t: Tables, i: nat, h: Hold, d: int)
    requires Inv(t) && i < |t.holds| && t.holds[i].stay == h.stay && !Live(t.holds[i], t.now)
    requires h.expiresAt > 0 && Covers(h.stay, h.stay.roomType, d)
    requires HeldOn(t, h.stay.roomType, d) >= t.rooms[h.stay.roomType]
    ensures !NotOversold(Finalized(t, i, h, None))
  {
    LateFinalizeSafeIff(t, i, h, 0, None);
    assert !(Booked(t, h.stay.roomType, d) + HeldOn(t, h.stay.roomType, d) < t.rooms[h.stay.roomType]);
  }

  /** One room, one night, nothing booked. */
  ghost function OneRoom(rt: RoomTypeId): Tables {
    Tables(map[rt := 1], [], [], map[(rt, 0) := 1], 0)
  }

  lemma FirstGuestWaits(rt: RoomTypeId) returns (h: Hold)
    ensures h == Hold(Stay(rt, 0, 1), HOLD_MS, Held, 0, 0)
    ensures
      var waited := Next(Next(OneRoom(rt), CreateHold(h.stay, true, 0, 0)), Tick(HOLD_MS));
      waited.rooms == map[rt := 1] && waited.bookings == [] && waited.holds == [h] && waited.now == HOLD_MS
  {
    h := Hold(Stay(rt, 0, 1), HOLD_MS, Held, 0, 0);
    assert SearchOffers(OneRoom(rt), h.stay);
    assert [] + [h] == [h];
  }

  /**
   * The room of a guest who was slow to pay is sold to the next guest, and both end up with a
   * booking of the one room.
   */
  lemma LateFinalizeCanOversell(rt: RoomTypeId) returns (steps: seq<Step>, h: Hold)
    ensures Initial(OneRoom(rt))
    ensures |Run(OneRoom(rt), steps).holds| > 0 && Run(OneRoom(rt), steps).holds[0].stay == h.stay && h.expiresAt > 0
    ensures var late := Finalized(Run(OneRoom(rt), steps), 0, h, None);
      var both := Next(late, Confirm(1, None, true));
      !NotOversold(late) && |both.bookings| == 2 && Booked(both, rt, 0) == 2 && both.rooms == map[rt := 1]
  {
    h := FirstGuestWaits(rt);
    var hold := CreateHold(h.stay, true, 0, 0);
    steps := [hold, Tick(HOLD_MS), ExpireHolds, hold];
    RunOfFour(OneRoom(rt), hold, Tick(HOLD_MS), ExpireHolds, hold);
    var waited := Next(Next(OneRoom(rt), hold), Tick(HOLD_MS));
    ExpiredIsOnOffer(waited, h);
    var expired := Next(waited, ExpireHolds);
    RunsAreSafe(OneRoom(rt), steps);
    SecondGuestTakesTheRoom(expired, h, Run(OneRoom(rt), steps));
    BothBook(Run(OneRoom(rt), steps), h);
  }

  lemma SecondGuestTakesTheRoom(expired: Tables, h: Hold, last: Tables)
    requires h.stay == Stay(h.stay.roomType, 0, 1) && h.expiresAt > 0
    requires SearchOffers(expired, h.stay) && expired.rooms == map[h.stay.roomType := 1]
    requires expired.holds == [h.(state := Expired)]
    requires last == Next(expired, CreateHold(h.stay, true, 0, 0)) && Inv(last)
    ensures last.holds == [h.(state := Expired), Hold(h.stay, expired.now + HOLD_MS, Held, 0, 0)]
    ensures last.bookings == expired.bookings && last.rooms == expired.rooms && last.now == expired.now
    ensures !NotOversold(Finalized(last, 0, h, None))
  {
    var second := Hold(h.stay, expired.now + HOLD_MS, Held, 0, 0);
    PlacedHolds(expired, second, h.stay.roomType, 0);
    LateOversellsFullNight(last, 0, h, 0);
  }

  /** The first guest's late booking is followed by the one of the second guest's live hold. */
  lemma BothBook(t: Tables, h: Hold)
    requires h.stay == Stay(h.stay.roomType, 0, 1) && t.bookings == []
    requires |t.holds| == 2 && t.holds[0].stay == h.stay && t.holds[1].stay == h.stay && Live(t.holds[1], t.now)
    ensures var both := Next(Finalized(t, 0, h, None), Confirm(1, None, true));
      |both.bookings| == 2 && Booked(both, h.stay.roomType, 0) == 2 && both.rooms == t.rooms
  {
    var rt := h.stay.roomType;
    var late := Finalized(t, 0, h, None);
    FinalizedCounts(t, 0, h, None, rt, 0);
    OneMoreBooking(t, 0, h);
    LiveHoldBooks(late, 1);
    OneMoreBooking(late, 1, late.holds[1]);
    FinalizedCounts(late, 1, late.holds[1], None, rt, 0);
    assert Booked(t, rt, 0) == 0;
  }

  lemma OneMoreBooking(t: Tables, i: nat, h: Hold)
    requires i < |t.holds|
    ensures var u := Finalized(t, i, h, None);
      && |u.holds| == |t.holds| && (forall k :: 0 <= k < |t.holds| && k != i ==> u.holds[k] == t.holds[k])
      && u.now == t.now && u.rooms == t.rooms && |u.bookings| == |t.bookings| + 1
  {
  }

  lemma LiveHoldBooks(t: Tables, i: nat)
    requires i < |t.holds| && Live(t.holds[i], t.now)
    ensures Next(t, Confirm(i, None, true)) == Finalized(t, i, t.holds[i], None)
  {
  }

  /** A guest quoted 100 for a night is booked at 120, the price asked when the payment is through. */
  lemma QuoteIsNotKept(rt: RoomTypeId)
    ensures var t := Tables(map[rt := 2], [], [], map[(rt, 0) := 2], 0);
      var booked := Next(Next(t, CreateHold(Stay(rt, 0, 1), true, 100, 0)), Confirm(0, Some([120]), true));
      Initial(t) && |booked.bookings| == 1 && booked.bookings[0].amountMinor == 120
  {
    var s := Stay(rt, 0, 1);
    var t := Tables(map[rt := 2], [], [], map[(rt, 0) := 2], 0);
    var h := Hold(s, HOLD_MS, Held, 100, 0);
    assert SearchOffers(t, s);
    OneOfTwoHeld(t, h);
    HoldPricing.DiscountConserves([120], 0);
    assert [120] == [] + [120];
    SumGrows([], 120);
  }

  /** With one of two rooms held the night is still on offer. */
  lemma OneOfTwoHeld(t: Tables, h: Hold)
    requires h.stay.arrival + 1 == h.stay.departure && t.holds == [] && t.bookings == []
    requires Live(h, t.now) && h.stay.roomType in t.rooms && t.rooms[h.stay.roomType] == 2
    ensures StillOffered(Placed(t, h), h.stay, Some([120]))
  {
    var held := t.(holds := t.holds + [h]);
    PlacedCounts(t, h, h.stay.roomType, h.stay.arrival);
    RecomputeAt(held, h.stay, h.stay.roomType, h.stay.arrival);
    assert HeldOn(held, h.stay.roomType, h.stay.arrival) == 1 && Booked(held, h.stay.roomType, h.stay.arrival) == 0;
  }
}
