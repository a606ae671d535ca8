/** The booking engine's operations over mutable tables, each proved to be a step of BookingEngine. */
module BookingDesk {
  import opened Wrappers
  import opened Counting
  import opened Sums
  import opened BookingEngine
  import HoldPricing

  function Get(m: map<int, int>, date: int): int {
    if date in m then m[date] else 0
  }

  /** A row of the table of holds; the engine only makes holds of one room. */
  datatype HoldRow = HoldRow(hold: Hold, rooms: int)

  function RoomsOn(roomType: RoomTypeId, date: int, now: int): HoldRow -> int {
    (r: HoldRow) => if Live(r.hold, now) && Covers(r.hold.stay, roomType, date) then r.rooms else 0
  }

  /** Rooms held per date: live holds of a room type, night by night. */
  method ActiveHoldsByDate(rows: seq<HoldRow>, roomType: RoomTypeId, now: int) returns (out: map<int, int>)
    ensures forall d :: Get(out, d) == Sum(Mapped(RoomsOn(roomType, d, now), rows))
  {
    out := map[];
    for i := 0 to |rows|
      invariant forall d :: Get(out, d) == Sum(Mapped(RoomsOn(roomType, d, now), rows[..i]))
    {
      var row := rows[i];
      var h := row.hold;
      forall d ensures Sum(Mapped(RoomsOn(roomType, d, now), rows[..i + 1]))
        == Sum(Mapped(RoomsOn(roomType, d, now), rows[..i])) + RoomsOn(roomType, d, now)(row)
      {
        NextRow(rows, i, RoomsOn(roomType, d, now));
      }
      if h.stay.roomType != roomType || h.state != Held || h.expiresAt <= now {
        continue;
      }
      ghost var before := out;
      var d := h.stay.arrival;
      while d < h.stay.departure
        invariant forall e ::
          Get(out, e) == Get(before, e) + if h.stay.arrival <= e < d && e < h.stay.departure then row.rooms else 0
        decreases h.stay.departure - d
      {
        out := out[d := Get(out, d) + row.rooms];
        d := d + 1;
      }
    }
    assert rows[..|rows|] == rows;
  }

  lemma NextRow(rows: seq<HoldRow>, i: nat, f: HoldRow -> int)
    requires i < |rows|
    ensures Sum(Mapped(f, rows[..i + 1])) == Sum(Mapped(f, rows[..i])) + f(rows[i])
  {
    assert rows[..i + 1] == rows[..i] + [rows[i]];
    MappedParts(f, rows[..i], [rows[i]]);
    MappedOne(f, rows[i]);
  }

  function RowsOf(holds: seq<Hold>): seq<HoldRow> {
    seq(|holds|, i requires 0 <= i < |holds| => HoldRow(holds[i], 1))
  }

  /** With one room each, the rooms held are the live holds. */
  lemma {:induction false} OneRoomEach(holds: seq<Hold>, roomType: RoomTypeId, d: int, now: int)
    ensures Sum(Mapped(RoomsOn(roomType, d, now), RowsOf(holds))) == Count(holds, HoldsNight(roomType, d, now))
  {
    if holds != [] {
      var front, last := holds[..|holds| - 1], holds[|holds| - 1];
      OneRoomEach(front, roomType, d, now);
      assert RowsOf(holds) == RowsOf(front) + [HoldRow(last, 1)];
      MappedParts(RoomsOn(roomType, d, now), RowsOf(front), [HoldRow(last, 1)]);
      MappedOne(RoomsOn(roomType, d, now), HoldRow(last, 1));
    }
  }

  /** How many nights of [first, end) have more booked and held than there are rooms. */
  function Overbooked(t: Tables, roomType: RoomTypeId, first: int, end: int): nat
    requires roomType in t.rooms
    decreases end - first
  {
    if end <= first then 0
    else
      var before := Overbooked(t, roomType, first, end - 1);
      before + One(Booked(t, roomType, end - 1) + HeldOn(t, roomType, end - 1) > t.rooms[roomType])
  }

  /** The nights of [first, end) with more booked and held than there are rooms. */
  ghost function OverbookedNights(t: Tables, roomType: RoomTypeId, first: int, end: int): set<int>
    requires roomType in t.rooms
  {
    set d | first <= d < end && Booked(t, roomType, d) + HeldOn(t, roomType, d) > t.rooms[roomType]
  }

  lemma {:induction false} OverbookedAre(t: Tables, roomType: RoomTypeId, first: int, end: int)
    requires roomType in t.rooms
    ensures Overbooked(t, roomType, first, end) == |OverbookedNights(t, roomType, first, end)|
    decreases end - first
  {
    var nights := OverbookedNights(t, roomType, first, end);
    if end <= first {
      assert nights == {};
    } else {
      OverbookedAre(t, roomType, first, end - 1);
      var before := OverbookedNights(t, roomType, first, end - 1);
      assert nights ==
        if Booked(t, roomType, end - 1) + HeldOn(t, roomType, end - 1) > t.rooms[roomType]
        then before + {end - 1} else before;
    }
  }

  /** Where the invariant holds a recompute never reports a night as overbooked. */
  lemma {:induction false} NeverOverbooked(t: Tables, roomType: RoomTypeId, first: int, end: int)
    requires Inv(t) && roomType in t.rooms
    ensures Overbooked(t, roomType, first, end) == 0
    decreases end - first
  {
    if first < end {
      NeverOverbooked(t, roomType, first, end - 1);
      assert Booked(t, roomType, end - 1) + HeldOn(t, roomType, end - 1) <= t.rooms[roomType];
    }
  }

  predicate Due(h: Hold, now: int) {
    h.state == Held && h.expiresAt <= now
  }

  /** What the sweep does to the rows: the first n are expired where due, the others wait. */
  lemma {:induction false} SweptRows(t: Tables, n: nat)
    requires n <= |t.holds|
    ensures
      var u := ExpireUpTo(t, n);
      && u.bookings == t.bookings && u.rooms == t.rooms
      && forall i :: 0 <= i < |t.holds| ==>
           u.holds[i] == (if i < n && Due(t.holds[i], t.now) then t.holds[i].(state := Expired) else t.holds[i])
  {
    if n > 0 { SweptRows(t, n - 1); }
  }

  /** The sweep meets each row as it was. */
  lemma SweptRow(t: Tables, i: nat)
    requires i < |t.holds|
    ensures ExpireUpTo(t, i).holds[i] == t.holds[i] && ExpireUpTo(t, i).now == t.now
  {
    SweptRows(t, i);
  }

  lemma NothingDue(t: Tables)
    ensures var u := ExpireUpTo(t, |t.holds|);
      |u.holds| == |t.holds| && forall i :: 0 <= i < |u.holds| ==> !Due(u.holds[i], t.now)
  {
    SweptRows(t, |t.holds|);
  }

  lemma CountNext(holds: seq<Hold>, i: nat, p: Hold -> bool)
    requires i < |holds|
    ensures Count(holds[..i + 1], p) == Count(holds[..i], p) + One(p(holds[i]))
  {
    CountGrows(holds[..i], holds[i], p);
    assert holds[..i + 1] == holds[..i] + [holds[i]];
  }

  class Desk {
    var rooms: map<RoomTypeId, nat>
    var holds: seq<Hold>
    var bookings: seq<Booking>
    var stored: map<Cell, nat>
    var now: int

    function State(): Tables
      reads this
    {
      Tables(rooms, holds, bookings, stored, now)
    }

    constructor (rooms: map<RoomTypeId, nat>, stored: map<Cell, nat>, now: int)
      ensures State() == Tables(rooms, [], [], stored, now)
    {
      this.rooms, this.stored, this.now := rooms, stored, now;
      holds, bookings := [], [];
    }

    method RecomputeAvailability(s: Stay) returns (cells: nat, overbooked: nat)
      modifies this`stored
      ensures State() == Recompute(old(State()), s)
      ensures s.roomType in rooms && s.arrival <= s.departure ==>
        cells == s.departure - s.arrival && overbooked == Overbooked(old(State()), s.roomType, s.arrival, s.departure)
    {
      cells, overbooked := 0, 0;
      if s.roomType !in rooms {
        return;
      }
      var held := ActiveHoldsByDate(RowsOf(holds), s.roomType, now);
      var d := s.arrival;
      while d < s.departure
        invariant s.arrival <= s.departure ==> s.arrival <= d <= s.departure && cells == d - s.arrival
        invariant s.departure < s.arrival ==> d == s.arrival
        invariant State() == old(State()).(stored := Rewritten(old(State()), s.roomType, s.arrival, d))
        invariant s.arrival <= s.departure ==> overbooked == Overbooked(old(State()), s.roomType, s.arrival, d)
        decreases s.departure - d
      {
        OneRoomEach(holds, s.roomType, d, now);
        var raw := rooms[s.roomType] - Count(bookings, BooksNight(s.roomType, d)) - Get(held, d);
        if raw < 0 {
          overbooked := overbooked + 1;
        }
        stored := stored[(s.roomType, d) := Floor0(raw)];
        cells := cells + 1;
        d := d + 1;
      }
    }

    /** The rooms left on every night of the stay: the availability side of searchOffers. */
    method SearchAvailable(s: Stay) returns (available: nat)
      ensures available >= 1 <==> SearchOffers(State(), s)
    {
      if s.arrival >= s.departure || s.roomType !in rooms {
        return 0;
      }
      available := Stored(State(), s.roomType, s.arrival);
      var d := s.arrival + 1;
      while d < s.departure
        invariant s.arrival < d <= s.departure
        invariant available == MinStored(State(), s.roomType, s.arrival, d)
      {
        var left := Stored(State(), s.roomType, d);
        available := if left < available then left else available;
        d := d + 1;
      }
    }

    method CreateHold(s: Stay, sellable: bool, roomMinor: int, discountMinor: int) returns (r: Result<nat, EngineError>)
      modifies this`holds, this`stored
      ensures State() == Next(old(State()), Step.CreateHold(s, sellable, roomMinor, discountMinor))
      ensures r == if sellable && SearchOffers(old(State()), s) then Ok(|old(holds)|) else Err(NotAvailable)
    {
      var available := SearchAvailable(s);
      if !sellable || available < 1 {
        return Err(NotAvailable);
      }
      var expiresAt := now + HOLD_MS;
      holds := holds + [Hold(s, expiresAt, Held, roomMinor, discountMinor)];
      var _, _ := RecomputeAvailability(s);
      r := Ok(|holds| - 1);
    }

    method ExpireHolds() returns (released: nat)
      modifies this`holds, this`stored
      ensures State() == Next(old(State()), Step.ExpireHolds)
      ensures released == Count(old(holds), (h: Hold) => Due(h, old(now)))
      ensures forall i :: 0 <= i < |holds| ==> !Due(holds[i], now)
    {
      released := 0;
      ghost var due := (h: Hold) => Due(h, old(now));
      for i := 0 to |holds|
        invariant |holds| == |old(holds)|
        invariant State() == ExpireUpTo(old(State()), i)
        invariant released == Count(old(holds)[..i], due)
      {
        SweptRow(old(State()), i);
        CountNext(old(holds), i, due);
        var expired := ExpireRow(i);
        released := if expired then released + 1 else released;
      }
      NothingDue(old(State()));
      assert old(holds)[..|holds|] == old(holds);
    }

    method ExpireRow(i: nat) returns (expired: bool)
      requires i < |holds|
      modifies this`holds, this`stored
      ensures State() == ExpireOne(old(State()), i)
      ensures expired <==> Due(old(holds)[i], now)
    {
      var h := holds[i];
      expired := h.state == Held && h.expiresAt <= now;
      if expired {
        holds := holds[i := h.(state := Expired)];
        var _, _ := RecomputeAvailability(h.stay);
      }
    }

    /**
     * Claim, payment and booking as one step; `nightly` is what the offer asks now, if the rate
     * side sells the stay.
     */
    method Confirm(i: nat, nightly: Option<seq<int>>, paid: bool) returns (r: Result<nat, EngineError>)
      modifies this`holds, this`bookings, this`stored
      ensures State() == Next(old(State()), Step.Confirm(i, nightly, paid))
      ensures r == ConfirmResult(old(State()), i, nightly, paid)
    {
      if i >= |holds| {
        return Err(HoldGone);
      }
      var h := holds[i];
      if h.state.Converted? {
        return Ok(h.state.bookingId);
      }
      if h.state == Expired {
        return Err(HoldGone);
      }
      if !paid {
        return Err(PaymentDeclined);
      }
      r := Finalize(i, nightly);
    }

    /** The booking, its nights, the conversion of the hold, and the nights again. */
    method Finalize(i: nat, nightly: Option<seq<int>>) returns (r: Result<nat, EngineError>)
      requires i < |holds| && holds[i].state == Held
      modifies this`holds, this`bookings, this`stored
      ensures State() == Next(old(State()), Step.Confirm(i, nightly, true))
      ensures r == ConfirmResult(old(State()), i, nightly, true)
    {
      var h := holds[i];
      var available := SearchAvailable(h.stay);
      var offered := available >= 1 && nightly.Some? && |nightly.value| == h.stay.departure - h.stay.arrival;
      if !offered && h.expiresAt <= now {
        return Err(NotAvailable);
      }
      var amount := PriceNights(h, nightly, offered);
      var bookingId := |bookings|;
      bookings := bookings + [Booking(h.stay, true, amount)];
      var _, _ := RecomputeAvailability(h.stay);
      holds := holds[i := holds[i].(state := Converted(bookingId))];
      var _, _ := RecomputeAvailability(h.stay);
      r := Ok(bookingId);
    }

    /** What the booking is worth: the offer's nights, or the quote's room price split evenly, less the discount. */
    method PriceNights(h: Hold, nightly: Option<seq<int>>, offered: bool) returns (amount: int)
      requires offered <==> StillOffered(State(), h.stay, nightly)
      ensures amount == BookingAmount(State(), h, nightly)
    {
      amount := 0;
      if offered {
        var discounted := HoldPricing.ApplyDiscount(nightly.value, h.discountMinor);
        amount := Sum(discounted);
      } else if h.stay.arrival < h.stay.departure {
        var even := HoldPricing.NightlyFrom(h.roomMinor, h.stay.departure - h.stay.arrival);
        var discounted := HoldPricing.ApplyDiscount(even, h.discountMinor);
        amount := Sum(discounted);
      }
    }

    method GuestCancel(b: nat, allowed: bool) returns (r: Result<nat, EngineError>)
      modifies this`bookings, this`stored
      ensures State() == Next(old(State()), Step.GuestCancel(b, allowed))
      ensures r == if b >= |old(bookings)| then Err(NotFound) else if allowed then Ok(b) else Err(NotCancellable)
    {
      if b >= |bookings| {
        return Err(NotFound);
      }
      if !allowed {
        return Err(NotCancellable);
      }
      bookings := bookings[b := bookings[b].(confirmed := false, amountMinor := 0)];
      var _, _ := RecomputeAvailability(bookings[b].stay);
      r := Ok(b);
    }
  }
}
