/**
 * The booking engine together with the background consumer of its booking events. A confirmation
 * and a cancellation apply a revision and queue an event; the consumer takes the events one by
 * one, at any later time, and recomputes the nights of the booking without the holds.
 */
module BookingWorker {
  import opened Wrappers
  import opened Counting
  import opened BookingEngine

  datatype System = System(tables: Tables, pending: seq<Stay>)

  datatype Event = Desk(step: Step) | Consume(i: nat)

  /** The stays of the bookings whose revision a step applies. */
  function Published(t: Tables, step: Step): seq<Stay> {
    match step
    case Confirm(i, nightly, paid) =>
      if i < |t.holds| && t.holds[i].state == Held && ConfirmResult(t, i, nightly, paid).Ok?
      then [t.holds[i].stay] else []
    case GuestCancel(b, allowed) => if b < |t.bookings| && allowed then [t.bookings[b].stay] else []
    case _ => []
  }

  function Nights(first: int, end: int): (nights: set<int>)
    ensures forall d :: d in nights <==> first <= d < end
    decreases end - first
  {
    if end <= first then {} else Nights(first, end - 1) + {end - 1}
  }

  function Consumed(t: Tables, s: Stay): Tables {
    if s.roomType in t.rooms then Derived(t, s.roomType, Nights(s.arrival, s.departure)) else t
  }

  function After(w: System, e: Event): System {
    match e
    case Desk(step) => System(BookingEngine.Next(w.tables, step), w.pending + Published(w.tables, step))
    case Consume(i) =>
      if i < |w.pending| then System(Consumed(w.tables, w.pending[i]), w.pending[..i] + w.pending[i + 1..]) else w
  }

  function SystemRun(w: System, events: seq<Event>): System {
    if events == [] then w else After(SystemRun(w, events[..|events| - 1]), events[|events| - 1])
  }

  /** No live hold covers a night of the stay. */
  ghost predicate Unheld(t: Tables, s: Stay) {
    forall d :: s.arrival <= d < s.departure ==> HeldOn(t, s.roomType, d) == 0
  }

  /** An event keeps the tables sound exactly when no live hold covers a night of its booking. */
  lemma ConsumeKeepsIff(t: Tables, s: Stay)
    requires Inv(t) && s.roomType in t.rooms
    ensures Inv(Consumed(t, s)) <==> Unheld(t, s)
  {
    var nights := Nights(s.arrival, s.departure);
    var u := Consumed(t, s);
    DeriveSoundIff(t, s.roomType, nights);
    forall rt, d | rt in t.rooms ensures Booked(u, rt, d) + HeldOn(u, rt, d) <= u.rooms[rt] {
      DerivedAt(t, s.roomType, nights, rt, d);
      assert Booked(t, rt, d) + HeldOn(t, rt, d) <= t.rooms[rt];
    }
  }

  /** Every event of a run is consumed while no live hold covers its nights. */
  ghost predicate Quiet(w: System, events: seq<Event>) {
    forall k :: 0 <= k < |events| && events[k].Consume? ==>
      var before := SystemRun(w, events[..k]);
      events[k].i < |before.pending| ==> Unheld(before.tables, before.pending[events[k].i])
  }

  ghost predicate PendingReal(w: System) {
    forall i :: 0 <= i < |w.pending| ==> w.pending[i].roomType in w.tables.rooms
  }

  lemma AfterKeeps(w: System, e: Event)
    requires Inv(w.tables) && PendingReal(w)
    requires e.Consume? && e.i < |w.pending| ==> Unheld(w.tables, w.pending[e.i])
    ensures Inv(After(w, e).tables) && PendingReal(After(w, e))
  {
    match e
    case Desk(step) =>
      StepKeeps(w.tables, step);
      RoomsStay(w.tables, step);
    case Consume(i) => if i < |w.pending| { ConsumeKeepsIff(w.tables, w.pending[i]); }
  }

  lemma RoomsStay(t: Tables, step: Step)
    ensures BookingEngine.Next(t, step).rooms == t.rooms
  {
    if step.ExpireHolds? { ExpireKeepsRooms(t, |t.holds|); }
  }

  lemma {:induction false} ExpireKeepsRooms(t: Tables, n: nat)
    requires n <= |t.holds|
    ensures ExpireUpTo(t, n).rooms == t.rooms
  {
    if n > 0 { ExpireKeepsRooms(t, n - 1); }
  }

  /** A run of desk and consumer is safe when every event is consumed while its nights are unheld. */
  lemma {:induction false} QuietRunsAreSafe(w: System, events: seq<Event>)
    requires Initial(w.tables) && w.pending == [] && Quiet(w, events)
    ensures Inv(SystemRun(w, events).tables) && PendingReal(SystemRun(w, events))
  {
    if events == [] {
      InitialInv(w.tables);
    } else {
      var n := |events| - 1;
      forall k | 0 <= k < n ensures events[..n][..k] == events[..k] && events[..n][k] == events[k] { }
      QuietRunsAreSafe(w, events[..n]);
      AfterKeeps(SystemRun(w, events[..n]), events[n]);
    }
  }

  // ---- a run that oversells -----------------------------------------------------------------------------

  /** One room for one night, with this many bookings and live holds on it. */
  ghost predicate OneNight(t: Tables, rt: RoomTypeId, booked: nat, held: nat) {
    t.rooms == map[rt := 1] && Inv(t) && Booked(t, rt, 0) == booked && HeldOn(t, rt, 0) == held
  }

  /** What a run of desk and consumer has reached. */
  ghost predicate Reached(w: System, events: seq<Event>, t: Tables, pending: seq<Stay>) {
    SystemRun(w, events) == System(t, pending)
  }

  lemma DeskRuns(w: System, events: seq<Event>, t: Tables, pending: seq<Stay>, step: Step)
    requires Reached(w, events, t, pending)
    ensures Reached(w, events + [Desk(step)], BookingEngine.Next(t, step), pending + Published(t, step))
  {
    assert (events + [Desk(step)])[..|events|] == events;
  }

  lemma ConsumeRuns(w: System, events: seq<Event>, t: Tables, pending: seq<Stay>, i: nat)
    requires Reached(w, events, t, pending) && i < |pending|
    ensures Reached(w, events + [Consume(i)], Consumed(t, pending[i]), pending[..i] + pending[i + 1..])
  {
    assert (events + [Consume(i)])[..|events|] == events;
  }

  /** A guest holds the room while it is on offer. */
  lemma GuestHolds(w: System, events: seq<Event>, t: Tables, pending: seq<Stay>, rt: RoomTypeId)
    returns (longer: seq<Event>, u: Tables)
    requires Reached(w, events, t, pending) && OneNight(t, rt, 0, 0) && Stored(t, rt, 0) == 1
    ensures Reached(w, longer, u, pending) && OneNight(u, rt, 0, 1)
    ensures u.bookings == t.bookings && u.now == t.now
    ensures u.holds == t.holds + [Hold(Stay(rt, 0, 1), t.now + HOLD_MS, Held, 100, 0)]
  {
    var s := Stay(rt, 0, 1);
    var h := Hold(s, t.now + HOLD_MS, Held, 100, 0);
    var step := CreateHold(s, true, 100, 0);
    longer, u := events + [Desk(step)], BookingEngine.Next(t, step);
    StepKeeps(t, step);
    assert SearchOffers(t, s);
    PlacedCounts(t, h, rt, 0);
    RecomputeAt(t.(holds := t.holds + [h]), s, rt, 0);
    DeskRuns(w, events, t, pending, step);
    assert pending + [] == pending;
  }

  /** The guest of a live hold books. */
  lemma GuestBooks(w: System, events: seq<Event>, t: Tables, pending: seq<Stay>, rt: RoomTypeId)
    returns (longer: seq<Event>, u: Tables)
    requires Reached(w, events, t, pending) && OneNight(t, rt, 0, 1) && |t.holds| == 1 && t.bookings == []
    requires t.holds[0].stay == Stay(rt, 0, 1) && Live(t.holds[0], t.now)
    ensures Reached(w, longer, u, pending + [Stay(rt, 0, 1)]) && OneNight(u, rt, 1, 0)
    ensures |u.bookings| == 1 && u.bookings[0].stay == Stay(rt, 0, 1) && u.bookings[0].confirmed
  {
    var step := Confirm(0, None, true);
    longer, u := events + [Desk(step)], BookingEngine.Next(t, step);
    StepKeeps(t, step);
    FinalizedCounts(t, 0, t.holds[0], None, rt, 0);
    BookedRows(t);
    DeskRuns(w, events, t, pending, step);
  }

  lemma BookedRows(t: Tables)
    requires |t.holds| == 1 && t.bookings == [] && Live(t.holds[0], t.now)
    ensures var u := Finalized(t, 0, t.holds[0], None);
      && BookingEngine.Next(t, Confirm(0, None, true)) == u && u.rooms == t.rooms
      && |u.bookings| == 1 && u.bookings[0].stay == t.holds[0].stay && u.bookings[0].confirmed
      && Published(t, Confirm(0, None, true)) == [t.holds[0].stay]
  {
  }

  /** The guest cancels, and the room is on offer again. */
  lemma GuestCancels(w: System, events: seq<Event>, t: Tables, pending: seq<Stay>, rt: RoomTypeId)
    returns (longer: seq<Event>, u: Tables)
    requires Reached(w, events, t, pending) && OneNight(t, rt, 1, 0)
    requires |t.bookings| == 1 && t.bookings[0].stay == Stay(rt, 0, 1) && t.bookings[0].confirmed
    ensures Reached(w, longer, u, pending + [Stay(rt, 0, 1)]) && OneNight(u, rt, 0, 0) && Stored(u, rt, 0) == 1
  {
    var step := GuestCancel(0, true);
    longer, u := events + [Desk(step)], BookingEngine.Next(t, step);
    var b := t.bookings[0].(confirmed := false, amountMinor := 0);
    StepKeeps(t, step);
    CountUpdate(t.bookings, 0, b, BooksNight(rt, 0));
    RecomputeAt(t.(bookings := t.bookings[0 := b]), Stay(rt, 0, 1), rt, 0);
    DeskRuns(w, events, t, pending, step);
  }

  lemma EmptyDesk(rt: RoomTypeId)
    ensures Initial(OneRoom(rt)) && OneNight(OneRoom(rt), rt, 0, 0) && Stored(OneRoom(rt), rt, 0) == 1
    ensures OneRoom(rt).holds == [] && OneRoom(rt).bookings == []
    ensures Reached(System(OneRoom(rt), []), [], OneRoom(rt), [])
  {
    InitialInv(OneRoom(rt));
  }

  /**
   * A second guest holds the room that was cancelled. Then the event of the cancellation is
   * consumed, the room is on offer again, and a third guest holds it too.
   */
  lemma LateEventOversells(rt: RoomTypeId) returns (events: seq<Event>)
    ensures Initial(OneRoom(rt)) && !NotOversold(SystemRun(System(OneRoom(rt), []), events).tables)
  {
    var s := Stay(rt, 0, 1);
    var w := System(OneRoom(rt), []);
    EmptyDesk(rt);
    var run1, t1 := GuestHolds(w, [], OneRoom(rt), [], rt);
    var run2, t2 := GuestBooks(w, run1, t1, [], rt);
    var run3, t3 := GuestCancels(w, run2, t2, [] + [s], rt);
    var run4, t4 := GuestHolds(w, run3, t3, [] + [s] + [s], rt);
    events := ThirdGuest(w, run4, t4, [] + [s] + [s], rt);
  }

  lemma ThirdGuest(w: System, run: seq<Event>, t: Tables, pending: seq<Stay>, rt: RoomTypeId)
    returns (events: seq<Event>)
    requires Reached(w, run, t, pending) && OneNight(t, rt, 0, 1) && |pending| == 2 && pending[1] == Stay(rt, 0, 1)
    ensures !NotOversold(SystemRun(w, events).tables)
  {
    var s, hold := Stay(rt, 0, 1), CreateHold(Stay(rt, 0, 1), true, 100, 0);
    assert Nights(0, 1) == {0};
    ConsumeRuns(w, run, t, pending, 1);
    DerivedIndexOversells(t, s, true, 100, 0);
    var u := Consumed(t, s);
    events := run + [Consume(1)] + [Desk(hold)];
    DeskRuns(w, run + [Consume(1)], u, pending[..1] + pending[2..], hold);
  }
}
