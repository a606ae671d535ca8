/**
 * Overlapping confirmations of one hold. A confirmation claims the hold, pays, and finalizes, in
 * three transactions. A claim leaves the row held, so a second one may claim it before the first
 * has finalized; finalizing writes a booking whatever the row has become.
 */
module Confirmations {
  import opened Counting

  datatype Row = Held | Expired | Converted(booking: nat)

  /** Where an attempt stands. One that was refused, declined or answered with a booking is over. */
  datatype Attempt = Started | Claimed | Paid | Over | Booked(booking: nat)

  /** The row of the hold, the number of bookings made from it, and the attempts so far. */
  datatype World = World(row: Row, bookings: nat, attempts: seq<Attempt>)

  /** `accepted` is what prices and the expiry say when an attempt finalizes. */
  datatype Step = Arrive | Claim(i: nat) | Pay(i: nat, succeeds: bool) | Finalize(i: nat, accepted: bool) | Expire

  predicate At(w: World, i: nat, a: Attempt) {
    i < |w.attempts| && w.attempts[i] == a
  }

  function Next(w: World, s: Step): World {
    match s
    case Arrive => w.(attempts := w.attempts + [Started])
    case Claim(i) =>
      if At(w, i, Started) then w.(attempts := w.attempts[i := if w.row == Held then Claimed else Over]) else w
    case Pay(i, succeeds) =>
      if At(w, i, Claimed) then w.(attempts := w.attempts[i := if succeeds then Paid else Over]) else w
    case Finalize(i, accepted) =>
      if !At(w, i, Paid) then w
      else if !accepted then w.(attempts := w.attempts[i := Over])
      else World(Converted(w.bookings), w.bookings + 1, w.attempts[i := Booked(w.bookings)])
    case Expire => if w.row == Held then w.(row := Expired) else w
  }

  function Run(w: World, steps: seq<Step>): World {
    if steps == [] then w else Next(Run(w, steps[..|steps| - 1]), steps[|steps| - 1])
  }

  const NEW_HOLD := World(Held, 0, [])

  /** An attempt that may still make a booking. */
  function IsOpen(): Attempt -> bool {
    (a: Attempt) => a == Claimed || a == Paid
  }

  function Open(w: World): nat {
    Count(w.attempts, IsOpen())
  }

  // ---- when one hold makes at most one booking ------------------------------------------------------

  /** Nobody can claim any more, and the bookings made and still possible are at most one. */
  predicate Settled(w: World) {
    w.row != Held && w.bookings + Open(w) <= 1
  }

  lemma OpenAfter(w: World, s: Step)
    ensures Open(Next(w, s)) <= Open(w) + One(s.Claim? && w.row == Held && At(w, s.i, Started))
    ensures s.Finalize? && s.accepted && At(w, s.i, Paid) ==> Open(Next(w, s)) + 1 == Open(w)
  {
    match s
    case Arrive => CountGrows(w.attempts, Started, IsOpen());
    case Claim(i) => if At(w, i, Started) {
      CountUpdate(w.attempts, i, if w.row == Held then Claimed else Over, IsOpen());
    }
    case Pay(i, succeeds) => if At(w, i, Claimed) {
      CountUpdate(w.attempts, i, if succeeds then Paid else Over, IsOpen());
    }
    case Finalize(i, accepted) =>
      if At(w, i, Paid) { CountUpdate(w.attempts, i, if accepted then Booked(w.bookings) else Over, IsOpen()); }
    case Expire =>
  }

  lemma {:induction false} SettledStays(w: World, steps: seq<Step>)
    requires Settled(w)
    ensures Settled(Run(w, steps))
  {
    if steps != [] {
      SettledStays(w, steps[..|steps| - 1]);
      OpenAfter(Run(w, steps[..|steps| - 1]), steps[|steps| - 1]);
    }
  }

  /** Some continuation makes a second booking. */
  ghost predicate SecondBookingPossible(w: World) {
    exists steps :: Run(w, steps).bookings >= 2
  }

  lemma RunJoined(w: World, a: seq<Step>, b: seq<Step>)
    ensures Run(w, a + b) == Run(Run(w, a), b)
  {
    if b == [] {
      assert a + b == a;
    } else {
      RunJoined(w, a, b[..|b| - 1]);
      assert (a + b)[..|a + b| - 1] == a + b[..|b| - 1];
    }
  }

  lemma TwoSteps(w: World, s: Step, t: Step)
    ensures Run(w, [s, t]) == Next(Next(w, s), t)
  {
    assert [s, t][..1] == [s] && [s][..0] == [];
    assert Run(w, [s]) == Next(Run(w, []), s);
  }

  /** An open attempt can be carried to its booking. */
  lemma OpenCanBook(w: World, i: nat) returns (steps: seq<Step>)
    requires i < |w.attempts| && IsOpen()(w.attempts[i])
    ensures Run(w, steps).bookings == w.bookings + 1
    ensures Run(w, steps).attempts == w.attempts[i := Booked(w.bookings)]
  {
    if w.attempts[i] == Claimed {
      steps := [Pay(i, true), Finalize(i, true)];
      TwoSteps(w, Pay(i, true), Finalize(i, true));
    } else {
      steps := [Finalize(i, true)];
      assert [Finalize(i, true)][..0] == [];
      assert Run(w, []) == w;
    }
  }

  lemma {:induction false} SomeOpen(attempts: seq<Attempt>) returns (i: nat)
    requires Count(attempts, IsOpen()) >= 1
    ensures i < |attempts| && IsOpen()(attempts[i])
  {
    if IsOpen()(attempts[|attempts| - 1]) { i := |attempts| - 1; } else { i := SomeOpen(attempts[..|attempts| - 1]); }
  }

  /** While enough is open every booking up to the second can be made. */
  lemma {:induction false} OpenAttemptsBook(w: World) returns (steps: seq<Step>)
    requires w.bookings + Open(w) >= 2
    ensures Run(w, steps).bookings >= 2
    decreases Open(w)
  {
    if w.bookings >= 2 {
      steps := [];
    } else {
      var i := SomeOpen(w.attempts);
      var first := OpenCanBook(w, i);
      CountUpdate(w.attempts, i, Booked(w.bookings), IsOpen());
      var rest := OpenAttemptsBook(Run(w, first));
      RunJoined(w, first, rest);
      steps := first + rest;
    }
  }

  /** Whoever arrives while the row is held can claim it. */
  lemma ArrivesAndClaims(w: World)
    requires w.row == Held
    ensures Run(w, [Arrive, Claim(|w.attempts|)]) == w.(attempts := w.attempts + [Claimed])
    ensures Open(w.(attempts := w.attempts + [Claimed])) == Open(w) + 1
  {
    TwoSteps(w, Arrive, Claim(|w.attempts|));
    CountGrows(w.attempts, Claimed, IsOpen());
  }

  /**
   * A second booking of the hold is possible exactly while its row can still be claimed, or two
   * claims are open or finalized. In particular it is possible from the start.
   */
  lemma SecondBookingPossibleIff(w: World)
    ensures SecondBookingPossible(w) <==> w.row == Held || w.bookings + Open(w) >= 2
  {
    if w.row == Held {
      var a := [Arrive, Claim(|w.attempts|)];
      ArrivesAndClaims(w);
      var u := Run(w, a);
      var b := [Arrive, Claim(|u.attempts|)];
      ArrivesAndClaims(u);
      var rest := OpenAttemptsBook(Run(u, b));
      RunJoined(u, b, rest);
      RunJoined(w, a, b + rest);
      assert Run(w, a + (b + rest)).bookings >= 2;
    } else if w.bookings + Open(w) >= 2 {
      var steps := OpenAttemptsBook(w);
    } else {
      forall steps ensures Run(w, steps).bookings < 2 { SettledStays(w, steps); }
    }
  }

  // ---- one claim at a time -----------------------------------------------------------------------------

  /** No claim succeeds while another attempt is open. */
  ghost predicate OneAtATime(w: World, steps: seq<Step>) {
    forall k :: 0 <= k < |steps| && steps[k].Claim? && Run(w, steps[..k]).row == Held ==> Open(Run(w, steps[..k])) == 0
  }

  lemma {:induction false} ClaimsOneAtATime(steps: seq<Step>)
    requires OneAtATime(NEW_HOLD, steps)
    ensures var w := Run(NEW_HOLD, steps); w.bookings + Open(w) <= 1 && (w.row == Held ==> w.bookings == 0)
  {
    if steps != [] {
      var front, last := steps[..|steps| - 1], steps[|steps| - 1];
      forall k | 0 <= k < |front| ensures front[..k] == steps[..k] && front[k] == steps[k] { }
      ClaimsOneAtATime(front);
      OpenAfter(Run(NEW_HOLD, front), last);
      assert steps[..|steps| - 1] == front;
    }
  }

  /** When no second claim comes before the first one is finalized or given up, one hold makes at most one booking. */
  lemma OneHoldOneBooking(steps: seq<Step>)
    requires OneAtATime(NEW_HOLD, steps)
    ensures Run(NEW_HOLD, steps).bookings <= 1
  {
    ClaimsOneAtATime(steps);
  }

  /** Two overlapping confirmations of a new hold both make a booking, and the row names the second. */
  lemma OverlappingConfirmationsBookTwice()
    ensures Run(NEW_HOLD, [
      Arrive, Arrive, Claim(0), Claim(1), Pay(0, true), Pay(1, true), Finalize(0, true), Finalize(1, true)])
      == World(Converted(1), 2, [Booked(0), Booked(1)])
  {
    RunJoined(NEW_HOLD, [Arrive, Arrive], [Claim(0), Claim(1)]);
    TwoSteps(NEW_HOLD, Arrive, Arrive);
    var arrived := World(Held, 0, [Started, Started]);
    assert Run(NEW_HOLD, [Arrive, Arrive]) == arrived;
    TwoSteps(arrived, Claim(0), Claim(1));
    var claimed := World(Held, 0, [Claimed, Claimed]);
    assert Run(arrived, [Claim(0), Claim(1)]) == claimed;
    TwoSteps(claimed, Pay(0, true), Pay(1, true));
    var paid := World(Held, 0, [Paid, Paid]);
    assert Run(claimed, [Pay(0, true), Pay(1, true)]) == paid;
    TwoSteps(paid, Finalize(0, true), Finalize(1, true));
    assert Run(paid, [Finalize(0, true), Finalize(1, true)]) == World(Converted(1), 2, [Booked(0), Booked(1)]);
    RunJoined(NEW_HOLD, [Arrive, Arrive] + [Claim(0), Claim(1)], [Pay(0, true), Pay(1, true)]);
    RunJoined(
      NEW_HOLD, [Arrive, Arrive] + [Claim(0), Claim(1)] + [Pay(0, true), Pay(1, true)],
      [Finalize(0, true), Finalize(1, true)]);
    assert [Arrive, Arrive] + [Claim(0), Claim(1)] + [Pay(0, true), Pay(1, true)]
      + [Finalize(0, true), Finalize(1, true)]
      == [Arrive, Arrive, Claim(0), Claim(1), Pay(0, true), Pay(1, true), Finalize(0, true), Finalize(1, true)];
  }
}
