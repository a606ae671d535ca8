/** The steps of the small protocols written out: what each needs, and all that it changes. */
module ProtocolRules {
  import opened Wrappers
  import ConnectionQueue
  import Confirmations
  import BookingEngine
  import BookingWorker

  // ---- the request connection ------------------------------------------------------------------------

  /** The checkout before this one let it pass; nobody is before the first. */
  ghost predicate MayPass(q: ConnectionQueue.Queue, i: nat) {
    i == 0 || (i <= |q.open| && q.open[i - 1])
  }

  /**
   * A checkout waits behind the one before it. It is served when that one lets it pass; it times out
   * while it is not let pass, after all before it have settled, and then goes past the queue and lets the
   * next one pass.
   */
  lemma ConnectionSteps(q: ConnectionQueue.Queue, i: nat)
    requires |q.open| == |q.phases|
    ensures ConnectionQueue.Next(q, ConnectionQueue.Checkout) ==
      q.(phases := q.phases + [ConnectionQueue.Waiting], open := q.open + [false])
    ensures ConnectionQueue.Enabled(q, ConnectionQueue.Acquire(i)) <==>
      i < |q.phases| && q.phases[i] == ConnectionQueue.Waiting && MayPass(q, i)
    ensures ConnectionQueue.Enabled(q, ConnectionQueue.Timeout(i)) <==>
      && i < |q.phases| && q.phases[i] == ConnectionQueue.Waiting && !MayPass(q, i)
      && forall k :: 0 <= k < i ==> q.phases[k] != ConnectionQueue.Waiting
    ensures ConnectionQueue.Enabled(q, ConnectionQueue.Acquire(i)) ==>
      ConnectionQueue.Next(q, ConnectionQueue.Acquire(i)) ==
        q.(phases := q.phases[i := ConnectionQueue.Holding], served := q.served + [i])
    ensures ConnectionQueue.Enabled(q, ConnectionQueue.Timeout(i)) ==>
      ConnectionQueue.Next(q, ConnectionQueue.Timeout(i)) ==
        q.(phases := q.phases[i := ConnectionQueue.TimedOut], open := q.open[i := true])
  {
  }

  /**
   * Anyone who was served may release, again and again; it is always the latest one served that lets the
   * next one pass.
   */
  lemma ReleaseStep(steps: seq<ConnectionQueue.Step>, q: ConnectionQueue.Queue, i: nat)
    requires ConnectionQueue.Reaches(steps, q) && |q.open| == |q.phases|
    ensures ConnectionQueue.Enabled(q, ConnectionQueue.Release(i)) <==>
      i < |q.phases| && (q.phases[i] == ConnectionQueue.Holding || q.phases[i] == ConnectionQueue.Released)
    ensures ConnectionQueue.Enabled(q, ConnectionQueue.Release(i)) ==>
      && q.served != [] && q.served[|q.served| - 1] < |q.open|
      && ConnectionQueue.Next(q, ConnectionQueue.Release(i)) ==
        q.(phases := q.phases[i := ConnectionQueue.Released],
           open := q.open[q.served[|q.served| - 1] := true], releases := q.releases + 1)
  {
    if i < |q.phases| && ConnectionQueue.Served(q.phases[i]) { SomeoneWasServed(steps, q, i); }
  }

  lemma SomeoneWasServed(steps: seq<ConnectionQueue.Step>, q: ConnectionQueue.Queue, i: nat)
    requires ConnectionQueue.Reaches(steps, q) && i < |q.phases| && ConnectionQueue.Served(q.phases[i])
    ensures q.served != [] && q.served[|q.served| - 1] < |q.open|
  {
    ConnectionQueue.ReachableInv(steps, q);
    ConnectionQueue.LatestInRange(q);
    assert i in q.served;
  }

  // ---- overlapping confirmations of one hold -----------------------------------------------------------

  /** The attempt is at this point. */
  ghost predicate StandsAt(w: Confirmations.World, i: nat, a: Confirmations.Attempt) {
    i < |w.attempts| && w.attempts[i] == a
  }

  /**
   * A claim goes through exactly while the row is held, and leaves it so; a declined payment ends the
   * attempt; a finalize that is accepted books and converts the row, whatever that has become.
   */
  lemma ConfirmationSteps(w: Confirmations.World, i: nat, yes: bool)
    ensures Confirmations.Next(w, Confirmations.Arrive) == w.(attempts := w.attempts + [Confirmations.Started])
    ensures Confirmations.Next(w, Confirmations.Claim(i)) ==
      if !StandsAt(w, i, Confirmations.Started) then w
      else if w.row == Confirmations.Held then w.(attempts := w.attempts[i := Confirmations.Claimed])
      else w.(attempts := w.attempts[i := Confirmations.Over])
    ensures Confirmations.Next(w, Confirmations.Pay(i, yes)) ==
      if !StandsAt(w, i, Confirmations.Claimed) then w
      else if yes then w.(attempts := w.attempts[i := Confirmations.Paid])
      else w.(attempts := w.attempts[i := Confirmations.Over])
    ensures Confirmations.Next(w, Confirmations.Finalize(i, yes)) ==
      if !StandsAt(w, i, Confirmations.Paid) then w
      else if yes then Confirmations.World(
        Confirmations.Converted(w.bookings), w.bookings + 1, w.attempts[i := Confirmations.Booked(w.bookings)])
      else w.(attempts := w.attempts[i := Confirmations.Over])
  {
  }

  /** Once converted, the row names a booking for good: it never expires, and is never held again. */
  lemma {:induction false} ConvertedStays(w: Confirmations.World, steps: seq<Confirmations.Step>)
    ensures w.row.Converted? ==> Confirmations.Run(w, steps).row.Converted?
    ensures w.row != Confirmations.Held ==> Confirmations.Run(w, steps).row != Confirmations.Held
    ensures Confirmations.Run(w, steps).bookings >= w.bookings
  {
    if steps != [] { ConvertedStays(w, steps[..|steps| - 1]); }
  }

  /** A sweep expires exactly a row that is held. */
  lemma SweepStep(w: Confirmations.World)
    ensures Confirmations.Next(w, Confirmations.Expire) ==
      if w.row == Confirmations.Held then w.(row := Confirmations.Expired) else w
  {
  }

  // ---- booking events ----------------------------------------------------------------------------------

  /** A confirmation queues one event of its stay exactly when it makes a booking. */
  lemma BookingIsPublished(t: BookingEngine.Tables, i: nat, nightly: Option<seq<int>>, paid: bool)
    ensures var step := BookingEngine.Confirm(i, nightly, paid);
      var after := BookingEngine.Next(t, step);
      if |after.bookings| == |t.bookings| + 1 then
        BookingWorker.Published(t, step) == [after.bookings[|t.bookings|].stay]
      else BookingWorker.Published(t, step) == [] && after.bookings == t.bookings
  {
  }

  /** A cancellation that is allowed queues one event of the stay of its booking; no other step queues any. */
  lemma CancellationIsPublished(t: BookingEngine.Tables, step: BookingEngine.Step)
    requires !step.Confirm?
    ensures BookingWorker.Published(t, step) ==
      if step.GuestCancel? && step.allowed && step.booking < |t.bookings| then [t.bookings[step.booking].stay] else []
  {
  }
}
