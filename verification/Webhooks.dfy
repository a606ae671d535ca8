/** Injected faults and the delivery of queued webhooks. Random numbers are a parameter: draw k is rand(k). */
module Webhooks {
  import opened Wrappers
  import opened Texts

  datatype Fault = DropWebhook | DuplicateWebhook | ReorderWebhooks | Other(kind: Text)

  datatype Rule = Rule(op: Option<Text>, probability: Option<real>, times: Option<int>, fault: Fault)

  /** An omitted or empty operation name matches every operation. */
  predicate Concerns(r: Rule, op: Text) {
    r.op.None? || r.op.value == [] || r.op.value <= op
  }

  ghost predicate Random(rand: nat -> real) {
    forall k :: 0.0 <= rand(k) < 1.0
  }

  /** How often each rule fired, how many random numbers were drawn, which fault was chosen. */
  datatype Picked = Picked(fired: seq<nat>, draws: nat, fault: Option<Fault>)

  predicate Exhausted(r: Rule, n: nat) {
    r.times.Some? && n >= r.times.value
  }

  /** The first rule that concerns the operation, is not exhausted and passes its chance. */
  function PickAmong(rules: seq<Rule>, fired: seq<nat>, draws: nat, op: Text, rand: nat -> real, i: nat): (p: Picked)
    requires |fired| == |rules| && i <= |rules|
    ensures |p.fired| == |rules|
    decreases |rules| - i
  {
    if i == |rules| then Picked(fired, draws, None)
    else if !Concerns(rules[i], op) || Exhausted(rules[i], fired[i]) then
      PickAmong(rules, fired, draws, op, rand, i + 1)
    else if rules[i].probability.Some? && rand(draws) > rules[i].probability.value then
      PickAmong(rules, fired, draws + 1, op, rand, i + 1)
    else
      Picked(
        fired[i := fired[i] + 1], draws + if rules[i].probability.Some? then 1 else 0, Some(rules[i].fault))
  }

  /** No rule fired more often than it may. */
  ghost predicate WithinTimes(rules: seq<Rule>, fired: seq<nat>) {
    |fired| == |rules| && forall i :: 0 <= i < |rules| && rules[i].times.Some? ==>
      fired[i] == 0 || fired[i] <= rules[i].times.value
  }

  lemma {:induction false} PickKeepsTimes(
    rules: seq<Rule>, fired: seq<nat>, draws: nat, op: Text, rand: nat -> real, i: nat)
    requires WithinTimes(rules, fired) && i <= |rules|
    ensures WithinTimes(rules, PickAmong(rules, fired, draws, op, rand, i).fired)
    decreases |rules| - i
  {
    if i < |rules| {
      PickKeepsTimes(rules, fired, draws, op, rand, i + 1);
      PickKeepsTimes(rules, fired, draws + 1, op, rand, i + 1);
    }
  }

  /** How often rules that drop webhooks fired. */
  function DropsFired(rules: seq<Rule>, fired: seq<nat>): nat
    requires |fired| == |rules|
  {
    if rules == [] then 0
    else
      DropsFired(rules[..|rules| - 1], fired[..|rules| - 1])
      + if rules[|rules| - 1].fault == DropWebhook then fired[|rules| - 1] else 0
  }

  function DropLimit(rules: seq<Rule>): int {
    if rules == [] then 0
    else
      var last := rules[|rules| - 1];
      DropLimit(rules[..|rules| - 1])
      + if last.fault == DropWebhook && last.times.Some? && last.times.value > 0 then last.times.value else 0
  }

  lemma {:induction false} DropsFiredUpdate(rules: seq<Rule>, fired: seq<nat>, i: nat)
    requires |fired| == |rules| && i < |rules|
    ensures DropsFired(rules, fired[i := fired[i] + 1])
      == DropsFired(rules, fired) + if rules[i].fault == DropWebhook then 1 else 0
  {
    var n := |rules| - 1;
    if i < n {
      DropsFiredUpdate(rules[..n], fired[..n], i);
      assert fired[i := fired[i] + 1][..n] == fired[..n][i := fired[i] + 1];
    } else {
      assert fired[i := fired[i] + 1][..n] == fired[..n];
    }
  }

  function IsDrop(fault: Option<Fault>): nat {
    if fault == Some(DropWebhook) then 1 else 0
  }

  lemma {:induction false} PickCountsDrops(
    rules: seq<Rule>, fired: seq<nat>, draws: nat, op: Text, rand: nat -> real, i: nat)
    requires |fired| == |rules| && i <= |rules|
    ensures var p := PickAmong(rules, fired, draws, op, rand, i);
      DropsFired(rules, p.fired) == DropsFired(rules, fired) + IsDrop(p.fault)
    decreases |rules| - i
  {
    if i < |rules| {
      PickCountsDrops(rules, fired, draws, op, rand, i + 1);
      PickCountsDrops(rules, fired, draws + 1, op, rand, i + 1);
      DropsFiredUpdate(rules, fired, i);
    }
  }

  lemma {:induction false} DropsWithinLimit(rules: seq<Rule>, fired: seq<nat>)
    requires WithinTimes(rules, fired)
    requires forall i :: 0 <= i < |rules| && rules[i].fault == DropWebhook ==> rules[i].times.Some?
    ensures DropsFired(rules, fired) <= DropLimit(rules)
  {
    if rules != [] { DropsWithinLimit(rules[..|rules| - 1], fired[..|rules| - 1]); }
  }

  // ---- deliveries ------------------------------------------------------------------------------------

  function Copies(fault: Option<Fault>): nat {
    if fault == Some(DropWebhook) then 0 else if fault == Some(DuplicateWebhook) then 2 else 1
  }

  function Repeat<T>(x: T, n: nat): seq<T> {
    seq(n, _ => x)
  }

  /** What the sink gets when each webhook of a batch meets its fault. */
  function Received<T>(batch: seq<T>, picks: seq<Option<Fault>>): seq<T>
    requires |batch| == |picks|
  {
    if batch == [] then []
    else Received(batch[..|batch| - 1], picks[..|picks| - 1]) + Repeat(batch[|batch| - 1], Copies(picks[|picks| - 1]))
  }

  function Drops(picks: seq<Option<Fault>>): nat {
    if picks == [] then 0 else Drops(picks[..|picks| - 1]) + IsDrop(picks[|picks| - 1])
  }

  function Doubles(picks: seq<Option<Fault>>): nat {
    if picks == [] then 0
    else Doubles(picks[..|picks| - 1]) + if picks[|picks| - 1] == Some(DuplicateWebhook) then 1 else 0
  }

  /** Nothing is lost or made up unaccounted for: deliveries and drops are the webhooks and the duplicates. */
  lemma {:induction false} DeliveriesBalance<T>(batch: seq<T>, picks: seq<Option<Fault>>)
    requires |batch| == |picks|
    ensures |Received(batch, picks)| + Drops(picks) == |batch| + Doubles(picks)
  {
    if batch != [] { DeliveriesBalance(batch[..|batch| - 1], picks[..|picks| - 1]); }
  }

  /** Each webhook arrives at most twice for each time it was queued. */
  lemma {:induction false} ArrivesUpToTwice<T>(batch: seq<T>, picks: seq<Option<Fault>>, x: T)
    requires |batch| == |picks|
    ensures multiset(Received(batch, picks))[x] <= 2 * multiset(batch)[x]
  {
    if batch != [] {
      var n := |batch| - 1;
      ArrivesUpToTwice(batch[..n], picks[..n], x);
      assert batch == batch[..n] + [batch[n]];
      RepeatCount(batch[n], Copies(picks[n]), x);
    }
  }

  lemma RepeatCount<T>(y: T, n: nat, x: T)
    requires n <= 2
    ensures multiset(Repeat(y, n))[x] <= if x == y then n else 0
  {
    assert Repeat(y, n) == if n == 0 then [] else if n == 1 then [y] else [y, y];
  }

  // ---- shuffle ---------------------------------------------------------------------------------------

  lemma DrawInRange(rand: nat -> real, k: nat, n: nat)
    requires Random(rand) && n > 0
    ensures 0 <= Place(rand(k), n) < n
  {
    var r, m := rand(k), n as real;
    assert 0.0 <= r < 1.0;
    assert r * m < m by { assert (1.0 - r) * m > 0.0; }
  }

  /** The place below n that a random number chooses. */
  function Place(r: real, n: nat): int {
    (r * (n as real)).Floor
  }

  function Swapped<T>(xs: seq<T>, i: nat, j: int): seq<T>
    requires i < |xs|
  {
    if 0 <= j < |xs| then xs[i := xs[j]][j := xs[i]] else xs
  }

  /** Fisher and Yates, from the element at i down: each is swapped with itself or one before it. */
  function ShuffledFrom<T>(xs: seq<T>, rand: nat -> real, draws: nat, i: nat): seq<T>
    requires xs != [] ==> i < |xs|
    decreases i
  {
    if i == 0 || xs == [] then xs
    else ShuffledFrom(Swapped(xs, i, Place(rand(draws), i + 1)), rand, draws + 1, i - 1)
  }

  function Shuffled<T>(xs: seq<T>, rand: nat -> real, draws: nat): seq<T> {
    ShuffledFrom(xs, rand, draws, if xs == [] then 0 else |xs| - 1)
  }

  lemma {:induction false} ShufflePermutes<T>(xs: seq<T>, rand: nat -> real, draws: nat, i: nat)
    requires xs != [] ==> i < |xs|
    ensures multiset(ShuffledFrom(xs, rand, draws, i)) == multiset(xs)
    decreases i
  {
    if i > 0 && xs != [] {
      SwapPermutes(xs, i, Place(rand(draws), i + 1));
      ShufflePermutes(Swapped(xs, i, Place(rand(draws), i + 1)), rand, draws + 1, i - 1);
    }
  }

  lemma SwapPermutes<T>(xs: seq<T>, i: nat, j: int)
    requires i < |xs|
    ensures multiset(Swapped(xs, i, j)) == multiset(xs)
  {
  }

  method SwapDrawn<T>(a: array<T>, i: nat, rand: nat -> real, draws: nat)
    requires i < a.Length && Random(rand)
    modifies a
    ensures a[..] == Swapped(old(a[..]), i, Place(rand(draws), i + 1))
  {
    DrawInRange(rand, draws, i + 1);
    var j := Place(rand(draws), i + 1);
    a[i], a[j] := a[j], a[i];
  }

  method Shuffle<T>(xs: seq<T>, rand: nat -> real, draws0: nat) returns (out: seq<T>, draws: nat)
    requires Random(rand)
    ensures out == Shuffled(xs, rand, draws0) && multiset(out) == multiset(xs)
    ensures draws == draws0 + if xs == [] then 0 else |xs| - 1
  {
    draws := draws0;
    if xs == [] { return xs, draws; }
    ShufflePermutes(xs, rand, draws0, |xs| - 1);
    var a := new T[|xs|](i requires 0 <= i < |xs| => xs[i]);
    assert a[..] == xs;
    var i := |xs| - 1;
    while i > 0
      invariant 0 <= i < |xs| == a.Length && draws == draws0 + (|xs| - 1 - i)
      invariant ShuffledFrom(a[..], rand, draws, i) == Shuffled(xs, rand, draws0)
    {
      SwapDrawn(a, i, rand, draws);
      draws := draws + 1;
      i := i - 1;
    }
    out := a[..];
  }

  // ---- the queue -------------------------------------------------------------------------------------

  const ORDER := Ascii("webhook.order")
  const DELIVER := Ascii("webhook.deliver")

  /** The state of the fake provider that concerns webhooks. */
  datatype Queue<T> = Queue(fired: seq<nat>, draws: nat, pending: seq<T>, delivered: seq<T>, dropped: nat)

  /** The rules fired as often as they may, or less. */
  ghost predicate Sound<T>(rules: seq<Rule>, q: Queue<T>) {
    WithinTimes(rules, q.fired) && q.dropped <= DropsFired(rules, q.fired)
  }

  /** An operation meets its fault. */
  function Met<T>(rules: seq<Rule>, q: Queue<T>, op: Text, rand: nat -> real): (r: (Queue<T>, Option<Fault>))
    requires |q.fired| == |rules|
    ensures |r.0.fired| == |rules|
  {
    var p := PickAmong(rules, q.fired, q.draws, op, rand, 0);
    (q.(fired := p.fired, draws := p.draws), p.fault)
  }

  /** One webhook meets its fault: it is dropped, or delivered once or twice. */
  function DeliveredOne<T>(rules: seq<Rule>, q: Queue<T>, w: T, rand: nat -> real): (r: Queue<T>)
    requires |q.fired| == |rules|
    ensures |r.fired| == |rules|
  {
    var (met, fault) := Met(rules, q, DELIVER, rand);
    if fault == Some(DropWebhook) then met.(dropped := met.dropped + 1)
    else met.(delivered := met.delivered + Repeat(w, Copies(fault)))
  }

  function DeliveredAll<T>(rules: seq<Rule>, q: Queue<T>, batch: seq<T>, rand: nat -> real): (r: Queue<T>)
    requires |q.fired| == |rules|
    ensures |r.fired| == |rules|
  {
    if batch == [] then q
    else DeliveredOne(rules, DeliveredAll(rules, q, batch[..|batch| - 1], rand), batch[|batch| - 1], rand)
  }

  /** The queue is taken; of two webhooks or more a fault may change the order. */
  function BatchTaken<T>(rules: seq<Rule>, q: Queue<T>, rand: nat -> real): (r: (Queue<T>, seq<T>))
    requires |q.fired| == |rules|
    ensures |r.0.fired| == |rules|
  {
    var batch := q.pending;
    var taken := q.(pending := []);
    if |batch| <= 1 then (taken, batch)
    else
      var (met, fault) := Met(rules, taken, ORDER, rand);
      if fault == Some(ReorderWebhooks)
      then (met.(draws := met.draws + |batch| - 1), Shuffled(batch, rand, met.draws)) else (met, batch)
  }

  function Flushed<T>(rules: seq<Rule>, q: Queue<T>, rand: nat -> real): (r: Queue<T>)
    requires |q.fired| == |rules|
    ensures |r.fired| == |rules|
  {
    var (taken, batch) := BatchTaken(rules, q, rand);
    DeliveredAll(rules, taken, batch, rand)
  }

  class WebhookQueue<T(==)> {
    const rules: seq<Rule>
    var fired: seq<nat>
    var draws: nat
    var pending: seq<T>
    var delivered: seq<T>
    var dropped: nat

    ghost function State(): Queue<T>
      reads this
    {
      Queue(fired, draws, pending, delivered, dropped)
    }

    constructor (rules: seq<Rule>)
      ensures this.rules == rules && State() == Queue(seq(|rules|, _ => 0), 0, [], [], 0)
    {
      this.rules := rules;
      fired := seq(|rules|, _ => 0);
      draws, pending, delivered, dropped := 0, [], [], 0;
    }

    method Pick(op: Text, rand: nat -> real) returns (fault: Option<Fault>)
      requires |fired| == |rules|
      modifies this`fired, this`draws
      ensures (State(), fault) == Met(rules, old(State()), op, rand)
    {
      for i := 0 to |rules|
        invariant fired == old(fired)
          && PickAmong(rules, fired, draws, op, rand, i) == PickAmong(rules, old(fired), old(draws), op, rand, 0)
      {
        var rule := rules[i];
        if rule.op.Some? && rule.op.value != [] && !(rule.op.value <= op) { continue; }
        if rule.times.Some? && fired[i] >= rule.times.value { continue; }
        if rule.probability.Some? {
          var draw := rand(draws);
          draws := draws + 1;
          if draw > rule.probability.value { continue; }
        }
        fired := fired[i := fired[i] + 1];
        return Some(rule.fault);
      }
      return None;
    }

    method QueueWebhook(w: T)
      modifies this`pending
      ensures State() == old(State()).(pending := old(pending) + [w])
    {
      pending := pending + [w];
    }

    method Deliver(w: T, times: nat)
      modifies this`delivered
      ensures delivered == old(delivered) + Repeat(w, times)
    {
      for i := 0 to times
        invariant delivered == old(delivered) + Repeat(w, i)
      {
        assert Repeat(w, i + 1) == Repeat(w, i) + [w];
        delivered := delivered + [w];
      }
    }

    method TakeBatch(rand: nat -> real) returns (batch: seq<T>)
      requires |fired| == |rules| && Random(rand)
      modifies this`fired, this`draws, this`pending
      ensures (State(), batch) == BatchTaken(rules, old(State()), rand)
    {
      batch := pending;
      pending := [];
      if |batch| > 1 {
        var fault := Pick(ORDER, rand);
        if fault == Some(ReorderWebhooks) { batch, draws := Shuffle(batch, rand, draws); }
      }
    }

    method DeliverOne(w: T, rand: nat -> real) returns (times: nat)
      requires |fired| == |rules|
      modifies this`fired, this`draws, this`delivered, this`dropped
      ensures State() == DeliveredOne(rules, old(State()), w, rand)
      ensures |delivered| == |old(delivered)| + times
    {
      var fault := Pick(DELIVER, rand);
      if fault == Some(DropWebhook) {
        dropped := dropped + 1;
        return 0;
      }
      times := if fault == Some(DuplicateWebhook) then 2 else 1;
      Deliver(w, times);
    }

    /** Without a sink nothing happens; with one the queue is emptied, webhook by webhook. */
    method FlushWebhooks(rand: nat -> real, hasSink: bool) returns (count: nat)
      requires |fired| == |rules| && Random(rand)
      modifies this`fired, this`draws, this`pending, this`delivered, this`dropped
      ensures State() == if hasSink then Flushed(rules, old(State()), rand) else old(State())
      ensures |delivered| == |old(delivered)| + count
    {
      count := 0;
      if !hasSink { return; }
      var batch := TakeBatch(rand);
      ghost var taken := State();
      for i := 0 to |batch|
        invariant |fired| == |rules| && State() == DeliveredAll(rules, taken, batch[..i], rand)
        invariant |delivered| == |old(delivered)| + count
      {
        assert batch[..i + 1][..i] == batch[..i];
        var times := DeliverOne(batch[i], rand);
        count := count + times;
      }
      assert batch[..|batch|] == batch;
    }
  }

  // ---- what a flush does -------------------------------------------------------------------------------

  lemma NextReceived<T>(batch: seq<T>, i: nat, picks: seq<Option<Fault>>, fault: Option<Fault>)
    requires i < |batch| && |picks| == i
    ensures Received(batch[..i + 1], picks + [fault]) == Received(batch[..i], picks) + Repeat(batch[i], Copies(fault))
    ensures Drops(picks + [fault]) == Drops(picks) + IsDrop(fault)
  {
    assert batch[..i + 1][..i] == batch[..i] && (picks + [fault])[..i] == picks;
  }

  /** The faults the webhooks of a batch meet, one after the other. */
  function Faults<T>(rules: seq<Rule>, q: Queue<T>, batch: seq<T>, rand: nat -> real): (picks: seq<Option<Fault>>)
    requires |q.fired| == |rules|
    ensures |picks| == |batch|
  {
    if batch == [] then []
    else
      var n := |batch| - 1;
      Faults(rules, q, batch[..n], rand)
      + [Met(rules, DeliveredAll(rules, q, batch[..n], rand), DELIVER, rand).1]
  }

  lemma {:induction false} BatchIsReceived<T>(rules: seq<Rule>, q: Queue<T>, batch: seq<T>, rand: nat -> real)
    requires |q.fired| == |rules|
    ensures var after, picks := DeliveredAll(rules, q, batch, rand), Faults(rules, q, batch, rand);
      && after.pending == q.pending && after.delivered == q.delivered + Received(batch, picks)
      && after.dropped == q.dropped + Drops(picks)
  {
    if batch != [] {
      var n := |batch| - 1;
      BatchIsReceived(rules, q, batch[..n], rand);
      NextReceived(batch, n, Faults(rules, q, batch[..n], rand), Faults(rules, q, batch, rand)[n]);
      assert batch[..n + 1] == batch;
      OneIsReceived(rules, DeliveredAll(rules, q, batch[..n], rand), batch[n], rand);
    }
  }

  lemma OneIsReceived<T>(rules: seq<Rule>, q: Queue<T>, w: T, rand: nat -> real)
    requires |q.fired| == |rules|
    ensures var after, fault := DeliveredOne(rules, q, w, rand), Met(rules, q, DELIVER, rand).1;
      && after.pending == q.pending && after.dropped == q.dropped + IsDrop(fault)
      && after.delivered == q.delivered + Repeat(w, Copies(fault))
  {
    assert Repeat(w, 0) == [];
  }

  /**
   * A flush empties the queue. The sink gets the webhooks in the order queued, or in another one when
   * the fault for that is met, each zero, one or two times by its own fault; none is lost unaccounted for.
   */
  lemma FlushAccounts<T>(rules: seq<Rule>, q: Queue<T>, rand: nat -> real)
    returns (batch: seq<T>, picks: seq<Option<Fault>>)
    requires |q.fired| == |rules|
    ensures var after := Flushed(rules, q, rand);
      && after.pending == [] && |picks| == |batch| && multiset(batch) == multiset(q.pending)
      && (batch == q.pending || Met(rules, q, ORDER, rand).1 == Some(ReorderWebhooks))
      && after.delivered == q.delivered + Received(batch, picks)
      && after.dropped == q.dropped + Drops(picks)
      && |after.delivered| + after.dropped == |q.delivered| + q.dropped + |q.pending| + Doubles(picks)
  {
    var taken := BatchTaken(rules, q, rand).0;
    batch := BatchTaken(rules, q, rand).1;
    picks := Faults(rules, taken, batch, rand);
    if |q.pending| > 0 { ShufflePermutes(q.pending, rand, Met(rules, q, ORDER, rand).0.draws, |q.pending| - 1); }
    BatchIsReceived(rules, taken, batch, rand);
    DeliveriesBalance(batch, picks);
    assert |multiset(batch)| == |multiset(q.pending)|;
  }

  // ---- runs ----------------------------------------------------------------------------------------------

  lemma {:induction false} NothingFired(rules: seq<Rule>)
    ensures WithinTimes(rules, seq(|rules|, _ => 0))
    ensures DropsFired(rules, seq(|rules|, _ => 0)) == 0
  {
    if rules != [] {
      NothingFired(rules[..|rules| - 1]);
      assert seq(|rules|, _ => 0)[..|rules| - 1] == seq(|rules| - 1, _ => 0);
    }
  }

  /** A webhook is queued, the queue is flushed, or another operation meets its fault. */
  datatype Event<T> = QueueOne(w: T) | Flush | Operate(op: Text)

  function After<T>(rules: seq<Rule>, q: Queue<T>, e: Event<T>, rand: nat -> real): (r: Queue<T>)
    requires |q.fired| == |rules|
    ensures |r.fired| == |rules|
  {
    match e
    case QueueOne(w) => q.(pending := q.pending + [w])
    case Flush => Flushed(rules, q, rand)
    case Operate(op) => Met(rules, q, op, rand).0
  }

  function Run<T>(rules: seq<Rule>, events: seq<Event<T>>, rand: nat -> real): (q: Queue<T>)
    ensures |q.fired| == |rules|
  {
    if events == [] then Queue(seq(|rules|, _ => 0), 0, [], [], 0)
    else After(rules, Run(rules, events[..|events| - 1], rand), events[|events| - 1], rand)
  }

  lemma MetIsSound<T>(rules: seq<Rule>, q: Queue<T>, op: Text, rand: nat -> real)
    requires Sound(rules, q)
    ensures Sound(rules, Met(rules, q, op, rand).0)
    ensures q.dropped + IsDrop(Met(rules, q, op, rand).1) <= DropsFired(rules, Met(rules, q, op, rand).0.fired)
  {
    PickKeepsTimes(rules, q.fired, q.draws, op, rand, 0);
    PickCountsDrops(rules, q.fired, q.draws, op, rand, 0);
  }

  lemma {:induction false} BatchIsSound<T>(rules: seq<Rule>, q: Queue<T>, batch: seq<T>, rand: nat -> real)
    requires Sound(rules, q)
    ensures Sound(rules, DeliveredAll(rules, q, batch, rand))
  {
    if batch != [] {
      var before := DeliveredAll(rules, q, batch[..|batch| - 1], rand);
      BatchIsSound(rules, q, batch[..|batch| - 1], rand);
      MetIsSound(rules, before, DELIVER, rand);
    }
  }

  lemma FlushIsSound<T>(rules: seq<Rule>, q: Queue<T>, rand: nat -> real)
    requires Sound(rules, q)
    ensures Sound(rules, Flushed(rules, q, rand))
  {
    MetIsSound(rules, q.(pending := []), ORDER, rand);
    var (taken, batch) := BatchTaken(rules, q, rand);
    BatchIsSound(rules, taken, batch, rand);
  }

  /** In every run no rule fires more often than it may, and every loss is that of a dropping rule that fired. */
  lemma {:induction false} RunsAreSound<T>(rules: seq<Rule>, events: seq<Event<T>>, rand: nat -> real)
    ensures Sound(rules, Run(rules, events, rand))
  {
    if events == [] {
      NothingFired(rules);
    } else {
      var q := Run(rules, events[..|events| - 1], rand);
      RunsAreSound(rules, events[..|events| - 1], rand);
      match events[|events| - 1]
      case QueueOne(w) =>
      case Flush => FlushIsSound(rules, q, rand);
      case Operate(op) => MetIsSound(rules, q, op, rand);
    }
  }

  /** With a limit on every rule that drops, no run loses more webhooks than the limits allow. */
  lemma LossIsBounded<T>(rules: seq<Rule>, events: seq<Event<T>>, rand: nat -> real)
    requires forall i :: 0 <= i < |rules| && rules[i].fault == DropWebhook ==> rules[i].times.Some?
    ensures Run(rules, events, rand).dropped <= DropLimit(rules)
  {
    RunsAreSound(rules, events, rand);
    DropsWithinLimit(rules, Run(rules, events, rand).fired);
  }

  /** Every webhook queued in a run is waiting, or was delivered, or dropped; a delivery more is a duplicate. */
  lemma {:induction false} NothingIsLostUnnoticed<T>(rules: seq<Rule>, events: seq<Event<T>>, rand: nat -> real)
    ensures var q := Run(rules, events, rand);
      |q.pending| + |q.delivered| + q.dropped >= QueuedIn(events)
  {
    if events != [] {
      var q := Run(rules, events[..|events| - 1], rand);
      NothingIsLostUnnoticed(rules, events[..|events| - 1], rand);
      if events[|events| - 1].Flush? { var batch, picks := FlushAccounts(rules, q, rand); }
    }
  }

  function QueuedIn<T>(events: seq<Event<T>>): nat {
    if events == [] then 0
    else QueuedIn(events[..|events| - 1]) + if events[|events| - 1].QueueOne? then 1 else 0
  }
}
