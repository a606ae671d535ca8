/**
 * What the provider side promises warning by warning and fault by fault: where a warning of a push
 * belongs, and which injected fault an operation meets.
 */
module ProviderRules {
  import opened Wrappers
  import opened Texts
  import opened Sums
  import PushResults
  import Webhooks

  // ---- warnings of a push -----------------------------------------------------------------------------

  /** An entry with the key of the warning that no earlier warning took. */
  ghost predicate Open(sent: seq<PushResults.Entry>, taken: set<int>, w: PushResults.Warning, i: int) {
    0 <= i < |sent| && sent[i].key == w.key && i !in taken
  }

  /** An open entry that sent a field the warning names. */
  ghost predicate Named(sent: seq<PushResults.Entry>, taken: set<int>, w: PushResults.Warning, i: int) {
    Open(sent, taken, w, i) && exists f :: f in w.fields && f in sent[i].fields
  }

  ghost predicate FirstOpen(sent: seq<PushResults.Entry>, taken: set<int>, w: PushResults.Warning, i: int) {
    Open(sent, taken, w, i) && forall j :: j < i ==> !Open(sent, taken, w, j)
  }

  ghost predicate FirstNamed(sent: seq<PushResults.Entry>, taken: set<int>, w: PushResults.Warning, i: int) {
    Named(sent, taken, w, i) && forall j :: j < i ==> !Named(sent, taken, w, j)
  }

  lemma {:induction false} FirstIs(
    sent: seq<PushResults.Entry>, taken: set<int>, w: PushResults.Warning, mentioned: bool, n: nat)
    requires n <= |sent|
    ensures var i := PushResults.FirstCandidate(sent, taken, w, mentioned, n);
      if i.Some? then
        && i.value < n && (if mentioned then Named(sent, taken, w, i.value) else Open(sent, taken, w, i.value))
        && forall j :: j < i.value ==> if mentioned then !Named(sent, taken, w, j) else !Open(sent, taken, w, j)
      else forall j :: j < n ==> if mentioned then !Named(sent, taken, w, j) else !Open(sent, taken, w, j)
  {
    if n > 0 {
      FirstIs(sent, taken, w, mentioned, n - 1);
      MentionsIff(sent[n - 1], w.fields);
    }
  }

  lemma MentionsIff(e: PushResults.Entry, fields: seq<Text>)
    ensures PushResults.Mentions(e, fields) <==> exists f :: f in fields && f in e.fields
  {
    if f :| f in fields && f in e.fields {
      var k :| 0 <= k < |fields| && fields[k] == f;
    }
  }

  /**
   * A warning belongs to the first open entry of its key that sent a field it names; without one to
   * the first open entry of its key; without one to the index it gives; else to none.
   */
  lemma WarningIsPlaced(sent: seq<PushResults.Entry>, taken: set<int>, w: PushResults.Warning)
    ensures var place := PushResults.PlaceOf(sent, taken, w);
      if exists i :: Named(sent, taken, w, i) then FirstNamed(sent, taken, w, place)
      else if exists i :: Open(sent, taken, w, i) then FirstOpen(sent, taken, w, place)
      else place == if w.index == None then -1 else w.index.value
  {
    FirstIs(sent, taken, w, true, |sent|);
    FirstIs(sent, taken, w, false, |sent|);
  }

  /** Warning by warning: a warning with fields that has a place rejects it by its first field, any other is text. */
  lemma WarningIsKept(sent: seq<PushResults.Entry>, warnings: seq<PushResults.Warning>, n: nat)
    requires n < |warnings|
    ensures var before := PushResults.MatchAll(sent, warnings[..n]);
      var after := PushResults.MatchAll(sent, warnings[..n + 1]);
      var w := warnings[n];
      var place := PushResults.PlaceOf(sent, before.taken, w);
      if |w.fields| > 0 && place >= 0 then
        && after.taken == before.taken + {place} && after.texts == before.texts
        && after.rejected == before.rejected + [PushResults.Rejection(place, w.fields[0])]
      else after == before.(texts := before.texts + 1)
  {
    assert warnings[..n + 1][..n] == warnings[..n];
  }

  /** What is not rejected counts as accepted. */
  lemma RestIsAccepted(sent: seq<PushResults.Entry>, warnings: seq<PushResults.Warning>)
    ensures var m := PushResults.MatchAll(sent, warnings);
      if |m.rejected| <= |sent| then PushResults.Accepted(sent, m) + |m.rejected| == |sent|
      else PushResults.Accepted(sent, m) == 0
  {
  }

  // ---- injected faults --------------------------------------------------------------------------------

  /** The rule is for the operation, or for every one, and has fired less often than it may. */
  ghost predicate CanFire(r: Webhooks.Rule, fired: nat, op: Text) {
    && (r.op.Some? ==> |r.op.value| <= |op| && r.op.value == op[..|r.op.value|])
    && (r.times.Some? ==> fired < r.times.value)
  }

  /** How many random numbers the first k rules draw when none of them fires. */
  ghost function Draws(rules: seq<Webhooks.Rule>, fired: seq<nat>, op: Text, k: nat): nat
    requires |fired| == |rules| && k <= |rules|
  {
    if k == 0 then 0
    else
      Draws(rules, fired, op, k - 1)
      + if CanFire(rules[k - 1], fired[k - 1], op) && rules[k - 1].probability != None then 1 else 0
  }

  /** The rule can fire, and its random number is within its chance. */
  ghost predicate Fires(
    rules: seq<Webhooks.Rule>, fired: seq<nat>, draws: nat, op: Text, rand: nat -> real, k: nat)
    requires |fired| == |rules| && k < |rules|
  {
    && CanFire(rules[k], fired[k], op)
    && (rules[k].probability.Some? ==> rand(draws + Draws(rules, fired, op, k)) <= rules[k].probability.value)
  }

  lemma CanFireIff(r: Webhooks.Rule, fired: nat, op: Text)
    ensures CanFire(r, fired, op) <==> Webhooks.Concerns(r, op) && !Webhooks.Exhausted(r, fired)
  {
  }

  lemma {:induction false} PicksFrom(
    rules: seq<Webhooks.Rule>, fired: seq<nat>, draws: nat, op: Text, rand: nat -> real, i: nat)
    returns (k: nat)
    requires |fired| == |rules| && i <= |rules|
    ensures i <= k <= |rules| && forall j :: i <= j < k ==> !Fires(rules, fired, draws, op, rand, j)
    ensures var p := Webhooks.PickAmong(rules, fired, draws + Draws(rules, fired, op, i), op, rand, i);
      if k < |rules| then
        && Fires(rules, fired, draws, op, rand, k) && p.fault == Some(rules[k].fault)
        && p.fired == fired[k := fired[k] + 1] && p.draws == draws + Draws(rules, fired, op, k + 1)
      else p == Webhooks.Picked(fired, draws + Draws(rules, fired, op, |rules|), None)
    decreases |rules| - i
  {
    k := i;
    if i < |rules| {
      CanFireIff(rules[i], fired[i], op);
      if !Fires(rules, fired, draws, op, rand, i) {
        k := PicksFrom(rules, fired, draws, op, rand, i + 1);
      }
    }
  }

  /**
   * An operation meets the fault of the first rule that fires, which is counted once more, and no other
   * is; every rule before it with a chance draws one random number. With none there is no fault.
   */
  lemma FirstFiringRuleIsPicked(
    rules: seq<Webhooks.Rule>, fired: seq<nat>, draws: nat, op: Text, rand: nat -> real) returns (k: nat)
    requires |fired| == |rules|
    ensures k <= |rules| && forall j :: 0 <= j < k ==> !Fires(rules, fired, draws, op, rand, j)
    ensures var p := Webhooks.PickAmong(rules, fired, draws, op, rand, 0);
      if k < |rules| then
        && Fires(rules, fired, draws, op, rand, k) && p.fault == Some(rules[k].fault)
        && p.fired == fired[k := fired[k] + 1] && p.draws == draws + Draws(rules, fired, op, k + 1)
      else p == Webhooks.Picked(fired, draws + Draws(rules, fired, op, |rules|), None)
  {
    k := PicksFrom(rules, fired, draws, op, rand, 0);
  }

  // ---- deliveries -------------------------------------------------------------------------------------

  /** A webhook meets its fault: one is lost and counted, another arrives twice, any other once. */
  lemma WebhookMeetsFault<T>(rules: seq<Webhooks.Rule>, q: Webhooks.Queue<T>, w: T, rand: nat -> real)
    requires |q.fired| == |rules|
    ensures var p := Webhooks.PickAmong(rules, q.fired, q.draws, Ascii("webhook.deliver"), rand, 0);
      Webhooks.DeliveredOne(rules, q, w, rand) ==
        match p.fault
        case Some(DropWebhook) => Webhooks.Queue(p.fired, p.draws, q.pending, q.delivered, q.dropped + 1)
        case Some(DuplicateWebhook) => Webhooks.Queue(p.fired, p.draws, q.pending, q.delivered + [w, w], q.dropped)
        case _ => Webhooks.Queue(p.fired, p.draws, q.pending, q.delivered + [w], q.dropped)
  {
    assert Webhooks.Repeat(w, 2) == [w, w] && Webhooks.Repeat(w, 1) == [w];
  }

  /** A shuffle exchanges the element at i with the one at the drawn place up to i, then goes on below i. */
  lemma ShuffleExchanges<T>(xs: seq<T>, rand: nat -> real, draws: nat, i: nat)
    requires i < |xs| && Webhooks.Random(rand)
    ensures i == 0 ==> Webhooks.ShuffledFrom(xs, rand, draws, i) == xs
    ensures i > 0 ==>
      var j := (rand(draws) * ((i + 1) as real)).Floor;
      && 0 <= j <= i
      && Webhooks.ShuffledFrom(xs, rand, draws, i) ==
        Webhooks.ShuffledFrom(xs[i := xs[j]][j := xs[i]], rand, draws + 1, i - 1)
  {
    Webhooks.DrawInRange(rand, draws, i + 1);
  }

  lemma {:induction false} SameDraws<T>(xs: seq<T>, rand: nat -> real, other: nat -> real, draws: nat, i: nat)
    requires i < |xs| && forall k :: k >= draws ==> rand(k) == other(k)
    ensures Webhooks.ShuffledFrom(xs, rand, draws, i) == Webhooks.ShuffledFrom(xs, other, draws, i)
    decreases i
  {
    if i > 0 {
      SameDraws(Webhooks.Swapped(xs, i, Webhooks.Place(rand(draws), i + 1)), rand, other, draws + 1, i - 1);
    }
  }

  lemma DrawOfPlace(j: nat, n: nat) returns (r: real)
    requires j < n
    ensures 0.0 <= r < 1.0 && Webhooks.Place(r, n) == j
  {
    r := (j as real) / (n as real);
    assert r * (n as real) == j as real;
    assert r < 1.0 by { assert r * (n as real) < 1.0 * (n as real); }
  }

  /** From the element at i on the lists agree. */
  ghost predicate AgreeFrom<T>(xs: seq<T>, ys: seq<T>, i: nat) {
    |xs| == |ys| && forall k :: i <= k < |xs| ==> xs[k] == ys[k]
  }

  /** Permutations that agree behind i have the element at i of the one among the first of the other. */
  lemma PlaceOfLast<T>(xs: seq<T>, ys: seq<T>, i: nat) returns (j: nat)
    requires AgreeFrom(xs, ys, i + 1) && i < |xs| && multiset(xs) == multiset(ys)
    ensures j <= i && xs[j] == ys[i]
  {
    var a, b, c := xs[..i + 1], xs[i + 1..], ys[..i + 1];
    assert xs == a + b && ys == c + b;
    assert multiset(a) == multiset(a + b) - multiset(b) == multiset(c + b) - multiset(b) == multiset(c);
    assert ys[..i + 1][i] in multiset(ys[..i + 1]);
    assert ys[i] in xs[..i + 1];
    j :| 0 <= j < i + 1 && xs[..i + 1][j] == ys[i];
  }

  lemma SwapAgrees<T>(xs: seq<T>, ys: seq<T>, i: nat, j: nat)
    requires AgreeFrom(xs, ys, i + 1) && j <= i < |xs| && xs[j] == ys[i]
    ensures AgreeFrom(Webhooks.Swapped(xs, i, j), ys, i)
  {
  }

  lemma FirstDraw<T>(xs: seq<T>, later: nat -> real, r: real, draws: nat, i: nat) returns (rand: nat -> real)
    requires 0 < i < |xs| && Webhooks.Random(later) && 0.0 <= r < 1.0
    ensures Webhooks.Random(rand)
    ensures var swapped := Webhooks.Swapped(xs, i, Webhooks.Place(r, i + 1));
      Webhooks.ShuffledFrom(xs, rand, draws, i) == Webhooks.ShuffledFrom(swapped, later, draws + 1, i - 1)
  {
    rand := (k: nat) => if k == draws then r else later(k);
    SameDraws(Webhooks.Swapped(xs, i, Webhooks.Place(r, i + 1)), rand, later, draws + 1, i - 1);
  }

  lemma {:induction false} OrderIsDrawn<T>(xs: seq<T>, ys: seq<T>, draws: nat, i: nat) returns (rand: nat -> real)
    requires i < |xs| && AgreeFrom(xs, ys, i + 1) && multiset(xs) == multiset(ys)
    ensures Webhooks.Random(rand) && Webhooks.ShuffledFrom(xs, rand, draws, i) == ys
    decreases i
  {
    var j := PlaceOfLast(xs, ys, i);
    if i == 0 {
      rand := (k: nat) => 0.0;
      assert xs == ys;
    } else {
      Webhooks.SwapPermutes(xs, i, j);
      SwapAgrees(xs, ys, i, j);
      var later := OrderIsDrawn(Webhooks.Swapped(xs, i, j), ys, draws + 1, i - 1);
      var r := DrawOfPlace(j, i + 1);
      rand := FirstDraw(xs, later, r, draws, i);
    }
  }

  /** A shuffle gives no element more or less, and for every order of the webhooks there are draws that give it. */
  lemma EveryOrderIsPossible<T>(xs: seq<T>, ys: seq<T>, draws: nat)
    ensures (exists rand :: Webhooks.Random(rand) && Webhooks.Shuffled(xs, rand, draws) == ys)
      <==> multiset(xs) == multiset(ys)
  {
    if rand :| Webhooks.Random(rand) && Webhooks.Shuffled(xs, rand, draws) == ys {
      Webhooks.ShufflePermutes(xs, rand, draws, if xs == [] then 0 else |xs| - 1);
    }
    if multiset(xs) == multiset(ys) {
      assert |multiset(xs)| == |xs| && |multiset(ys)| == |ys|;
      if xs == [] {
        var rand := (k: nat) => 0.0;
        assert Webhooks.Random(rand) && Webhooks.Shuffled(xs, rand, draws) == ys;
      } else {
        assert xs[..|xs|] == xs && ys[..|xs|] == ys;
        var rand := OrderIsDrawn(xs, ys, draws, |xs| - 1);
        assert Webhooks.Shuffled(xs, rand, draws) == ys;
      }
    }
  }

  /**
   * A flush takes all that waits. Of two webhooks or more the order meets its fault, and only the
   * fault for it changes the order, at one draw for each webhook but one.
   */
  lemma BatchIsTaken<T>(rules: seq<Webhooks.Rule>, q: Webhooks.Queue<T>, rand: nat -> real)
    requires |q.fired| == |rules|
    ensures var (taken, batch) := Webhooks.BatchTaken(rules, q, rand);
      var p := Webhooks.PickAmong(rules, q.fired, q.draws, Ascii("webhook.order"), rand, 0);
      if |q.pending| <= 1 then taken == q.(pending := []) && batch == q.pending
      else if p.fault == Some(Webhooks.ReorderWebhooks) then
        && taken == Webhooks.Queue(p.fired, p.draws + |q.pending| - 1, [], q.delivered, q.dropped)
        && batch == Webhooks.ShuffledFrom(q.pending, rand, p.draws, |q.pending| - 1)
      else taken == Webhooks.Queue(p.fired, p.draws, [], q.delivered, q.dropped) && batch == q.pending
  {
  }

  /** A run starts with nothing queued, delivered, dropped or fired. */
  lemma RunStartsEmpty<T>(rules: seq<Webhooks.Rule>, rand: nat -> real)
    ensures var q: Webhooks.Queue<T> := Webhooks.Run(rules, [], rand);
      && q.pending == [] && q.delivered == [] && q.dropped == 0 && q.draws == 0
      && |q.fired| == |rules| && forall k :: 0 <= k < |rules| ==> q.fired[k] == 0
  {
  }

  /** No rule can fire at the operation. */
  ghost predicate Unconcerned(rules: seq<Webhooks.Rule>, fired: seq<nat>, op: Text)
    requires |fired| == |rules|
  {
    forall k :: 0 <= k < |rules| ==> !CanFire(rules[k], fired[k], op)
  }

  lemma {:induction false} NoDraws(rules: seq<Webhooks.Rule>, fired: seq<nat>, op: Text, k: nat)
    requires |fired| == |rules| && k <= |rules| && Unconcerned(rules, fired, op)
    ensures Draws(rules, fired, op, k) == 0
  {
    if k > 0 { NoDraws(rules, fired, op, k - 1); }
  }

  lemma NothingMet(rules: seq<Webhooks.Rule>, fired: seq<nat>, draws: nat, op: Text, rand: nat -> real)
    requires |fired| == |rules| && Unconcerned(rules, fired, op)
    ensures Webhooks.PickAmong(rules, fired, draws, op, rand, 0) == Webhooks.Picked(fired, draws, None)
  {
    var k := FirstFiringRuleIsPicked(rules, fired, draws, op, rand);
    NoDraws(rules, fired, op, |rules|);
  }

  lemma {:induction false} AllArrive<T>(
    rules: seq<Webhooks.Rule>, q: Webhooks.Queue<T>, batch: seq<T>, rand: nat -> real)
    requires |q.fired| == |rules| && Unconcerned(rules, q.fired, Ascii("webhook.deliver"))
    ensures Webhooks.DeliveredAll(rules, q, batch, rand) == q.(delivered := q.delivered + batch)
  {
    if batch == [] {
      assert q.delivered + [] == q.delivered;
    } else {
      var front, last := batch[..|batch| - 1], batch[|batch| - 1];
      AllArrive(rules, q, front, rand);
      NothingMet(rules, q.fired, q.draws, Ascii("webhook.deliver"), rand);
      WebhookMeetsFault(rules, q.(delivered := q.delivered + front), last, rand);
      assert q.delivered + front + [last] == q.delivered + batch;
    }
  }

  /** Without faults for webhooks a flush delivers exactly what was queued, once and in order. */
  lemma FlushWithoutFaults<T>(rules: seq<Webhooks.Rule>, q: Webhooks.Queue<T>, rand: nat -> real)
    requires |q.fired| == |rules|
    requires Unconcerned(rules, q.fired, Ascii("webhook.deliver"))
    requires Unconcerned(rules, q.fired, Ascii("webhook.order"))
    ensures Webhooks.Flushed(rules, q, rand) == q.(pending := [], delivered := q.delivered + q.pending)
  {
    NothingMet(rules, q.fired, q.draws, Ascii("webhook.order"), rand);
    AllArrive(rules, q.(pending := []), q.pending, rand);
  }

  ghost function QueueEvents<T>(events: seq<Webhooks.Event<T>>): set<nat> {
    set k: nat | k < |events| && events[k].QueueOne?
  }

  lemma {:induction false} QueuedAreCounted<T>(events: seq<Webhooks.Event<T>>)
    ensures Webhooks.QueuedIn(events) == |QueueEvents(events)|
  {
    if events == [] {
      assert QueueEvents(events) == {};
    } else {
      var n := |events| - 1;
      QueuedAreCounted(events[..n]);
      assert QueueEvents(events) == QueueEvents(events[..n]) + if events[n].QueueOne? then {n} else {};
    }
  }

  /** At any moment of a run each webhook queued is waiting, delivered at least once, or counted as dropped. */
  lemma QueuedAreAccounted<T>(rules: seq<Webhooks.Rule>, events: seq<Webhooks.Event<T>>, rand: nat -> real)
    ensures var q := Webhooks.Run(rules, events, rand);
      |QueueEvents(events)| <= |q.pending| + |q.delivered| + q.dropped
  {
    Webhooks.NothingIsLostUnnoticed(rules, events, rand);
    QueuedAreCounted(events);
  }

  /** How many webhooks a rule may drop. */
  function Loss(): Webhooks.Rule -> int {
    (r: Webhooks.Rule) =>
      if r.fault == Webhooks.DropWebhook && r.times.Some? && r.times.value > 0 then r.times.value else 0
  }

  lemma {:induction false} LimitIsSum(rules: seq<Webhooks.Rule>)
    ensures Webhooks.DropLimit(rules) == Sum(Mapped(Loss(), rules))
  {
    if rules == [] {
      assert Mapped(Loss(), rules) == [];
    } else {
      var front, last := rules[..|rules| - 1], rules[|rules| - 1];
      LimitIsSum(front);
      assert rules == front + [last];
      MappedParts(Loss(), front, [last]);
      MappedOne(Loss(), last);
    }
  }

  /** No run loses more webhooks than the limits of the dropping rules add up to. */
  lemma LossesAreLimited<T>(rules: seq<Webhooks.Rule>, events: seq<Webhooks.Event<T>>, rand: nat -> real)
    requires forall r :: r in rules && r.fault == Webhooks.DropWebhook ==> r.times.Some?
    ensures Webhooks.Run(rules, events, rand).dropped <= Sum(Mapped(Loss(), rules))
  {
    Webhooks.LossIsBounded(rules, events, rand);
    LimitIsSum(rules);
  }
}
