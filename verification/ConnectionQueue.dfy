/**
 * The queue for the one connection of a request scope: a chain of promises in which each
 * checkout waits for the one before it, with an escape to a separate connection after a
 * time limit. Every interleaving of checkouts, wake-ups, releases and time-outs is a run.
 *
 * All holders get the same client object, and each acquisition overwrites its `release`. So a
 * release by anyone resolves the promise of the latest acquirer. Time limits are equal, so
 * they run out in the order of the checkouts.
 */
module ConnectionQueue {
  import opened Counting
  import opened Wrappers

  /** Where a checkout stands. A timed-out one went on with a connection of its own; a released one called release. */
  datatype Phase = Waiting | Holding | Released | TimedOut

  /**
   * The checkouts of a scope in the order they were made, whether the promise of each is
   * resolved, the order in which they got the connection, and the number of release calls.
   */
  datatype Queue = Queue(phases: seq<Phase>, open: seq<bool>, served: seq<nat>, releases: nat)

  datatype Step = Checkout | Acquire(ticket: nat) | Release(ticket: nat) | Timeout(ticket: nat)

  predicate Served(p: Phase) {
    p == Holding || p == Released
  }

  /** The promise this checkout awaits is resolved. */
  predicate TurnOf(q: Queue, i: nat)
    requires i <= |q.open|
  {
    i == 0 || q.open[i - 1]
  }

  predicate Enabled(q: Queue, s: Step)
    requires |q.open| == |q.phases|
  {
    match s
    case Checkout => true
    case Acquire(i) => i < |q.phases| && q.phases[i] == Waiting && TurnOf(q, i)
    case Release(i) => i < |q.phases| && Served(q.phases[i]) && q.served != []
    case Timeout(i) =>
      i < |q.phases| && q.phases[i] == Waiting && !TurnOf(q, i) && forall k :: 0 <= k < i ==> q.phases[k] != Waiting
  }

  /** The latest acquirer, whose release everyone's client carries. */
  function Latest(q: Queue): nat
    requires q.served != []
  {
    q.served[|q.served| - 1]
  }

  function Opened(open: seq<bool>, i: nat): seq<bool> {
    if i < |open| then open[i := true] else open
  }

  function Next(q: Queue, s: Step): Queue
    requires |q.open| == |q.phases| && Enabled(q, s)
  {
    match s
    case Checkout => q.(phases := q.phases + [Waiting], open := q.open + [false])
    case Acquire(i) => q.(phases := q.phases[i := Holding], served := q.served + [i])
    case Release(i) =>
      q.(phases := q.phases[i := Released], open := Opened(q.open, Latest(q)), releases := q.releases + 1)
    case Timeout(i) => q.(phases := q.phases[i := TimedOut], open := q.open[i := true])
  }

  const EMPTY := Queue([], [], [], 0)

  ghost predicate StepTo(q: Queue, s: Step, r: Queue) {
    |q.open| == |q.phases| && Enabled(q, s) && r == Next(q, s)
  }

  /** q is reached from the empty queue by these steps. */
  ghost predicate Reaches(steps: seq<Step>, q: Queue) {
    if steps == [] then q == EMPTY
    else
      var front, last := steps[..|steps| - 1], steps[|steps| - 1];
      exists before :: Reaches(front, before) && StepTo(before, last, q)
  }

  // ---- what every run keeps ----------------------------------------------------------------------

  /** Behind a waiting checkout all are waiting. */
  ghost predicate WaitersLast(q: Queue) {
    forall i, j :: 0 <= i < j < |q.phases| && q.phases[i] == Waiting ==> q.phases[j] == Waiting
  }

  /** Who was served was let pass by the checkout before; a waiting one lets nobody pass, a timed-out one does. */
  ghost predicate InTurn(q: Queue) {
    && |q.open| == |q.phases|
    && (forall i :: 0 <= i < |q.phases| && Served(q.phases[i]) ==> TurnOf(q, i))
    && (forall i :: 0 <= i < |q.phases| && q.open[i] ==> q.phases[i] != Waiting)
    && (forall i :: 0 <= i < |q.phases| && q.phases[i] == TimedOut ==> q.open[i])
  }

  /** `served` lists exactly the checkouts that got the connection, in the order they were made. */
  ghost predicate ServedInOrder(q: Queue) {
    && (forall i :: 0 <= i < |q.phases| ==> (i in q.served <==> Served(q.phases[i])))
    && (forall k :: 0 <= k < |q.served| ==> q.served[k] < |q.phases|)
    && (forall k, l :: 0 <= k < l < |q.served| ==> q.served[k] < q.served[l])
  }

  /** When the latest acquirer has released, its successor may go on. */
  ghost predicate LatestLetsPass(q: Queue) {
    q.served != [] && Latest(q) < |q.phases| && |q.open| == |q.phases| && q.phases[Latest(q)] == Released ==>
      q.open[Latest(q)]
  }

  function IsOpen(): bool -> bool {
    b => b
  }

  function Is(p: Phase): Phase -> bool {
    (q: Phase) => q == p
  }

  /** A promise is resolved by a time-out or by a release call, at most one for each. */
  ghost predicate OpenPaid(q: Queue) {
    Count(q.open, IsOpen()) <= Count(q.phases, Is(TimedOut)) + q.releases
  }

  ghost predicate Inv(q: Queue) {
    WaitersLast(q) && InTurn(q) && ServedInOrder(q) && LatestLetsPass(q) && OpenPaid(q)
  }

  lemma WaitersStayLast(q: Queue, s: Step)
    requires WaitersLast(q) && InTurn(q) && Enabled(q, s)
    ensures WaitersLast(Next(q, s))
  {
    if s.Acquire? && s.ticket > 0 { assert q.phases[s.ticket - 1] != Waiting; }
    var r := Next(q, s);
    forall i, j | 0 <= i < j < |r.phases| && r.phases[i] == Waiting ensures r.phases[j] == Waiting {
      assert i < |q.phases| ==> q.phases[i] == Waiting;
    }
  }

  lemma StepKeepsTurn(q: Queue, s: Step)
    requires InTurn(q) && ServedInOrder(q) && Enabled(q, s)
    ensures InTurn(Next(q, s))
  {
    if s.Release? { assert Latest(q) in q.served; }
    var r := Next(q, s);
    forall i | 0 <= i < |r.phases| && Served(r.phases[i]) ensures TurnOf(r, i) {
      assert TurnOf(q, i);
    }
  }

  /** Whoever is served next stands behind all that were served. */
  lemma AcquiresBehind(q: Queue, i: nat)
    requires WaitersLast(q) && ServedInOrder(q) && i < |q.phases| && q.phases[i] == Waiting
    ensures forall k :: 0 <= k < |q.served| ==> q.served[k] < i
  {
    forall k | 0 <= k < |q.served| ensures q.served[k] < i {
      assert q.served[k] in q.served;
      assert Served(q.phases[q.served[k]]);
    }
  }

  lemma StepKeepsServed(q: Queue, s: Step)
    requires WaitersLast(q) && InTurn(q) && ServedInOrder(q) && Enabled(q, s)
    ensures ServedInOrder(Next(q, s))
  {
    if s.Acquire? { AcquiresBehind(q, s.ticket); }
    var r := Next(q, s);
    forall i | 0 <= i < |r.phases| ensures i in r.served <==> Served(r.phases[i]) {
      if i < |q.phases| { assert i in q.served <==> Served(q.phases[i]); }
      if i == |q.phases| { assert i !in q.served; }
    }
  }

  lemma StepKeepsLatest(q: Queue, s: Step)
    requires InTurn(q) && ServedInOrder(q) && LatestLetsPass(q) && Enabled(q, s)
    ensures LatestLetsPass(Next(q, s))
  {
    if q.served != [] {
      assert Latest(q) in q.served;
      assert Served(q.phases[Latest(q)]);
    }
  }

  lemma StepKeepsPaid(q: Queue, s: Step)
    requires InTurn(q) && OpenPaid(q) && Enabled(q, s)
    ensures OpenPaid(Next(q, s))
  {
    match s
    case Checkout =>
      CountGrows(q.open, false, IsOpen());
      CountGrows(q.phases, Waiting, Is(TimedOut));
    case Acquire(i) => CountUpdate(q.phases, i, Holding, Is(TimedOut));
    case Release(i) =>
      CountUpdate(q.phases, i, Released, Is(TimedOut));
      if Latest(q) < |q.open| { CountUpdate(q.open, Latest(q), true, IsOpen()); }
    case Timeout(i) =>
      CountUpdate(q.phases, i, TimedOut, Is(TimedOut));
      CountUpdate(q.open, i, true, IsOpen());
  }

  lemma {:induction false} ReachableInv(steps: seq<Step>, q: Queue)
    requires Reaches(steps, q)
    ensures Inv(q)
  {
    if steps != [] {
      var last := steps[|steps| - 1];
      var before :| Reaches(steps[..|steps| - 1], before) && StepTo(before, last, q);
      ReachableInv(steps[..|steps| - 1], before);
      WaitersStayLast(before, last);
      StepKeepsTurn(before, last);
      StepKeepsServed(before, last);
      StepKeepsLatest(before, last);
      StepKeepsPaid(before, last);
    }
  }

  // ---- how many hold at once -----------------------------------------------------------------------

  /** Each one served but the first stands behind a promise of its own that is resolved. */
  lemma {:induction false} ServedPaid(q: Queue, n: nat)
    requires InTurn(q) && 0 < n <= |q.phases|
    ensures Count(q.phases[..n], Is(Holding)) + Count(q.phases[..n], Is(Released))
      <= 1 + Count(q.open[..n - 1], IsOpen())
  {
    assert q.phases[..n][..n - 1] == q.phases[..n - 1];
    if n > 1 {
      ServedPaid(q, n - 1);
      assert q.open[..n - 1][..n - 2] == q.open[..n - 2];
      assert Served(q.phases[n - 1]) ==> TurnOf(q, n - 1);
    }
  }

  lemma {:induction false} PrefixCounts<T>(xs: seq<T>, n: nat, p: T -> bool)
    requires n <= |xs|
    ensures Count(xs[..n], p) <= Count(xs, p)
  {
    if n == |xs| {
      assert xs[..n] == xs;
    } else {
      PrefixCounts(xs[..|xs| - 1], n, p);
      assert xs[..|xs| - 1][..n] == xs[..n];
    }
  }

  /** How many release calls came from someone who had released before. */
  function Repeats(q: Queue): int {
    q.releases - Count(q.phases, Is(Released))
  }

  /**
   * In every interleaving there are at most as many simultaneous holders as one plus the waiters
   * that timed out plus the repeated releases.
   */
  lemma HoldersBounded(steps: seq<Step>, q: Queue)
    requires Reaches(steps, q)
    ensures Count(q.phases, Is(Holding)) <= 1 + Count(q.phases, Is(TimedOut)) + Repeats(q)
  {
    ReachablePaid(steps, q);
    HoldersPaid(q);
  }

  lemma ReachablePaid(steps: seq<Step>, q: Queue)
    requires Reaches(steps, q)
    ensures InTurn(q) && OpenPaid(q)
  {
    ReachableInv(steps, q);
  }

  lemma HoldersPaid(q: Queue)
    requires InTurn(q) && OpenPaid(q)
    ensures Count(q.phases, Is(Holding)) <= 1 + Count(q.phases, Is(TimedOut)) + Repeats(q)
  {
    if q.phases != [] {
      ServedPaid(q, |q.phases|);
      assert q.phases[..|q.phases|] == q.phases;
      PrefixCounts(q.open, |q.phases| - 1, IsOpen());
    }
  }

  /** When every holder releases at most once, at most one plus the waiters that timed out hold at once. */
  lemma HoldersAtMostOnePlusTimeouts(steps: seq<Step>, q: Queue)
    requires Reaches(steps, q) && Repeats(q) == 0
    ensures Count(q.phases, Is(Holding)) <= 1 + Count(q.phases, Is(TimedOut))
  {
    HoldersBounded(steps, q);
  }

  // ---- order ----------------------------------------------------------------------------------------

  /**
   * In every interleaving, time-outs and repeated releases included, checkouts are served in
   * the order they were made.
   */
  lemma ServedAscends(steps: seq<Step>, q: Queue)
    requires Reaches(steps, q)
    ensures forall k, l :: 0 <= k < l < |q.served| ==> q.served[k] < q.served[l]
    ensures forall i, j :: 0 <= i < j < |q.phases| && Served(q.phases[j]) ==> q.phases[i] != Waiting
  {
    ReachableInv(steps, q);
  }

  /** How checkout k stands when the first n were served: all but the last of them have released, the rest wait. */
  predicate Stands(n: nat, k: nat, phase: Phase, open: bool) {
    if k + 1 < n then phase == Released && open
    else if k + 1 == n then Served(phase) && (open <==> phase == Released)
    else phase == Waiting && !open
  }

  /** The checkouts served are the first ones, one after the other. */
  ghost predicate OneAfterTheOther(q: Queue) {
    && |q.served| <= |q.phases| == |q.open|
    && (forall k :: 0 <= k < |q.served| ==> q.served[k] == k)
    && (forall k :: 0 <= k < |q.phases| ==> Stands(|q.served|, k, q.phases[k], q.open[k]))
  }

  lemma AcquireKeepsOrder(q: Queue, i: nat)
    requires OneAfterTheOther(q) && Enabled(q, Acquire(i))
    ensures OneAfterTheOther(Next(q, Acquire(i)))
  {
    assert Stands(|q.served|, i, q.phases[i], q.open[i]);
    assert i > 0 ==> Stands(|q.served|, i - 1, q.phases[i - 1], q.open[i - 1]);
    var r := Next(q, Acquire(i));
    forall k | 0 <= k < |r.phases| ensures Stands(|r.served|, k, r.phases[k], r.open[k]) {
      assert Stands(|q.served|, k, q.phases[k], q.open[k]);
    }
  }

  lemma ReleaseKeepsOrder(q: Queue, i: nat)
    requires OneAfterTheOther(q) && Enabled(q, Release(i)) && q.phases[i] == Holding
    ensures OneAfterTheOther(Next(q, Release(i)))
  {
    assert Stands(|q.served|, i, q.phases[i], q.open[i]);
    assert Latest(q) == i;
    var r := Next(q, Release(i));
    forall k | 0 <= k < |r.phases| ensures Stands(|r.served|, k, r.phases[k], r.open[k]) {
      assert Stands(|q.served|, k, q.phases[k], q.open[k]);
    }
  }

  lemma StepKeepsOrder(q: Queue, s: Step)
    requires OneAfterTheOther(q) && Enabled(q, s) && !s.Timeout?
    requires s.Release? ==> q.phases[s.ticket] == Holding
    ensures OneAfterTheOther(Next(q, s))
  {
    match s
    case Checkout =>
      forall k | 0 <= k < |q.phases| ensures Stands(|q.served|, k, q.phases[k], q.open[k]) { }
    case Acquire(i) => AcquireKeepsOrder(q, i);
    case Release(i) => ReleaseKeepsOrder(q, i);
  }

  lemma ReleasesCounted(q: Queue, s: Step)
    requires InTurn(q) && Enabled(q, s)
    ensures Repeats(Next(q, s)) == Repeats(q) + One(s.Release? && q.phases[s.ticket] == Released)
    ensures s.Timeout? || TimedOut in q.phases ==> TimedOut in Next(q, s).phases
  {
    var r := Next(q, s);
    if s.Checkout? {
      CountGrows(q.phases, Waiting, Is(Released));
    } else {
      CountUpdate(q.phases, s.ticket, r.phases[s.ticket], Is(Released));
    }
    if s.Timeout? { assert r.phases[s.ticket] == TimedOut; }
    if k :| 0 <= k < |q.phases| && q.phases[k] == TimedOut { assert r.phases[k] == TimedOut; }
  }

  lemma {:induction false} RepeatsNotNegative(steps: seq<Step>, q: Queue)
    requires Reaches(steps, q)
    ensures Repeats(q) >= 0
  {
    if steps != [] {
      var last := steps[|steps| - 1];
      var before :| Reaches(steps[..|steps| - 1], before) && StepTo(before, last, q);
      RepeatsNotNegative(steps[..|steps| - 1], before);
      ReachableInv(steps[..|steps| - 1], before);
      ReleasesCounted(before, last);
    }
  }

  /**
   * While nobody has timed out and nobody has released twice, there is at most one holder, and
   * each checkout is served after the one before has released.
   */
  lemma {:induction false} FirstInFirstOut(steps: seq<Step>, q: Queue)
    requires Reaches(steps, q) && TimedOut !in q.phases && Repeats(q) == 0
    ensures Count(q.phases, Is(Holding)) <= 1
    ensures OneAfterTheOther(q)
  {
    HoldersAtMostOnePlusTimeouts(steps, q);
    NoneOf(q.phases, TimedOut);
    if steps != [] {
      var last := steps[|steps| - 1];
      var before :| Reaches(steps[..|steps| - 1], before) && StepTo(before, last, q);
      ReachableInv(steps[..|steps| - 1], before);
      RepeatsNotNegative(steps[..|steps| - 1], before);
      ReleasesCounted(before, last);
      FirstInFirstOut(steps[..|steps| - 1], before);
      StepKeepsOrder(before, last);
    }
  }

  lemma {:induction false} NoneOf(phases: seq<Phase>, p: Phase)
    requires p !in phases
    ensures Count(phases, Is(p)) == 0
  {
    if phases != [] { NoneOf(phases[..|phases| - 1], p); }
  }

  // ---- passing a live holder --------------------------------------------------------------------------

  /** Someone who holds the connection no longer keeps the checkout behind it waiting. */
  predicate Passable(q: Queue, k: nat)
    requires |q.open| == |q.phases|
  {
    k < |q.phases| && q.phases[k] == Holding && q.open[k]
  }

  /**
   * A release lets a checkout pass someone who goes on holding the connection exactly when it
   * is called by another than the latest acquirer, while that one holds and was not yet let pass.
   */
  lemma ReleasePassesHolderIff(steps: seq<Step>, q: Queue, i: nat)
    requires Reaches(steps, q) && |q.open| == |q.phases| && Enabled(q, Release(i))
    ensures |Next(q, Release(i)).open| == |Next(q, Release(i)).phases|
    ensures (exists k :: Passable(Next(q, Release(i)), k) && !Passable(q, k)) <==>
      i != Latest(q) && Latest(q) < |q.phases| && q.phases[Latest(q)] == Holding && !q.open[Latest(q)]
  {
    ReachableInv(steps, q);
    var r, c := Next(q, Release(i)), Latest(q);
    LatestInRange(q);
    if i != c && q.phases[c] == Holding && !q.open[c] { assert Passable(r, c) && !Passable(q, c); }
    forall k | Passable(r, k) && !Passable(q, k) ensures k == c && k != i { }
  }

  lemma WaitersBefore(q: Queue, i: nat, j: nat)
    requires WaitersLast(q) && i <= j < |q.phases|
    ensures q.phases[i] == Waiting ==> q.phases[j] == Waiting
  {
  }

  lemma HolderLetPass(q: Queue, i: nat, j: nat)
    requires InTurn(q) && WaitersLast(q)
    requires i < j < |q.phases| && Served(q.phases[j]) && q.phases[i] == Holding
    ensures Passable(q, i) || q.phases[i + 1] == TimedOut
  {
    WaitersBefore(q, i + 1, j);
    assert Served(q.phases[i + 1]) ==> TurnOf(q, i + 1);
  }

  lemma ReachableInTurn(steps: seq<Step>, q: Queue)
    requires Reaches(steps, q)
    ensures InTurn(q) && WaitersLast(q)
  {
    ReachableInv(steps, q);
  }

  /**
   * A checkout is served while an earlier one holds only when that one was let pass by another's
   * release, or the checkout right behind it timed out.
   */
  lemma OvertakesHolderOnly(steps: seq<Step>, q: Queue, i: nat, j: nat)
    requires Reaches(steps, q)
    requires i < j < |q.phases| && Served(q.phases[j]) && q.phases[i] == Holding
    ensures |q.open| == |q.phases|
    ensures Passable(q, i) || q.phases[i + 1] == TimedOut
  {
    ReachableInTurn(steps, q);
    HolderLetPass(q, i, j);
  }

  /**
   * Behind one time-out: the first holder's release lets the fourth checkout in beside the
   * third, with no time-out between them.
   */
  lemma LateReleasePassesHolder() returns (steps: seq<Step>, q: Queue)
    ensures Reaches(steps, q) && Repeats(q) == 0
    ensures q.phases == [Released, TimedOut, Holding, Holding]
  {
    var s, p := OpensThird();
    steps, q := Extend(s, p, Acquire(3));
    assert q.phases == [Released, TimedOut, Holding, Holding];
    OneReleased();
  }

  lemma OpensThird() returns (steps: seq<Step>, q: Queue)
    ensures Reaches(steps, q)
    ensures q == Queue([Released, TimedOut, Holding, Waiting], [false, true, true, false], [0, 2], 1)
  {
    var s, p := TwoHoldersOneWaits();
    steps, q := Extend(s, p, Release(0));
  }

  lemma TwoHoldersOneWaits() returns (steps: seq<Step>, q: Queue)
    ensures Reaches(steps, q)
    ensures q == Queue([Holding, TimedOut, Holding, Waiting], [false, true, false, false], [0, 2], 0)
  {
    var s, p := FourWait();
    s, p := Extend(s, p, Acquire(0));
    s, p := Extend(s, p, Timeout(1));
    steps, q := Extend(s, p, Acquire(2));
    assert q.served == [0, 2];
  }

  lemma FourWait() returns (steps: seq<Step>, q: Queue)
    ensures Reaches(steps, q)
    ensures q == Queue([Waiting, Waiting, Waiting, Waiting], [false, false, false, false], [], 0)
  {
    var s, p := Extend([], EMPTY, Checkout);
    s, p := Extend(s, p, Checkout);
    s, p := Extend(s, p, Checkout);
    steps, q := Extend(s, p, Checkout);
  }

  lemma OneReleased()
    ensures Count([Released, TimedOut, Holding, Holding], Is(Released)) == 1
  {
    CountOfTwoMore([], Released, TimedOut, Is(Released));
    CountOfTwoMore([] + [Released, TimedOut], Holding, Holding, Is(Released));
    assert [] + [Released, TimedOut] + [Holding, Holding] == [Released, TimedOut, Holding, Holding];
  }

  lemma CountOfTwoMore(phases: seq<Phase>, c: Phase, d: Phase, p: Phase -> bool)
    ensures Count(phases + [c, d], p) == Count(phases, p) + One(p(c)) + One(p(d))
  {
    CountGrows(phases, c, p);
    CountGrows(phases + [c], d, p);
    assert phases + [c] + [d] == phases + [c, d];
  }

  // ---- progress ---------------------------------------------------------------------------------------

  /** The queue never stalls: with waiters and no holder, someone may go on. */
  lemma NeverStalls(steps: seq<Step>, q: Queue)
    requires Reaches(steps, q)
    requires Waiting in q.phases && Holding !in q.phases
    ensures |q.open| == |q.phases| && exists i :: Enabled(q, Acquire(i))
  {
    ReachableInTurn(steps, q);
    var i := FirstWaiting(q.phases);
    if i > 0 {
      assert q.phases[i - 1] in q.phases;
      LetsPass(steps, q, i);
    }
    assert Enabled(q, Acquire(i));
  }

  /** The first waiter may go on when the checkout before it has released or timed out. */
  lemma LetsPass(steps: seq<Step>, q: Queue, i: nat)
    requires Reaches(steps, q)
    requires 0 < i < |q.phases| && q.phases[i] == Waiting
    requires q.phases[i - 1] == Released || q.phases[i - 1] == TimedOut
    ensures |q.open| == |q.phases| && q.open[i - 1]
  {
    if q.phases[i - 1] == Released {
      LatestBefore(steps, q, i);
      LatestIsOpen(q);
    } else {
      ReachableInTurn(steps, q);
      TimedOutIsOpen(q, i - 1);
    }
  }

  lemma LatestBefore(steps: seq<Step>, q: Queue, i: nat)
    requires Reaches(steps, q)
    requires 0 < i < |q.phases| && q.phases[i] == Waiting && Served(q.phases[i - 1])
    ensures |q.open| == |q.phases| && LatestLetsPass(q) && q.served != [] && Latest(q) == i - 1
  {
    ReachableInv(steps, q);
    LatestIsLastBefore(q, i);
  }

  lemma TimedOutIsOpen(q: Queue, i: nat)
    requires InTurn(q) && i < |q.phases|
    ensures q.phases[i] == TimedOut ==> q.open[i]
  {
  }

  lemma LatestIsOpen(q: Queue)
    requires LatestLetsPass(q) && q.served != [] && Latest(q) < |q.phases| == |q.open|
    ensures q.phases[Latest(q)] == Released ==> q.open[Latest(q)]
  {
  }

  lemma LatestIsLastBefore(q: Queue, i: nat)
    requires ServedInOrder(q) && WaitersLast(q)
    requires 0 < i < |q.phases| && q.phases[i] == Waiting && Served(q.phases[i - 1])
    ensures q.served != [] && Latest(q) == i - 1
  {
    AcquiresBehind(q, i);
    assert i - 1 in q.served;
    var k :| 0 <= k < |q.served| && q.served[k] == i - 1;
    LatestIsGreatest(q, k);
  }

  lemma LatestIsGreatest(q: Queue, k: nat)
    requires ServedInOrder(q) && k < |q.served|
    ensures q.served[k] <= Latest(q)
    ensures k == |q.served| - 1 || q.served[k] < Latest(q)
  {
  }

  lemma {:induction false} FirstWaiting(phases: seq<Phase>) returns (i: nat)
    requires Waiting in phases
    ensures i < |phases| && phases[i] == Waiting && forall k :: 0 <= k < i ==> phases[k] != Waiting
  {
    if Waiting in phases[..|phases| - 1] {
      i := FirstWaiting(phases[..|phases| - 1]);
    } else {
      i := |phases| - 1;
      assert forall k :: 0 <= k < i ==> phases[k] in phases[..i];
    }
  }

  // ---- the bound is met --------------------------------------------------------------------------------

  /** The next checkout gets the connection at once. */
  ghost predicate Ready(q: Queue) {
    |q.open| == |q.phases| && TurnOf(q, |q.phases|)
  }

  lemma CheckoutAndAcquire(steps: seq<Step>, q: Queue) returns (steps': seq<Step>, r: Queue)
    requires Reaches(steps, q) && Ready(q)
    ensures Reaches(steps', r) && r.phases == q.phases + [Holding] && r.served == q.served + [|q.phases|]
    ensures r.open == q.open + [false] && r.releases == q.releases
  {
    var s, p := Extend(steps, q, Checkout);
    steps', r := Extend(s, p, Acquire(|q.phases|));
  }

  /** The last checkout is served and holds, the first one has released. */
  ghost predicate LatestHolds(q: Queue) {
    && |q.phases| > 0 && |q.open| == |q.phases| && q.served != [] && Latest(q) == |q.phases| - 1
    && q.phases[Latest(q)] == Holding && !q.open[Latest(q)] && q.phases[0] == Released
  }

  lemma OneMoreHolds(s: seq<Step>, p: Queue) returns (steps: seq<Step>, q: Queue)
    requires Reaches(s, p) && Ready(p) && p.phases != [] && p.phases[0] == Released
    ensures Reaches(steps, q) && LatestHolds(q) && Repeats(q) == Repeats(p)
    ensures Count(q.phases, Is(TimedOut)) == Count(p.phases, Is(TimedOut))
    ensures Count(q.phases, Is(Holding)) == Count(p.phases, Is(Holding)) + 1
  {
    steps, q := CheckoutAndAcquire(s, p);
    PhaseCounts(p.phases, Holding);
  }

  lemma FirstReleases() returns (s: seq<Step>, p: Queue)
    ensures Reaches(s, p) && Ready(p) && p.phases == [Released] && p.releases == 1
  {
    s, p := CheckoutAndAcquire([], EMPTY);
    s, p := Extend(s, p, Release(0));
  }

  lemma CheckoutTimesOut(s: seq<Step>, p: Queue) returns (t: seq<Step>, w: Queue)
    requires Reaches(s, p) && LatestHolds(p)
    ensures Reaches(t, w) && w.phases == p.phases + [TimedOut] && w.open == p.open + [true]
    ensures w.releases == p.releases
  {
    ReachableInv(s, p);
    NoneWaits(p);
    t, w := Extend(s, p, Checkout);
    t, w := Extend(t, w, Timeout(|p.phases|));
  }

  /** A waiter times out, and the next checkout holds too. */
  lemma PastTimeout(s: seq<Step>, p: Queue) returns (steps: seq<Step>, q: Queue)
    requires Reaches(s, p) && LatestHolds(p)
    ensures Reaches(steps, q) && LatestHolds(q) && Repeats(q) == Repeats(p)
    ensures Count(q.phases, Is(TimedOut)) == Count(p.phases, Is(TimedOut)) + 1
    ensures Count(q.phases, Is(Holding)) == Count(p.phases, Is(Holding)) + 1
  {
    var t, w := CheckoutTimesOut(s, p);
    PhaseCounts(p.phases, TimedOut);
    steps, q := OneMoreHolds(t, w);
  }

  /** The first holder releases once more, and the next checkout holds too. */
  lemma PastRepeat(s: seq<Step>, p: Queue) returns (steps: seq<Step>, q: Queue)
    requires Reaches(s, p) && LatestHolds(p)
    ensures Reaches(steps, q) && LatestHolds(q) && Repeats(q) == Repeats(p) + 1
    ensures Count(q.phases, Is(TimedOut)) == Count(p.phases, Is(TimedOut))
    ensures Count(q.phases, Is(Holding)) == Count(p.phases, Is(Holding)) + 1
  {
    var t, w := Extend(s, p, Release(0));
    assert w.phases == p.phases;
    steps, q := OneMoreHolds(t, w);
  }

  /**
   * For every number n of time-outs and m of repeated releases an interleaving has 1 + n + m
   * holders: beside the first holder, which has released, each further release of its lets one
   * more in, and so does each time-out.
   */
  lemma {:induction false} BoundIsMet(n: nat, m: nat) returns (steps: seq<Step>, q: Queue)
    ensures Reaches(steps, q) && LatestHolds(q)
    ensures Count(q.phases, Is(TimedOut)) == n && Repeats(q) == m
    ensures Count(q.phases, Is(Holding)) == 1 + n + m
    decreases n + m
  {
    if n == 0 && m == 0 {
      var s, p := FirstReleases();
      steps, q := OneMoreHolds(s, p);
      OnlyReleased();
    } else if n > 0 {
      var s, p := BoundIsMet(n - 1, m);
      steps, q := PastTimeout(s, p);
    } else {
      var s, p := BoundIsMet(n, m - 1);
      steps, q := PastRepeat(s, p);
    }
  }

  lemma OnlyReleased()
    ensures Count([Released], Is(Released)) == 1
    ensures Count([Released], Is(TimedOut)) == 0 && Count([Released], Is(Holding)) == 0
  {
    PhaseCounts([], Released);
    assert [] + [Released] == [Released];
  }

  lemma NoneWaits(q: Queue)
    requires WaitersLast(q) && q.phases != [] && q.phases[|q.phases| - 1] != Waiting
    ensures Waiting !in q.phases
  {
    var last := |q.phases| - 1;
    assert forall i :: 0 <= i < last && q.phases[i] == Waiting ==> q.phases[last] == Waiting;
  }

  lemma Extend(steps: seq<Step>, q: Queue, s: Step) returns (steps': seq<Step>, q': Queue)
    requires Reaches(steps, q) && |q.open| == |q.phases| && Enabled(q, s)
    ensures q' == Next(q, s) && Reaches(steps', q')
  {
    steps', q' := steps + [s], Next(q, s);
    assert steps'[..|steps|] == steps;
    assert StepTo(q, s, q');
  }

  lemma PhaseCounts(phases: seq<Phase>, p: Phase)
    ensures Count(phases + [p], Is(Holding)) == Count(phases, Is(Holding)) + One(p == Holding)
    ensures Count(phases + [p], Is(Released)) == Count(phases, Is(Released)) + One(p == Released)
    ensures Count(phases + [p], Is(TimedOut)) == Count(phases, Is(TimedOut)) + One(p == TimedOut)
  {
    CountGrows(phases, p, Is(Holding));
    CountGrows(phases, p, Is(Released));
    CountGrows(phases, p, Is(TimedOut));
  }

  // ---- the promise chain ------------------------------------------------------------------------

  /** A checkout in the code: the promise it awaits, none for one resolved from the start, and the one it adds. */
  datatype Waiter = Waiter(previous: Option<nat>, own: nat)

  /** The `release` the shared client carries: the promise it resolves, and whether it was called. */
  datatype Handle = Handle(own: nat, released: bool)

  class ScopedConnection {
    /** Whether each promise is resolved. */
    var resolved: seq<bool>
    /** The promise the next checkout will await. */
    var tail: Option<nat>
    var waiters: seq<Waiter>
    var handle: Option<Handle>
    /** Where every checkout stands, which only the callers know, and how it came to that. */
    ghost var state: Queue
    ghost var steps: seq<Step>

    ghost predicate Valid()
      reads this
    {
      Reaches(steps, state) && Linked()
    }

    /** Every checkout awaits the one before it, and the client carries the release of the latest acquirer. */
    ghost predicate Linked()
      reads this
    {
      && resolved == state.open && |waiters| == |resolved| && tail == PromiseBefore(|waiters|)
      && Chained(waiters)
      && handle == if state.served == [] then None else HandleOf(Latest(state), resolved)
    }

    constructor ()
      ensures Valid() && state == EMPTY
    {
      resolved, tail, waiters, handle, state, steps := [], None, [], None, EMPTY, [];
    }

    method Checkout() returns (ticket: nat)
      requires Valid()
      modifies this
      ensures Valid() && |old(state).open| == |old(state).phases| && state == Next(old(state), Step.Checkout)
      ensures ticket == |old(state).phases|
    {
      Ranges(steps, state);
      var previous := tail;
      ticket := |waiters|;
      tail := Some(|resolved|);
      resolved := resolved + [false];
      ChainGrows(waiters, Waiter(previous, ticket));
      waiters := waiters + [Waiter(previous, ticket)];
      steps, state := Extend(steps, state, Step.Checkout);
    }

    /** The promise that a checkout awaits is resolved: its turn has come. */
    method TurnHasCome(ticket: nat) returns (come: bool)
      requires Valid() && ticket < |state.phases| && |state.open| == |state.phases|
      ensures come == TurnOf(state, ticket)
    {
      var awaited := waiters[ticket].previous;
      come := awaited.None? || resolved[awaited.value];
    }

    /** The race of the awaited promise against the timer has an outcome. */
    method Settle(ticket: nat, timedOut: bool)
      requires Valid() && |state.open| == |state.phases|
      requires Enabled(state, if timedOut then Timeout(ticket) else Acquire(ticket))
      modifies this
      ensures Valid() && |old(state).open| == |old(state).phases|
      ensures state == Next(old(state), if timedOut then Timeout(ticket) else Acquire(ticket))
    {
      Ranges(steps, state);
      var own := waiters[ticket].own;
      if timedOut {
        resolved := resolved[own := true];
      } else {
        handle := Some(Handle(own, false));
      }
      steps, state := Extend(steps, state, if timedOut then Timeout(ticket) else Acquire(ticket));
    }

    /** Who calls it makes no difference to the connection: the release is that of the shared client. */
    method Release(ghost ticket: nat)
      requires Valid() && |state.open| == |state.phases| && Enabled(state, Step.Release(ticket))
      modifies this
      ensures Valid() && |old(state).open| == |old(state).phases|
      ensures state == Next(old(state), Step.Release(ticket))
    {
      Ranges(steps, state);
      if !handle.value.released {
        resolved := resolved[handle.value.own := true];
        handle := Some(handle.value.(released := true));
      }
      steps, state := Extend(steps, state, Step.Release(ticket));
    }
  }

  lemma Ranges(steps: seq<Step>, q: Queue)
    requires Reaches(steps, q)
    ensures |q.open| == |q.phases| && (q.served != [] ==> Latest(q) < |q.phases| && Served(q.phases[Latest(q)]))
    ensures forall i :: 0 <= i < |q.phases| && q.phases[i] == Waiting ==> !q.open[i]
  {
    ReachableInv(steps, q);
    if q.served != [] { assert Latest(q) in q.served; }
  }

  ghost predicate Chained(waiters: seq<Waiter>) {
    forall i :: 0 <= i < |waiters| ==> waiters[i] == Waiter(PromiseBefore(i), i)
  }

  lemma ChainGrows(waiters: seq<Waiter>, w: Waiter)
    ensures Chained(waiters) && w == Waiter(PromiseBefore(|waiters|), |waiters|) ==> Chained(waiters + [w])
  {
  }

  function PromiseBefore(i: nat): Option<nat> {
    if i == 0 then None else Some(i - 1)
  }

  function HandleOf(ticket: nat, resolved: seq<bool>): Option<Handle> {
    if ticket < |resolved| then Some(Handle(ticket, resolved[ticket])) else None
  }

  lemma LatestInRange(q: Queue)
    requires Inv(q)
    ensures q.served != [] ==> Latest(q) < |q.phases| && Served(q.phases[Latest(q)])
  {
    if q.served != [] { assert Latest(q) in q.served; }
  }
}
