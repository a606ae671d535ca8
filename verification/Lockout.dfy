/** Password login with a failure count and a lock that doubles. Instants are milliseconds. */
module Lockout {
  import opened Wrappers
  import opened Arithmetic

  const MINUTE := 60_000

  datatype Config = Config(maxFailedLogins: int, lockoutBaseMinutes: int)

  datatype User = User(hasPassword: bool, failed: nat, lockedUntil: Option<int>, lastLoginAt: Option<int>)

  /** A login with the wrong or the right password. */
  datatype Attempt = Attempt(now: int, matches: bool)

  datatype Outcome = InvalidCredentials | Locked(until: int) | Accepted

  function Pow2(n: nat): nat {
    if n == 0 then 1 else 2 * Pow2(n - 1)
  }

  function LockMillis(c: Config, failed: nat): int
    requires failed >= c.maxFailedLogins >= 0
  {
    c.lockoutBaseMinutes * MINUTE * Pow2(failed - c.maxFailedLogins)
  }

  predicate IsLocked(u: User, now: int) {
    u.lockedUntil.Some? && u.lockedUntil.value > now
  }

  /** The account after an attempt. */
  function Next(u: User, c: Config, a: Attempt): User
    requires c.maxFailedLogins >= 0
  {
    if !u.hasPassword || IsLocked(u, a.now) then u
    else if a.matches then u.(failed := 0, lockedUntil := None, lastLoginAt := Some(a.now))
    else
      var failed := u.failed + 1;
      if failed >= c.maxFailedLogins then u.(failed := failed, lockedUntil := Some(a.now + LockMillis(c, failed)))
      else u.(failed := failed)
  }

  function Answer(u: User, a: Attempt): Outcome {
    if !u.hasPassword then InvalidCredentials
    else if IsLocked(u, a.now) then Locked(u.lockedUntil.value)
    else if a.matches then Accepted
    else InvalidCredentials
  }

  class Account {
    var hasPassword: bool
    var failedLoginCount: nat
    var lockedUntil: Option<int>
    var lastLoginAt: Option<int>

    function State(): User
      reads this
    {
      User(hasPassword, failedLoginCount, lockedUntil, lastLoginAt)
    }

    method Login(c: Config, now: int, matches: bool) returns (outcome: Outcome)
      requires c.maxFailedLogins >= 0
      modifies this
      ensures State() == Next(old(State()), c, Attempt(now, matches))
      ensures outcome == Answer(old(State()), Attempt(now, matches))
    {
      if !hasPassword { return InvalidCredentials; }
      if lockedUntil.Some? && lockedUntil.value > now { return Locked(lockedUntil.value); }
      if !matches {
        failedLoginCount := failedLoginCount + 1;
        if failedLoginCount >= c.maxFailedLogins {
          lockedUntil := Some(now + LockMillis(c, failedLoginCount));
        }
        return InvalidCredentials;
      }
      failedLoginCount, lockedUntil, lastLoginAt := 0, None, Some(now);
      return Accepted;
    }
  }

  // ---- runs --------------------------------------------------------------------------------------

  function Run(u: User, c: Config, h: seq<Attempt>): User
    requires c.maxFailedLogins >= 0
  {
    if h == [] then u else Next(Run(u, c, h[..|h| - 1]), c, h[|h| - 1])
  }

  /** Whether the password of an attempt is compared at all, and is wrong. */
  predicate CheckedWrong(u: User, a: Attempt) {
    u.hasPassword && !IsLocked(u, a.now) && !a.matches
  }

  /** When wrong passwords were compared in a run. */
  function WrongTimes(u: User, c: Config, h: seq<Attempt>): seq<int>
    requires c.maxFailedLogins >= 0
  {
    if h == [] then []
    else
      var front, last := h[..|h| - 1], h[|h| - 1];
      WrongTimes(u, c, front) + if CheckedWrong(Run(u, c, front), last) then [last.now] else []
  }

  ghost predicate NoSuccess(u: User, c: Config, h: seq<Attempt>)
    requires c.maxFailedLogins >= 0
  {
    forall i :: 0 <= i < |h| ==> Answer(Run(u, c, h[..i]), h[i]) != Accepted
  }

  /** The times of wrong passwords are at least doubling locks apart. */
  ghost predicate Spaced(c: Config, times: seq<int>)
    requires c.maxFailedLogins >= 1
  {
    forall i :: c.maxFailedLogins - 1 <= i < |times| ==>
      times[i] >= times[c.maxFailedLogins - 1]
        + c.lockoutBaseMinutes * MINUTE * (Pow2(i + 1 - c.maxFailedLogins) - 1)
  }

  lemma Doubling(b: int, k: nat)
    ensures b * (Pow2(k) - 1) + b * Pow2(k) == b * (Pow2(k + 1) - 1)
  {
    Distribute(b, Pow2(k) - 1, Pow2(k));
  }

  /** One more wrong password after the lock keeps the times spaced. */
  lemma SpacedNext(c: Config, times: seq<int>, now: int)
    requires c.maxFailedLogins >= 1 && Spaced(c, times)
    requires |times| >= c.maxFailedLogins ==> now >= times[|times| - 1] + LockMillis(c, |times|)
    ensures Spaced(c, times + [now])
  {
    var m, b, k := c.maxFailedLogins, c.lockoutBaseMinutes * MINUTE, |times|;
    var more := times + [now];
    forall i | m - 1 <= i < |more| ensures more[i] >= more[m - 1] + b * (Pow2(i + 1 - m) - 1) {
      if i < k {
        assert more[i] == times[i] && more[m - 1] == times[m - 1];
      } else if k >= m {
        Doubling(b, k - m);
        assert times[k - 1] >= times[m - 1] + b * (Pow2(k - 1 + 1 - m) - 1);
      }
    }
  }

  /** What a run without success from a fresh account leaves behind. */
  ghost predicate LockedSince(u: User, c: Config, times: seq<int>)
    requires c.maxFailedLogins >= 1
  {
    && u.hasPassword && u.failed == |times|
    && (|times| >= c.maxFailedLogins ==> u.lockedUntil == Some(times[|times| - 1] + LockMillis(c, |times|)))
  }

  lemma {:induction false} RunIsSpaced(u: User, c: Config, h: seq<Attempt>)
    requires c.maxFailedLogins >= 1 && u.hasPassword && u.failed == 0
    requires NoSuccess(u, c, h)
    ensures LockedSince(Run(u, c, h), c, WrongTimes(u, c, h)) && Spaced(c, WrongTimes(u, c, h))
  {
    if h != [] {
      var front, last := h[..|h| - 1], h[|h| - 1];
      assert forall i :: 0 <= i < |front| ==> front[..i] == h[..i] && front[i] == h[i];
      RunIsSpaced(u, c, front);
      var before, times := Run(u, c, front), WrongTimes(u, c, front);
      assert Answer(before, last) != Accepted;
      if CheckedWrong(before, last) {
        SpacedNext(c, times, last.now);
        LockedNext(before, c, times, last);
      } else {
        assert times + [] == times;
      }
    }
  }

  lemma LockedNext(u: User, c: Config, times: seq<int>, a: Attempt)
    requires c.maxFailedLogins >= 1 && LockedSince(u, c, times) && CheckedWrong(u, a)
    ensures LockedSince(Next(u, c, a), c, times + [a.now])
  {
  }

  /**
   * In every run without a success the n-th wrong password that is compared cannot come before
   * the m-th one plus b * (2^(n - m) - 1) minutes, where m failures lock and b minutes is the first lock.
   */
  lemma GuessesAreSpaced(u: User, c: Config, h: seq<Attempt>, n: nat)
    requires c.maxFailedLogins >= 1 && u.hasPassword && u.failed == 0 && NoSuccess(u, c, h)
    requires c.maxFailedLogins <= n <= |WrongTimes(u, c, h)|
    ensures var w := WrongTimes(u, c, h);
      w[n - 1] >= w[c.maxFailedLogins - 1] + c.lockoutBaseMinutes * MINUTE * (Pow2(n - c.maxFailedLogins) - 1)
  {
    RunIsSpaced(u, c, h);
  }

  // ---- the bound is met ------------------------------------------------------------------------------

  /** The earliest time of the i-th wrong password. */
  function Earliest(c: Config, start: int, i: nat): int
    requires c.maxFailedLogins >= 1
  {
    if i < c.maxFailedLogins then start
    else start + c.lockoutBaseMinutes * MINUTE * (Pow2(i + 1 - c.maxFailedLogins) - 1)
  }

  function Guesses(c: Config, start: int, n: nat): seq<Attempt>
    requires c.maxFailedLogins >= 1
  {
    if n == 0 then [] else Guesses(c, start, n - 1) + [Attempt(Earliest(c, start, n - 1), false)]
  }

  /** The wrong passwords compared so far came at the earliest times. */
  ghost predicate AtEarliest(c: Config, start: int, times: seq<int>)
    requires c.maxFailedLogins >= 1
  {
    forall i :: 0 <= i < |times| ==> times[i] == Earliest(c, start, i)
  }

  /** An account whose guesses so far were all compared, at the earliest times. */
  ghost predicate Guessed(u: User, now: User, c: Config, start: int, times: seq<int>, n: nat)
    requires c.maxFailedLogins >= 1
  {
    && |times| == n && AtEarliest(c, start, times) && LockedSince(now, c, times)
    && (n < c.maxFailedLogins ==> now.lockedUntil == u.lockedUntil)
  }

  lemma GuessIsCompared(u: User, now: User, c: Config, start: int, times: seq<int>, n: nat)
    requires c.maxFailedLogins >= 1 && !IsLocked(u, start) && Guessed(u, now, c, start, times, n)
    ensures var guess := Attempt(Earliest(c, start, n), false);
      CheckedWrong(now, guess) && Guessed(u, Next(now, c, guess), c, start, times + [guess.now], n + 1)
  {
    if n >= c.maxFailedLogins { Doubling(c.lockoutBaseMinutes * MINUTE, n - c.maxFailedLogins); }
    assert n >= c.maxFailedLogins ==> times[n - 1] == Earliest(c, start, n - 1);
  }

  /** Guessing again at the very end of each lock, every guess is compared: no larger bound holds. */
  lemma {:induction false} BoundIsMet(u: User, c: Config, start: int, n: nat)
    requires c.maxFailedLogins >= 1 && u.hasPassword && u.failed == 0 && !IsLocked(u, start)
    ensures var h := Guesses(c, start, n);
      && NoSuccess(u, c, h) && |WrongTimes(u, c, h)| == n
      && AtEarliest(c, start, WrongTimes(u, c, h))
      && Guessed(u, Run(u, c, h), c, start, WrongTimes(u, c, h), n)
  {
    AllCompared(u, c, start, n);
  }

  /** A run of guesses that were all compared, at the earliest times. */
  ghost predicate Compared(u: User, c: Config, start: int, h: seq<Attempt>, n: nat)
    requires c.maxFailedLogins >= 1
  {
    NoSuccess(u, c, h) && Guessed(u, Run(u, c, h), c, start, WrongTimes(u, c, h), n)
  }

  lemma {:induction false} AllCompared(u: User, c: Config, start: int, n: nat)
    requires c.maxFailedLogins >= 1 && u.hasPassword && u.failed == 0 && !IsLocked(u, start)
    ensures Compared(u, c, start, Guesses(c, start, n), n)
  {
    if n > 0 {
      AllCompared(u, c, start, n - 1);
      NextCompared(u, c, start, Guesses(c, start, n - 1), n - 1);
    }
  }

  lemma NextCompared(u: User, c: Config, start: int, h: seq<Attempt>, n: nat)
    requires c.maxFailedLogins >= 1 && !IsLocked(u, start) && Compared(u, c, start, h, n)
    ensures Compared(u, c, start, h + [Attempt(Earliest(c, start, n), false)], n + 1)
  {
    var guess := Attempt(Earliest(c, start, n), false);
    GuessIsCompared(u, Run(u, c, h), c, start, WrongTimes(u, c, h), n);
    NoSuccessNext(u, c, h, guess);
    WrongNext(u, c, h, guess);
  }

  lemma WrongNext(u: User, c: Config, h: seq<Attempt>, a: Attempt)
    requires c.maxFailedLogins >= 0 && CheckedWrong(Run(u, c, h), a)
    ensures Run(u, c, h + [a]) == Next(Run(u, c, h), c, a)
    ensures WrongTimes(u, c, h + [a]) == WrongTimes(u, c, h) + [a.now]
  {
    assert (h + [a])[..|h|] == h;
  }

  lemma NoSuccessNext(u: User, c: Config, h: seq<Attempt>, a: Attempt)
    requires c.maxFailedLogins >= 0 && NoSuccess(u, c, h) && CheckedWrong(Run(u, c, h), a)
    ensures NoSuccess(u, c, h + [a])
  {
    forall i | 0 <= i < |h + [a]| ensures Answer(Run(u, c, (h + [a])[..i]), (h + [a])[i]) != Accepted {
      if i < |h| { assert (h + [a])[..i] == h[..i]; } else { assert (h + [a])[..i] == h; }
    }
  }
}
