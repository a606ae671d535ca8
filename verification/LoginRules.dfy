/** What login and sessions promise, written out attempt by attempt and refresh by refresh. */
module LoginRules {
  import opened Wrappers
  import opened Texts
  import Lockout
  import Sessions

  // ---- login -----------------------------------------------------------------------------------------

  /** The account is locked beyond the instant. */
  ghost predicate LockedAt(u: Lockout.User, now: int) {
    u.lockedUntil.Some? && now < u.lockedUntil.value
  }

  /**
   * A locked account, or one without a password, refuses every attempt and stays as it is. The right
   * password is accepted otherwise, and clears the count and the lock.
   */
  lemma AttemptIsAnswered(u: Lockout.User, c: Lockout.Config, now: int, matches: bool)
    requires c.maxFailedLogins >= 0
    ensures var a := Lockout.Attempt(now, matches);
      var after := Lockout.Next(u, c, a);
      if !u.hasPassword then Lockout.Answer(u, a) == Lockout.InvalidCredentials && after == u
      else if LockedAt(u, now) then Lockout.Answer(u, a) == Lockout.Locked(u.lockedUntil.value) && after == u
      else if matches then
        Lockout.Answer(u, a) == Lockout.Accepted && after == Lockout.User(true, 0, None, Some(now))
      else
        && Lockout.Answer(u, a) == Lockout.InvalidCredentials && after.failed == u.failed + 1
        && after.hasPassword && after.lastLoginAt == u.lastLoginAt
  {
  }

  /**
   * A wrong password that is compared locks the account exactly from the given number of failures on,
   * for a time that doubles with each of them.
   */
  lemma WrongPasswordLocksIff(u: Lockout.User, c: Lockout.Config, now: int)
    requires c.maxFailedLogins >= 0 && u.hasPassword && !LockedAt(u, now)
    ensures var after := Lockout.Next(u, c, Lockout.Attempt(now, false));
      if u.failed + 1 < c.maxFailedLogins then after.lockedUntil == u.lockedUntil
      else
        && after.lockedUntil == Some(
          now + c.lockoutBaseMinutes * (60 * 1000) * Lockout.Pow2(u.failed + 1 - c.maxFailedLogins))
        && Lockout.Pow2(u.failed + 1 - c.maxFailedLogins) >= 1
        && (u.failed + 1 > c.maxFailedLogins ==>
             Lockout.Pow2(u.failed + 1 - c.maxFailedLogins) == 2 * Lockout.Pow2(u.failed - c.maxFailedLogins))
  {
    PowerIsPositive(if u.failed + 1 >= c.maxFailedLogins then u.failed + 1 - c.maxFailedLogins else 0);
  }

  lemma {:induction false} PowerIsPositive(n: nat)
    ensures Lockout.Pow2(n) >= 1
  {
    if n > 0 { PowerIsPositive(n - 1); }
  }

  /** After a success everything starts over: later guesses are spaced as those against a new account. */
  lemma GuessesAreSpacedAfterSuccess(
    u: Lockout.User, c: Lockout.Config, before: seq<Lockout.Attempt>, now: int, h: seq<Lockout.Attempt>, n: nat)
    requires c.maxFailedLogins >= 1
    requires Lockout.Answer(Lockout.Run(u, c, before), Lockout.Attempt(now, true)) == Lockout.Accepted
    requires var v := Lockout.Next(Lockout.Run(u, c, before), c, Lockout.Attempt(now, true));
      Lockout.NoSuccess(v, c, h) && c.maxFailedLogins <= n <= |Lockout.WrongTimes(v, c, h)|
    ensures var v := Lockout.Next(Lockout.Run(u, c, before), c, Lockout.Attempt(now, true));
      var w := Lockout.WrongTimes(v, c, h);
      && v.failed == 0 && !LockedAt(v, now)
      && w[n - 1] >= w[c.maxFailedLogins - 1]
        + c.lockoutBaseMinutes * Lockout.MINUTE * (Lockout.Pow2(n - c.maxFailedLogins) - 1)
  {
    var u' := Lockout.Run(u, c, before);
    AttemptIsAnswered(u', c, now, true);
    Lockout.GuessesAreSpaced(Lockout.Next(u', c, Lockout.Attempt(now, true)), c, h, n);
  }

  // ---- sessions --------------------------------------------------------------------------------------

  /** The life of a session in milliseconds. */
  function Days(n: int): int {
    n * (24 * 60 * 60 * 1000)
  }

  /** The session neither ran out nor was revoked. */
  ghost predicate Usable(s: Sessions.Session, now: int) {
    s.revokedAt == None && s.expiresAt > now
  }

  /**
   * The token of a session: refused when the session is revoked or has run out; a mismatch, which
   * revokes it, from another device; otherwise exchanged for the next one, with a new full life.
   * No other session changes.
   */
  lemma RefreshIsAnswered(
    w: Sessions.World, sha: Sessions.Hasher, ttlDays: int, token: Text, fingerprint: Text, next: Text, now: int,
    id: nat)
    requires Sessions.Inv(w, sha) && id < |w.sessions| && w.sessions[id].refreshHash == sha(token)
    ensures var s := w.sessions[id];
      var answer := Sessions.RefreshAnswer(w.sessions, sha, token, fingerprint, now, next, ttlDays);
      var after := Sessions.AfterRefresh(w.sessions, sha, token, fingerprint, now, next, ttlDays);
      if !Usable(s, now) then answer == Sessions.Invalid && after == w.sessions
      else if s.fingerprint != fingerprint then
        answer == Sessions.DeviceMismatch && after == w.sessions[id := s.(revokedAt := Some(now))]
      else
        && answer == Sessions.Rotated(id, next, now + Days(ttlDays))
        && after == w.sessions[id := s.(refreshHash := sha(next), expiresAt := now + Days(ttlDays), lastSeenAt := now)]
  {
    Sessions.FindsTheOne(w.sessions, sha(token), id);
  }

  /** A token that opens no session is refused and changes nothing. */
  lemma UnknownTokenIsRefused(
    w: Sessions.World, sha: Sessions.Hasher, ttlDays: int, token: Text, fingerprint: Text, next: Text, now: int)
    requires forall i :: 0 <= i < |w.sessions| ==> w.sessions[i].refreshHash != sha(token)
    ensures Sessions.RefreshAnswer(w.sessions, sha, token, fingerprint, now, next, ttlDays) == Sessions.Invalid
    ensures Sessions.AfterRefresh(w.sessions, sha, token, fingerprint, now, next, ttlDays) == w.sessions
  {
  }

  /** A session is issued with its whole life ahead, beside all others; revoking and signing out end it. */
  lemma SessionIsIssued(
    w: Sessions.World, sha: Sessions.Hasher, ttlDays: int, userId: nat, fingerprint: Text, token: Text, now: int)
    ensures Sessions.Step(w, sha, ttlDays, Sessions.Issue(userId, fingerprint, token, now)) ==
      Sessions.World(
        w.sessions + [Sessions.Session(userId, sha(token), fingerprint, now + Days(ttlDays), now, None, None)],
        w.minted + {token})
  {
  }

  lemma SessionsAreEnded(w: Sessions.World, sha: Sessions.Hasher, ttlDays: int, id: nat, userId: nat, now: int, i: nat)
    requires i < |w.sessions|
    ensures var after := Sessions.Step(w, sha, ttlDays, Sessions.Revoke(id, now)).sessions;
      |after| == |w.sessions| && after[i] == if i == id then w.sessions[i].(revokedAt := Some(now)) else w.sessions[i]
    ensures var after := Sessions.Step(w, sha, ttlDays, Sessions.SignOut(userId, now)).sessions;
      && |after| == |w.sessions|
      && after[i] ==
        if w.sessions[i].userId == userId && w.sessions[i].revokedAt == None
        then w.sessions[i].(revokedAt := Some(now)) else w.sessions[i]
  {
  }

  /** Tokens used in time, from one device: each is the answer to the one before. */
  ghost predicate InTime(at: seq<int>, ttlDays: int) {
    forall k :: 0 < k < |at| ==> at[k] < at[k - 1] + Days(ttlDays)
  }

  /** The refreshes of one session, each with the token the one before gave. */
  function Refreshes(tokens: seq<Text>, fingerprint: Text, at: seq<int>): seq<Sessions.Event>
    requires |tokens| == |at|
    decreases |at|
  {
    if |at| <= 1 then []
    else [Sessions.Refresh(tokens[0], fingerprint, tokens[1], at[1])] + Refreshes(tokens[1..], fingerprint, at[1..])
  }

  /** A session that is refreshed in time from its own device lives on, for any number of refreshes. */
  lemma {:induction false} RefreshedInTimeLives(
    w: Sessions.World, sha: Sessions.Hasher, ttlDays: int, id: nat, tokens: seq<Text>, at: seq<int>)
    requires Sessions.Injective(sha) && Sessions.Inv(w, sha) && id < |w.sessions|
    requires |tokens| == |at| > 0 && InTime(at, ttlDays)
    requires w.sessions[id].refreshHash == sha(tokens[0]) && w.sessions[id].revokedAt == None
    requires w.sessions[id].expiresAt == at[0] + Days(ttlDays)
    requires Sessions.AllFresh(w, sha, ttlDays, Refreshes(tokens, w.sessions[id].fingerprint, at))
    ensures var later := Sessions.Run(w, sha, ttlDays, Refreshes(tokens, w.sessions[id].fingerprint, at));
      && |later.sessions| == |w.sessions| && later.sessions[id].revokedAt == None
      && later.sessions[id].refreshHash == sha(tokens[|tokens| - 1])
      && later.sessions[id].expiresAt == at[|at| - 1] + Days(ttlDays)
    decreases |at|
  {
    if |at| > 1 {
      var fingerprint := w.sessions[id].fingerprint;
      var e := Sessions.Refresh(tokens[0], fingerprint, tokens[1], at[1]);
      var events := Refreshes(tokens, fingerprint, at);
      assert events[0] == e && events[1..] == Refreshes(tokens[1..], fingerprint, at[1..]);
      RefreshIsAnswered(w, sha, ttlDays, tokens[0], fingerprint, tokens[1], at[1], id);
      Sessions.StepKeepsInv(w, sha, ttlDays, e);
      assert forall k :: 0 <= k < |at| - 1 ==> at[1..][k] == at[k + 1];
      RefreshedInTimeLives(Sessions.Step(w, sha, ttlDays, e), sha, ttlDays, id, tokens[1..], at[1..]);
    }
  }
}
