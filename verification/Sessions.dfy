/** Rotating refresh sessions. Tokens are stored as hashes; the hash is a parameter, taken as injective. */
module Sessions {
  import opened Wrappers
  import opened Texts

  type Token = Text
  type Hash = Text
  type Hasher = Token -> Hash

  const DAY := 86_400_000

  datatype Session = Session(
    userId: nat, refreshHash: Hash, fingerprint: Text, expiresAt: int, lastSeenAt: int,
    stepUpAt: Option<int>, revokedAt: Option<int>)

  datatype Answer = Invalid | DeviceMismatch | Rotated(sessionId: nat, token: Token, expiresAt: int)

  ghost predicate Injective(sha: Hasher) {
    forall a, b :: sha(a) == sha(b) ==> a == b
  }

  function Find(sessions: seq<Session>, hash: Hash): (found: Option<nat>)
    ensures found.Some? ==> found.value < |sessions| && sessions[found.value].refreshHash == hash
    ensures found.None? ==> forall i :: 0 <= i < |sessions| ==> sessions[i].refreshHash != hash
  {
    if sessions == [] then None
    else if sessions[|sessions| - 1].refreshHash == hash then Some(|sessions| - 1)
    else Find(sessions[..|sessions| - 1], hash)
  }

  predicate Alive(s: Session, now: int) {
    s.revokedAt.None? && now < s.expiresAt
  }

  function RefreshAnswer(
    sessions: seq<Session>, sha: Hasher, token: Token, fingerprint: Text, now: int, next: Token, ttlDays: int): Answer
  {
    match Find(sessions, sha(token))
    case None => Invalid
    case Some(i) =>
      if !Alive(sessions[i], now) then Invalid
      else if sessions[i].fingerprint != fingerprint then DeviceMismatch
      else Rotated(i, next, now + ttlDays * DAY)
  }

  function AfterRefresh(
    sessions: seq<Session>, sha: Hasher, token: Token, fingerprint: Text, now: int, next: Token, ttlDays: int)
    : (after: seq<Session>)
    ensures |after| == |sessions|
  {
    match Find(sessions, sha(token))
    case None => sessions
    case Some(i) =>
      if !Alive(sessions[i], now) then sessions
      else if sessions[i].fingerprint != fingerprint then sessions[i := sessions[i].(revokedAt := Some(now))]
      else
        sessions[i := sessions[i].(refreshHash := sha(next), expiresAt := now + ttlDays * DAY, lastSeenAt := now)]
  }

  function NewSession(sha: Hasher, userId: nat, fingerprint: Text, token: Token, now: int, ttlDays: int): Session {
    Session(userId, sha(token), fingerprint, now + ttlDays * DAY, now, None, None)
  }

  function Revoked(sessions: seq<Session>, id: nat, now: int): (after: seq<Session>)
    ensures |after| == |sessions|
  {
    if id < |sessions| then sessions[id := sessions[id].(revokedAt := Some(now))] else sessions
  }

  /** Sessions revoked before keep the instant of that. */
  function SignedOut(sessions: seq<Session>, userId: nat, now: int): (after: seq<Session>)
    ensures |after| == |sessions|
    ensures forall i :: 0 <= i < |sessions| ==>
      after[i] == if sessions[i].userId == userId && sessions[i].revokedAt.None?
                  then sessions[i].(revokedAt := Some(now)) else sessions[i]
  {
    if sessions == [] then []
    else
      var last := sessions[|sessions| - 1];
      SignedOut(sessions[..|sessions| - 1], userId, now)
      + [if last.userId == userId && last.revokedAt.None? then last.(revokedAt := Some(now)) else last]
  }

  class SessionStore {
    var sessions: seq<Session>

    method IssueSession(sha: Hasher, userId: nat, fingerprint: Text, token: Token, now: int, ttlDays: int)
      returns (id: nat)
      modifies this
      ensures sessions == old(sessions) + [NewSession(sha, userId, fingerprint, token, now, ttlDays)]
      ensures id == |old(sessions)|
    {
      id := |sessions|;
      sessions := sessions + [Session(userId, sha(token), fingerprint, now + ttlDays * DAY, now, None, None)];
    }

    method Refresh(sha: Hasher, token: Token, fingerprint: Text, now: int, next: Token, ttlDays: int)
      returns (answer: Answer)
      modifies this
      ensures sessions == AfterRefresh(old(sessions), sha, token, fingerprint, now, next, ttlDays)
      ensures answer == RefreshAnswer(old(sessions), sha, token, fingerprint, now, next, ttlDays)
    {
      var found := Find(sessions, sha(token));
      if found.None? { return Invalid; }
      var id := found.value;
      var session := sessions[id];
      if session.revokedAt.Some? || session.expiresAt <= now { return Invalid; }
      if session.fingerprint != fingerprint {
        sessions := sessions[id := session.(revokedAt := Some(now))];
        return DeviceMismatch;
      }
      var expiresAt := now + ttlDays * DAY;
      sessions := sessions[id := session.(refreshHash := sha(next), expiresAt := expiresAt, lastSeenAt := now)];
      return Rotated(id, next, expiresAt);
    }

    method RevokeSession(id: nat, now: int)
      modifies this
      ensures sessions == Revoked(old(sessions), id, now)
    {
      if id < |sessions| { sessions := sessions[id := sessions[id].(revokedAt := Some(now))]; }
    }

    method SignOutEverywhere(userId: nat, now: int)
      modifies this
      ensures sessions == SignedOut(old(sessions), userId, now)
    {
      sessions := SignedOut(sessions, userId, now);
    }
  }

  // ---- runs ----------------------------------------------------------------------------------------

  datatype Event =
    | Issue(userId: nat, fingerprint: Text, token: Token, now: int)
    | Refresh(token: Token, fingerprint: Text, next: Token, now: int)
    | Revoke(id: nat, now: int)
    | SignOut(userId: nat, now: int)

  /** The stored sessions, and every token handed out so far. */
  datatype World = World(sessions: seq<Session>, minted: set<Token>)

  /** Random tokens never repeat. */
  predicate Fresh(w: World, e: Event) {
    match e
    case Issue(_, _, token, _) => token !in w.minted
    case Refresh(_, _, next, _) => next !in w.minted
    case _ => true
  }

  function Step(w: World, sha: Hasher, ttlDays: int, e: Event): World {
    match e
    case Issue(userId, fingerprint, token, now) =>
      World(w.sessions + [NewSession(sha, userId, fingerprint, token, now, ttlDays)], w.minted + {token})
    case Refresh(token, fingerprint, next, now) =>
      World(AfterRefresh(w.sessions, sha, token, fingerprint, now, next, ttlDays), w.minted + {next})
    case Revoke(id, now) => w.(sessions := Revoked(w.sessions, id, now))
    case SignOut(userId, now) => w.(sessions := SignedOut(w.sessions, userId, now))
  }

  function Run(w: World, sha: Hasher, ttlDays: int, events: seq<Event>): World
    decreases |events|
  {
    if events == [] then w else Run(Step(w, sha, ttlDays, events[0]), sha, ttlDays, events[1..])
  }

  predicate AllFresh(w: World, sha: Hasher, ttlDays: int, events: seq<Event>)
    decreases |events|
  {
    events == [] || (Fresh(w, events[0]) && AllFresh(Step(w, sha, ttlDays, events[0]), sha, ttlDays, events[1..]))
  }

  /** No session is found by the token, which was handed out before. */
  ghost predicate Spent(w: World, sha: Hasher, token: Token) {
    token in w.minted && forall i :: 0 <= i < |w.sessions| ==> w.sessions[i].refreshHash != sha(token)
  }

  /** No two sessions share a hash, and every hash is that of a token handed out. */
  ghost predicate Inv(w: World, sha: Hasher) {
    && (forall i :: 0 <= i < |w.sessions| ==> exists t :: t in w.minted && w.sessions[i].refreshHash == sha(t))
    && (forall i, j :: 0 <= i < j < |w.sessions| ==> w.sessions[i].refreshHash != w.sessions[j].refreshHash)
  }

  lemma StepKeepsInv(w: World, sha: Hasher, ttlDays: int, e: Event)
    requires Injective(sha) && Inv(w, sha) && Fresh(w, e)
    ensures Inv(Step(w, sha, ttlDays, e), sha)
  {
    var after := Step(w, sha, ttlDays, e);
    forall i | 0 <= i < |after.sessions|
      ensures exists t :: t in after.minted && after.sessions[i].refreshHash == sha(t) {
      if i < |w.sessions| {
        var t :| t in w.minted && w.sessions[i].refreshHash == sha(t);
        assert t in after.minted;
      }
      assert e.Issue? ==> e.token in after.minted;
      assert e.Refresh? ==> e.next in after.minted;
    }
  }

  /** A spent token stays spent. */
  lemma StepKeepsSpent(w: World, sha: Hasher, ttlDays: int, e: Event, token: Token)
    requires Injective(sha) && Spent(w, sha, token) && Fresh(w, e)
    ensures Spent(Step(w, sha, ttlDays, e), sha, token)
  {
    var after := Step(w, sha, ttlDays, e);
    forall i | 0 <= i < |after.sessions| ensures after.sessions[i].refreshHash != sha(token) {
      assert i < |w.sessions| ==> w.sessions[i].refreshHash != sha(token);
    }
  }

  /** A token that was rotated out is refused in every later state. */
  lemma {:induction false} SpentForever(w: World, sha: Hasher, ttlDays: int, events: seq<Event>, token: Token)
    requires Injective(sha) && Spent(w, sha, token) && AllFresh(w, sha, ttlDays, events)
    ensures Spent(Run(w, sha, ttlDays, events), sha, token)
    decreases |events|
  {
    if events != [] {
      StepKeepsSpent(w, sha, ttlDays, events[0], token);
      SpentForever(Step(w, sha, ttlDays, events[0]), sha, ttlDays, events[1..], token);
    }
  }

  /** A refresh that succeeds spends the token it was given. */
  lemma RotationSpends(w: World, sha: Hasher, ttlDays: int, token: Token, fingerprint: Text, next: Token, now: int)
    requires Injective(sha) && Inv(w, sha) && next !in w.minted
    requires RefreshAnswer(w.sessions, sha, token, fingerprint, now, next, ttlDays).Rotated?
    ensures Spent(Step(w, sha, ttlDays, Refresh(token, fingerprint, next, now)), sha, token)
  {
    var i := Find(w.sessions, sha(token)).value;
    var t :| t in w.minted && w.sessions[i].refreshHash == sha(t);
    assert t == token;
  }

  /** After a rotation, whatever happens, the old token is refused and its use changes no session. */
  lemma RotatedTokenIsDead(
    w: World, sha: Hasher, ttlDays: int, token: Token, fingerprint: Text, next: Token, now: int,
    events: seq<Event>, fingerprint': Text, next': Token, now': int)
    requires Injective(sha) && Inv(w, sha) && next !in w.minted
    requires RefreshAnswer(w.sessions, sha, token, fingerprint, now, next, ttlDays).Rotated?
    requires AllFresh(Step(w, sha, ttlDays, Refresh(token, fingerprint, next, now)), sha, ttlDays, events)
    ensures var later := Run(Step(w, sha, ttlDays, Refresh(token, fingerprint, next, now)), sha, ttlDays, events);
      && RefreshAnswer(later.sessions, sha, token, fingerprint', now', next', ttlDays) == Invalid
      && AfterRefresh(later.sessions, sha, token, fingerprint', now', next', ttlDays) == later.sessions
  {
    RotationSpends(w, sha, ttlDays, token, fingerprint, next, now);
    SpentForever(Step(w, sha, ttlDays, Refresh(token, fingerprint, next, now)), sha, ttlDays, events, token);
  }

  /** A revoked session stays revoked and keeps its hash, so its token never works again. */
  lemma {:induction false} RevokedForever(w: World, sha: Hasher, ttlDays: int, events: seq<Event>, id: nat)
    requires id < |w.sessions| && w.sessions[id].revokedAt.Some?
    ensures var after := Run(w, sha, ttlDays, events).sessions;
      id < |after| && after[id].revokedAt.Some? && after[id].refreshHash == w.sessions[id].refreshHash
    decreases |events|
  {
    if events != [] {
      RevokedForever(Step(w, sha, ttlDays, events[0]), sha, ttlDays, events[1..], id);
    }
  }

  lemma {:induction false} RunKeepsInv(w: World, sha: Hasher, ttlDays: int, events: seq<Event>)
    requires Injective(sha) && Inv(w, sha) && AllFresh(w, sha, ttlDays, events)
    ensures Inv(Run(w, sha, ttlDays, events), sha)
    decreases |events|
  {
    if events != [] {
      StepKeepsInv(w, sha, ttlDays, events[0]);
      RunKeepsInv(Step(w, sha, ttlDays, events[0]), sha, ttlDays, events[1..]);
    }
  }

  /** In every later state a revoked session's token is refused. */
  lemma RevokedTokenIsRefused(
    w: World, sha: Hasher, ttlDays: int, events: seq<Event>, id: nat, token: Token, fingerprint: Text, next: Token,
    now: int)
    requires Injective(sha) && Inv(w, sha) && AllFresh(w, sha, ttlDays, events)
    requires id < |w.sessions| && w.sessions[id].revokedAt.Some? && w.sessions[id].refreshHash == sha(token)
    ensures RefreshAnswer(Run(w, sha, ttlDays, events).sessions, sha, token, fingerprint, now, next, ttlDays) == Invalid
  {
    RunKeepsInv(w, sha, ttlDays, events);
    RevokedForever(w, sha, ttlDays, events, id);
    var after := Run(w, sha, ttlDays, events).sessions;
    FindsTheOne(after, sha(token), id);
  }

  lemma FindsTheOne(sessions: seq<Session>, hash: Hash, id: nat)
    requires id < |sessions| && sessions[id].refreshHash == hash
    requires forall i, j :: 0 <= i < j < |sessions| ==> sessions[i].refreshHash != sessions[j].refreshHash
    ensures Find(sessions, hash) == Some(id)
  {
  }

  /**
   * The comment on refresh says that reusing a rotated token revokes the session. A refresh
   * revokes one exactly when the current token of a live session comes from another device.
   */
  lemma RefreshRevokesIff(
    w: World, sha: Hasher, ttlDays: int, token: Token, fingerprint: Text, next: Token, now: int, id: nat)
    requires Injective(sha) && Inv(w, sha) && id < |w.sessions| && w.sessions[id].revokedAt.None?
    ensures AfterRefresh(w.sessions, sha, token, fingerprint, now, next, ttlDays)[id].revokedAt.Some? <==>
      w.sessions[id].refreshHash == sha(token) && now < w.sessions[id].expiresAt
        && w.sessions[id].fingerprint != fingerprint
  {
    if w.sessions[id].refreshHash == sha(token) { FindsTheOne(w.sessions, sha(token), id); }
  }

  /** Reusing the token just rotated out never revokes: the session it opened stays alive and unchanged. */
  lemma ReuseNeverRevokes(
    w: World, sha: Hasher, ttlDays: int, token: Token, fingerprint: Text, next: Token, now: int,
    fingerprint': Text, next': Token, now': int)
    requires Injective(sha) && Inv(w, sha) && next !in w.minted
    requires RefreshAnswer(w.sessions, sha, token, fingerprint, now, next, ttlDays).Rotated?
    ensures var id := RefreshAnswer(w.sessions, sha, token, fingerprint, now, next, ttlDays).sessionId;
      var rotated := AfterRefresh(w.sessions, sha, token, fingerprint, now, next, ttlDays);
      && AfterRefresh(rotated, sha, token, fingerprint', now', next', ttlDays) == rotated
      && rotated[id].revokedAt.None? && rotated[id].refreshHash == sha(next)
  {
    RotatedTokenIsDead(w, sha, ttlDays, token, fingerprint, next, now, [], fingerprint', next', now');
  }
}
