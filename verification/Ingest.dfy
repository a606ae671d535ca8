/**
 * The job that pulls a property's revisions and acknowledges them (ingestProperty). The feed
 * shrinks while it is read, new revisions arrive, acknowledgements may fail at any time; still
 * nothing is missed.
 */
module Ingest {
  import opened Wrappers
  import opened Texts
  import opened Sorting
  import opened RevisionFeed

  const MAX_FEED_ROUNDS := 10_000

  datatype Stored = Stored(revisionId: Text, acked: bool)

  datatype Summary = Summary(
    seen: nat, applied: nat, duplicates: nat, reacked: nat, acked: nat, ackFailures: nat, stale: nat)

  /** Every revision seen is accounted for once, and so is every attempt to acknowledge. */
  predicate Balanced(s: Summary) {
    && s.seen == s.applied + s.stale + s.duplicates + s.reacked
    && s.acked + s.ackFailures == s.applied + s.stale + s.reacked
  }

  function Marked(stored: map<Text, Stored>, revisionId: Text): map<Text, Stored> {
    map k | k in stored :: if stored[k].revisionId == revisionId then stored[k].(acked := true) else stored[k]
  }

  class Repository {
    var stored: map<Text, Stored>

    /** The revision is stored whether or not it is newer than the booking. */
    method ApplyRevision(rev: Revision)
      modifies this
      ensures stored == old(stored)[rev.systemId := Stored(rev.revisionId, false)]
    {
      stored := stored[rev.systemId := Stored(rev.revisionId, false)];
    }

    method MarkAcked(revisionId: Text)
      modifies this
      ensures stored == Marked(old(stored), revisionId)
    {
      stored := Marked(stored, revisionId);
    }
  }

  // ---- what holds while a run goes on ------------------------------------------------------------------

  ghost function SystemIds(revs: seq<Revision>): set<Text> {
    if revs == [] then {} else SystemIds(revs[..|revs| - 1]) + {revs[|revs| - 1].systemId}
  }

  /** The identifiers of a property's revisions. */
  ghost function Ids(revs: seq<Revision>, propertyId: Text): set<Text> {
    SystemIds(Listing(revs, propertyId))
  }

  lemma {:induction false} IdIsIn(revs: seq<Revision>, r: Revision)
    requires r in revs
    ensures r.systemId in SystemIds(revs)
  {
    if r != revs[|revs| - 1] { IdIsIn(revs[..|revs| - 1], r); }
  }

  lemma {:induction false} IdsWithin(revs: seq<Revision>, ids: set<Text>)
    requires forall r :: r in revs ==> r.systemId in ids
    ensures SystemIds(revs) <= ids
  {
    if revs != [] { IdsWithin(revs[..|revs| - 1], ids); }
  }

  lemma ListedIdIsIn(revs: seq<Revision>, r: Revision)
    requires r in revs
    ensures r.systemId in Ids(revs, r.propertyId)
  {
    ListingMembers(revs, r.propertyId);
    IdIsIn(Listing(revs, r.propertyId), r);
  }

  lemma {:induction false} IdsOfParts(a: seq<Revision>, b: seq<Revision>)
    ensures SystemIds(a + b) == SystemIds(a) + SystemIds(b)
  {
    if b == [] {
      assert a + b == a;
    } else {
      IdsOfParts(a, b[..|b| - 1]);
      assert (a + b)[..|a + b| - 1] == a + b[..|b| - 1];
    }
  }

  /**
   * Where a run stands that has seen these identifiers. The feed has had the revisions u by now,
   * and v is all that it has until the run ends.
   */
  ghost predicate World(
    v: seq<Revision>, u: seq<Revision>, unacked: seq<Revision>, stored: map<Text, Stored>, propertyId: Text,
    seen: set<Text>)
  {
    && DistinctIds(v) && DistinctIds(unacked)
    && Shrunk(u, v) && Shrunk(unacked, u)
    && (forall r :: r in u ==> r in unacked || (r.propertyId == propertyId && r.systemId in seen))
    && (forall r :: r in v && r.systemId in stored ==> stored[r.systemId].revisionId == r.revisionId)
    && seen <= Ids(u, propertyId)
    && (forall id :: id in seen ==> id in stored)
  }

  lemma SameRevision(revs: seq<Revision>, a: Revision, b: Revision)
    requires DistinctIds(revs) && a in revs && b in revs
    ensures a.revisionId == b.revisionId || a.systemId == b.systemId ==> a == b
  {
    var i :| 0 <= i < |revs| && revs[i] == a;
    var j :| 0 <= j < |revs| && revs[j] == b;
  }

  /** Acknowledging a revision that was just seen and stored loses no other revision. */
  lemma AckKeepsWorld(
    v: seq<Revision>, u: seq<Revision>, unacked: seq<Revision>, stored: map<Text, Stored>, propertyId: Text,
    seen: set<Text>, rev: Revision)
    requires World(v, u, unacked, stored, propertyId, seen)
    requires rev in u && rev.propertyId == propertyId && rev.systemId in seen
    ensures World(v, u, Without(unacked, rev.revisionId), Marked(stored, rev.revisionId), propertyId, seen)
  {
    WithoutMembers(unacked, rev.revisionId);
    forall r | r in u
      ensures r in Without(unacked, rev.revisionId) || (r.propertyId == propertyId && r.systemId in seen) {
      SameRevision(v, r, rev);
    }
  }

  /** What becomes of an acknowledgement: it succeeds, fails, or is taken by the provider and then fails. */
  datatype AckOutcome = Succeeds | Fails | FailsAfterTaken

  /** The provider after an acknowledgement. */
  function AfterAck(f: Feed, revisionId: Text, outcome: AckOutcome): Feed {
    if outcome != Fails && CanAck(f, revisionId) then Acked(f, revisionId) else f
  }

  /** An acknowledgement that was taken but not marked loses no other revision either. */
  lemma TakenKeepsWorld(
    v: seq<Revision>, u: seq<Revision>, unacked: seq<Revision>, stored: map<Text, Stored>, propertyId: Text,
    seen: set<Text>, rev: Revision)
    requires World(v, u, unacked, stored, propertyId, seen)
    requires rev in u && rev.propertyId == propertyId && rev.systemId in seen
    ensures World(v, u, Without(unacked, rev.revisionId), stored, propertyId, seen)
  {
    WithoutMembers(unacked, rev.revisionId);
    forall r | r in u
      ensures r in Without(unacked, rev.revisionId) || (r.propertyId == propertyId && r.systemId in seen)
    {
      SameRevision(v, r, rev);
    }
  }

  /** Acknowledge one revision: the call may fail at any point, and the provider may not know the identifier. */
  method Ack(provider: Provider, repo: Repository, revisionId: Text, outcome: AckOutcome, s: Summary)
    returns (t: Summary)
    modifies provider, repo
    ensures provider.emitted == old(provider.emitted)
    ensures t == s.(acked := s.acked + 1) || t == s.(ackFailures := s.ackFailures + 1)
    ensures provider.unacked == Without(old(provider.unacked), revisionId) || provider.unacked == old(provider.unacked)
    ensures t.acked > s.acked ==>
      provider.unacked == Without(old(provider.unacked), revisionId)
        && repo.stored == Marked(old(repo.stored), revisionId)
    ensures t.acked == s.acked ==> repo.stored == old(repo.stored)
    ensures t.acked > s.acked <==> outcome == Succeeds && CanAck(old(provider.State()), revisionId)
    ensures provider.State() == AfterAck(old(provider.State()), revisionId, outcome)
  {
    var ok := false;
    if outcome != Fails {
      ghost var before := provider.State();
      ok := provider.AckBookingRevisions([revisionId]);
      assert [revisionId][1..] == [];
      assert CanAck(before, revisionId) ==> AckAll(Acked(before, revisionId), []) == (Acked(before, revisionId), true);
    }
    if ok && outcome == Succeeds {
      repo.MarkAcked(revisionId);
      t := s.(acked := s.acked + 1);
    } else {
      t := s.(ackFailures := s.ackFailures + 1);
    }
  }

  /** The acknowledgement of a revision that was seen and is stored loses nothing, whatever becomes of it. */
  method AckSeen(
    provider: Provider, repo: Repository, rev: Revision, revisionId: Text, outcome: AckOutcome, s: Summary,
    ghost v: seq<Revision>, ghost u: seq<Revision>, ghost seen: set<Text>) returns (t: Summary)
    requires World(v, u, provider.unacked, repo.stored, rev.propertyId, seen)
    requires rev in u && rev.systemId in seen && revisionId == rev.revisionId
    modifies provider, repo
    ensures World(v, u, provider.unacked, repo.stored, rev.propertyId, seen)
    ensures provider.emitted == old(provider.emitted)
    ensures Shrunk(provider.unacked, old(provider.unacked))
    ensures t == s.(acked := s.acked + 1) || t == s.(ackFailures := s.ackFailures + 1)
    ensures t.acked > s.acked <==> outcome == Succeeds && CanAck(old(provider.State()), revisionId)
    ensures repo.stored == if t.acked > s.acked then Marked(old(repo.stored), revisionId) else old(repo.stored)
    ensures provider.State() == AfterAck(old(provider.State()), revisionId, outcome)
  {
    AckKeepsWorld(v, u, provider.unacked, repo.stored, rev.propertyId, seen, rev);
    TakenKeepsWorld(v, u, provider.unacked, repo.stored, rev.propertyId, seen, rev);
    WithoutMembers(provider.unacked, revisionId);
    t := Ack(provider, repo, revisionId, outcome, s);
  }

  /** A revision just stored is seen. */
  lemma StoredKeepsWorld(
    v: seq<Revision>, u: seq<Revision>, unacked: seq<Revision>, stored: map<Text, Stored>, seen: set<Text>,
    rev: Revision)
    requires World(v, u, unacked, stored, rev.propertyId, seen) && rev in u
    ensures rev.systemId in stored ==> World(v, u, unacked, stored, rev.propertyId, seen + {rev.systemId})
    ensures World(
      v, u, unacked, stored[rev.systemId := Stored(rev.revisionId, false)], rev.propertyId, seen + {rev.systemId})
  {
    var after := stored[rev.systemId := Stored(rev.revisionId, false)];
    ListedIdIsIn(u, rev);
    forall r | r in v && r.systemId in after ensures after[r.systemId].revisionId == r.revisionId {
      SameRevision(v, r, rev);
    }
  }

  /** The revision is stored and acknowledged: nothing more is done about it. */
  predicate IsDuplicate(stored: map<Text, Stored>, rev: Revision) {
    rev.systemId in stored && stored[rev.systemId].acked
  }

  /** The accounts after a revision: a duplicate, one acknowledged again, one applied, or one that is stale. */
  function Accounted(s: Summary, stored: map<Text, Stored>, rev: Revision, newer: bool, taken: bool): Summary {
    var t := s.(seen := s.seen + 1);
    if IsDuplicate(stored, rev) then t.(duplicates := t.duplicates + 1)
    else
      var u :=
        if rev.systemId in stored then t.(reacked := t.reacked + 1)
        else if newer then t.(applied := t.applied + 1)
        else t.(stale := t.stale + 1);
      if taken then u.(acked := u.acked + 1) else u.(ackFailures := u.ackFailures + 1)
  }

  /**
   * What is stored after a revision: it is added unless it was there, and marked when its
   * acknowledgement went through.
   */
  function After(stored: map<Text, Stored>, rev: Revision, taken: bool): map<Text, Stored> {
    if IsDuplicate(stored, rev) then stored
    else
      var after := if rev.systemId in stored then stored else stored[rev.systemId := Stored(rev.revisionId, false)];
      if taken then Marked(after, rev.revisionId) else after
  }

  /** A revision that is stored and not acknowledged is acknowledged again. */
  method HandleStored(
    provider: Provider, repo: Repository, rev: Revision, outcome: AckOutcome, s: Summary,
    ghost v: seq<Revision>, ghost u: seq<Revision>, ghost seen: set<Text>) returns (t: Summary)
    requires World(v, u, provider.unacked, repo.stored, rev.propertyId, seen)
    requires rev in u && rev.systemId in seen && Shrunk(u, v)
    requires rev.systemId in repo.stored && !repo.stored[rev.systemId].acked
    modifies provider, repo
    ensures World(v, u, provider.unacked, repo.stored, rev.propertyId, seen)
    ensures provider.emitted == old(provider.emitted) && Shrunk(provider.unacked, old(provider.unacked))
    ensures var taken := outcome == Succeeds && CanAck(old(provider.State()), rev.revisionId);
      t == Accounted(s, old(repo.stored), rev, false, taken) && repo.stored == After(old(repo.stored), rev, taken)
    ensures provider.State() == AfterAck(old(provider.State()), rev.revisionId, outcome)
  {
    var known := repo.stored[rev.systemId].revisionId;
    t := s.(seen := s.seen + 1, reacked := s.reacked + 1);
    t := AckSeen(provider, repo, rev, known, outcome, t, v, u, seen);
  }

  /** A revision that is not stored is stored, and then acknowledged. */
  method HandleNew(
    provider: Provider, repo: Repository, rev: Revision, outcome: AckOutcome, newer: bool, s: Summary,
    ghost v: seq<Revision>, ghost u: seq<Revision>, ghost seen: set<Text>) returns (t: Summary)
    requires provider as object != repo
    requires World(v, u, provider.unacked, repo.stored, rev.propertyId, seen)
    requires rev in u && rev.systemId !in repo.stored
    modifies provider, repo
    ensures World(v, u, provider.unacked, repo.stored, rev.propertyId, seen + {rev.systemId})
    ensures provider.emitted == old(provider.emitted) && Shrunk(provider.unacked, old(provider.unacked))
    ensures var taken := outcome == Succeeds && CanAck(old(provider.State()), rev.revisionId);
      t == Accounted(s, old(repo.stored), rev, newer, taken) && repo.stored == After(old(repo.stored), rev, taken)
    ensures provider.State() == AfterAck(old(provider.State()), rev.revisionId, outcome)
  {
    StoredKeepsWorld(v, u, provider.unacked, repo.stored, seen, rev);
    ghost var before := repo.stored;
    repo.ApplyRevision(rev);
    t := s.(seen := s.seen + 1);
    t := if newer then t.(applied := t.applied + 1) else t.(stale := t.stale + 1);
    NewIsAccounted(s, before, rev, newer, outcome == Succeeds && CanAck(provider.State(), rev.revisionId));
    t := AckSeen(provider, repo, rev, rev.revisionId, outcome, t, v, u, seen + {rev.systemId});
  }

  lemma NewIsAccounted(s: Summary, stored: map<Text, Stored>, rev: Revision, newer: bool, taken: bool)
    requires rev.systemId !in stored
    ensures var t := s.(seen := s.seen + 1);
      var u := if newer then t.(applied := t.applied + 1) else t.(stale := t.stale + 1);
      Accounted(s, stored, rev, newer, taken)
        == if taken then u.(acked := u.acked + 1) else u.(ackFailures := u.ackFailures + 1)
    ensures var after := stored[rev.systemId := Stored(rev.revisionId, false)];
      After(stored, rev, taken) == if taken then Marked(after, rev.revisionId) else after
  {
  }

  /** One revision of a page that was not seen before: store it unless it is, then acknowledge it. */
  method Handle(
    provider: Provider, repo: Repository, rev: Revision, outcome: AckOutcome, newer: bool, s: Summary,
    ghost v: seq<Revision>, ghost u: seq<Revision>, ghost seen: set<Text>) returns (t: Summary)
    requires provider as object != repo
    requires World(v, u, provider.unacked, repo.stored, rev.propertyId, seen)
    requires rev in u && rev.systemId !in seen && Balanced(s)
    modifies provider, repo
    ensures World(v, u, provider.unacked, repo.stored, rev.propertyId, seen + {rev.systemId})
    ensures provider.emitted == old(provider.emitted)
    ensures Shrunk(provider.unacked, old(provider.unacked))
    ensures Balanced(t) && t.seen == s.seen + 1
    ensures var taken := outcome == Succeeds && CanAck(old(provider.State()), rev.revisionId);
      t == Accounted(s, old(repo.stored), rev, newer, taken) && repo.stored == After(old(repo.stored), rev, taken)
    ensures provider.State() ==
      if IsDuplicate(old(repo.stored), rev) then old(provider.State())
      else AfterAck(old(provider.State()), rev.revisionId, outcome)
  {
    if rev.systemId in repo.stored {
      StoredKeepsWorld(v, u, provider.unacked, repo.stored, seen, rev);
      if repo.stored[rev.systemId].acked {
        t := s.(seen := s.seen + 1, duplicates := s.duplicates + 1);
      } else {
        t := HandleStored(provider, repo, rev, outcome, s, v, u, seen + {rev.systemId});
      }
    } else {
      t := HandleNew(provider, repo, rev, outcome, newer, s, v, u, seen);
    }
  }

  method HandleUnlessSeen(
    provider: Provider, repo: Repository, propertyId: Text, rev: Revision, outcome: AckOutcome, newer: bool, s: Summary,
    seen0: set<Text>, ghost v: seq<Revision>, ghost u: seq<Revision>)
    returns (t: Summary, seen: set<Text>, added: nat)
    requires provider as object != repo
    requires World(v, u, provider.unacked, repo.stored, propertyId, seen0) && Balanced(s)
    requires rev in u && rev.propertyId == propertyId
    modifies provider, repo
    ensures World(v, u, provider.unacked, repo.stored, propertyId, seen) && Balanced(t)
    ensures provider.emitted == old(provider.emitted)
    ensures seen == seen0 + {rev.systemId} && |seen| == |seen0| + added && t.seen == s.seen + added
    ensures added == 0 ==> provider.unacked == old(provider.unacked)
    ensures Shrunk(provider.unacked, old(provider.unacked))
  {
    t, seen, added := s, seen0 + {rev.systemId}, 0;
    if rev.systemId in seen0 {
      assert seen == seen0;
      return;
    }
    t := Handle(provider, repo, rev, outcome, newer, s, v, u, seen0);
    added := 1;
  }

  lemma AddId(seen0: set<Text>, revisions: seq<Revision>, i: nat)
    requires i < |revisions|
    ensures seen0 + SystemIds(revisions[..i]) + {revisions[i].systemId} == seen0 + SystemIds(revisions[..i + 1])
  {
    assert revisions[..i + 1][..i] == revisions[..i];
  }

  ghost predicate AreOf(revisions: seq<Revision>, u: seq<Revision>, propertyId: Text) {
    forall i :: 0 <= i < |revisions| ==> revisions[i] in u && revisions[i].propertyId == propertyId
  }

  ghost predicate Shrunk(unacked: seq<Revision>, before: seq<Revision>) {
    forall r :: r in unacked ==> r in before
  }

  /** The revisions of a page, leaving out those seen before. */
  method ReadPage(
    provider: Provider, repo: Repository, propertyId: Text, revisions: seq<Revision>, round: nat,
    outcomes: (nat, nat) -> AckOutcome, newer: Revision -> bool, seen0: set<Text>, s: Summary,
    ghost v: seq<Revision>, ghost u: seq<Revision>)
    returns (t: Summary, seen: set<Text>, added: nat)
    requires provider as object != repo
    requires World(v, u, provider.unacked, repo.stored, propertyId, seen0) && Balanced(s)
    requires AreOf(revisions, u, propertyId)
    modifies provider, repo
    ensures World(v, u, provider.unacked, repo.stored, propertyId, seen) && Balanced(t)
    ensures provider.emitted == old(provider.emitted)
    ensures Shrunk(provider.unacked, old(provider.unacked))
    ensures seen == seen0 + SystemIds(revisions)
    ensures |seen| == |seen0| + added && t.seen == s.seen + added
    ensures added == 0 ==> provider.unacked == old(provider.unacked)
  {
    t, seen, added := s, seen0, 0;
    for i := 0 to |revisions|
      invariant World(v, u, provider.unacked, repo.stored, propertyId, seen) && Balanced(t)
      invariant provider.emitted == old(provider.emitted)
      invariant seen == seen0 + SystemIds(revisions[..i])
      invariant |seen| == |seen0| + added && t.seen == s.seen + added
      invariant added == 0 ==> provider.unacked == old(provider.unacked)
      invariant Shrunk(provider.unacked, old(provider.unacked))
    {
      AddId(seen0, revisions, i);
      var more;
      t, seen, more := HandleUnlessSeen(provider, repo, propertyId, revisions[i], outcomes(round, i),
        newer(revisions[i]), t, seen, v, u);
      added := added + more;
    }
    assert revisions[..|revisions|] == revisions;
  }

  // ---- how far a run gets ------------------------------------------------------------------------------

  lemma CountAtMostOne(revs: seq<Revision>, r: Revision)
    requires DistinctIds(revs)
    ensures multiset(revs)[r] <= 1
  {
    if i :| 0 <= i < |revs| && revs[i] == r {
      assert revs == revs[..i] + ([r] + revs[i + 1..]);
      assert r !in revs[..i] && r !in revs[i + 1..];
    }
  }

  lemma TwiceCounted(revs: seq<Revision>, i: nat, j: nat)
    requires i < j < |revs| && revs[i] == revs[j]
    ensures multiset(revs)[revs[i]] >= 2
  {
    assert revs == revs[..j] + ([revs[j]] + revs[j + 1..]);
    assert revs[i] in multiset(revs[..j]);
  }

  lemma ListingDistinct(unacked: seq<Revision>, propertyId: Text)
    requires DistinctIds(unacked)
    ensures var all := Listing(unacked, propertyId);
      forall i, j :: 0 <= i < j < |all| ==> all[i].systemId != all[j].systemId
  {
    var all := Listing(unacked, propertyId);
    ListingMembers(unacked, propertyId);
    forall i, j | 0 <= i < j < |all| ensures all[i].systemId != all[j].systemId {
      assert all[i] in all && all[j] in all;
      SameRevision(unacked, all[i], all[j]);
      CountAtMostOne(unacked, all[i]);
      assert multiset(all)[all[i]] <= 1;
      if all[i] == all[j] { TwiceCounted(all, i, j); }
    }
  }

  lemma {:induction false} IdOnce(revs: seq<Revision>, id: Text)
    requires forall i :: 0 <= i < |revs| ==> revs[i].systemId != id
    ensures id !in SystemIds(revs)
  {
    if revs != [] { IdOnce(revs[..|revs| - 1], id); }
  }

  lemma {:induction false} DistinctCount(revs: seq<Revision>)
    requires forall i, j :: 0 <= i < j < |revs| ==> revs[i].systemId != revs[j].systemId
    ensures |SystemIds(revs)| == |revs|
  {
    if revs != [] {
      DistinctCount(revs[..|revs| - 1]);
      IdOnce(revs[..|revs| - 1], revs[|revs| - 1].systemId);
    }
  }

  /** Before page p of the feed every revision known was seen. */
  ghost predicate SeenBefore(
    known: seq<Revision>, unacked: seq<Revision>, propertyId: Text, page: nat, seen: set<Text>)
    requires page >= 1
  {
    var all := Listing(unacked, propertyId);
    && (page - 1) * PAGE_SIZE <= |all|
    && forall i :: 0 <= i < (page - 1) * PAGE_SIZE && all[i] in known ==> all[i].systemId in seen
  }

  lemma SubsetSize(a: set<Text>, b: set<Text>)
    requires a <= b
    ensures |a| <= |b|
  {
    assert b == a + (b - a);
  }

  /** The feed never lists more than there are revisions. */
  lemma ListingBound(v: seq<Revision>, unacked: seq<Revision>, propertyId: Text)
    requires DistinctIds(unacked) && Shrunk(unacked, v)
    ensures |Listing(unacked, propertyId)| <= |Ids(v, propertyId)|
  {
    var all := Listing(unacked, propertyId);
    ListingDistinct(unacked, propertyId);
    DistinctCount(all);
    ListingMembers(unacked, propertyId);
    forall r | r in all ensures r.systemId in Ids(v, propertyId) { ListedIdIsIn(v, r); }
    IdsWithin(all, Ids(v, propertyId));
    SubsetSize(SystemIds(all), Ids(v, propertyId));
  }

  lemma NextPageSeen(known: seq<Revision>, unacked: seq<Revision>, propertyId: Text, page: nat, seen: set<Text>)
    requires page >= 1 && SeenBefore(known, unacked, propertyId, page, seen)
    requires SystemIds(PageAt(Listing(unacked, propertyId), page).revisions) <= seen
    ensures var all := Listing(unacked, propertyId);
      var upTo := if PageAt(all, page).next.Some? then page * PAGE_SIZE else |all|;
      && upTo <= |all| && forall i :: 0 <= i < upTo && all[i] in known ==> all[i].systemId in seen
  {
    var all := Listing(unacked, propertyId);
    var lo, p := (page - 1) * PAGE_SIZE, PageAt(all, page);
    forall i | lo <= i < lo + |p.revisions| ensures all[i].systemId in seen {
      assert all[i] == p.revisions[i - lo];
      IdIsIn(p.revisions, all[i]);
    }
  }

  ghost predicate KnownSeen(known: seq<Revision>, propertyId: Text, seen: set<Text>) {
    forall r :: r in known && r.propertyId == propertyId ==> r.systemId in seen
  }

  /** A run that has seen all that is known of the feed listed last has seen all that is known. */
  lemma AllSeen(
    v: seq<Revision>, u: seq<Revision>, known: seq<Revision>, listed: seq<Revision>, unacked: seq<Revision>,
    stored: map<Text, Stored>, propertyId: Text, seen: set<Text>)
    requires World(v, u, unacked, stored, propertyId, seen)
    requires Shrunk(known, u) && Shrunk(unacked, listed)
    requires var all := Listing(listed, propertyId);
      forall i :: 0 <= i < |all| && all[i] in known ==> all[i].systemId in seen
    ensures KnownSeen(known, propertyId, seen)
  {
    ListingMembers(listed, propertyId);
    forall r | r in known && r.propertyId == propertyId ensures r.systemId in seen {
      if r in unacked { assert r in Listing(listed, propertyId); }
    }
  }

  // ---- revisions that arrive while a run goes on ---------------------------------------------------------

  lemma {:induction false} OfPropertyIn(unacked: seq<Revision>, propertyId: Text)
    ensures forall r :: r in OfProperty(unacked, propertyId) ==> r in unacked
  {
    if unacked != [] {
      OfPropertyIn(unacked[..|unacked| - 1], propertyId);
      assert unacked == unacked[..|unacked| - 1] + [unacked[|unacked| - 1]];
    }
  }

  /** Revisions with distinct identifiers are never tied in the order of the feed. */
  lemma NeverTied(unacked: seq<Revision>, xs: seq<Revision>)
    requires DistinctIds(unacked) && Shrunk(xs, unacked)
    ensures Separates(ByInsertion(), xs)
  {
    var le := ByInsertion();
    forall i, j | 0 <= i < |xs| && 0 <= j < |xs| && le(xs[i], xs[j]) && le(xs[j], xs[i]) ensures xs[i] == xs[j] {
      assert xs[i] in unacked && xs[j] in unacked;
      AtMostTotal(xs[i].systemId, xs[j].systemId);
      SameRevision(unacked, xs[i], xs[j]);
    }
  }

  /** A revision that arrives goes somewhere into the listing of its property and moves nothing else. */
  lemma ListingGrows(unacked: seq<Revision>, rev: Revision, propertyId: Text) returns (k: nat)
    requires DistinctIds(unacked + [rev])
    ensures var all, after := Listing(unacked, propertyId), Listing(unacked + [rev], propertyId);
      k <= |all| && after == if rev.propertyId == propertyId then all[..k] + [rev] + all[k..] else all
  {
    var le, xs, all := ByInsertion(), OfProperty(unacked, propertyId), Listing(unacked, propertyId);
    assert (unacked + [rev])[..|unacked|] == unacked;
    k := 0;
    if rev.propertyId == propertyId {
      InsertionIsPreorder();
      OfPropertyIn(unacked + [rev], propertyId);
      NeverTied(unacked + [rev], xs + [rev]);
      assert multiset(xs + [rev]) == multiset([rev] + xs);
      SortForgetsOrder(le, xs + [rev], [rev] + xs);
      assert ([rev] + xs)[1..] == xs;
      k := InsertedAt(le, rev, all);
    } else {
      assert xs + [] == xs;
    }
  }

  lemma {:induction false} InsertedAt(le: (Revision, Revision) -> bool, x: Revision, xs: seq<Revision>)
    returns (k: nat)
    ensures k <= |xs| && Insert(le, x, xs) == xs[..k] + [x] + xs[k..]
  {
    if xs == [] || le(x, xs[0]) {
      k := 0;
    } else {
      var i := InsertedAt(le, x, xs[1..]);
      k := i + 1;
      assert xs[1..][..i] == xs[1..k] && xs[1..][i..] == xs[k..];
      assert xs[..k] == [xs[0]] + xs[1..k];
    }
  }

  /** What arrives leaves no known revision unseen before a page. */
  lemma ArrivalKeepsSeen(
    known: seq<Revision>, unacked: seq<Revision>, propertyId: Text, page: nat, seen: set<Text>, rev: Revision)
    requires page >= 1 && SeenBefore(known, unacked, propertyId, page, seen)
    requires DistinctIds(unacked + [rev]) && rev !in known
    ensures SeenBefore(known, unacked + [rev], propertyId, page, seen)
  {
    var k := ListingGrows(unacked, rev, propertyId);
    var all, after, lo := Listing(unacked, propertyId), Listing(unacked + [rev], propertyId), (page - 1) * PAGE_SIZE;
    forall i | 0 <= i < lo && after[i] in known ensures after[i].systemId in seen {
      if rev.propertyId == propertyId {
        assert after[i] == if i < k then all[i] else if i == k then rev else all[i - 1];
      }
    }
  }

  lemma ArrivalIsNew(v: seq<Revision>, unacked: seq<Revision>, rev: Revision)
    requires DistinctIds(v) && DistinctIds(unacked) && Shrunk(unacked, v) && rev in v && rev !in unacked
    ensures Put(unacked, rev) == unacked + [rev] && DistinctIds(unacked + [rev])
  {
    forall i | 0 <= i < |unacked|
      ensures unacked[i].revisionId != rev.revisionId && unacked[i].systemId != rev.systemId
    {
      assert unacked[i] in unacked;
      SameRevision(v, unacked[i], rev);
    }
  }

  lemma ArrivalKeepsWorld(
    v: seq<Revision>, u: seq<Revision>, unacked: seq<Revision>, stored: map<Text, Stored>, propertyId: Text,
    seen: set<Text>, rev: Revision)
    requires World(v, u, unacked, stored, propertyId, seen)
    requires rev in v && rev !in u
    ensures World(v, u + [rev], unacked + [rev], stored, propertyId, seen)
  {
    ArrivalIsNew(v, unacked, rev);
    ListingMembers(u, propertyId);
    forall r | r in Listing(u, propertyId) ensures r.systemId in Ids(u + [rev], propertyId) {
      ListedIdIsIn(u + [rev], r);
    }
    IdsWithin(Listing(u, propertyId), Ids(u + [rev], propertyId));
  }

  lemma NotBefore(v: seq<Revision>, u: seq<Revision>, rev: Revision)
    requires DistinctIds(v) && u + [rev] <= v
    ensures rev in v && rev !in u
  {
    assert v[|u|] == (u + [rev])[|u|] == rev;
    assert forall i :: 0 <= i < |u| ==> v[i] == (u + [rev])[i] == u[i];
  }

  lemma ArrivalStands(
    v: seq<Revision>, u: seq<Revision>, known: seq<Revision>, unacked: seq<Revision>, stored: map<Text, Stored>,
    propertyId: Text, seen: set<Text>, page: nat, rev: Revision)
    requires page >= 1 && Shrunk(known, u) && u + [rev] <= v
    requires Stands(v, u, known, unacked, stored, propertyId, seen, page)
    ensures Stands(v, u + [rev], known, Put(unacked, rev), stored, propertyId, seen, page)
  {
    NotBefore(v, u, rev);
    ArrivalIsNew(v, unacked, rev);
    ArrivalKeepsWorld(v, u, unacked, stored, propertyId, seen, rev);
    ArrivalKeepsSeen(known, unacked, propertyId, page, seen, rev);
  }

  /** One more revision arrives. */
  method ArriveNext(
    provider: Provider, rev: Revision, kind: Text, ghost page: nat, ghost v: seq<Revision>, ghost u: seq<Revision>,
    ghost known: seq<Revision>, ghost stored: map<Text, Stored>, ghost propertyId: Text, ghost seen: set<Text>)
    requires page >= 1 && Shrunk(known, u) && u + [rev] <= v
    requires Stands(v, u, known, provider.unacked, stored, propertyId, seen, page)
    modifies provider
    ensures Stands(v, u + [rev], known, provider.unacked, stored, propertyId, seen, page)
    ensures provider.emitted == old(provider.emitted) + [rev]
  {
    ArrivalStands(v, u, known, provider.unacked, stored, propertyId, seen, page, rev);
    provider.EmitRevision(rev, kind);
  }

  lemma FirstMoves<T>(a: seq<T>, b: seq<T>)
    requires b != []
    ensures (a + [b[0]]) + b[1..] == a + b && a + [b[0]] <= a + b
  {
  }

  /** How many of k still wait when n have arrived. */
  function Left(k: nat, n: nat): nat {
    if n < k then k - n else 0
  }

  /** How many of k still wait when the pages of so many rounds have been read. */
  function StillWaiting(k: nat, arriving: nat -> nat, round: nat): nat {
    if round == 0 then k else Left(StillWaiting(k, arriving, round - 1), arriving(round - 1))
  }

  /**
   * Up to n of the waiting revisions arrive. While a page is worked through nothing reads the
   * feed, so it is enough that they arrive before the next page is read.
   */
  method Arrive(
    provider: Provider, waiting: seq<Revision>, n: nat, kind: Revision -> Text, ghost page: nat,
    ghost v: seq<Revision>, ghost u: seq<Revision>, ghost known: seq<Revision>, ghost stored: map<Text, Stored>,
    ghost propertyId: Text, ghost seen: set<Text>) returns (left: seq<Revision>, ghost w: seq<Revision>)
    requires page >= 1 && Shrunk(known, u) && v == u + waiting
    requires Stands(v, u, known, provider.unacked, stored, propertyId, seen, page)
    modifies provider
    ensures v == w + left && u <= w && Shrunk(u, w) && |left| == Left(|waiting|, n)
    ensures Stands(v, w, known, provider.unacked, stored, propertyId, seen, page)
    ensures provider.emitted + left == old(provider.emitted) + waiting
  {
    left, w := waiting, u;
    for i := 0 to n
      invariant v == w + left && u <= w && Shrunk(u, w) && |left| == Left(|waiting|, i)
      invariant Stands(v, w, known, provider.unacked, stored, propertyId, seen, page)
      invariant provider.emitted + left == old(provider.emitted) + waiting
    {
      if left == [] { break; }
      FirstMoves(w, left);
      FirstMoves(provider.emitted, left);
      ArriveNext(provider, left[0], kind(left[0]), page, v, w, known, stored, propertyId, seen);
      left, w := left[1..], w + [left[0]];
    }
  }

  // ---- rounds --------------------------------------------------------------------------------------------

  /** How many rounds a run of n revisions may take, whatever acknowledgements fail. */
  function RoundBound(n: nat): nat {
    (n + 1) * (n / PAGE_SIZE + 1)
  }

  /** The rounds that k revisions account for, b each. */
  ghost function Rounds(k: nat, b: nat): nat {
    if k == 0 then 0 else Rounds(k - 1, b) + b
  }

  lemma {:induction false} RoundsAre(k: nat, b: nat)
    ensures Rounds(k, b) == k * b
  {
    if k > 0 { RoundsAre(k - 1, b); }
  }

  lemma {:induction false} RoundsGrow(k: nat, m: nat, b: nat)
    requires k <= m
    ensures Rounds(k, b) <= Rounds(m, b)
    ensures k < m ==> Rounds(k, b) + b <= Rounds(m, b)
  {
    if k < m { RoundsGrow(k, m - 1, b); }
  }

  lemma WithinBound(seen: nat, n: nat, page: nat)
    requires seen <= n && 1 <= page && (page - 1) * PAGE_SIZE <= n
    ensures Rounds(seen, n / PAGE_SIZE + 1) + page - 1 < RoundBound(n)
  {
    RoundsGrow(seen, n, n / PAGE_SIZE + 1);
    RoundsAre(n + 1, n / PAGE_SIZE + 1);
  }

  /** Where a run stands before a round. */
  ghost predicate Stands(
    v: seq<Revision>, u: seq<Revision>, known: seq<Revision>, unacked: seq<Revision>, stored: map<Text, Stored>,
    propertyId: Text, seen: set<Text>, page: nat)
    requires page >= 1
  {
    World(v, u, unacked, stored, propertyId, seen) && SeenBefore(known, unacked, propertyId, page, seen)
  }

  /** One round: a page is read; after one with new revisions the feed is read from its first page again. */
  method Round(
    provider: Provider, repo: Repository, propertyId: Text, page: nat, round: nat,
    outcomes: (nat, nat) -> AckOutcome, newer: Revision -> bool, seen0: set<Text>, s: Summary,
    ghost v: seq<Revision>, ghost u: seq<Revision>, ghost known: seq<Revision>)
    returns (t: Summary, seen: set<Text>, next: Option<nat>)
    requires provider as object != repo && page >= 1 && Balanced(s) && Shrunk(known, u)
    requires Stands(v, u, known, provider.unacked, repo.stored, propertyId, seen0, page)
    modifies provider, repo
    ensures World(v, u, provider.unacked, repo.stored, propertyId, seen)
    ensures provider.emitted == old(provider.emitted)
    ensures Balanced(t) && |seen| - |seen0| == t.seen - s.seen >= 0
    ensures next.Some? ==> next.value == (if |seen| > |seen0| then 1 else page + 1)
    ensures next.Some? ==> SeenBefore(known, provider.unacked, propertyId, next.value, seen)
    ensures next.None? ==> KnownSeen(known, propertyId, seen)
  {
    ghost var unacked := provider.unacked;
    var p := provider.ListBookingRevisions(propertyId, page);
    PageIsOf(unacked, propertyId, page, u);
    var added;
    t, seen, added := ReadPage(provider, repo, propertyId, p.revisions, round, outcomes, newer, seen0, s, v, u);
    NextPageSeen(known, unacked, propertyId, page, seen);
    if p.next.None? {
      next := None;
      AllSeen(v, u, known, unacked, provider.unacked, repo.stored, propertyId, seen);
    } else {
      next := if added > 0 then Some(1) else p.next;
      FirstPage(known, provider.unacked, propertyId, seen);
    }
  }

  lemma PageIsOf(unacked: seq<Revision>, propertyId: Text, page: nat, u: seq<Revision>)
    requires page >= 1 && Shrunk(unacked, u)
    ensures AreOf(PageAt(Listing(unacked, propertyId), page).revisions, u, propertyId)
  {
    var p := PageAt(Listing(unacked, propertyId), page).revisions;
    ListingMembers(unacked, propertyId);
    forall i | 0 <= i < |p| ensures p[i] in u && p[i].propertyId == propertyId {
      assert p[i] in Listing(unacked, propertyId);
    }
  }

  lemma FirstPage(known: seq<Revision>, unacked: seq<Revision>, propertyId: Text, seen: set<Text>)
    ensures SeenBefore(known, unacked, propertyId, 1, seen)
  {
  }

  lemma {:induction false} IdsGrow(v: seq<Revision>, u: seq<Revision>, propertyId: Text)
    requires Shrunk(u, v)
    ensures Ids(u, propertyId) <= Ids(v, propertyId) && |Ids(u, propertyId)| <= |Ids(v, propertyId)|
  {
    ListingMembers(u, propertyId);
    forall r | r in Listing(u, propertyId) ensures r.systemId in Ids(v, propertyId) { ListedIdIsIn(v, r); }
    IdsWithin(Listing(u, propertyId), Ids(v, propertyId));
    SubsetSize(Ids(u, propertyId), Ids(v, propertyId));
  }

  lemma Within(
    v: seq<Revision>, u: seq<Revision>, unacked: seq<Revision>, stored: map<Text, Stored>, propertyId: Text,
    seen: set<Text>)
    requires World(v, u, unacked, stored, propertyId, seen)
    ensures |seen| <= |Ids(u, propertyId)| <= |Ids(v, propertyId)|
    ensures |Listing(unacked, propertyId)| <= |Ids(v, propertyId)|
  {
    SubsetSize(seen, Ids(u, propertyId));
    IdsGrow(v, u, propertyId);
    ListingBound(v, unacked, propertyId);
  }

  /** Whatever left the feed is of the property and stored. */
  ghost predicate OnlyStoredLeft(
    u: seq<Revision>, unacked: seq<Revision>, stored: map<Text, Stored>, propertyId: Text)
  {
    forall r :: r in u && r !in unacked ==> r.propertyId == propertyId && r.systemId in stored
  }

  ghost predicate AllStored(known: seq<Revision>, stored: map<Text, Stored>, propertyId: Text) {
    forall r :: r in known && r.propertyId == propertyId ==> r.systemId in stored
  }

  lemma SeenAreStored(
    v: seq<Revision>, u: seq<Revision>, known: seq<Revision>, unacked: seq<Revision>, stored: map<Text, Stored>,
    propertyId: Text, seen: set<Text>)
    requires World(v, u, unacked, stored, propertyId, seen)
    ensures OnlyStoredLeft(u, unacked, stored, propertyId)
    ensures KnownSeen(known, propertyId, seen) ==>
      AllStored(known, stored, propertyId) && |Ids(known, propertyId)| <= |seen|
  {
    if KnownSeen(known, propertyId, seen) {
      ListingMembers(known, propertyId);
      IdsWithin(Listing(known, propertyId), seen);
      SubsetSize(Ids(known, propertyId), seen);
    }
  }

  lemma NothingSeen(v: seq<Revision>, unacked: seq<Revision>, stored: map<Text, Stored>, propertyId: Text)
    requires DistinctIds(v) && unacked <= v
    requires forall r :: r in v && r.systemId in stored ==> stored[r.systemId].revisionId == r.revisionId
    ensures Stands(v, unacked, unacked, unacked, stored, propertyId, {}, 1)
  {
    FirstPage(unacked, unacked, propertyId, {});
  }

  /**
   * A round with what arrives before it. When it reads the first page, a pass begins, and all
   * that the feed has had by then is known.
   */
  method NextRound(
    provider: Provider, repo: Repository, propertyId: Text, page: nat, round: nat,
    outcomes: (nat, nat) -> AckOutcome, newer: Revision -> bool, waiting: seq<Revision>, n: nat,
    kind: Revision -> Text, seen0: set<Text>, s: Summary,
    ghost v: seq<Revision>, ghost u: seq<Revision>, ghost known0: seq<Revision>)
    returns (t: Summary, seen: set<Text>, next: Option<nat>, left: seq<Revision>, ghost w: seq<Revision>,
      ghost known: seq<Revision>)
    requires provider as object != repo && page >= 1 && Balanced(s) && known0 <= u && v == u + waiting
    requires Stands(v, u, known0, provider.unacked, repo.stored, propertyId, seen0, page)
    modifies provider, repo
    ensures v == w + left && u <= w && |left| == Left(|waiting|, n)
    ensures known == (if page == 1 then w else known0) && known <= w
    ensures provider.emitted + left == old(provider.emitted) + waiting
    ensures World(v, w, provider.unacked, repo.stored, propertyId, seen)
    ensures Balanced(t) && |seen| - |seen0| == t.seen - s.seen >= 0
    ensures next.Some? ==> next.value == (if |seen| > |seen0| then 1 else page + 1)
    ensures next.Some? ==> Stands(v, w, known, provider.unacked, repo.stored, propertyId, seen, next.value)
    ensures next.None? ==> KnownSeen(known, propertyId, seen)
    ensures (page - 1) * PAGE_SIZE <= |Ids(v, propertyId)|
  {
    known := known0;
    assert Shrunk(known, u);
    left, w := Arrive(provider, waiting, n, kind, page, v, u, known, repo.stored, propertyId, seen0);
    if page == 1 {
      known := w;
      FirstPage(known, provider.unacked, propertyId, seen0);
    }
    Within(v, w, provider.unacked, repo.stored, propertyId, seen0);
    t, seen, next := Round(
      provider, repo, propertyId, page, round, outcomes, newer, seen0, s, v, w, known);
  }

  /**
   * What became of a run: the revisions the feed has had, those it had had when the last pass
   * began, whether the run ended by itself, and the rounds in which that pass began and ended.
   */
  datatype Trace = Trace(had: seq<Revision>, known: seq<Revision>, completed: bool, began: nat, ended: nat)

  /** How many revisions the feed has had, of v in all, when the page of this round is read. */
  ghost predicate HadBy(revs: seq<Revision>, v: seq<Revision>, later: nat, arriving: nat -> nat, round: nat) {
    |revs| + StillWaiting(later, arriving, round + 1) == |v|
  }

  /** The last pass goes from the revisions known to those had, and is no longer than the pages of all revisions. */
  ghost predicate Finished(run: Trace, v: seq<Revision>, later: nat, arriving: nat -> nat, propertyId: Text) {
    && HadBy(run.known, v, later, arriving, run.began) && HadBy(run.had, v, later, arriving, run.ended)
    && 0 <= (run.ended - run.began) * PAGE_SIZE <= |Ids(v, propertyId)|
  }

  /** Before a round that is to read this page of a pass. */
  ghost predicate InPass(
    known: seq<Revision>, v: seq<Revision>, later: nat, arriving: nat -> nat, page: nat, began: nat, round: nat)
  {
    page >= 1 && round == began + (page - 1) && (page > 1 ==> HadBy(known, v, later, arriving, began))
  }

  lemma NextInPass(
    known0: seq<Revision>, known: seq<Revision>, had: seq<Revision>, v: seq<Revision>, later: nat,
    arriving: nat -> nat, page: nat, began: nat, round: nat, propertyId: Text)
    requires InPass(known0, v, later, arriving, page, began, round)
    requires HadBy(had, v, later, arriving, round) && known == if page == 1 then had else known0
    requires (page - 1) * PAGE_SIZE <= |Ids(v, propertyId)|
    ensures Finished(Trace(had, known, true, began, round), v, later, arriving, propertyId)
    ensures InPass(known, v, later, arriving, page + 1, began, round + 1)
    ensures InPass(known, v, later, arriving, 1, round + 1, round + 1)
  {
  }

  lemma HadByNow(
    had: seq<Revision>, left: seq<Revision>, v: seq<Revision>, later: nat, arriving: nat -> nat, round: nat)
    requires had + left == v && |left| == Left(StillWaiting(later, arriving, round), arriving(round))
    ensures HadBy(had, v, later, arriving, round) && |left| == StillWaiting(later, arriving, round + 1)
  {
    assert |had + left| == |had| + |left|;
  }

  /** The rounds so far are accounted for by the revisions seen and the pages read since. */
  ghost predicate Counted(v: seq<Revision>, propertyId: Text, seen: set<Text>, page: nat, round: nat) {
    round < Rounds(|seen|, |Ids(v, propertyId)| / PAGE_SIZE + 1) + page
  }

  lemma NextCounted(v: seq<Revision>, propertyId: Text, seen0: set<Text>, seen: set<Text>, page: nat, round: nat)
    requires 1 <= page && (page - 1) * PAGE_SIZE <= |Ids(v, propertyId)| && |seen0| <= |seen|
    requires Counted(v, propertyId, seen0, page, round)
    ensures Counted(v, propertyId, seen, if |seen| > |seen0| then 1 else page + 1, round + 1)
  {
    RoundsGrow(|seen0|, |seen|, |Ids(v, propertyId)| / PAGE_SIZE + 1);
  }

  lemma CountedEnds(
    v: seq<Revision>, u: seq<Revision>, known: seq<Revision>, unacked: seq<Revision>, stored: map<Text, Stored>,
    propertyId: Text, seen: set<Text>, page: nat, round: nat)
    requires page >= 1 && Stands(v, u, known, unacked, stored, propertyId, seen, page)
    requires Counted(v, propertyId, seen, page, round)
    ensures round < RoundBound(|Ids(v, propertyId)|)
  {
    Within(v, u, unacked, stored, propertyId, seen);
    WithinBound(|seen|, |Ids(v, propertyId)|, page);
  }

  /** A round and what it adds to the accounts; `later` revisions waited when the run began. */
  method CountedRound(
    provider: Provider, repo: Repository, propertyId: Text, page: nat, round: nat,
    outcomes: (nat, nat) -> AckOutcome, newer: Revision -> bool, waiting: seq<Revision>, arriving: nat -> nat,
    kind: Revision -> Text, seen0: set<Text>, s: Summary, ghost v: seq<Revision>, ghost u: seq<Revision>,
    ghost known0: seq<Revision>, ghost later: nat, ghost began: nat)
    returns (t: Summary, seen: set<Text>, next: Option<nat>, left: seq<Revision>, ghost w: seq<Revision>,
      ghost known: seq<Revision>, ghost begins: nat)
    requires provider as object != repo && page >= 1 && Balanced(s) && s.seen == |seen0|
    requires known0 <= u && v == u + waiting && |waiting| == StillWaiting(later, arriving, round)
    requires Stands(v, u, known0, provider.unacked, repo.stored, propertyId, seen0, page)
    requires Counted(v, propertyId, seen0, page, round) && InPass(known0, v, later, arriving, page, began, round)
    modifies provider, repo
    ensures v == w + left && u <= w && known <= w && (known == w || known == known0)
    ensures provider.emitted + left == old(provider.emitted) + waiting
    ensures |left| == StillWaiting(later, arriving, round + 1)
    ensures World(v, w, provider.unacked, repo.stored, propertyId, seen)
    ensures Balanced(t) && t.seen == |seen|
    ensures next.Some? ==> InPass(known, v, later, arriving, next.value, begins, round + 1)
    ensures next.Some? ==> Stands(v, w, known, provider.unacked, repo.stored, propertyId, seen, next.value)
    ensures next.Some? ==> Counted(v, propertyId, seen, next.value, round + 1)
    ensures next.None? ==> KnownSeen(known, propertyId, seen)
    ensures next.None? ==> Finished(Trace(w, known, true, begins, round), v, later, arriving, propertyId)
  {
    t, seen, next, left, w, known := NextRound(
      provider, repo, propertyId, page, round, outcomes, newer, waiting, arriving(round), kind, seen0, s, v, u, known0);
    HadByNow(w, left, v, later, arriving, round);
    begins := if next.Some? && next.value == 1 then round + 1 else began;
    NextCounted(v, propertyId, seen0, seen, page, round);
    NextInPass(known0, known, w, v, later, arriving, page, began, round, propertyId);
  }

  /** Round after round, until a page has no next one. */
  method RunRounds(
    provider: Provider, repo: Repository, propertyId: Text, outcomes: (nat, nat) -> AckOutcome,
    newer: Revision -> bool, later: seq<Revision>, arriving: nat -> nat, kind: Revision -> Text, ghost v: seq<Revision>)
    returns (s: Summary, left: seq<Revision>, seen: set<Text>, ghost run: Trace)
    requires provider as object != repo && v == provider.unacked + later
    requires Stands(v, provider.unacked, provider.unacked, provider.unacked, repo.stored, propertyId, {}, 1)
    modifies provider, repo
    ensures old(provider.unacked) <= run.known <= run.had && run.had + left == v
    ensures provider.emitted + left == old(provider.emitted) + later
    ensures Balanced(s) && s.seen == |seen|
    ensures World(v, run.had, provider.unacked, repo.stored, propertyId, seen)
    ensures run.completed ==> KnownSeen(run.known, propertyId, seen) && Finished(run, v, |later|, arriving, propertyId)
    ensures RoundBound(|Ids(v, propertyId)|) <= MAX_FEED_ROUNDS ==> run.completed
  {
    ghost var had, known, began := provider.unacked, provider.unacked, 0;
    s, left, seen := Summary(0, 0, 0, 0, 0, 0, 0), later, {};
    var page := 1;
    for round := 0 to MAX_FEED_ROUNDS
      invariant page >= 1 && Balanced(s) && s.seen == |seen|
      invariant old(provider.unacked) <= known <= had && v == had + left
      invariant provider.emitted + left == old(provider.emitted) + later
      invariant |left| == StillWaiting(|later|, arriving, round)
      invariant Stands(v, had, known, provider.unacked, repo.stored, propertyId, seen, page)
      invariant Counted(v, propertyId, seen, page, round)
      invariant InPass(known, v, |later|, arriving, page, began, round)
    {
      var next;
      s, seen, next, left, had, known, began := CountedRound(
        provider, repo, propertyId, page, round, outcomes, newer, left, arriving, kind, seen, s, v, had, known,
        |later|, began);
      if next.None? {
        run := Trace(had, known, true, began, round);
        return;
      }
      page := next.value;
    }
    run := Trace(had, known, false, 0, 0);
    CountedEnds(v, had, known, provider.unacked, repo.stored, propertyId, seen, page, MAX_FEED_ROUNDS);
  }

  /**
   * One run of the job, while the revisions `later` arrive, `arriving` of them before each round.
   * Nothing leaves the feed that is not stored. When the run does not stop at the limit of rounds,
   * and it never does with few enough revisions, it has seen and stored, none of them twice, every
   * revision the feed had had when the last pass over it began.
   */
  method IngestProperty(
    provider: Provider, repo: Repository, propertyId: Text, outcomes: (nat, nat) -> AckOutcome,
    newer: Revision -> bool, later: seq<Revision>, arriving: nat -> nat, kind: Revision -> Text)
    returns (s: Summary, left: seq<Revision>, ghost run: Trace)
    requires provider as object != repo
    requires DistinctIds(provider.unacked + later)
    requires forall r :: r in provider.unacked + later && r.systemId in repo.stored ==>
      repo.stored[r.systemId].revisionId == r.revisionId
    modifies provider, repo
    ensures old(provider.unacked) <= run.known <= run.had && run.had + left == old(provider.unacked) + later
    ensures provider.emitted + left == old(provider.emitted) + later
    ensures s.seen == s.applied + s.stale + s.duplicates + s.reacked
    ensures s.acked + s.ackFailures == s.seen - s.duplicates
    ensures Shrunk(provider.unacked, run.had)
    ensures OnlyStoredLeft(run.had, provider.unacked, repo.stored, propertyId)
    ensures s.seen <= |Ids(run.had, propertyId)|
    ensures run.completed ==> |Ids(run.known, propertyId)| <= s.seen && AllStored(run.known, repo.stored, propertyId)
    ensures run.completed ==> Finished(run, old(provider.unacked) + later, |later|, arriving, propertyId)
    ensures var n := |Ids(old(provider.unacked) + later, propertyId)|;
      (n + 1) * (n / 10 + 1) <= 10_000 ==> run.completed
  {
    ghost var v := provider.unacked + later;
    NothingSeen(v, provider.unacked, repo.stored, propertyId);
    var seen;
    s, left, seen, run := RunRounds(provider, repo, propertyId, outcomes, newer, later, arriving, kind, v);
    SeenAreStored(v, run.had, run.known, provider.unacked, repo.stored, propertyId, seen);
    Within(v, run.had, provider.unacked, repo.stored, propertyId, seen);
  }
}
