/** The feed of booking revisions a provider keeps until they are acknowledged, and the job that reads it. */
module RevisionFeed {
  import opened Wrappers
  import opened Texts
  import opened Sorting

  /** Revisions of one property in a page of the feed. */
  const PAGE_SIZE := 10

  datatype Revision = Revision(
    revisionId: Text, systemId: Text, propertyId: Text, bookingId: Text, insertedAt: int)

  /** The webhook that announces a revision. */
  datatype Notice = Notice(event: Text, propertyId: Text, timestamp: int, bookingId: Text, revisionId: Text)

  function ByInsertion(): (Revision, Revision) -> bool {
    (a: Revision, b: Revision) => a.insertedAt < b.insertedAt
      || (a.insertedAt == b.insertedAt && AtMost(a.systemId, b.systemId))
  }

  function OfProperty(unacked: seq<Revision>, propertyId: Text): seq<Revision> {
    if unacked == [] then []
    else
      var last := unacked[|unacked| - 1];
      OfProperty(unacked[..|unacked| - 1], propertyId) + if last.propertyId == propertyId then [last] else []
  }

  /** The unacknowledged revisions of a property in the order of the feed. */
  function Listing(unacked: seq<Revision>, propertyId: Text): seq<Revision> {
    Sort(ByInsertion(), OfProperty(unacked, propertyId))
  }

  datatype Page = Page(revisions: seq<Revision>, next: Option<nat>)

  function PageAt(all: seq<Revision>, page: nat): Page
    requires page >= 1
  {
    var lo, hi := (page - 1) * PAGE_SIZE, page * PAGE_SIZE;
    Page(
      if lo >= |all| then [] else if hi >= |all| then all[lo..] else all[lo..hi],
      if hi < |all| then Some(page + 1) else None)
  }

  function IndexOf(unacked: seq<Revision>, id: Text): (i: Option<nat>)
    ensures i.Some? ==> i.value < |unacked| && unacked[i.value].revisionId == id
    ensures i.None? ==> forall k :: 0 <= k < |unacked| ==> unacked[k].revisionId != id
  {
    if unacked == [] then None
    else if unacked[|unacked| - 1].revisionId == id then Some(|unacked| - 1)
    else IndexOf(unacked[..|unacked| - 1], id)
  }

  function Without(unacked: seq<Revision>, id: Text): seq<Revision> {
    match IndexOf(unacked, id)
    case None => unacked
    case Some(i) => unacked[..i] + unacked[i + 1..]
  }

  // ---- the provider --------------------------------------------------------------------------------

  /**
   * The state of the provider: the latest revision of each booking, the ledger, and the webhooks
   * not yet delivered. `unacked` is a map that keeps the order of insertion.
   */
  datatype Feed = Feed(
    bookings: map<Text, Revision>, emitted: seq<Revision>, unacked: seq<Revision>, acked: set<Text>, acks: seq<Text>,
    pending: seq<Notice>)

  const NO_REVISIONS := Feed(map[], [], [], {}, [], [])

  predicate CanAck(f: Feed, id: Text) {
    IndexOf(f.unacked, id).Some? || id in f.acked
  }

  function Acked(f: Feed, id: Text): Feed
    requires CanAck(f, id)
  {
    f.(unacked := Without(f.unacked, id), acked := f.acked + {id}, acks := f.acks + [id])
  }

  /** Acknowledging a list stops at the first unknown identifier; those before it stay acknowledged. */
  function AckAll(f: Feed, ids: seq<Text>): (Feed, bool)
    decreases |ids|
  {
    if ids == [] then (f, true)
    else if CanAck(f, ids[0]) then AckAll(Acked(f, ids[0]), ids[1..])
    else (f, false)
  }

  /** An identifier seen before would overwrite its revision; the provider gives each a new one. */
  predicate IsNew(f: Feed, rev: Revision) {
    forall i :: 0 <= i < |f.emitted| ==>
      f.emitted[i].revisionId != rev.revisionId && f.emitted[i].systemId != rev.systemId
  }

  function Put(unacked: seq<Revision>, rev: Revision): seq<Revision> {
    match IndexOf(unacked, rev.revisionId)
    case None => unacked + [rev]
    case Some(i) => unacked[i := rev]
  }

  function NoticeOf(rev: Revision, event: Text): Notice {
    Notice(event, rev.propertyId, rev.insertedAt, rev.bookingId, rev.revisionId)
  }

  function Emitted(f: Feed, rev: Revision, event: Text): Feed {
    f.(bookings := f.bookings[rev.bookingId := rev], unacked := Put(f.unacked, rev), emitted := f.emitted + [rev],
       pending := f.pending + [NoticeOf(rev, event)])
  }

  class Provider {
    var bookings: map<Text, Revision>
    var emitted: seq<Revision>
    var unacked: seq<Revision>
    var acked: set<Text>
    var acks: seq<Text>
    var pending: seq<Notice>

    ghost function State(): Feed
      reads this
    {
      Feed(bookings, emitted, unacked, acked, acks, pending)
    }

    method EmitRevision(rev: Revision, event: Text)
      modifies this
      ensures State() == Emitted(old(State()), rev, event)
    {
      bookings := bookings[rev.bookingId := rev];
      unacked := Put(unacked, rev);
      emitted := emitted + [rev];
      pending := pending + [Notice(event, rev.propertyId, rev.insertedAt, rev.bookingId, rev.revisionId)];
    }

    method ListBookingRevisions(propertyId: Text, page: nat) returns (p: Page)
      requires page >= 1
      ensures p == PageAt(Listing(unacked, propertyId), page)
    {
      p := PageAt(Listing(unacked, propertyId), page);
    }

    method AckBookingRevisions(ids: seq<Text>) returns (ok: bool)
      modifies this
      ensures (State(), ok) == AckAll(old(State()), ids)
    {
      assert ids[0..] == ids;
      for i := 0 to |ids|
        invariant AckAll(State(), ids[i..]) == AckAll(old(State()), ids)
      {
        var id := ids[i];
        assert ids[i..][0] == id && ids[i..][1..] == ids[i + 1..];
        if IndexOf(unacked, id).None? && id !in acked { return false; }
        unacked := Without(unacked, id);
        acked := acked + {id};
        acks := acks + [id];
      }
      return true;
    }
  }

  // ---- every run of the provider -----------------------------------------------------------------------

  ghost predicate DistinctIds(revs: seq<Revision>) {
    forall i, j :: 0 <= i < j < |revs| ==>
      revs[i].revisionId != revs[j].revisionId && revs[i].systemId != revs[j].systemId
  }

  /** The emitted revisions are those unacked and those acked, and no revision is both. */
  ghost predicate Inv(f: Feed) {
    && DistinctIds(f.emitted) && DistinctIds(f.unacked)
    && (forall r :: r in f.unacked ==> r in f.emitted && r.revisionId !in f.acked)
    && (forall r :: r in f.emitted ==> r in f.unacked || r.revisionId in f.acked)
    && (forall id :: id in f.acked ==> exists i :: 0 <= i < |f.emitted| && f.emitted[i].revisionId == id)
  }

  function Skip(i: nat, k: nat): nat {
    if k < i then k else k + 1
  }

  lemma CutAt(revs: seq<Revision>, i: nat)
    requires i < |revs|
    ensures var rest := revs[..i] + revs[i + 1..];
      && |rest| == |revs| - 1
      && (forall k :: 0 <= k < |rest| ==> rest[k] == revs[Skip(i, k)])
      && (forall r :: r in rest ==> r in revs)
      && (forall r :: r in revs && r != revs[i] ==> r in rest)
  {
    assert revs == revs[..i] + ([revs[i]] + revs[i + 1..]);
  }

  lemma WithoutMembers(revs: seq<Revision>, id: Text)
    requires DistinctIds(revs)
    ensures DistinctIds(Without(revs, id))
    ensures forall r :: r in Without(revs, id) <==> r in revs && r.revisionId != id
  {
    var found := IndexOf(revs, id);
    if found.Some? {
      CutAt(revs, found.value);
      var rest := Without(revs, id);
      forall r | r in rest ensures r.revisionId != id {
        var k :| 0 <= k < |rest| && rest[k] == r;
        assert Skip(found.value, k) != found.value;
      }
      forall a, b | 0 <= a < b < |rest|
        ensures rest[a].revisionId != rest[b].revisionId && rest[a].systemId != rest[b].systemId
      {
        assert Skip(found.value, a) < Skip(found.value, b);
      }
    }
  }

  lemma AckKeepsInv(f: Feed, id: Text)
    requires Inv(f) && CanAck(f, id)
    ensures Inv(Acked(f, id))
  {
    WithoutMembers(f.unacked, id);
    var g := Acked(f, id);
    forall r | r in g.emitted ensures r in g.unacked || r.revisionId in g.acked {
      assert r in f.emitted;
    }
    if i :| 0 <= i < |f.unacked| && f.unacked[i].revisionId == id {
      assert f.unacked[i] in f.emitted;
      var k :| 0 <= k < |f.emitted| && f.emitted[k] == f.unacked[i];
      assert g.emitted[k].revisionId == id;
    }
  }

  lemma EmitKeepsInv(f: Feed, rev: Revision, event: Text)
    requires Inv(f) && IsNew(f, rev)
    ensures Inv(Emitted(f, rev, event))
  {
    var g := Emitted(f, rev, event);
    forall i | 0 <= i < |f.unacked|
      ensures f.unacked[i].revisionId != rev.revisionId && f.unacked[i].systemId != rev.systemId
    {
      assert f.unacked[i] in f.emitted;
    }
    assert rev.revisionId !in f.acked;
    forall id | id in g.acked ensures exists i :: 0 <= i < |g.emitted| && g.emitted[i].revisionId == id {
      var i :| 0 <= i < |f.emitted| && f.emitted[i].revisionId == id;
      assert g.emitted[i].revisionId == id;
    }
  }

  lemma {:induction false} AckAllKeepsInv(f: Feed, ids: seq<Text>)
    requires Inv(f)
    ensures Inv(AckAll(f, ids).0)
    decreases |ids|
  {
    if ids != [] && CanAck(f, ids[0]) {
      AckKeepsInv(f, ids[0]);
      AckAllKeepsInv(Acked(f, ids[0]), ids[1..]);
    }
  }

  /** Acknowledging again changes nothing but the log. */
  lemma AckIsIdempotent(f: Feed, id: Text)
    requires Inv(f) && CanAck(f, id)
    ensures CanAck(Acked(f, id), id)
    ensures Acked(Acked(f, id), id) == Acked(f, id).(acks := f.acks + [id, id])
  {
    WithoutMembers(f.unacked, id);
    var g := Acked(f, id);
    assert forall k :: 0 <= k < |g.unacked| ==> g.unacked[k] in g.unacked;
    assert IndexOf(g.unacked, id).None?;
    assert f.acks + [id] + [id] == f.acks + [id, id];
  }

  datatype Event = Emit(rev: Revision, event: Text) | Ack(ids: seq<Text>) | Flush

  function Next(f: Feed, e: Event): Feed {
    match e
    case Emit(rev, event) => if IsNew(f, rev) then Emitted(f, rev, event) else f
    case Ack(ids) => AckAll(f, ids).0
    case Flush => f.(pending := [])
  }

  function Run(f: Feed, events: seq<Event>): Feed {
    if events == [] then f else Next(Run(f, events[..|events| - 1]), events[|events| - 1])
  }

  /** In every run the emitted revisions are the disjoint union of unacked and acked ones. */
  lemma {:induction false} RunsKeepInv(events: seq<Event>)
    ensures Inv(Run(NO_REVISIONS, events))
  {
    if events != [] {
      var g := Run(NO_REVISIONS, events[..|events| - 1]);
      RunsKeepInv(events[..|events| - 1]);
      match events[|events| - 1]
      case Emit(rev, event) => if IsNew(g, rev) { EmitKeepsInv(g, rev, event); }
      case Ack(ids) => AckAllKeepsInv(g, ids);
      case Flush =>
    }
  }

  /** The revision is emitted and none of its booking was emitted later. */
  ghost predicate IsLatest(emitted: seq<Revision>, rev: Revision) {
    exists i :: 0 <= i < |emitted| && emitted[i] == rev
      && forall j :: i < j < |emitted| ==> emitted[j].bookingId != rev.bookingId
  }

  ghost predicate Announces(n: Notice, rev: Revision) {
    n.revisionId == rev.revisionId && n.bookingId == rev.bookingId && n.propertyId == rev.propertyId
      && n.timestamp == rev.insertedAt
  }

  /** Each booking has its latest revision. */
  ghost predicate KnowsLatest(bookings: map<Text, Revision>, emitted: seq<Revision>) {
    && (forall r :: r in emitted ==> r.bookingId in bookings)
    && (forall b :: b in bookings ==> bookings[b].bookingId == b && IsLatest(emitted, bookings[b]))
  }

  /** The last revisions are announced in order, each once. */
  ghost predicate AnnouncesLast(pending: seq<Notice>, emitted: seq<Revision>) {
    && |pending| <= |emitted|
    && (forall k :: 0 <= k < |pending| ==> Announces(pending[k], emitted[|emitted| - |pending| + k]))
  }

  lemma LatestStays(emitted: seq<Revision>, rev: Revision, next: Revision)
    requires IsLatest(emitted, rev) && rev.bookingId != next.bookingId
    ensures IsLatest(emitted + [next], rev)
  {
    var i :| 0 <= i < |emitted| && emitted[i] == rev
      && forall j :: i < j < |emitted| ==> emitted[j].bookingId != rev.bookingId;
    assert (emitted + [next])[i] == rev;
  }

  lemma EmitKeepsLatest(bookings: map<Text, Revision>, emitted: seq<Revision>, rev: Revision)
    requires KnowsLatest(bookings, emitted)
    ensures KnowsLatest(bookings[rev.bookingId := rev], emitted + [rev])
  {
    var after := bookings[rev.bookingId := rev];
    forall b | b in after ensures after[b].bookingId == b && IsLatest(emitted + [rev], after[b]) {
      if b == rev.bookingId {
        assert (emitted + [rev])[|emitted|] == rev;
      } else {
        LatestStays(emitted, bookings[b], rev);
      }
    }
  }

  lemma EmitAnnounces(pending: seq<Notice>, emitted: seq<Revision>, rev: Revision, event: Text)
    requires AnnouncesLast(pending, emitted)
    ensures AnnouncesLast(pending + [NoticeOf(rev, event)], emitted + [rev])
  {
  }

  lemma {:induction false} AckAllKeepsLedger(f: Feed, ids: seq<Text>)
    ensures var g := AckAll(f, ids).0;
      g.bookings == f.bookings && g.emitted == f.emitted && g.pending == f.pending
    decreases |ids|
  {
    if ids != [] && CanAck(f, ids[0]) { AckAllKeepsLedger(Acked(f, ids[0]), ids[1..]); }
  }

  /**
   * In every run each booking has its latest revision, and the webhooks queued announce the last
   * revisions in order.
   */
  lemma {:induction false} RunsStayUpToDate(events: seq<Event>)
    ensures var f := Run(NO_REVISIONS, events);
      KnowsLatest(f.bookings, f.emitted) && AnnouncesLast(f.pending, f.emitted)
  {
    if events != [] {
      var g := Run(NO_REVISIONS, events[..|events| - 1]);
      RunsStayUpToDate(events[..|events| - 1]);
      StaysUpToDate(g, events[|events| - 1]);
    }
  }

  lemma StaysUpToDate(f: Feed, e: Event)
    requires KnowsLatest(f.bookings, f.emitted) && AnnouncesLast(f.pending, f.emitted)
    ensures KnowsLatest(Next(f, e).bookings, Next(f, e).emitted)
    ensures AnnouncesLast(Next(f, e).pending, Next(f, e).emitted)
  {
    match e
    case Emit(rev, event) =>
      EmitKeepsLatest(f.bookings, f.emitted, rev);
      EmitAnnounces(f.pending, f.emitted, rev, event);
    case Ack(ids) => AckAllKeepsLedger(f, ids);
    case Flush =>
  }

  // ---- pages ---------------------------------------------------------------------------------------------

  /** Reading page after page while there is a next one. */
  function ReadFrom(all: seq<Revision>, page: nat): seq<Revision>
    requires page >= 1
    decreases |all| + PAGE_SIZE - page * PAGE_SIZE
  {
    var p := PageAt(all, page);
    if p.next.None? then p.revisions else p.revisions + ReadFrom(all, page + 1)
  }

  lemma {:induction false} PagesAre(all: seq<Revision>, page: nat)
    requires page >= 1 && (page - 1) * PAGE_SIZE <= |all|
    ensures ReadFrom(all, page) == all[(page - 1) * PAGE_SIZE..]
    decreases |all| + PAGE_SIZE - page * PAGE_SIZE
  {
    if page * PAGE_SIZE < |all| {
      PagesAre(all, page + 1);
      assert all[(page - 1) * PAGE_SIZE..] == all[(page - 1) * PAGE_SIZE..page * PAGE_SIZE] + all[page * PAGE_SIZE..];
    }
  }

  /** How often a revision is to be listed: as often as it is unacknowledged, when it is of the property. */
  ghost function TimesListed(unacked: seq<Revision>, propertyId: Text, r: Revision): nat {
    if r.propertyId == propertyId then multiset(unacked)[r] else 0
  }

  lemma {:induction false} OfPropertyMembers(unacked: seq<Revision>, propertyId: Text)
    ensures forall r :: multiset(OfProperty(unacked, propertyId))[r] == TimesListed(unacked, propertyId, r)
  {
    if unacked != [] {
      var front, last := unacked[..|unacked| - 1], unacked[|unacked| - 1];
      OfPropertyMembers(front, propertyId);
      assert unacked == front + [last];
    }
  }

  lemma InsertionIsPreorder()
    ensures TotalPreorder(ByInsertion())
  {
    var le := ByInsertion();
    forall a, b ensures le(a, b) || le(b, a) { AtMostTotal(a.systemId, b.systemId); }
    forall a, b, c | le(a, b) && le(b, c) ensures le(a, c) {
      if a.insertedAt == b.insertedAt == c.insertedAt { AtMostTransitive(a.systemId, b.systemId, c.systemId); }
    }
  }

  lemma ListingMembers(unacked: seq<Revision>, propertyId: Text)
    ensures forall r :: r in Listing(unacked, propertyId) <==> r in unacked && r.propertyId == propertyId
    ensures forall r :: multiset(Listing(unacked, propertyId))[r] == TimesListed(unacked, propertyId, r)
  {
    SortPermutes(ByInsertion(), OfProperty(unacked, propertyId));
    OfPropertyMembers(unacked, propertyId);
    forall r ensures r in Listing(unacked, propertyId) <==> r in unacked && r.propertyId == propertyId {
      assert r in Listing(unacked, propertyId) <==> r in multiset(Listing(unacked, propertyId));
      assert r in unacked <==> r in multiset(unacked);
    }
  }

  /** Paging to the end without acknowledging gives each unacked revision of the property once, oldest first. */
  lemma PagingIsComplete(unacked: seq<Revision>, propertyId: Text)
    ensures var read := ReadFrom(Listing(unacked, propertyId), 1);
      && (forall r :: multiset(read)[r] == TimesListed(unacked, propertyId, r))
      && SortedBy(ByInsertion(), read)
  {
    var all := Listing(unacked, propertyId);
    PagesAre(all, 1);
    assert all[0..] == all;
    ListingMembers(unacked, propertyId);
    InsertionIsPreorder();
    SortSorts(ByInsertion(), OfProperty(unacked, propertyId));
  }
}
