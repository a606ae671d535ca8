/** What the revision feed promises page by page and acknowledgement by acknowledgement. */
module FeedRules {
  import opened Wrappers
  import opened Texts
  import opened Sorting
  import opened RevisionFeed

  /** Page p holds the entries from 10 (p - 1) on, ten at most, and names the next page when there is more. */
  lemma PageHolds(all: seq<Revision>, page: nat)
    requires page >= 1
    ensures var p := PageAt(all, page);
      && |p.revisions| ==
        (if |all| <= 10 * (page - 1) then 0 else if |all| <= 10 * page then |all| - 10 * (page - 1) else 10)
      && (forall i :: 0 <= i < |p.revisions| ==> p.revisions[i] == all[10 * (page - 1) + i])
      && p.next == if |all| > 10 * page then Some(page + 1) else None
  {
  }

  /** The feed of a property lists its unacknowledged revisions, the oldest first. */
  lemma OldestFirst(unacked: seq<Revision>, propertyId: Text)
    ensures var all := Listing(unacked, propertyId);
      && (forall r :: multiset(all)[r] == if r.propertyId == propertyId then multiset(unacked)[r] else 0)
      && forall i, j :: 0 <= i < j < |all| ==>
        || all[i].insertedAt < all[j].insertedAt
        || (all[i].insertedAt == all[j].insertedAt && AtMost(all[i].systemId, all[j].systemId))
  {
    var all := Listing(unacked, propertyId);
    ListingMembers(unacked, propertyId);
    InsertionIsPreorder();
    SortSorts(ByInsertion(), OfProperty(unacked, propertyId));
    forall i, j | 0 <= i < j < |all|
      ensures all[i].insertedAt < all[j].insertedAt
        || (all[i].insertedAt == all[j].insertedAt && AtMost(all[i].systemId, all[j].systemId))
    {
      assert ByInsertion()(all[i], all[j]);
    }
  }

  /** The provider emitted a revision of this identifier. */
  ghost predicate Known(f: Feed, id: Text) {
    exists i :: 0 <= i < |f.emitted| && f.emitted[i].revisionId == id
  }

  lemma CanAckIff(f: Feed, id: Text)
    requires Inv(f)
    ensures CanAck(f, id) <==> Known(f, id)
  {
    if i :| 0 <= i < |f.emitted| && f.emitted[i].revisionId == id {
      assert f.emitted[i] in f.emitted;
      if f.emitted[i] in f.unacked {
        var k :| 0 <= k < |f.unacked| && f.unacked[k] == f.emitted[i];
      }
    }
    if IndexOf(f.unacked, id).Some? {
      var r := f.unacked[IndexOf(f.unacked, id).value];
      assert r in f.unacked && r in f.emitted;
      var i :| 0 <= i < |f.emitted| && f.emitted[i] == r;
    }
  }

  /** What a feed is after these were acknowledged. */
  ghost predicate AckedAll(f: Feed, ids: seq<Text>, g: Feed) {
    && g.bookings == f.bookings && g.emitted == f.emitted && g.pending == f.pending
    && g.acked == f.acked + (set id | id in ids) && g.acks == f.acks + ids
    && forall r :: r in g.unacked <==> r in f.unacked && r.revisionId !in ids
  }

  /**
   * Acknowledging a list acknowledges exactly the identifiers before the first one never emitted, known
   * ones again included, and succeeds when there is none such.
   */
  lemma {:induction false} AcksUpToUnknown(f: Feed, ids: seq<Text>) returns (n: nat)
    requires Inv(f)
    ensures n <= |ids| && (forall i :: 0 <= i < n ==> Known(f, ids[i])) && (n < |ids| ==> !Known(f, ids[n]))
    ensures AckedAll(f, ids[..n], AckAll(f, ids).0)
    ensures AckAll(f, ids).1 <==> n == |ids|
    decreases |ids|
  {
    n := 0;
    NoneAcked(f);
    assert ids[..0] == [];
    if ids != [] {
      CanAckIff(f, ids[0]);
      if CanAck(f, ids[0]) {
        AckKeepsInv(f, ids[0]);
        var m := AcksUpToUnknown(Acked(f, ids[0]), ids[1..]);
        n := m + 1;
        FirstAcked(f, ids, n, AckAll(f, ids).0);
        KnownStays(f, ids, n);
      }
    }
  }

  lemma NoneAcked(f: Feed)
    ensures AckedAll(f, [], f)
  {
    assert f.acks + [] == f.acks;
  }

  lemma KnownStays(f: Feed, ids: seq<Text>, n: nat)
    requires 0 < n <= |ids| && CanAck(f, ids[0]) && Known(f, ids[0])
    requires forall i :: 0 <= i < n - 1 ==> Known(Acked(f, ids[0]), ids[1..][i])
    ensures forall i :: 0 <= i < n ==> Known(f, ids[i])
    ensures n < |ids| ==> ids[n] == ids[1..][n - 1]
    ensures forall id :: Known(Acked(f, ids[0]), id) <==> Known(f, id)
  {
    forall i | 0 < i < n ensures Known(f, ids[i]) { assert Known(Acked(f, ids[0]), ids[1..][i - 1]); }
  }

  lemma FirstAcked(f: Feed, ids: seq<Text>, n: nat, g: Feed)
    requires 0 < n <= |ids| && Inv(f) && CanAck(f, ids[0])
    requires AckedAll(Acked(f, ids[0]), ids[1..][..n - 1], g)
    ensures AckedAll(f, ids[..n], g)
  {
    WithoutMembers(f.unacked, ids[0]);
    assert ids[..n] == [ids[0]] + ids[1..][..n - 1];
    assert f.acks + ids[..n] == f.acks + [ids[0]] + ids[1..][..n - 1];
  }

  /**
   * An emission of a new revision makes it the latest of its booking, unacknowledged, and last in the
   * ledger, and queues a webhook that announces it; one of a known identifier cannot happen.
   */
  lemma EmitDoes(f: Feed, rev: Revision, event: Text)
    requires Inv(f)
    requires forall r :: r in f.emitted ==> r.revisionId != rev.revisionId && r.systemId != rev.systemId
    ensures Next(f, Emit(rev, event)) == Feed(
      f.bookings[rev.bookingId := rev], f.emitted + [rev], f.unacked + [rev], f.acked, f.acks,
      f.pending + [Notice(event, rev.propertyId, rev.insertedAt, rev.bookingId, rev.revisionId)])
  {
    assert IndexOf(f.unacked, rev.revisionId).None? by {
      forall k | 0 <= k < |f.unacked| ensures f.unacked[k].revisionId != rev.revisionId {
        assert f.unacked[k] in f.emitted;
      }
    }
    forall i | 0 <= i < |f.emitted|
      ensures f.emitted[i].revisionId != rev.revisionId && f.emitted[i].systemId != rev.systemId
    {
      assert f.emitted[i] in f.emitted;
    }
  }

  /** The events after the last flush, or all of them. */
  ghost predicate SinceFlush(events: seq<Event>, k: nat) {
    k <= |events| && (k > 0 ==> events[k - 1].Flush?) && forall i :: k <= i < |events| ==> !events[i].Flush?
  }

  /** The webhooks queued announce, in order, what was emitted after the first n revisions. */
  ghost predicate QueuedAfter(f: Feed, n: nat) {
    && n + |f.pending| == |f.emitted|
    && forall i :: 0 <= i < |f.pending| ==> Announces(f.pending[i], f.emitted[n + i])
  }

  lemma QueuedNext(f: Feed, n: nat, e: Event)
    requires QueuedAfter(f, n) && !e.Flush?
    ensures QueuedAfter(Next(f, e), n)
  {
    if e.Ack? { AckAllKeepsLedger(f, e.ids); }
  }

  /** The webhooks queued announce, in order, exactly what was emitted since the last flush. */
  lemma {:induction false} QueuedSinceFlush(events: seq<Event>, k: nat)
    requires SinceFlush(events, k)
    ensures QueuedAfter(Run(NO_REVISIONS, events), |Run(NO_REVISIONS, events[..k]).emitted|)
  {
    if k == |events| {
      assert events[..k] == events;
      assert Run(NO_REVISIONS, events).pending == [];
    } else {
      var n := |events| - 1;
      assert events[..n][..k] == events[..k];
      QueuedSinceFlush(events[..n], k);
      QueuedNext(Run(NO_REVISIONS, events[..n]), |Run(NO_REVISIONS, events[..k]).emitted|, events[n]);
    }
  }
}
