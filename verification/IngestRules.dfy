/** What the job that pulls revisions does with one of them, and how it counts. */
module IngestRules {
  import opened Texts
  import RevisionFeed
  import opened Ingest
  import FeedRules

  /** The revision is stored under its identifier. */
  ghost predicate Known(stored: map<Text, Stored>, rev: RevisionFeed.Revision) {
    rev.systemId in stored
  }

  /** Of the four ways to count a revision exactly one is taken, by what is stored and by whether it is newer. */
  lemma RevisionIsCounted(
    s: Summary, stored: map<Text, Stored>, rev: RevisionFeed.Revision, newer: bool, taken: bool)
    ensures var t := Accounted(s, stored, rev, newer, taken);
      var done := Known(stored, rev) && stored[rev.systemId].acked;
      && t.seen == s.seen + 1
      && t.duplicates == s.duplicates + (if done then 1 else 0)
      && t.reacked == s.reacked + (if Known(stored, rev) && !stored[rev.systemId].acked then 1 else 0)
      && t.applied == s.applied + (if !Known(stored, rev) && newer then 1 else 0)
      && t.stale == s.stale + (if !Known(stored, rev) && !newer then 1 else 0)
      && t.acked == s.acked + (if !done && taken then 1 else 0)
      && t.ackFailures == s.ackFailures + (if !done && !taken then 1 else 0)
  {
  }

  /**
   * Stored is what was stored, and the revision. An entry keeps the revision it is for; it is acknowledged
   * when it was before, or when the acknowledgement of that revision went through.
   */
  lemma RevisionIsStored(stored: map<Text, Stored>, rev: RevisionFeed.Revision, taken: bool)
    requires Known(stored, rev) ==> stored[rev.systemId].revisionId == rev.revisionId
    ensures var after := After(stored, rev, taken);
      && after.Keys == stored.Keys + {rev.systemId}
      && after[rev.systemId].revisionId == rev.revisionId
      && (forall k :: k in stored ==> after[k].revisionId == stored[k].revisionId)
      && (Known(stored, rev) && stored[rev.systemId].acked ==> after == stored)
      && (!Known(stored, rev) || !stored[rev.systemId].acked ==>
            forall k :: k in after ==>
              (after[k].acked <==>
                (k in stored && stored[k].acked) || (taken && after[k].revisionId == rev.revisionId)))
  {
  }

  /** The table grows by one for each revision counted as applied or stale, and never shrinks. */
  lemma TableGrowsByNew(s: Summary, stored: map<Text, Stored>, rev: RevisionFeed.Revision, newer: bool, taken: bool)
    requires Known(stored, rev) ==> stored[rev.systemId].revisionId == rev.revisionId
    ensures var t := Accounted(s, stored, rev, newer, taken);
      |After(stored, rev, taken).Keys| - |stored.Keys| == t.applied + t.stale - s.applied - s.stale
  {
    RevisionIsStored(stored, rev, taken);
    assert Known(stored, rev) ==> stored.Keys + {rev.systemId} == stored.Keys;
  }

  /**
   * An acknowledgement the provider takes is that of the one revision, whether or not its answer arrives;
   * one that fails before, or of a revision never emitted, leaves the provider as it was.
   */
  lemma AckIsTaken(f: RevisionFeed.Feed, id: Text, outcome: AckOutcome)
    requires RevisionFeed.Inv(f)
    ensures outcome == Fails || !FeedRules.Known(f, id) ==> AfterAck(f, id, outcome) == f
    ensures outcome != Fails && FeedRules.Known(f, id) ==> FeedRules.AckedAll(f, [id], AfterAck(f, id, outcome))
  {
    FeedRules.CanAckIff(f, id);
    if outcome != Fails && FeedRules.Known(f, id) { RevisionFeed.WithoutMembers(f.unacked, id); }
  }

  ghost function Arrived(arriving: nat -> nat, round: nat): nat {
    if round == 0 then 0 else Arrived(arriving, round - 1) + arriving(round - 1)
  }

  /** What waits are those not among the first that arrived so far. */
  lemma {:induction false} WaitingIsRest(k: nat, arriving: nat -> nat, round: nat)
    ensures StillWaiting(k, arriving, round) == if Arrived(arriving, round) < k then k - Arrived(arriving, round) else 0
  {
    if round > 0 { WaitingIsRest(k, arriving, round - 1); }
  }
}
