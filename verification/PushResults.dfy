/**
 * Matching the warnings a push answers with back to the entries that were sent. A warning echoes
 * the key of its entry (plan or room type, dates, weekdays) and names the fields it rejects.
 */
module PushResults {
  import opened Wrappers
  import opened Texts

  datatype Entry = Entry(key: Text, fields: set<Text>)

  /** A warning without fields is only text. */
  datatype Warning = Warning(key: Text, fields: seq<Text>, index: Option<int>)

  datatype Rejection = Rejection(index: int, field: Text)

  /** What is known after some warnings: places taken, rejections, warnings kept as text. */
  datatype Matching = Matching(taken: set<int>, rejected: seq<Rejection>, texts: nat)

  predicate IsCandidate(sent: seq<Entry>, taken: set<int>, key: Text, i: int) {
    0 <= i < |sent| && sent[i].key == key && i !in taken
  }

  predicate Mentions(e: Entry, fields: seq<Text>) {
    exists k :: 0 <= k < |fields| && fields[k] in e.fields
  }

  /** The first candidate up to n that satisfies a condition. */
  function FirstCandidate(sent: seq<Entry>, taken: set<int>, w: Warning, mentioned: bool, n: nat): (i: Option<int>)
    requires n <= |sent|
    ensures i.Some? ==> IsCandidate(sent, taken, w.key, i.value) && i.value < n
    ensures i.Some? && mentioned ==> Mentions(sent[i.value], w.fields)
    ensures i.None? && !mentioned ==> forall j :: 0 <= j < n ==> !IsCandidate(sent, taken, w.key, j)
  {
    if n == 0 then None
    else
      var before := FirstCandidate(sent, taken, w, mentioned, n - 1);
      if before.Some? then before
      else if IsCandidate(sent, taken, w.key, n - 1) && (mentioned ==> Mentions(sent[n - 1], w.fields)) then Some(n - 1)
      else None
  }

  /** The entry with the warning's key and one of its fields, else any with its key, else what the warning says. */
  function PlaceOf(sent: seq<Entry>, taken: set<int>, w: Warning): int {
    var best := FirstCandidate(sent, taken, w, true, |sent|);
    var any := FirstCandidate(sent, taken, w, false, |sent|);
    if best.Some? then best.value
    else if any.Some? then any.value
    else if w.index.Some? then w.index.value
    else -1
  }

  function Next(sent: seq<Entry>, m: Matching, w: Warning): Matching {
    if w.fields == [] then m.(texts := m.texts + 1)
    else
      var place := PlaceOf(sent, m.taken, w);
      if place < 0 then m.(texts := m.texts + 1)
      else m.(taken := m.taken + {place}, rejected := m.rejected + [Rejection(place, w.fields[0])])
  }

  function MatchAll(sent: seq<Entry>, warnings: seq<Warning>): Matching {
    if warnings == [] then Matching({}, [], 0)
    else Next(sent, MatchAll(sent, warnings[..|warnings| - 1]), warnings[|warnings| - 1])
  }

  /** How many entries count as accepted, never below zero. */
  function Accepted(sent: seq<Entry>, m: Matching): nat {
    if |m.rejected| > |sent| then 0 else |sent| - |m.rejected|
  }

  method PushResult(warnings: seq<Warning>, sent: seq<Entry>)
    returns (accepted: nat, rejected: seq<Rejection>, texts: nat)
    ensures var m := MatchAll(sent, warnings);
      rejected == m.rejected && texts == m.texts && accepted == Accepted(sent, m)
  {
    var taken: set<int> := {};
    rejected, texts := [], 0;
    for i := 0 to |warnings|
      invariant Matching(taken, rejected, texts) == MatchAll(sent, warnings[..i])
    {
      assert warnings[..i + 1][..i] == warnings[..i];
      var w := warnings[i];
      if w.fields == [] {
        texts := texts + 1;
        continue;
      }
      var index := PlaceOf(sent, taken, w);
      if index < 0 {
        texts := texts + 1;
        continue;
      }
      taken := taken + {index};
      rejected := rejected + [Rejection(index, w.fields[0])];
    }
    assert warnings[..|warnings|] == warnings;
    accepted := if |rejected| > |sent| then 0 else |sent| - |rejected|;
  }

  // ---- every warning is kept ----------------------------------------------------------------------------

  /** Every warning is a rejection or kept as text. */
  lemma {:induction false} NoWarningLost(sent: seq<Entry>, warnings: seq<Warning>)
    ensures |MatchAll(sent, warnings).rejected| + MatchAll(sent, warnings).texts == |warnings|
  {
    if warnings != [] { NoWarningLost(sent, warnings[..|warnings| - 1]); }
  }

  ghost predicate OnlyEchoes(warnings: seq<Warning>) {
    forall i :: 0 <= i < |warnings| ==> warnings[i].index.None?
  }

  /** Places are those of sent entries, one rejection to a place. */
  ghost predicate Proper(sent: seq<Entry>, m: Matching) {
    && (forall i :: i in m.taken ==> 0 <= i < |sent|)
    && (forall k :: 0 <= k < |m.rejected| ==> m.rejected[k].index in m.taken)
    && (forall j, k :: 0 <= j < k < |m.rejected| ==> m.rejected[j].index != m.rejected[k].index)
    && |m.taken| == |m.rejected|
  }

  lemma {:induction false} EchoesAreProper(sent: seq<Entry>, warnings: seq<Warning>)
    requires OnlyEchoes(warnings)
    ensures Proper(sent, MatchAll(sent, warnings))
  {
    if warnings != [] {
      var front := warnings[..|warnings| - 1];
      assert OnlyEchoes(front);
      EchoesAreProper(sent, front);
    }
  }

  lemma {:induction false} RangeSize(s: set<int>, n: nat)
    requires forall i :: i in s ==> 0 <= i < n
    ensures |s| <= n
  {
    if n == 0 {
      assert (forall i :: i !in s) ==> s == {};
    } else {
      RangeSize(s - {n - 1}, n - 1);
    }
  }

  /**
   * When Channex only echoes entries, no entry is rejected twice and the accepted and the rejected
   * ones are all that were sent.
   */
  lemma AcceptedPlusRejected(sent: seq<Entry>, warnings: seq<Warning>)
    requires OnlyEchoes(warnings)
    ensures var rejected := MatchAll(sent, warnings).rejected;
      && Accepted(sent, MatchAll(sent, warnings)) + |rejected| == |sent|
      && (forall k :: 0 <= k < |rejected| ==> 0 <= rejected[k].index < |sent|)
      && (forall j, k :: 0 <= j < k < |rejected| ==> rejected[j].index != rejected[k].index)
  {
    EchoesAreProper(sent, warnings);
    RangeSize(MatchAll(sent, warnings).taken, |sent|);
  }

  // ---- every echo finds its entry -------------------------------------------------------------------------

  ghost function Places(sent: seq<Entry>, key: Text): set<int> {
    set i: int | 0 <= i < |sent| && sent[i].key == key
  }

  /** How many warnings echo this key. */
  function Echoes(warnings: seq<Warning>, key: Text): nat {
    if warnings == [] then 0
    else
      var last := warnings[|warnings| - 1];
      Echoes(warnings[..|warnings| - 1], key) + if last.fields != [] && last.key == key then 1 else 0
  }

  function WithFields(warnings: seq<Warning>): nat {
    if warnings == [] then 0
    else WithFields(warnings[..|warnings| - 1]) + if warnings[|warnings| - 1].fields != [] then 1 else 0
  }

  /** No key is echoed more often than it was sent. */
  ghost predicate EchoesWhatWasSent(sent: seq<Entry>, warnings: seq<Warning>) {
    forall key: Text :: Echoes(warnings, key) <= |Places(sent, key)|
  }

  ghost predicate TakenByKey(sent: seq<Entry>, m: Matching, warnings: seq<Warning>) {
    forall key: Text :: |m.taken * Places(sent, key)| == Echoes(warnings, key)
  }

  /** A key with fewer places taken than there are has a candidate. */
  lemma PlaceIsFound(sent: seq<Entry>, taken: set<int>, w: Warning)
    requires |taken * Places(sent, w.key)| < |Places(sent, w.key)|
    ensures IsCandidate(sent, taken, w.key, PlaceOf(sent, taken, w))
  {
    var free := Places(sent, w.key) - taken;
    assert Places(sent, w.key) == free + taken * Places(sent, w.key);
    assert |free| > 0;
    assert (forall i :: i !in free) ==> free == {};
    var i :| i in free;
    assert IsCandidate(sent, taken, w.key, i);
  }

  lemma TakeOne(sent: seq<Entry>, taken: set<int>, key: Text, i: int, other: Text)
    requires IsCandidate(sent, taken, key, i)
    ensures |(taken + {i}) * Places(sent, other)| == |taken * Places(sent, other)| + if other == key then 1 else 0
  {
    if other == key {
      assert (taken + {i}) * Places(sent, other) == taken * Places(sent, other) + {i};
    } else {
      assert (taken + {i}) * Places(sent, other) == taken * Places(sent, other);
    }
  }

  lemma {:induction false} EchoesArePlaced(sent: seq<Entry>, warnings: seq<Warning>)
    requires EchoesWhatWasSent(sent, warnings)
    ensures TakenByKey(sent, MatchAll(sent, warnings), warnings)
    ensures |MatchAll(sent, warnings).rejected| == WithFields(warnings)
  {
    if warnings == [] {
      assert forall key: Text :: {} * Places(sent, key) == {};
    } else {
      var front, w := warnings[..|warnings| - 1], warnings[|warnings| - 1];
      forall key: Text ensures Echoes(front, key) <= |Places(sent, key)| {
        assert Echoes(front, key) <= Echoes(warnings, key);
      }
      EchoesArePlaced(sent, front);
      var m := MatchAll(sent, front);
      if w.fields != [] {
        assert Echoes(warnings, w.key) == Echoes(front, w.key) + 1;
        PlaceIsFound(sent, m.taken, w);
        forall key: Text ensures |Next(sent, m, w).taken * Places(sent, key)| == Echoes(warnings, key) {
          TakeOne(sent, m.taken, w.key, PlaceOf(sent, m.taken, w), key);
        }
      }
    }
  }

  /** When no key is echoed more often than it was sent, every warning with fields rejects an entry of its key. */
  lemma EveryEchoRejects(sent: seq<Entry>, warnings: seq<Warning>)
    requires EchoesWhatWasSent(sent, warnings)
    ensures var m := MatchAll(sent, warnings);
      |m.rejected| == WithFields(warnings) && m.texts == |warnings| - WithFields(warnings)
  {
    EchoesArePlaced(sent, warnings);
    NoWarningLost(sent, warnings);
  }
}
