/**
 * The audit hash chain. The digest is any function into non-empty texts without '|'
 * (a hexadecimal digest is one); results about tampering say which collision they rule out.
 */
module AuditChain {
  import opened Wrappers
  import opened Texts
  import opened CanonicalJson

  type Digest = Text -> Text

  /** An entry as stored; `input` is the entry without id, seq, prevHash and hash. */
  datatype AuditEntry = AuditEntry(id: Text, seqNo: int, prevHash: Text, hash: Text, input: Json)

  datatype ChainVerification = ChainVerification(ok: bool, checked: nat, brokenAtSeq: Option<int>)

  function Preimage(prevHash: Text, seqNo: int, input: Json): Text {
    prevHash + ([BAR] + (Decimal(seqNo) + ([BAR] + Canonical(input))))
  }

  function ChainHash(digest: Digest, prevHash: Text, seqNo: int, input: Json): Text {
    digest(Preimage(prevHash, seqNo, input))
  }

  function HashBefore(es: seq<AuditEntry>, i: nat): Text
    requires i <= |es|
  {
    if i == 0 then [] else es[i - 1].hash
  }

  predicate LinkHolds(digest: Digest, es: seq<AuditEntry>, i: nat)
    requires i < |es|
  {
    && es[i].seqNo == i + 1
    && es[i].prevHash == HashBefore(es, i)
    && es[i].hash == ChainHash(digest, es[i].prevHash, es[i].seqNo, es[i].input)
  }

  ghost predicate Valid(digest: Digest, es: seq<AuditEntry>) {
    forall i :: 0 <= i < |es| ==> LinkHolds(digest, es, i)
  }

  /** A chain is valid exactly when every entry is linked to the one before. */
  lemma ChainIsValidIff(digest: Digest, es: seq<AuditEntry>)
    ensures Valid(digest, es) <==> forall i :: 0 <= i < |es| ==> LinkIs(digest, es, i)
  {
    forall i | 0 <= i < |es| ensures LinkHolds(digest, es, i) <==> LinkIs(digest, es, i) { LinkIff(digest, es, i); }
    assert Valid(digest, es) <==> forall i :: 0 <= i < |es| ==> LinkIs(digest, es, i);
  }

  /**
   * The entry has its number, counted from one, and names the hash of the one before, the first the empty
   * text; its hash is the digest of that hash, the number and its canonical text, with bars between them.
   */
  ghost predicate LinkIs(digest: Digest, es: seq<AuditEntry>, i: nat)
    requires i < |es|
  {
    && es[i].seqNo == i + 1 && es[i].prevHash == (if i == 0 then [] else es[i - 1].hash)
    && es[i].hash == digest(
      (((es[i].prevHash + Ascii("|")) + Decimal(es[i].seqNo)) + Ascii("|")) + Canonical(es[i].input))
  }

  lemma LinkIff(digest: Digest, es: seq<AuditEntry>, i: nat)
    requires i < |es|
    ensures LinkHolds(digest, es, i) <==> LinkIs(digest, es, i)
  {
    assert Ascii("|") == [BAR];
    Regrouped(es[i].prevHash, Ascii("|"), Decimal(es[i].seqNo), Ascii("|"), Canonical(es[i].input));
  }

  lemma Regrouped(a: Text, b: Text, c: Text, d: Text, e: Text)
    ensures a + (b + (c + (d + e))) == (((a + b) + c) + d) + e
  {
  }

  /** The first n entries form a valid chain and no more than that do. */
  ghost predicate LongestValidPrefix(digest: Digest, es: seq<AuditEntry>, n: nat) {
    n <= |es| && Valid(digest, es[..n]) && forall m :: n < m <= |es| ==> !Valid(digest, es[..m])
  }

  lemma PrefixLinks(digest: Digest, es: seq<AuditEntry>, n: nat)
    requires n <= |es|
    ensures Valid(digest, es[..n]) <==> forall i :: 0 <= i < n ==> LinkHolds(digest, es, i)
  {
    var front := es[..n];
    forall i | 0 <= i < n ensures LinkHolds(digest, front, i) <==> LinkHolds(digest, es, i) {
      assert front[i] == es[i] && HashBefore(front, i) == HashBefore(es, i);
    }
  }

  method VerifyChain(digest: Digest, entries: seq<AuditEntry>) returns (r: ChainVerification)
    ensures LongestValidPrefix(digest, entries, r.checked)
    ensures r.ok <==> Valid(digest, entries)
    ensures r.ok ==> r.checked == |entries| && r.brokenAtSeq == None
    ensures !r.ok ==> r.checked < |entries| && r.brokenAtSeq == Some(entries[r.checked].seqNo)
  {
    var prev: Text := [];
    var expectedSeq := 1;
    for i := 0 to |entries|
      invariant expectedSeq == i + 1 && prev == HashBefore(entries, i)
      invariant forall k :: 0 <= k < i ==> LinkHolds(digest, entries, k)
    {
      var e := entries[i];
      if e.seqNo != expectedSeq || e.prevHash != prev || ChainHash(digest, prev, e.seqNo, e.input) != e.hash {
        assert !LinkHolds(digest, entries, i);
        forall m | i <= m <= |entries| ensures Valid(digest, entries[..m]) <==> m == i {
          PrefixLinks(digest, entries, m);
        }
        return ChainVerification(false, expectedSeq - 1, Some(e.seqNo));
      }
      prev := e.hash;
      expectedSeq := expectedSeq + 1;
    }
    assert entries[..|entries|] == entries;
    r := ChainVerification(true, expectedSeq - 1, None);
  }

  // ---- tamper evidence ---------------------------------------------------------------------

  ghost predicate HexLike(digest: Digest) {
    forall x :: digest(x) != [] && BAR !in digest(x)
  }

  function EntryPreimage(e: AuditEntry): Text {
    Preimage(e.prevHash, e.seqNo, e.input)
  }

  /** The digest tells apart the texts hashed along the two chains. */
  ghost predicate NoCollision(digest: Digest, c: seq<AuditEntry>, d: seq<AuditEntry>) {
    forall i, j :: 0 <= i < |c| && 0 <= j < |d| && digest(EntryPreimage(c[i])) == digest(EntryPreimage(d[j])) ==>
      EntryPreimage(c[i]) == EntryPreimage(d[j])
  }

  /** The same entry, the row id aside. */
  ghost predicate SameEntry(a: AuditEntry, b: AuditEntry) {
    a.seqNo == b.seqNo && a.prevHash == b.prevHash && a.hash == b.hash && Equivalent(a.input, b.input)
  }

  function EndHash(es: seq<AuditEntry>): Text {
    HashBefore(es, |es|)
  }

  /** A hashed text is read back in one way: previous hash, sequence number, entry. */
  lemma PreimageIsUnique(p: Text, m: int, a: Json, q: Text, n: int, b: Json)
    requires BAR !in p && BAR !in q
    requires Preimage(p, m, a) == Preimage(q, n, b)
    ensures p == q && m == n && Canonical(a) == Canonical(b) && Equivalent(a, b)
  {
    var notBar := (u: Unit) => u != BAR;
    var r, s := Decimal(m) + ([BAR] + Canonical(a)), Decimal(n) + ([BAR] + Canonical(b));
    SplitIsUnique(p, [BAR] + r, q, [BAR] + s, notBar);
    DropFirst([BAR], [], r, [BAR], [], s);
    assert [] + r == r && [] + s == s;
    DecimalIsUnique(m, [BAR] + Canonical(a), n, [BAR] + Canonical(b));
    DropFirst([BAR], [], Canonical(a), [BAR], [], Canonical(b));
    assert [] + Canonical(a) == Canonical(a) && [] + Canonical(b) == Canonical(b);
    assert Canonical(a) + [] == Canonical(b) + [];
    ValueIsUnique(a, [], b, []);
  }

  lemma NoBarBefore(digest: Digest, c: seq<AuditEntry>, i: nat)
    requires HexLike(digest) && Valid(digest, c) && i <= |c|
    ensures BAR !in HashBefore(c, i) && (HashBefore(c, i) == [] <==> i == 0)
  {
    if i > 0 {
      assert LinkHolds(digest, c, i - 1);
    }
  }

  /** Links with the same hash are the same link at the same place. */
  lemma SameHashSameLink(digest: Digest, c: seq<AuditEntry>, i: nat, d: seq<AuditEntry>, j: nat)
    requires HexLike(digest) && NoCollision(digest, c, d)
    requires Valid(digest, c) && Valid(digest, d)
    requires i < |c| && j < |d| && c[i].hash == d[j].hash
    ensures i == j && SameEntry(c[i], d[j]) && HashBefore(c, i) == HashBefore(d, j)
  {
    assert LinkHolds(digest, c, i) && LinkHolds(digest, d, j);
    NoBarBefore(digest, c, i);
    NoBarBefore(digest, d, j);
    var x, y := c[i], d[j];
    assert digest(EntryPreimage(x)) == digest(EntryPreimage(y));
    PreimageIsUnique(x.prevHash, x.seqNo, x.input, y.prevHash, y.seqNo, y.input);
  }

  lemma {:induction false} SameHistoryAt(digest: Digest, c: seq<AuditEntry>, d: seq<AuditEntry>, n: nat, i: nat)
    requires HexLike(digest) && NoCollision(digest, c, d)
    requires Valid(digest, c) && Valid(digest, d)
    requires i < n <= |c| && n <= |d| && HashBefore(c, n) == HashBefore(d, n)
    ensures SameEntry(c[i], d[i])
  {
    SameHashSameLink(digest, c, n - 1, d, n - 1);
    if i < n - 1 {
      SameHistoryAt(digest, c, d, n - 1, i);
    }
  }

  lemma SameEndSameLength(digest: Digest, c: seq<AuditEntry>, d: seq<AuditEntry>)
    requires HexLike(digest) && NoCollision(digest, c, d)
    requires Valid(digest, c) && Valid(digest, d)
    requires EndHash(c) == EndHash(d)
    ensures |c| == |d|
  {
    NoBarBefore(digest, c, |c|);
    NoBarBefore(digest, d, |d|);
    if |c| > 0 {
      SameHashSameLink(digest, c, |c| - 1, d, |d| - 1);
    }
  }

  /** Two accepted chains with the same last hash record the same history. */
  lemma SameEndSameHistory(digest: Digest, c: seq<AuditEntry>, d: seq<AuditEntry>)
    requires HexLike(digest) && NoCollision(digest, c, d)
    requires Valid(digest, c) && Valid(digest, d)
    requires EndHash(c) == EndHash(d)
    ensures |c| == |d|
    ensures forall i :: 0 <= i < |c| ==> SameEntry(c[i], d[i])
  {
    SameEndSameLength(digest, c, d);
    forall i | 0 <= i < |c| ensures SameEntry(c[i], d[i]) {
      SameHistoryAt(digest, c, d, |c|, i);
    }
  }

  /** Rewriting what an entry records is found at that entry. */
  lemma RewriteIsFound(digest: Digest, c: seq<AuditEntry>, i: nat, input: Json)
    requires HexLike(digest) && Valid(digest, c) && i < |c|
    requires !Equivalent(c[i].input, input)
    requires var forged := c[i].(input := input);
      digest(EntryPreimage(c[i])) == digest(EntryPreimage(forged)) ==> EntryPreimage(c[i]) == EntryPreimage(forged)
    ensures LongestValidPrefix(digest, c[i := c[i].(input := input)], i)
  {
    var forged := c[i].(input := input);
    var d := c[i := forged];
    assert LinkHolds(digest, c, i);
    NoBarBefore(digest, c, i);
    if EntryPreimage(c[i]) == EntryPreimage(forged) {
      PreimageIsUnique(c[i].prevHash, c[i].seqNo, c[i].input, forged.prevHash, forged.seqNo, forged.input);
    }
    assert !LinkHolds(digest, d, i);
    forall k | 0 <= k < i ensures LinkHolds(digest, d, k) {
      assert LinkHolds(digest, c, k) && d[k] == c[k] && HashBefore(d, k) == HashBefore(c, k);
    }
    forall m | i <= m <= |d| ensures Valid(digest, d[..m]) <==> m == i { PrefixLinks(digest, d, m); }
  }

  /**
   * Deleting, repeating or reordering entries is accepted exactly when what is left is a
   * prefix. Cutting the end off is therefore not found by verifyChain alone: a reader needs
   * the last hash or the length from elsewhere.
   */
  lemma RearrangedIffPrefix(digest: Digest, c: seq<AuditEntry>, d: seq<AuditEntry>)
    requires Valid(digest, c)
    requires forall e :: e in d ==> e in c
    ensures Valid(digest, d) <==> d <= c
  {
    if Valid(digest, d) {
      forall k | 0 <= k < |d| ensures k < |c| && d[k] == c[k] {
        assert d[k] in d;
        var j :| 0 <= j < |c| && c[j] == d[k];
        assert LinkHolds(digest, d, k) && LinkHolds(digest, c, j);
      }
      if |d| > 0 {
        var last := d[|d| - 1];
        assert |d| <= |c|;
      }
    }
    if d <= c {
      assert d == c[..|d|];
      PrefixLinks(digest, c, |d|);
    }
  }

  // ---- writing the chain -------------------------------------------------------------------

  function Append(digest: Digest, es: seq<AuditEntry>, id: Text, input: Json): seq<AuditEntry> {
    var prev := EndHash(es);
    es + [AuditEntry(id, |es| + 1, prev, ChainHash(digest, prev, |es| + 1, input), input)]
  }

  /** Entries chained with chainHash are accepted, and each accepted chain is made this way. */
  lemma AppendIsTheOnlyExtension(digest: Digest, es: seq<AuditEntry>, e: AuditEntry)
    requires Valid(digest, es)
    ensures Valid(digest, es + [e]) <==> es + [e] == Append(digest, es, e.id, e.input)
  {
    var longer := es + [e];
    assert longer[..|es|] == es;
    PrefixLinks(digest, longer, |es|);
    PrefixLinks(digest, longer, |longer|);
    assert longer[..|longer|] == longer;
    assert HashBefore(longer, |es|) == EndHash(es);
    assert LinkHolds(digest, longer, |es|) <==> longer == Append(digest, es, e.id, e.input) by {
      assert longer[|es|] == e && Append(digest, es, e.id, e.input)[|es|].id == e.id;
      if LinkHolds(digest, longer, |es|) {
        assert e == Append(digest, es, e.id, e.input)[|es|];
      }
    }
  }
}
