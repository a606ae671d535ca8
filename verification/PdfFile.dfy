/**
 * The body, cross-reference table and trailer of the statement PDF, and a reader of them
 * (section 7.5 of ISO 32000-1).
 */
module PdfFile {
  import opened Wrappers
  import opened Texts

  /** The words of the file structure. */
  datatype Syntax = Syntax(
    header: Text, obj: Text, endobj: Text, xref: Text, free: Text, inUse: Text,
    trailer: Text, root: Text, startxref: Text, eof: Text)

  /** What a reader relies on: numbers end where they end, entries are 20 bytes, words are bytes. */
  ghost predicate Sound(p: Syntax) {
    && p.obj != [] && !IsDigit(p.obj[0])
    && p.root != [] && !IsDigit(p.root[0])
    && p.startxref != [] && !IsDigit(p.startxref[0]) && !IsDigit(p.startxref[|p.startxref| - 1])
    && |p.free| == 20 && |p.inUse| == 10
    && FitsBytes(p.header) && FitsBytes(p.obj) && FitsBytes(p.endobj)
    && FitsBytes(p.xref) && FitsBytes(p.free) && FitsBytes(p.inUse)
    && FitsBytes(p.trailer) && FitsBytes(p.root) && FitsBytes(p.startxref) && FitsBytes(p.eof)
  }

  const PDF := Syntax(
    Ascii("%PDF-1.4\n"),
    Ascii(" 0 obj\n"),
    Ascii("\nendobj\n"),
    Ascii("xref\n0 "),
    Ascii("0000000000 65535 f \n"),
    Ascii(" 00000 n \n"),
    Ascii("trailer\n<< /Size "),
    Ascii(" /Root "),
    Ascii(" 0 R >>\nstartxref\n"),
    Ascii("\n%%EOF\n"))

  lemma PdfIsSound()
    ensures Sound(PDF)
  {
    assert PDF.obj[0] == 32 && PDF.root[0] == 32;
    assert PDF.startxref[0] == 32 && PDF.startxref[|PDF.startxref| - 1] == LINE_FEED;
  }

  /** The catalog is the first object. */
  const CATALOG_ID := 1

  const NEWLINE: Text := [LINE_FEED]

  function ObjectText(p: Syntax, id: nat, body: Text): Text {
    Decimal(id) + (p.obj + (body + p.endobj))
  }

  /** The header and the objects, numbered from one. */
  function Body(p: Syntax, objects: seq<Text>): Text {
    if objects == [] then p.header
    else Body(p, objects[..|objects| - 1]) + ObjectText(p, |objects|, objects[|objects| - 1])
  }

  /** Where object k + 1 starts. */
  function Offset(p: Syntax, objects: seq<Text>, k: nat): nat
    requires k <= |objects|
  {
    |Body(p, objects[..k])|
  }

  function EntryText(p: Syntax, offset: nat): Text {
    Pad10(Decimal(offset)) + p.inUse
  }

  function EntryTexts(p: Syntax, objects: seq<Text>): seq<Text> {
    seq(|objects|, k requires 0 <= k < |objects| => EntryText(p, Offset(p, objects, k)))
  }

  function Concat(texts: seq<Text>): Text {
    if texts == [] then [] else Concat(texts[..|texts| - 1]) + texts[|texts| - 1]
  }

  function Entries(p: Syntax, objects: seq<Text>): Text {
    Concat(EntryTexts(p, objects))
  }

  function Trailer(p: Syntax, objects: seq<Text>): Text {
    p.trailer + (Decimal(|objects| + 1) + (p.root + (Decimal(CATALOG_ID) + (p.startxref + StartXrefText(p, objects)))))
  }

  /** Where the table starts, and the end of the file. */
  function StartXrefText(p: Syntax, objects: seq<Text>): Text {
    Decimal(|Body(p, objects)|) + p.eof
  }

  /** The table: its heading, the number of entries, the free entry, one entry per object. */
  function Table(p: Syntax, objects: seq<Text>): Text {
    p.xref + (Decimal(|objects| + 1) + (NEWLINE + (p.free + (Entries(p, objects) + Trailer(p, objects)))))
  }

  function Document(p: Syntax, objects: seq<Text>): Text {
    Body(p, objects) + Table(p, objects)
  }

  method WriteDocument(p: Syntax, objects: seq<Text>) returns (out: Text)
    ensures out == Document(p, objects)
  {
    out := p.header;
    var offsets: seq<nat> := [];
    for i := 0 to |objects|
      invariant out == Body(p, objects[..i])
      invariant |offsets| == i && forall k :: 0 <= k < i ==> offsets[k] == Offset(p, objects, k)
    {
      offsets := offsets + [|out|];
      assert objects[..i + 1][..i] == objects[..i];
      out := out + ObjectText(p, i + 1, objects[i]);
    }
    assert objects[..|objects|] == objects;
    var xref := |out|;
    var entries: Text := [];
    for i := 0 to |offsets|
      invariant entries == Concat(EntryTexts(p, objects)[..i])
    {
      assert EntryTexts(p, objects)[..i + 1][..i] == EntryTexts(p, objects)[..i];
      entries := entries + EntryText(p, offsets[i]);
    }
    assert EntryTexts(p, objects)[..|objects|] == EntryTexts(p, objects);
    var trailer :=
      p.trailer + (Decimal(|objects| + 1) + (p.root + (Decimal(CATALOG_ID) + (p.startxref + (Decimal(xref) + p.eof)))));
    out := out + (p.xref + (Decimal(|objects| + 1) + (NEWLINE + (p.free + (entries + trailer)))));
  }

  // ---- reader --------------------------------------------------------------------------------------

  /** The offset the file ends with. */
  function StartXref(p: Syntax, doc: Text): Option<int> {
    if |doc| < |p.eof| || doc[|doc| - |p.eof|..] != p.eof then None
    else Some(ReadLastNumber(doc[..|doc| - |p.eof|]))
  }

  /** The number of entries of the table, and the text from the first entry on. */
  function ReadTable(p: Syntax, doc: Text): Option<(int, Text)> {
    var x :- StartXref(p, doc);
    if !(0 <= x <= |doc|) then None
    else
      var heading :- Expect(doc[x..], p.xref);
      var sized :- ReadNumber(heading);
      var entries :- Expect(sized.1, NEWLINE);
      Some((sized.0, entries))
  }

  function EntryOffset(entries: Text, id: nat): Option<int> {
    if 20 * id + 20 > |entries| then None else Some(DigitsValue(entries[20 * id..20 * id + 10]))
  }

  /** Where the text of an object ends: where the next one starts, or at the table. */
  function ObjectEnd(p: Syntax, doc: Text, size: int, entries: Text, id: nat): Option<int> {
    if id + 1 < size then EntryOffset(entries, id + 1) else StartXref(p, doc)
  }

  /** The body of an object, found through the cross-reference table. */
  function ReadObject(p: Syntax, doc: Text, id: nat): Option<Text> {
    var table :- ReadTable(p, doc);
    if id == 0 || id >= table.0 then None
    else
      var start :- EntryOffset(table.1, id);
      var end :- ObjectEnd(p, doc, table.0, table.1, id);
      ObjectBetween(p, doc, start, end, id)
  }

  function ObjectBetween(p: Syntax, doc: Text, start: int, end: int, id: nat): Option<Text> {
    if 0 <= start <= end <= |doc| then ParseObject(p, doc[start..end], id) else None
  }

  function ParseObject(p: Syntax, text: Text, id: nat): Option<Text> {
    var numbered :- ReadNumber(text);
    var body :- Expect(numbered.1, p.obj);
    if numbered.0 != id || |body| < |p.endobj| || body[|body| - |p.endobj|..] != p.endobj then None
    else Some(body[..|body| - |p.endobj|])
  }

  // ---- the reader finds what the writer wrote -----------------------------------------------------

  lemma StartXrefReads(p: Syntax, objects: seq<Text>)
    requires Sound(p)
    ensures StartXref(p, Document(p, objects)) == Some(|Body(p, objects)|)
  {
    var front := BeforeStartXref(p, objects);
    TrailerIsLast(p, objects);
    assert front[|front| - 1] == p.startxref[|p.startxref| - 1];
    EndsWithNumber(p, front, |Body(p, objects)|);
  }

  lemma EndsWithNumber(p: Syntax, front: Text, x: nat)
    requires front != [] && !IsDigit(front[|front| - 1])
    ensures StartXref(p, front + Decimal(x) + p.eof) == Some(x)
  {
    LastNumberReads(front, x);
    assert (front + Decimal(x) + p.eof)[|front + Decimal(x)|..] == p.eof;
    assert (front + Decimal(x) + p.eof)[..|front + Decimal(x)|] == front + Decimal(x);
  }

  /** The document up to the number after startxref. */
  function BeforeStartXref(p: Syntax, objects: seq<Text>): Text {
    Body(p, objects) +
    (p.xref + (Decimal(|objects| + 1) + (NEWLINE + (p.free + (Entries(p, objects) +
      (p.trailer + (Decimal(|objects| + 1) + (p.root + (Decimal(CATALOG_ID) + p.startxref)))))))))
  }

  lemma TrailerIsLast(p: Syntax, objects: seq<Text>)
    ensures Document(p, objects) == BeforeStartXref(p, objects) + Decimal(|Body(p, objects)|) + p.eof
  {
    var rooted := Decimal(CATALOG_ID) + p.startxref;
    var start := p.trailer + (Decimal(|objects| + 1) + (p.root + rooted));
    var end := StartXrefText(p, objects);
    Assoc(Decimal(CATALOG_ID), p.startxref, end);
    Assoc(p.root, rooted, end);
    Assoc(Decimal(|objects| + 1), p.root + rooted, end);
    Assoc(p.trailer, Decimal(|objects| + 1) + (p.root + rooted), end);
    Assoc(Entries(p, objects), start, end);
    Assoc(p.free, Entries(p, objects) + start, end);
    Assoc(NEWLINE, p.free + (Entries(p, objects) + start), end);
    Assoc(Decimal(|objects| + 1), NEWLINE + (p.free + (Entries(p, objects) + start)), end);
    Assoc(p.xref, Decimal(|objects| + 1) + (NEWLINE + (p.free + (Entries(p, objects) + start))), end);
    Assoc(Body(p, objects),
      p.xref + (Decimal(|objects| + 1) + (NEWLINE + (p.free + (Entries(p, objects) + start)))), end);
    Assoc(BeforeStartXref(p, objects), Decimal(|Body(p, objects)|), p.eof);
  }

  /** startxref leads to the table, which announces one entry per object and the free one. */
  lemma TableReads(p: Syntax, objects: seq<Text>)
    requires Sound(p)
    ensures ReadTable(p, Document(p, objects)) ==
      Some((|objects| + 1, p.free + (Entries(p, objects) + Trailer(p, objects))))
  {
    var entries := p.free + (Entries(p, objects) + Trailer(p, objects));
    StartXrefReads(p, objects);
    assert Document(p, objects)[|Body(p, objects)|..] == Table(p, objects);
    ExpectReads(p.xref, Decimal(|objects| + 1) + (NEWLINE + entries));
    NumberReads(|objects| + 1, NEWLINE + entries);
    ExpectReads(NEWLINE, entries);
  }

  /** Every entry is 20 bytes exactly while offsets have at most ten digits. */
  lemma EntryIs20Bytes(p: Syntax, offset: nat)
    requires Sound(p)
    ensures |EntryText(p, offset)| == 20 <==> offset < TEN_DIGITS
    ensures offset < TEN_DIGITS ==> DigitsValue(EntryText(p, offset)[..10]) == offset
  {
    PaddedReads(offset);
    if offset < TEN_DIGITS {
      assert EntryText(p, offset)[..10] == Pad10(Decimal(offset));
    }
  }

  lemma {:induction false} BodyPrefix(p: Syntax, objects: seq<Text>, k: nat)
    requires k <= |objects|
    ensures Offset(p, objects, k) <= |Body(p, objects)|
    ensures Body(p, objects)[..Offset(p, objects, k)] == Body(p, objects[..k])
  {
    if k == |objects| {
      assert objects[..k] == objects;
    } else {
      var front := objects[..|objects| - 1];
      BodyPrefix(p, front, k);
      assert front[..k] == objects[..k];
    }
  }

  lemma SliceOfFirst(a: Text, b: Text, lo: nat, hi: nat)
    requires lo <= hi <= |a|
    ensures (a + b)[lo..hi] == a[lo..hi]
  {
  }

  lemma SliceOfSecond(a: Text, b: Text, lo: nat, hi: nat)
    requires lo <= hi <= |b|
    ensures (a + b)[|a| + lo..|a| + hi] == b[lo..hi]
  {
  }

  lemma {:induction false} BlocksLength(texts: seq<Text>)
    requires forall i :: 0 <= i < |texts| ==> |texts[i]| == 20
    ensures |Concat(texts)| == 20 * |texts|
  {
    if texts != [] { BlocksLength(texts[..|texts| - 1]); }
  }

  /** A row of blocks of twenty. */
  lemma {:induction false} BlockAt(texts: seq<Text>, k: nat)
    requires k < |texts| && forall i :: 0 <= i < |texts| ==> |texts[i]| == 20
    ensures |Concat(texts)| == 20 * |texts|
    ensures Concat(texts)[20 * k..20 * k + 20] == texts[k]
  {
    var n := |texts| - 1;
    BlocksLength(texts);
    BlocksLength(texts[..n]);
    if k < n {
      BlockAt(texts[..n], k);
      SliceOfFirst(Concat(texts[..n]), texts[n], 20 * k, 20 * k + 20);
    } else {
      SliceOfSecond(Concat(texts[..n]), texts[n], 0, 20);
    }
  }

  lemma FirstTen(t: Text, i: nat, block: Text)
    requires i + 20 <= |t| && t[i..i + 20] == block
    ensures t[i..i + 10] == block[..10]
  {
    assert t[i..i + 10] == t[i..i + 20][..10];
  }

  /** Behind one entry of twenty bytes, entry k + 1 of a table is block k of the others. */
  lemma TableBlockReads(free: Text, texts: seq<Text>, rest: Text, k: nat)
    requires |free| == 20 && k < |texts| && forall i :: 0 <= i < |texts| ==> |texts[i]| == 20
    ensures EntryOffset(free + (Concat(texts) + rest), k + 1) == Some(DigitsValue(texts[k][..10]))
  {
    BlockAt(texts, k);
    SliceInside(free, Concat(texts), rest, 20 * k, 20 * k + 20);
    FirstTen(free + (Concat(texts) + rest), 20 * (k + 1), texts[k]);
  }

  lemma EntryTextsAre20(p: Syntax, objects: seq<Text>, k: nat)
    requires Sound(p)
    requires k < |objects| && |Body(p, objects)| < TEN_DIGITS
    ensures |EntryTexts(p, objects)[k]| == 20 && DigitsValue(EntryTexts(p, objects)[k][..10]) == Offset(p, objects, k)
  {
    BodyPrefix(p, objects, k);
    EntryIs20Bytes(p, Offset(p, objects, k));
  }

  /** The entry of each object gives the exact offset where the object starts. */
  lemma EntryReads(p: Syntax, objects: seq<Text>, k: nat)
    requires Sound(p)
    requires k < |objects| && |Body(p, objects)| < TEN_DIGITS
    ensures EntryOffset(p.free + (Entries(p, objects) + Trailer(p, objects)), k + 1) == Some(Offset(p, objects, k))
  {
    var texts := EntryTexts(p, objects);
    forall i | 0 <= i < |texts| ensures |texts[i]| == 20 { EntryTextsAre20(p, objects, i); }
    TableBlockReads(p.free, texts, Trailer(p, objects), k);
    EntryTextsAre20(p, objects, k);
  }

  lemma SliceInside(a: Text, e: Text, b: Text, lo: nat, hi: nat)
    requires lo <= hi <= |e|
    ensures (a + (e + b))[|a| + lo..|a| + hi] == e[lo..hi]
  {
  }

  /** Between its offset and the next stands the text of the object. */
  lemma ObjectStandsThere(p: Syntax, objects: seq<Text>, k: nat)
    requires k < |objects|
    ensures Offset(p, objects, k) <= Offset(p, objects, k + 1) <= |Body(p, objects)|
    ensures Document(p, objects)[Offset(p, objects, k)..Offset(p, objects, k + 1)] == ObjectText(p, k + 1, objects[k])
  {
    BodyPrefix(p, objects, k);
    BodyPrefix(p, objects, k + 1);
    var front := objects[..k + 1];
    assert front[..k] == objects[..k];
    assert Body(p, front) == Body(p, objects[..k]) + ObjectText(p, k + 1, objects[k]);
    assert Document(p, objects)[..Offset(p, objects, k + 1)] == Body(p, objects)[..Offset(p, objects, k + 1)]
      == Body(p, front);
    assert Document(p, objects)[Offset(p, objects, k)..Offset(p, objects, k + 1)]
      == Body(p, front)[Offset(p, objects, k)..];
  }

  lemma ObjectParses(p: Syntax, id: nat, body: Text)
    requires Sound(p)
    ensures ParseObject(p, ObjectText(p, id, body), id) == Some(body)
  {
    NumberReads(id, p.obj + (body + p.endobj));
    ExpectReads(p.obj, body + p.endobj);
    assert (body + p.endobj)[|body|..] == p.endobj && (body + p.endobj)[..|body|] == body;
  }

  lemma EndReads(p: Syntax, objects: seq<Text>, k: nat)
    requires Sound(p)
    requires k < |objects| && |Body(p, objects)| < TEN_DIGITS
    ensures ObjectEnd(p,
      Document(p, objects), |objects| + 1, p.free + (Entries(p, objects) + Trailer(p, objects)), k + 1)
      == Some(Offset(p, objects, k + 1))
  {
    if k + 1 < |objects| { EntryReads(p, objects, k + 1); }
    assert k + 1 == |objects| ==> objects[..k + 1] == objects;
    StartXrefReads(p, objects);
    EndIs(p, Document(p, objects), |objects| + 1, p.free + (Entries(p, objects) + Trailer(p, objects)),
      k + 1, Offset(p, objects, k + 1));
  }

  lemma EndIs(p: Syntax, doc: Text, size: int, entries: Text, id: nat, end: int)
    requires if id + 1 < size then EntryOffset(entries, id + 1) == Some(end) else StartXref(p, doc) == Some(end)
    ensures ObjectEnd(p, doc, size, entries, id) == Some(end)
  {
  }

  /** The object the trailer behind the table names as the root. */
  function ReadRoot(p: Syntax, doc: Text): Option<int> {
    var table :- ReadTable(p, doc);
    if 20 * table.0 > |table.1| || table.0 < 0 then None else RootIn(p, table.1[20 * table.0..])
  }

  function RootIn(p: Syntax, trailer: Text): Option<int> {
    var behind :- Expect(trailer, p.trailer);
    var sized :- ReadNumber(behind);
    var reference :- Expect(sized.1, p.root);
    var root :- ReadNumber(reference);
    Some(root.0)
  }

  lemma TrailerRootReads(p: Syntax, objects: seq<Text>)
    requires Sound(p)
    ensures RootIn(p, Trailer(p, objects)) == Some(CATALOG_ID)
  {
    var rest := p.startxref + StartXrefText(p, objects);
    assert rest[0] == p.startxref[0];
    var rooted := p.root + (Decimal(CATALOG_ID) + rest);
    assert rooted[0] == p.root[0];
    ExpectReads(p.trailer, Decimal(|objects| + 1) + rooted);
    NumberReads(|objects| + 1, rooted);
    ExpectReads(p.root, Decimal(CATALOG_ID) + rest);
    NumberReads(CATALOG_ID, rest);
  }

  lemma TableIsLong(p: Syntax, objects: seq<Text>)
    requires Sound(p) && |Body(p, objects)| < TEN_DIGITS
    ensures |p.free + Entries(p, objects)| == 20 * (|objects| + 1)
  {
    var texts := EntryTexts(p, objects);
    forall i | 0 <= i < |texts| ensures |texts[i]| == 20 { EntryTextsAre20(p, objects, i); }
    BlocksLength(texts);
  }

  lemma Behind(a: Text, b: Text, c: Text, n: nat)
    requires |a + b| == n
    ensures n <= |a + (b + c)| && (a + (b + c))[n..] == c
  {
    Assoc(a, b, c);
    assert ((a + b) + c)[n..] == c;
  }

  /** Behind the last entry stands the trailer, which names the catalog. */
  lemma RootReads(p: Syntax, objects: seq<Text>)
    requires Sound(p) && |Body(p, objects)| < TEN_DIGITS
    ensures ReadRoot(p, Document(p, objects)) == Some(CATALOG_ID)
  {
    TableReads(p, objects);
    TableIsLong(p, objects);
    Behind(p.free, Entries(p, objects), Trailer(p, objects), 20 * (|objects| + 1));
    TrailerRootReads(p, objects);
    RootBehind(p, Document(p, objects), |objects| + 1, p.free + (Entries(p, objects) + Trailer(p, objects)));
  }

  lemma RootBehind(p: Syntax, doc: Text, size: nat, entries: Text)
    requires ReadTable(p, doc) == Some((size, entries)) && 20 * size <= |entries|
    ensures ReadRoot(p, doc) == RootIn(p, entries[20 * size..])
  {
  }

  /** Every object is recovered from the bytes through startxref and the cross-reference table. */
  lemma ObjectReads(p: Syntax, objects: seq<Text>, k: nat)
    requires Sound(p)
    requires k < |objects| && |Body(p, objects)| < TEN_DIGITS
    ensures ReadObject(p, Document(p, objects), k + 1) == Some(objects[k])
  {
    TableReads(p, objects);
    EntryReads(p, objects, k);
    EndReads(p, objects, k);
    ObjectBetweenReads(p, objects, k);
  }

  lemma ObjectBetweenReads(p: Syntax, objects: seq<Text>, k: nat)
    requires Sound(p)
    requires k < |objects|
    ensures ObjectBetween(p, Document(p, objects), Offset(p, objects, k), Offset(p, objects, k + 1), k + 1)
      == Some(objects[k])
  {
    ObjectStandsThere(p, objects, k);
    ObjectParses(p, k + 1, objects[k]);
  }

  // ---- bytes ---------------------------------------------------------------------------------------

  type Byte = b: int | 0 <= b < 256

  /** latin1: the low byte of each unit. */
  method Latin1(s: Text) returns (b: array<Byte>)
    ensures fresh(b) && b.Length == |s|
    ensures forall i :: 0 <= i < |s| ==> b[i] == s[i] % 256
    ensures FitsBytes(s) ==> b[..] == s
  {
    b := new Byte[|s|];
    for i := 0 to |s|
      invariant forall k :: 0 <= k < i ==> b[k] == s[k] % 256
    {
      b[i] := s[i] % 256;
    }
  }

  ghost predicate FitsBytes(t: Text) {
    forall i :: 0 <= i < |t| ==> t[i] < 256
  }

  lemma BothFit(a: Text, b: Text)
    requires FitsBytes(a) && FitsBytes(b)
    ensures FitsBytes(a + b)
  {
  }

  lemma DecimalFits(n: nat)
    ensures FitsBytes(Decimal(n)) && FitsBytes(Pad10(Decimal(n)))
  {
    DigitsRead(n);
  }

  lemma ObjectFits(p: Syntax, id: nat, body: Text)
    requires Sound(p)
    requires FitsBytes(body)
    ensures FitsBytes(ObjectText(p, id, body))
  {
    DecimalFits(id);
    BothFit(body, p.endobj);
    BothFit(p.obj, body + p.endobj);
    BothFit(Decimal(id), p.obj + (body + p.endobj));
  }

  lemma {:induction false} BodyFits(p: Syntax, objects: seq<Text>)
    requires Sound(p)
    requires forall k :: 0 <= k < |objects| ==> FitsBytes(objects[k])
    ensures FitsBytes(Body(p, objects))
  {
    if objects != [] {
      BodyFits(p, objects[..|objects| - 1]);
      ObjectFits(p, |objects|, objects[|objects| - 1]);
      BothFit(Body(p, objects[..|objects| - 1]), ObjectText(p, |objects|, objects[|objects| - 1]));
    }
  }

  lemma {:induction false} ConcatFits(texts: seq<Text>)
    requires forall k :: 0 <= k < |texts| ==> FitsBytes(texts[k])
    ensures FitsBytes(Concat(texts))
  {
    if texts != [] {
      ConcatFits(texts[..|texts| - 1]);
      BothFit(Concat(texts[..|texts| - 1]), texts[|texts| - 1]);
    }
  }

  lemma EntriesFit(p: Syntax, objects: seq<Text>)
    requires Sound(p)
    ensures FitsBytes(Entries(p, objects))
  {
    forall k | 0 <= k < |objects| ensures FitsBytes(EntryTexts(p, objects)[k]) {
      DecimalFits(Offset(p, objects, k));
      BothFit(Pad10(Decimal(Offset(p, objects, k))), p.inUse);
    }
    ConcatFits(EntryTexts(p, objects));
  }

  lemma TrailerFits(p: Syntax, objects: seq<Text>)
    requires Sound(p)
    ensures FitsBytes(Trailer(p, objects))
  {
    DecimalFits(|objects| + 1);
    DecimalFits(|Body(p, objects)|);
    DecimalFits(CATALOG_ID);
    var end := StartXrefText(p, objects);
    BothFit(Decimal(|Body(p, objects)|), p.eof);
    BothFit(p.startxref, end);
    BothFit(Decimal(CATALOG_ID), p.startxref + end);
    BothFit(p.root, Decimal(CATALOG_ID) + (p.startxref + end));
    BothFit(Decimal(|objects| + 1), p.root + (Decimal(CATALOG_ID) + (p.startxref + end)));
    BothFit(p.trailer, Decimal(|objects| + 1) + (p.root + (Decimal(CATALOG_ID) + (p.startxref + end))));
  }

  /** When the objects fit bytes the whole document does, so latin1 loses nothing. */
  lemma DocumentFits(p: Syntax, objects: seq<Text>)
    requires Sound(p)
    requires forall k :: 0 <= k < |objects| ==> FitsBytes(objects[k])
    ensures FitsBytes(Document(p, objects))
  {
    var entries := Entries(p, objects) + Trailer(p, objects);
    EntriesFit(p, objects);
    TrailerFits(p, objects);
    BothFit(Entries(p, objects), Trailer(p, objects));
    BothFit(p.free, entries);
    BothFit(NEWLINE, p.free + entries);
    DecimalFits(|objects| + 1);
    BothFit(Decimal(|objects| + 1), NEWLINE + (p.free + entries));
    BothFit(p.xref, Decimal(|objects| + 1) + (NEWLINE + (p.free + entries)));
    BodyFits(p, objects);
    BothFit(Body(p, objects), Table(p, objects));
  }
}
