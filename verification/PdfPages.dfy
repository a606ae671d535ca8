/**
 * The objects of the statement PDF: catalog, page tree, fonts, and two objects a page; and a
 * reader that walks from the root over the page tree to the content of each page.
 */
module PdfPages {
  import opened Wrappers
  import opened Texts
  import opened PdfFile

  /** The words of the objects, and the fonts, which are the same in every file. */
  datatype Resources = Resources(
    catalogHead: Text, font: Text, mono: Text,
    pageHead: Text, parentTail: Text, fontTail: Text, monoTail: Text, objectTail: Text,
    kidsHead: Text, reference: Text, count: Text, close: Text,
    length: Text, stream: Text, endstream: Text)

  /** Between the pages of the page tree. */
  const SPACE: Unit := 32

  /** A word that ends the number before it. */
  ghost predicate EndsNumber(word: Text) {
    word != [] && !IsDigit(word[0])
  }

  ghost predicate Sane(r: Resources) {
    && EndsNumber(r.parentTail) && EndsNumber(r.fontTail) && EndsNumber(r.monoTail) && EndsNumber(r.objectTail)
    && EndsNumber(r.reference) && EndsNumber(r.close) && EndsNumber(r.stream)
    && r.count != [] && r.count[0] != SPACE
    && FitsBytes(r.catalogHead) && FitsBytes(r.font) && FitsBytes(r.mono)
    && FitsBytes(r.pageHead) && FitsBytes(r.parentTail) && FitsBytes(r.fontTail) && FitsBytes(r.monoTail)
    && FitsBytes(r.objectTail) && FitsBytes(r.kidsHead) && FitsBytes(r.reference)
    && FitsBytes(r.count) && FitsBytes(r.close)
    && FitsBytes(r.length) && FitsBytes(r.stream) && FitsBytes(r.endstream)
  }

  const RESOURCES := Resources(
    Ascii("<< /Type /Catalog /Pages "),
    Ascii("<< /Type /Font /Subtype /Type1 /BaseFont /Helvetica /Encoding /WinAnsiEncoding >>"),
    Ascii("<< /Type /Font /Subtype /Type1 /BaseFont /Courier /Encoding /WinAnsiEncoding >>"),
    Ascii("<< /Type /Page /Parent "),
    Ascii(" 0 R /MediaBox [0 0 595 842]" + " /Resources << /Font << /F1 "),
    Ascii(" 0 R /F2 "),
    Ascii(" 0 R >> >> /Contents "),
    Ascii(" 0 R >>"),
    Ascii("<< /Type /Pages /Kids ["),
    Ascii(" 0 R"),
    Ascii("] /Count "),
    Ascii(" >>"),
    Ascii("<< /Length "),
    Ascii(" >>\nstream\n"),
    Ascii("\nendstream"))

  lemma ResourcesAreSane()
    ensures Sane(RESOURCES)
  {
    AsciiStarts(" 0 R /MediaBox [0 0 595 842]" + " /Resources << /Font << /F1 ", ' ');
    AsciiStarts(" 0 R /F2 ", ' ');
    AsciiStarts(" 0 R >> >> /Contents ", ' ');
    AsciiStarts(" 0 R >>", ' ');
    AsciiStarts(" 0 R", ' ');
    AsciiStarts(" >>", ' ');
    AsciiStarts(" >>\nstream\n", ' ');
    AsciiStarts("] /Count ", ']');
  }

  lemma AsciiStarts(s: string, c: char)
    requires s != "" && s[0] == c && c < '\U{0080}'
    ensures Ascii(s) != [] && Ascii(s)[0] == c as int
  {
  }

  const TREE_ID := 2
  const FONT_ID := 3
  const MONO_ID := 4

  function ContentBody(r: Resources, stream: Text): Text {
    r.length + (Decimal(|stream|) + (r.stream + (stream + r.endstream)))
  }

  function ContentId(page: nat): nat {
    5 + 2 * page
  }

  function PageId(page: nat): nat {
    6 + 2 * page
  }

  function CatalogBody(r: Resources): Text {
    r.catalogHead + (Decimal(TREE_ID) + r.objectTail)
  }

  function PageBodyFor(r: Resources, content: nat): Text {
    r.pageHead + (Decimal(TREE_ID) + (r.parentTail + (Decimal(FONT_ID) + (r.fontTail
      + (Decimal(MONO_ID) + (r.monoTail + (Decimal(content) + r.objectTail)))))))
  }

  function PageBody(r: Resources, page: nat): Text {
    PageBodyFor(r, ContentId(page))
  }

  function Gap(n: nat): Text {
    if n == 0 then [] else [SPACE]
  }

  /** The references to the first n pages. */
  function Kids(r: Resources, n: nat): Text {
    if n == 0 then [] else Kids(r, n - 1) + Gap(n - 1) + (Decimal(PageId(n - 1)) + r.reference)
  }

  function PageTree(r: Resources, kids: Text, n: nat): Text {
    r.kidsHead + (kids + (r.count + (Decimal(n) + r.close)))
  }

  /** For each page its content stream and the page object that refers to it. */
  function PageObjects(r: Resources, streams: seq<Text>): (objects: seq<Text>)
    ensures |objects| == 2 * |streams|
  {
    if streams == [] then []
    else
      var front := streams[..|streams| - 1];
      PageObjects(r, front) + [ContentBody(r, streams[|streams| - 1]), PageBody(r, |front|)]
  }

  function Objects(r: Resources, streams: seq<Text>): seq<Text> {
    [CatalogBody(r), PageTree(r, Kids(r, |streams|), |streams|), r.font, r.mono] + PageObjects(r, streams)
  }

  /** The content stream, and the page that refers to it by the number just given. */
  method AddPage(r: Resources, objects: seq<Text>, kids: Text, stream: Text, ghost page: nat)
    returns (added: seq<Text>, longer: Text)
    requires |objects| == 4 + 2 * page && kids == Kids(r, page)
    ensures added == objects + [ContentBody(r, stream)] + [PageBody(r, page)]
    ensures longer == Kids(r, page + 1)
  {
    added := objects + [ContentBody(r, stream)];
    added := added + [PageBodyFor(r, |added|)];
    longer := kids + (if |objects| == 4 then [] else [SPACE]) + (Decimal(|added|) + r.reference);
  }

  /** The catalog and the page tree take the places kept for them. */
  method FillHead(r: Resources, objects: seq<Text>, kids: Text, n: nat, ghost streams: seq<Text>)
    returns (filled: seq<Text>)
    requires objects == [[], [], r.font, r.mono] + PageObjects(r, streams)
    requires n == |streams| && kids == Kids(r, n)
    ensures filled == Objects(r, streams)
  {
    filled := objects[0 := CatalogBody(r)];
    filled := filled[1 := PageTree(r, kids, n)];
    FirstTwoReplaced([], [], r.font, r.mono, CatalogBody(r), PageTree(r, kids, n), PageObjects(r, streams));
  }

  lemma FirstTwoReplaced(a: Text, b: Text, c: Text, d: Text, a': Text, b': Text, rest: seq<Text>)
    ensures ([a, b, c, d] + rest)[0 := a'][1 := b'] == [a', b', c, d] + rest
  {
  }

  lemma NextPageObjects(head: seq<Text>, r: Resources, streams: seq<Text>, stream: Text)
    ensures head + PageObjects(r, streams) + [ContentBody(r, stream)] + [PageBody(r, |streams|)]
      == head + PageObjects(r, streams + [stream])
  {
    assert (streams + [stream])[..|streams|] == streams;
    AddTwo(head, PageObjects(r, streams), ContentBody(r, stream), PageBody(r, |streams|));
  }

  lemma AddTwo(head: seq<Text>, rest: seq<Text>, x: Text, y: Text)
    ensures head + rest + [x] + [y] == head + (rest + [x, y])
  {
  }

  // ---- reader --------------------------------------------------------------------------------------

  /** The stream of a content object: as many units as its /Length says. */
  function ReadStream(r: Resources, body: Text): Option<Text> {
    var rest :- Expect(body, r.length);
    var sized :- ReadNumber(rest);
    var stream :- Expect(sized.1, r.stream);
    if 0 <= sized.0 <= |stream| && stream[sized.0..] == r.endstream then Some(stream[..sized.0]) else None
  }

  /** A number, and what follows the word behind it. */
  function NumberBefore(t: Text, word: Text): (n: Option<(int, Text)>)
    ensures n.Some? ==> |n.value.1| < |t|
  {
    var number :- ReadNumber(t);
    var rest :- Expect(number.1, word);
    Some((number.0, rest))
  }

  /** The page tree the catalog refers to. */
  function ReadCatalog(r: Resources, body: Text): Option<int> {
    var t :- Expect(body, r.catalogHead);
    var tree :- NumberBefore(t, r.objectTail);
    Some(tree.0)
  }

  /** The references up to the end of the list, and what follows it. */
  function ReadKids(r: Resources, t: Text): Option<(seq<int>, Text)>
    decreases |t|
  {
    var kid :- NumberBefore(t, r.reference);
    if kid.1 != [] && kid.1[0] == SPACE then
      var more :- ReadKids(r, kid.1[1..]);
      Some(([kid.0] + more.0, more.1))
    else Some(([kid.0], kid.1))
  }

  /** The pages of the page tree, as many as it says. */
  function ReadPageTree(r: Resources, body: Text): Option<seq<int>> {
    var t :- Expect(body, r.kidsHead);
    var kids :- ReadKids(r, t);
    var counted :- Expect(kids.1, r.count);
    var n :- NumberBefore(counted, r.close);
    if n.0 == |kids.0| then Some(kids.0) else None
  }

  /** The content a page object refers to. */
  function ReadContents(r: Resources, body: Text): Option<int> {
    var t :- Expect(body, r.pageHead);
    var parent :- NumberBefore(t, r.parentTail);
    var font :- NumberBefore(parent.1, r.fontTail);
    var mono :- NumberBefore(font.1, r.monoTail);
    var content :- NumberBefore(mono.1, r.objectTail);
    Some(content.0)
  }

  /** An object by a number read from the file. */
  function ObjectBy(p: Syntax, doc: Text, id: int): Option<Text> {
    if id < 0 then None else ReadObject(p, doc, id)
  }

  /** The page objects, found from the root in the trailer over the catalog and the page tree. */
  function ReadPages(p: Syntax, r: Resources, doc: Text): Option<seq<int>> {
    var root :- ReadRoot(p, doc);
    var catalog :- ObjectBy(p, doc, root);
    var treeId :- ReadCatalog(r, catalog);
    var tree :- ObjectBy(p, doc, treeId);
    ReadPageTree(r, tree)
  }

  /** The content stream of a page object. */
  function ReadPageStream(p: Syntax, r: Resources, doc: Text, id: int): Option<Text> {
    var page :- ObjectBy(p, doc, id);
    var content :- ReadContents(r, page);
    var body :- ObjectBy(p, doc, content);
    ReadStream(r, body)
  }

  /** Each /Length is the byte count of its stream. */
  lemma StreamReads(r: Resources, stream: Text)
    requires Sane(r)
    ensures ReadStream(r, ContentBody(r, stream)) == Some(stream)
  {
    ExpectReads(r.length, Decimal(|stream|) + (r.stream + (stream + r.endstream)));
    NumberReads(|stream|, r.stream + (stream + r.endstream));
    ExpectReads(r.stream, stream + r.endstream);
    assert (stream + r.endstream)[|stream|..] == r.endstream && (stream + r.endstream)[..|stream|] == stream;
  }

  lemma NumberBeforeReads(n: nat, word: Text, rest: Text)
    requires EndsNumber(word)
    ensures NumberBefore(Decimal(n) + (word + rest), word) == Some((n, rest))
  {
    assert (word + rest)[0] == word[0];
    NumberReads(n, word + rest);
    ExpectReads(word, rest);
  }

  lemma LastNumberBeforeReads(n: nat, word: Text)
    requires EndsNumber(word)
    ensures NumberBefore(Decimal(n) + word, word) == Some((n, []))
  {
    NumberBeforeReads(n, word, []);
    assert word + [] == word;
  }

  lemma CatalogReads(r: Resources)
    requires Sane(r)
    ensures ReadCatalog(r, CatalogBody(r)) == Some(TREE_ID)
  {
    ExpectReads(r.catalogHead, Decimal(TREE_ID) + r.objectTail);
    LastNumberBeforeReads(TREE_ID, r.objectTail);
  }

  lemma ContentsRead(r: Resources, content: nat)
    requires Sane(r)
    ensures ReadContents(r, PageBodyFor(r, content)) == Some(content)
  {
    var last := Decimal(content) + r.objectTail;
    var mono := Decimal(MONO_ID) + (r.monoTail + last);
    var font := Decimal(FONT_ID) + (r.fontTail + mono);
    ExpectReads(r.pageHead, Decimal(TREE_ID) + (r.parentTail + font));
    NumberBeforeReads(TREE_ID, r.parentTail, font);
    NumberBeforeReads(FONT_ID, r.fontTail, mono);
    NumberBeforeReads(MONO_ID, r.monoTail, last);
    LastNumberBeforeReads(content, r.objectTail);
  }

  /** The references to pages k to n - 1. */
  function KidsFrom(r: Resources, k: nat, n: nat): Text
    requires k < n
    decreases n - k
  {
    Decimal(PageId(k)) + (r.reference + if k + 1 == n then [] else [SPACE] + KidsFrom(r, k + 1, n))
  }

  function PageIds(k: nat, n: nat): seq<int>
    decreases n - k
  {
    if k >= n then [] else [PageId(k)] + PageIds(k + 1, n)
  }

  lemma {:induction false} KidsAre(r: Resources, k: nat, n: nat)
    requires k < n
    ensures Kids(r, n) == Kids(r, k) + Gap(k) + KidsFrom(r, k, n)
    decreases n - k
  {
    var kid := Decimal(PageId(k)) + r.reference;
    if k + 1 == n {
      assert r.reference + [] == r.reference;
      assert KidsFrom(r, k, n) == kid;
    } else {
      KidsAre(r, k + 1, n);
      var rest := KidsFrom(r, k + 1, n);
      Assoc(Decimal(PageId(k)), r.reference, [SPACE] + rest);
      assert KidsFrom(r, k, n) == kid + ([SPACE] + rest);
      Assoc(Kids(r, k) + Gap(k), kid, [SPACE] + rest);
      Assoc(Kids(r, k + 1), [SPACE], rest);
      assert Gap(k + 1) == [SPACE];
    }
  }

  lemma {:induction false} KidsFromRead(r: Resources, k: nat, n: nat, rest: Text)
    requires Sane(r) && k < n && rest != [] && rest[0] != SPACE
    ensures ReadKids(r, KidsFrom(r, k, n) + rest) == Some((PageIds(k, n), rest))
    decreases n - k
  {
    if k + 1 == n {
      Assoc(Decimal(PageId(k)), r.reference, rest);
      NumberBeforeReads(PageId(k), r.reference, rest);
      assert r.reference + [] == r.reference;
      LastKid(r, KidsFrom(r, k, n) + rest, PageId(k), rest);
      assert PageIds(k, n) == [PageId(k)] + PageIds(k + 1, n) == [PageId(k)];
    } else {
      var more := KidsFrom(r, k + 1, n);
      KidsFromRead(r, k + 1, n, rest);
      Assoc(Decimal(PageId(k)), r.reference + ([SPACE] + more), rest);
      Assoc(r.reference, [SPACE] + more, rest);
      Assoc([SPACE], more, rest);
      NumberBeforeReads(PageId(k), r.reference, [SPACE] + (more + rest));
      NextKid(r, KidsFrom(r, k, n) + rest, PageId(k), more + rest, (PageIds(k + 1, n), rest));
    }
  }

  lemma LastKid(r: Resources, t: Text, id: int, rest: Text)
    requires NumberBefore(t, r.reference) == Some((id, rest)) && rest != [] && rest[0] != SPACE
    ensures ReadKids(r, t) == Some(([id], rest))
  {
  }

  lemma NextKid(r: Resources, t: Text, id: int, more: Text, read: (seq<int>, Text))
    requires NumberBefore(t, r.reference) == Some((id, [SPACE] + more)) && ReadKids(r, more) == Some(read)
    ensures ReadKids(r, t) == Some(([id] + read.0, read.1))
  {
    assert ([SPACE] + more)[1..] == more;
  }

  lemma {:induction false} PageIdsAre(k: nat, n: nat)
    requires k <= n
    ensures |PageIds(k, n)| == n - k && forall i :: 0 <= i < n - k ==> PageIds(k, n)[i] == PageId(k + i)
    decreases n - k
  {
    if k < n { PageIdsAre(k + 1, n); }
  }

  /** The page tree lists the pages in order, and /Count is their number. */
  lemma PageTreeReads(r: Resources, n: nat)
    requires Sane(r) && n > 0
    ensures ReadPageTree(r, PageTree(r, Kids(r, n), n)) == Some(PageIds(0, n))
  {
    var tail := r.count + (Decimal(n) + r.close);
    assert tail[0] == r.count[0];
    KidsAre(r, 0, n);
    assert [] + [] + KidsFrom(r, 0, n) == KidsFrom(r, 0, n);
    ExpectReads(r.kidsHead, Kids(r, n) + tail);
    KidsFromRead(r, 0, n, tail);
    ExpectReads(r.count, Decimal(n) + r.close);
    LastNumberBeforeReads(n, r.close);
    PageIdsAre(0, n);
  }

  lemma {:induction false} PageObjectsAt(r: Resources, streams: seq<Text>, page: nat)
    requires page < |streams|
    ensures PageObjects(r, streams)[2 * page] == ContentBody(r, streams[page])
    ensures PageObjects(r, streams)[2 * page + 1] == PageBody(r, page)
  {
    if page < |streams| - 1 { PageObjectsAt(r, streams[..|streams| - 1], page); }
  }

  lemma BehindFour(a: Text, b: Text, c: Text, d: Text, rest: seq<Text>, i: nat)
    requires i < |rest|
    ensures ([a, b, c, d] + rest)[4 + i] == rest[i]
  {
  }

  lemma ObjectAt(r: Resources, streams: seq<Text>, i: nat)
    requires i < 2 * |streams|
    ensures 4 + i < |Objects(r, streams)| && Objects(r, streams)[4 + i] == PageObjects(r, streams)[i]
  {
    var tree := PageTree(r, Kids(r, |streams|), |streams|);
    BehindFour(CatalogBody(r), tree, r.font, r.mono, PageObjects(r, streams), i);
  }

  lemma HeadObjects(r: Resources, streams: seq<Text>)
    ensures |Objects(r, streams)| >= 4 && Objects(r, streams)[0] == CatalogBody(r)
    ensures Objects(r, streams)[1] == PageTree(r, Kids(r, |streams|), |streams|)
  {
  }

  lemma ObjectByReads(p: Syntax, objects: seq<Text>, k: nat)
    requires Sound(p)
    requires k < |objects| && |Body(p, objects)| < TEN_DIGITS
    ensures ObjectBy(p, Document(p, objects), k + 1) == Some(objects[k])
  {
    ObjectReads(p, objects, k);
  }

  /** Walking from the root gives the page objects in order. */
  lemma PagesRead(p: Syntax, r: Resources, streams: seq<Text>)
    requires Sound(p) && Sane(r)
    requires streams != [] && |Body(p, Objects(r, streams))| < TEN_DIGITS
    ensures ReadPages(p, r, Document(p, Objects(r, streams))) == Some(PageIds(0, |streams|))
  {
    RootReads(p, Objects(r, streams));
    HeadObjectsRead(p, r, streams);
    PagesWalk(
      p, r, Document(p, Objects(r, streams)), CatalogBody(r), PageTree(r, Kids(r, |streams|), |streams|),
      PageIds(0, |streams|));
  }

  lemma HeadObjectsRead(p: Syntax, r: Resources, streams: seq<Text>)
    requires Sound(p) && Sane(r)
    requires streams != [] && |Body(p, Objects(r, streams))| < TEN_DIGITS
    ensures ObjectBy(p, Document(p, Objects(r, streams)), CATALOG_ID) == Some(CatalogBody(r))
    ensures ReadCatalog(r, CatalogBody(r)) == Some(TREE_ID)
    ensures ObjectBy(p, Document(p, Objects(r, streams)), TREE_ID) == Some(PageTree(r, Kids(r, |streams|), |streams|))
    ensures ReadPageTree(r, PageTree(r, Kids(r, |streams|), |streams|)) == Some(PageIds(0, |streams|))
  {
    HeadObjects(r, streams);
    ObjectByReads(p, Objects(r, streams), 0);
    ObjectByReads(p, Objects(r, streams), 1);
    CatalogReads(r);
    PageTreeReads(r, |streams|);
  }

  lemma PagesWalk(p: Syntax, r: Resources, doc: Text, catalog: Text, tree: Text, ids: seq<int>)
    ensures (
      && ReadRoot(p, doc) == Some(CATALOG_ID) && ObjectBy(p, doc, CATALOG_ID) == Some(catalog)
      && ReadCatalog(r, catalog) == Some(TREE_ID) && ObjectBy(p, doc, TREE_ID) == Some(tree)
      && ReadPageTree(r, tree) == Some(ids)) ==> ReadPages(p, r, doc) == Some(ids)
  {
  }

  /** The content of each page is recovered from the bytes. */
  lemma PageStreamReads(p: Syntax, r: Resources, streams: seq<Text>, page: nat)
    requires Sound(p) && Sane(r)
    requires page < |streams| && |Body(p, Objects(r, streams))| < TEN_DIGITS
    ensures ReadPageStream(p, r, Document(p, Objects(r, streams)), PageId(page)) == Some(streams[page])
  {
    var objects := Objects(r, streams);
    PageObjectsAt(r, streams, page);
    ObjectAt(r, streams, 2 * page);
    ObjectAt(r, streams, 2 * page + 1);
    ObjectByReads(p, objects, 4 + 2 * page);
    ObjectByReads(p, objects, 4 + 2 * page + 1);
    ContentsRead(r, ContentId(page));
    StreamReads(r, streams[page]);
    StreamWalk(p, r, Document(p, objects), PageId(page), PageBody(r, page), ContentId(page), objects[4 + 2 * page]);
  }

  lemma StreamWalk(p: Syntax, r: Resources, doc: Text, id: int, page: Text, content: int, body: Text)
    requires ObjectBy(p, doc, id) == Some(page) && ReadContents(r, page) == Some(content)
    requires ObjectBy(p, doc, content) == Some(body)
    ensures ReadPageStream(p, r, doc, id) == ReadStream(r, body)
  {
  }

  // ---- every object fits bytes ---------------------------------------------------------------------

  lemma ContentFits(r: Resources, stream: Text)
    requires Sane(r)
    requires FitsBytes(stream)
    ensures FitsBytes(ContentBody(r, stream))
  {
    BothFit(stream, r.endstream);
    BothFit(r.stream, stream + r.endstream);
    DecimalFits(|stream|);
    BothFit(Decimal(|stream|), r.stream + (stream + r.endstream));
    BothFit(r.length, Decimal(|stream|) + (r.stream + (stream + r.endstream)));
  }

  lemma CatalogFits(r: Resources)
    requires Sane(r)
    ensures FitsBytes(CatalogBody(r))
  {
    DecimalFits(TREE_ID);
    BothFit(Decimal(TREE_ID), r.objectTail);
    BothFit(r.catalogHead, Decimal(TREE_ID) + r.objectTail);
  }

  lemma NumberFits(n: nat, word: Text, rest: Text)
    requires FitsBytes(word) && FitsBytes(rest)
    ensures FitsBytes(word + (Decimal(n) + rest))
  {
    DecimalFits(n);
    BothFit(Decimal(n), rest);
    BothFit(word, Decimal(n) + rest);
  }

  lemma PageBodyFits(r: Resources, page: nat)
    requires Sane(r)
    ensures FitsBytes(PageBody(r, page))
  {
    var last := r.monoTail + (Decimal(ContentId(page)) + r.objectTail);
    NumberFits(ContentId(page), r.monoTail, r.objectTail);
    NumberFits(MONO_ID, r.fontTail, last);
    NumberFits(FONT_ID, r.parentTail, r.fontTail + (Decimal(MONO_ID) + last));
    NumberFits(TREE_ID, r.pageHead, r.parentTail + (Decimal(FONT_ID) + (r.fontTail + (Decimal(MONO_ID) + last))));
  }

  lemma {:induction false} KidsFit(r: Resources, n: nat)
    requires Sane(r)
    ensures FitsBytes(Kids(r, n))
  {
    if n > 0 {
      KidsFit(r, n - 1);
      NumberFits(PageId(n - 1), Kids(r, n - 1) + Gap(n - 1), r.reference);
    }
  }

  lemma PageTreeFits(r: Resources, n: nat)
    requires Sane(r)
    ensures FitsBytes(PageTree(r, Kids(r, n), n))
  {
    KidsFit(r, n);
    NumberFits(n, r.count, r.close);
    BothFit(Kids(r, n), r.count + (Decimal(n) + r.close));
    BothFit(r.kidsHead, Kids(r, n) + (r.count + (Decimal(n) + r.close)));
  }

  lemma {:induction false} PageObjectsFit(r: Resources, streams: seq<Text>)
    requires Sane(r)
    requires forall k :: 0 <= k < |streams| ==> FitsBytes(streams[k])
    ensures forall k :: 0 <= k < 2 * |streams| ==> FitsBytes(PageObjects(r, streams)[k])
  {
    if streams != [] {
      PageObjectsFit(r, streams[..|streams| - 1]);
      ContentFits(r, streams[|streams| - 1]);
      PageBodyFits(r, |streams| - 1);
    }
  }

  lemma ObjectsFit(r: Resources, streams: seq<Text>)
    requires Sane(r)
    requires forall k :: 0 <= k < |streams| ==> FitsBytes(streams[k])
    ensures forall k :: 0 <= k < |Objects(r, streams)| ==> FitsBytes(Objects(r, streams)[k])
  {
    PageObjectsFit(r, streams);
    PageTreeFits(r, |streams|);
    CatalogFits(r);
  }
}
