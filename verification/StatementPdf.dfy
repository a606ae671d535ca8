/**
 * The statement writer: lines to pages, pages to objects, objects to bytes. Whether a line is
 * set in Courier is a parameter.
 */
module StatementPdf {
  import opened Wrappers
  import opened Texts
  import opened PdfStrings
  import opened PdfFile
  import opened PdfPages

  const PER_PAGE := 58

  // ---- pages -----------------------------------------------------------------------------------

  /** The lines in pages of 58; no lines make one empty page. */
  function Pages(lines: seq<Text>): (pages: seq<seq<Text>>)
    ensures pages != []
  {
    if |lines| <= PER_PAGE then [lines] else [lines[..PER_PAGE]] + Pages(lines[PER_PAGE..])
  }

  function Flatten(pages: seq<seq<Text>>): seq<Text> {
    if pages == [] then [] else pages[0] + Flatten(pages[1..])
  }

  /** The pages concatenated are the lines, and only the last page is not full. */
  lemma {:induction false} PagesKeepLines(lines: seq<Text>)
    ensures Flatten(Pages(lines)) == lines
    ensures forall k :: 0 <= k < |Pages(lines)| - 1 ==> |Pages(lines)[k]| == PER_PAGE
    ensures |Pages(lines)[|Pages(lines)| - 1]| <= PER_PAGE
  {
    if |lines| > PER_PAGE {
      PagesKeepLines(lines[PER_PAGE..]);
      assert Pages(lines)[1..] == Pages(lines[PER_PAGE..]);
    } else {
      assert [lines][1..] == [] && lines + [] == lines;
    }
  }

  method SplitPages(lines: seq<Text>) returns (pages: seq<seq<Text>>)
    ensures pages == Pages(lines)
  {
    pages := [];
    var i := 0;
    assert lines[0..] == lines;
    while i < |lines| || i == 0
      invariant 0 <= i && (i == 0 ==> pages == [])
      invariant i > 0 && |lines| <= i ==> pages == Pages(lines)
      invariant i < |lines| ==> pages + Pages(lines[i..]) == Pages(lines)
      decreases |lines| + 1 - i
    {
      var end := if i + PER_PAGE < |lines| then i + PER_PAGE else |lines|;
      assert i == 0 ==> lines[i..] == lines;
      NextPage(lines, i);
      ghost var next := if end < |lines| then Pages(lines[end..]) else [];
      AssocPages(pages, [lines[i..end]], next);
      pages := pages + [lines[i..end]];
      i := i + PER_PAGE;
    }
  }

  lemma NextPage(lines: seq<Text>, i: nat)
    requires i <= |lines|
    ensures i + PER_PAGE < |lines| ==> Pages(lines[i..]) == [lines[i..i + PER_PAGE]] + Pages(lines[i + PER_PAGE..])
    ensures i + PER_PAGE >= |lines| ==> Pages(lines[i..]) == [lines[i..|lines|]]
  {
    assert i + PER_PAGE < |lines| ==> lines[i..][PER_PAGE..] == lines[i + PER_PAGE..];
    assert i + PER_PAGE < |lines| ==> lines[i..][..PER_PAGE] == lines[i..i + PER_PAGE];
    assert lines[i..|lines|] == lines[i..];
  }

  lemma AssocPages(a: seq<seq<Text>>, b: seq<seq<Text>>, c: seq<seq<Text>>)
    ensures (a + b) + c == a + (b + c)
  {
  }

  // ---- content streams ---------------------------------------------------------------------------

  /** The operators around the texts of a page. */
  datatype Operators = Operators(
    begin: seq<Text>, end: Text, courier: Text, helvetica: Text, showLine: Text,
    title: Text, showTitle: Text, footer: Text, page: Text, of: Text, show: Text)

  /** One string to an operator line, which is printable and opens it with its only parenthesis. */
  ghost predicate Usable(o: Operators) {
    && (forall i :: 0 <= i < |o.begin| ==> Printable(o.begin[i]) && OPEN_PAREN !in o.begin[i])
    && Printable(o.end) && OPEN_PAREN !in o.end
    && Printable(o.courier) && OneParenAtEnd(o.courier)
    && Printable(o.helvetica) && OneParenAtEnd(o.helvetica)
    && Printable(o.title) && OneParenAtEnd(o.title)
    && Printable(o.footer) && OneParenAtEnd(o.footer)
    && Printable(o.showLine) && Printable(o.showTitle) && Printable(o.show)
    && Plain(o.page) && Plain(o.of)
  }

  const OPERATORS := Operators(
    [Ascii("BT"), Ascii("/F1 11 Tf"), Ascii("13 TL"), Ascii("40 800 Td")],
    Ascii("ET"),
    Ascii("/F2 9 Tf ("),
    Ascii("/F1 10 Tf ("),
    Ascii(" Tj T*"),
    Ascii("/F1 16 Tf ("),
    Ascii(" Tj /F1 11 Tf T* T*"),
    Ascii("/F1 8 Tf 0 -10 Td ("),
    Ascii("Page "),
    Ascii(" of "),
    Ascii(" Tj"))

  lemma OperatorsAreUsable()
    ensures Usable(OPERATORS)
  {
    PrefixesAreUsable();
  }

  lemma PrefixesAreUsable()
    ensures Printable(OPERATORS.courier) && OneParenAtEnd(OPERATORS.courier)
    ensures Printable(OPERATORS.helvetica) && OneParenAtEnd(OPERATORS.helvetica)
    ensures Printable(OPERATORS.title) && OneParenAtEnd(OPERATORS.title)
    ensures Printable(OPERATORS.footer) && OneParenAtEnd(OPERATORS.footer)
  {
  }

  /** An operator line that shows an escaped text. */
  function ShowOp(prefix: Text, escaped: Text, suffix: Text): Text {
    prefix + (escaped + ([CLOSE_PAREN] + suffix))
  }

  function LineOp(o: Operators, line: Text, mono: Text -> bool): Text {
    ShowOp(if mono(line) then o.courier else o.helvetica, Escape(line), o.showLine)
  }

  function TitleOp(o: Operators, title: Text): Text {
    ShowOp(o.title, Escape(title), o.showTitle)
  }

  function FooterText(o: Operators, page: nat, pages: nat): Text {
    o.page + (Decimal(page + 1) + (o.of + Decimal(pages)))
  }

  function FooterOp(o: Operators, page: nat, pages: nat): Text {
    ShowOp(o.footer, FooterText(o, page, pages), o.show)
  }

  function LineOps(o: Operators, lines: seq<Text>, mono: Text -> bool): seq<Text> {
    if lines == [] then [] else LineOps(o, lines[..|lines| - 1], mono) + [LineOp(o, lines[|lines| - 1], mono)]
  }

  function TitleOps(o: Operators, title: Text, page: nat): seq<Text> {
    if page == 0 then [TitleOp(o, title)] else []
  }

  function PageOps(o: Operators, title: Text, pages: seq<seq<Text>>, page: nat, mono: Text -> bool): seq<Text>
    requires page < |pages|
  {
    o.begin + (TitleOps(o, title, page) + (LineOps(o, pages[page], mono) + [FooterOp(o, page, |pages|), o.end]))
  }

  method WritePageOps(o: Operators, title: Text, pages: seq<seq<Text>>, page: nat, mono: Text -> bool)
    returns (ops: seq<Text>)
    requires page < |pages|
    ensures ops == PageOps(o, title, pages, page, mono)
  {
    ops := o.begin;
    if page == 0 {
      ops := ops + [TitleOp(o, title)];
    }
    assert ops == o.begin + TitleOps(o, title, page);
    var lineOps := WriteLineOps(o, pages[page], mono);
    ops := ops + lineOps + [FooterOp(o, page, |pages|), o.end];
    Regroup(o.begin, TitleOps(o, title, page), lineOps, [FooterOp(o, page, |pages|), o.end]);
  }

  lemma AssocTexts(a: seq<Text>, b: seq<Text>, c: seq<Text>)
    ensures (a + b) + c == a + (b + c)
  {
  }

  lemma Regroup(a: seq<Text>, b: seq<Text>, c: seq<Text>, d: seq<Text>)
    ensures ((a + b) + c) + d == a + (b + (c + d))
  {
  }

  method WriteLineOps(o: Operators, lines: seq<Text>, mono: Text -> bool) returns (ops: seq<Text>)
    ensures ops == LineOps(o, lines, mono)
  {
    ops := [];
    for i := 0 to |lines|
      invariant ops == LineOps(o, lines[..i], mono)
    {
      assert lines[..i + 1][..i] == lines[..i];
      ops := ops + [LineOp(o, lines[i], mono)];
    }
    assert lines[..|lines|] == lines;
  }

  // ---- reader ----------------------------------------------------------------------------------------

  /** What follows the first opening parenthesis. */
  function AfterParen(t: Text): Option<Text> {
    if t == [] then None else if t[0] == OPEN_PAREN then Some(t[1..]) else AfterParen(t[1..])
  }

  /** The string an operator line shows, if any. */
  function ShownByOp(op: Text): seq<Text> {
    match AfterParen(op)
    case None => []
    case Some(t) =>
      var literal := ReadLiteral(t, 0);
      if literal.Some? then [literal.value.0] else []
  }

  function FlatMap(f: Text -> seq<Text>, xs: seq<Text>): seq<Text> {
    if xs == [] then [] else f(xs[0]) + FlatMap(f, xs[1..])
  }

  function ShownByOps(ops: seq<Text>): seq<Text> {
    FlatMap(ShownByOp, ops)
  }

  /** What a page should show: the title on the first page, its lines, the page number. */
  function PageShows(o: Operators, title: Text, pages: seq<seq<Text>>, page: nat): seq<Text>
    requires page < |pages|
  {
    (if page == 0 then [Shown(title)] else [])
    + (ShownLines(pages[page]) + [FooterText(o, page, |pages|)])
  }

  // ---- the reader finds the lines ------------------------------------------------------------------------

  ghost predicate OneParenAtEnd(prefix: Text) {
    prefix != [] && prefix[|prefix| - 1] == OPEN_PAREN && OPEN_PAREN !in prefix[..|prefix| - 1]
  }

  lemma {:induction false} AfterParenReads(prefix: Text, rest: Text)
    requires OneParenAtEnd(prefix)
    ensures AfterParen(prefix + rest) == Some(rest)
  {
    assert (prefix + rest)[1..] == prefix[1..] + rest;
    if |prefix| == 1 {
      assert prefix[1..] + rest == rest;
    } else {
      assert prefix[0] in prefix[..|prefix| - 1];
      assert prefix[1..][..|prefix[1..]| - 1] == prefix[..|prefix| - 1][1..];
      AfterParenReads(prefix[1..], rest);
    }
  }

  lemma {:induction false} NoParenShowsNothing(op: Text)
    requires OPEN_PAREN !in op
    ensures AfterParen(op) == None && ShownByOp(op) == []
  {
    if op != [] {
      assert op[0] in op;
      NoParenShowsNothing(op[1..]);
    }
  }

  lemma EscapedOpShows(prefix: Text, s: Text, suffix: Text)
    requires OneParenAtEnd(prefix)
    ensures ShownByOp(ShowOp(prefix, Escape(s), suffix)) == [Shown(s)]
  {
    AfterParenReads(prefix, Escape(s) + ([CLOSE_PAREN] + suffix));
    LiteralReads(s, suffix);
  }

  ghost predicate Plain(s: Text) {
    forall i :: 0 <= i < |s| ==> s[i] != OPEN_PAREN && s[i] != CLOSE_PAREN && s[i] != BACKSLASH && 32 <= s[i] < 256
  }

  lemma {:induction false} PlainLiteralReads(s: Text, suffix: Text)
    requires Plain(s)
    ensures ReadLiteral(s + ([CLOSE_PAREN] + suffix), 0) == Some((s, suffix))
  {
    var tail := [CLOSE_PAREN] + suffix;
    if s == [] {
      assert [] + tail == tail && tail[1..] == suffix;
    } else {
      PlainLiteralReads(s[1..], suffix);
      assert s + tail == [s[0]] + (s[1..] + tail);
      PlainReads(s[0], s[1..] + tail);
      assert s == [s[0]] + s[1..];
    }
  }

  lemma FooterIsPlain(o: Operators, page: nat, pages: nat)
    requires Usable(o)
    ensures Plain(FooterText(o, page, pages))
  {
    NumberIsPlain(page + 1);
    NumberIsPlain(pages);
    PlainBoth(o.of, Decimal(pages));
    PlainBoth(Decimal(page + 1), o.of + Decimal(pages));
    PlainBoth(o.page, Decimal(page + 1) + (o.of + Decimal(pages)));
  }

  lemma NumberIsPlain(n: nat)
    ensures Plain(Decimal(n))
  {
    DigitsRead(n);
  }

  lemma PlainBoth(a: Text, b: Text)
    requires Plain(a) && Plain(b)
    ensures Plain(a + b)
  {
  }

  lemma FooterOpShows(o: Operators, page: nat, pages: nat)
    requires Usable(o)
    ensures ShownByOp(FooterOp(o, page, pages)) == [FooterText(o, page, pages)]
  {
    FooterIsPlain(o, page, pages);
    AfterParenReads(o.footer, FooterText(o, page, pages) + ([CLOSE_PAREN] + o.show));
    PlainLiteralReads(FooterText(o, page, pages), o.show);
  }

  lemma FlatMapCons(f: Text -> seq<Text>, x: Text, rest: seq<Text>)
    ensures FlatMap(f, [x] + rest) == f(x) + FlatMap(f, rest)
  {
    assert ([x] + rest)[1..] == rest;
  }

  lemma {:induction false} FlatMapBoth(f: Text -> seq<Text>, a: seq<Text>, b: seq<Text>)
    ensures FlatMap(f, a + b) == FlatMap(f, a) + FlatMap(f, b)
  {
    if a == [] {
      assert a + b == b;
    } else {
      FlatMapBoth(f, a[1..], b);
      FlatMapCons(f, a[0], a[1..] + b);
      assert a + b == [a[0]] + (a[1..] + b);
      AssocTexts(f(a[0]), FlatMap(f, a[1..]), FlatMap(f, b));
    }
  }

  lemma FlatMapOne(f: Text -> seq<Text>, x: Text)
    ensures FlatMap(f, [x]) == f(x)
  {
    assert [x][1..] == [];
  }

  lemma {:induction false} NoParensShowNothing(ops: seq<Text>)
    requires forall i :: 0 <= i < |ops| ==> OPEN_PAREN !in ops[i]
    ensures ShownByOps(ops) == []
  {
    if ops != [] {
      NoParenShowsNothing(ops[0]);
      NoParensShowNothing(ops[1..]);
    }
  }

  lemma LineOpShows(o: Operators, line: Text, mono: Text -> bool)
    requires Usable(o)
    ensures ShownByOp(LineOp(o, line, mono)) == [Shown(line)]
  {
    EscapedOpShows(if mono(line) then o.courier else o.helvetica, line, o.showLine);
  }

  function ShownLines(lines: seq<Text>): seq<Text> {
    if lines == [] then [] else ShownLines(lines[..|lines| - 1]) + [Shown(lines[|lines| - 1])]
  }

  lemma {:induction false} LineOpsShow(o: Operators, lines: seq<Text>, mono: Text -> bool)
    requires Usable(o)
    ensures ShownByOps(LineOps(o, lines, mono)) == ShownLines(lines)
  {
    if lines != [] {
      var front, last := lines[..|lines| - 1], lines[|lines| - 1];
      LineOpsShow(o, front, mono);
      LineOpShows(o, last, mono);
      FlatMapOne(ShownByOp, LineOp(o, last, mono));
      FlatMapBoth(ShownByOp, LineOps(o, front, mono), [LineOp(o, last, mono)]);
    }
  }

  lemma BeginShowsNothing(o: Operators)
    requires Usable(o)
    ensures ShownByOps(o.begin) == [] && ShownByOp(o.end) == []
  {
    NoParensShowNothing(o.begin);
    NoParenShowsNothing(o.end);
  }

  lemma FlatMapPage(f: Text -> seq<Text>, begin: seq<Text>, title: seq<Text>, lines: seq<Text>, footer: Text, end: Text)
    requires FlatMap(f, begin) == [] && f(end) == []
    ensures FlatMap(f, begin + (title + (lines + [footer, end]))) == FlatMap(f, title) + (FlatMap(f, lines) + f(footer))
  {
    FlatMapOne(f, footer);
    FlatMapOne(f, end);
    FlatMapBoth(f, [footer], [end]);
    assert [footer] + [end] == [footer, end];
    FlatMapBoth(f, lines, [footer, end]);
    FlatMapBoth(f, title, lines + [footer, end]);
    FlatMapBoth(f, begin, title + (lines + [footer, end]));
  }

  lemma PageOpsShow(o: Operators, title: Text, pages: seq<seq<Text>>, page: nat, mono: Text -> bool)
    requires Usable(o)
    requires page < |pages|
    ensures ShownByOps(PageOps(o, title, pages, page, mono)) == PageShows(o, title, pages, page)
  {
    BeginShowsNothing(o);
    TitleOpsShow(o, title, page);
    LineOpsShow(o, pages[page], mono);
    FooterOpShows(o, page, |pages|);
    FlatMapPage(ShownByOp, o.begin, TitleOps(o, title, page), LineOps(o, pages[page], mono),
      FooterOp(o, page, |pages|), o.end);
  }

  lemma TitleOpsShow(o: Operators, title: Text, page: nat)
    requires Usable(o)
    ensures ShownByOps(TitleOps(o, title, page)) == if page == 0 then [Shown(title)] else []
  {
    if page == 0 {
      EscapedOpShows(o.title, title, o.showTitle);
      FlatMapOne(ShownByOp, TitleOp(o, title));
    }
  }

  // ---- operator lines have no line break and fit bytes --------------------------------------------------

  ghost predicate Printable(t: Text) {
    forall i :: 0 <= i < |t| ==> 32 <= t[i] < 256
  }

  lemma PrintableBoth(a: Text, b: Text)
    requires Printable(a) && Printable(b)
    ensures Printable(a + b)
  {
  }

  lemma ShowOpPrintable(prefix: Text, escaped: Text, suffix: Text)
    requires Printable(prefix) && Printable(escaped) && Printable(suffix)
    ensures Printable(ShowOp(prefix, escaped, suffix))
  {
    PrintableBoth([CLOSE_PAREN], suffix);
    PrintableBoth(escaped, [CLOSE_PAREN] + suffix);
    PrintableBoth(prefix, escaped + ([CLOSE_PAREN] + suffix));
  }

  lemma LineOpPrintable(o: Operators, line: Text, mono: Text -> bool)
    requires Usable(o)
    ensures Printable(LineOp(o, line, mono))
  {
    EscapedIsPrintable(line);
    ShowOpPrintable(if mono(line) then o.courier else o.helvetica, Escape(line), o.showLine);
  }

  lemma TitleOpPrintable(o: Operators, title: Text)
    requires Usable(o)
    ensures Printable(TitleOp(o, title))
  {
    EscapedIsPrintable(title);
    ShowOpPrintable(o.title, Escape(title), o.showTitle);
  }

  lemma FooterOpPrintable(o: Operators, page: nat, pages: nat)
    requires Usable(o)
    ensures Printable(FooterOp(o, page, pages))
  {
    FooterIsPlain(o, page, pages);
    ShowOpPrintable(o.footer, FooterText(o, page, pages), o.show);
  }

  lemma {:induction false} LineOpsPrintable(o: Operators, lines: seq<Text>, mono: Text -> bool)
    requires Usable(o)
    ensures forall i :: 0 <= i < |LineOps(o, lines, mono)| ==> Printable(LineOps(o, lines, mono)[i])
  {
    if lines != [] {
      LineOpsPrintable(o, lines[..|lines| - 1], mono);
      LineOpPrintable(o, lines[|lines| - 1], mono);
    }
  }

  lemma PageOpsPrintable(o: Operators, title: Text, pages: seq<seq<Text>>, page: nat, mono: Text -> bool)
    requires Usable(o)
    requires page < |pages|
    ensures forall i ::
      0 <= i < |PageOps(o, title, pages, page, mono)| ==> Printable(PageOps(o, title, pages, page, mono)[i])
  {
    TitleOpPrintable(o, title);
    FooterOpPrintable(o, page, |pages|);
    LineOpsPrintable(o, pages[page], mono);
  }

  /** The operator lines of a page are split again as they were joined. */
  lemma PageOpsSplit(o: Operators, title: Text, pages: seq<seq<Text>>, page: nat, mono: Text -> bool)
    requires Usable(o)
    requires page < |pages|
    ensures SplitLines(JoinLines(PageOps(o, title, pages, page, mono))) == PageOps(o, title, pages, page, mono)
  {
    var ops := PageOps(o, title, pages, page, mono);
    PageOpsPrintable(o, title, pages, page, mono);
    forall i | 0 <= i < |ops| ensures LINE_FEED !in ops[i] { assert Printable(ops[i]); }
    LinesSplit(ops);
  }

  // ---- the whole file ---------------------------------------------------------------------------------------

  /** The content streams of the first n pages. */
  function Streams(o: Operators, title: Text, pages: seq<seq<Text>>, n: nat, mono: Text -> bool): (streams: seq<Text>)
    requires n <= |pages|
    ensures |streams| == n
  {
    if n == 0 then []
    else Streams(o, title, pages, n - 1, mono) + [JoinLines(PageOps(o, title, pages, n - 1, mono))]
  }

  /** The text of the file; the bytes are its low bytes. */
  function TextPdf(p: Syntax, r: Resources, o: Operators, lines: seq<Text>, title: Text, mono: Text -> bool): Text {
    Document(p, Objects(r, Streams(o, title, Pages(lines), |Pages(lines)|, mono)))
  }

  method WriteObjects(r: Resources, o: Operators, lines: seq<Text>, title: Text, mono: Text -> bool)
    returns (objects: seq<Text>)
    ensures objects == Objects(r, Streams(o, title, Pages(lines), |Pages(lines)|, mono))
  {
    var pages := SplitPages(lines);
    var kids := [];
    objects := [[], [], r.font, r.mono];
    ghost var head := objects;
    for page := 0 to |pages|
      invariant |head| == 4 && objects == head + PageObjects(r, Streams(o, title, pages, page, mono))
      invariant kids == Kids(r, page)
    {
      var ops := WritePageOps(o, title, pages, page, mono);
      NextPageObjects(head, r, Streams(o, title, pages, page, mono), JoinLines(ops));
      objects, kids := AddPage(r, objects, kids, JoinLines(ops), page);
    }
    objects := FillHead(r, objects, kids, |pages|, Streams(o, title, pages, |pages|, mono));
  }

  method WriteBytes(p: Syntax, r: Resources, o: Operators, lines: seq<Text>, title: Text, mono: Text -> bool)
    returns (bytes: array<Byte>)
    requires Sound(p) && Sane(r) && Usable(o)
    ensures fresh(bytes) && bytes[..] == TextPdf(p, r, o, lines, title, mono)
  {
    var objects := WriteObjects(r, o, lines, title, mono);
    var out := WriteDocument(p, objects);
    StreamsFit(o, title, Pages(lines), |Pages(lines)|, mono);
    ObjectsFit(r, Streams(o, title, Pages(lines), |Pages(lines)|, mono));
    DocumentFits(p, objects);
    bytes := Latin1(out);
  }

  /** OWN-1: the bytes of the statement. */
  method WritePdf(lines: seq<Text>, title: Text, mono: Text -> bool) returns (bytes: array<Byte>)
    ensures fresh(bytes) && bytes[..] == TextPdf(PDF, RESOURCES, OPERATORS, lines, title, mono)
  {
    PdfIsSound();
    ResourcesAreSane();
    OperatorsAreUsable();
    bytes := WriteBytes(PDF, RESOURCES, OPERATORS, lines, title, mono);
  }

  lemma {:induction false} StreamAt(o: Operators, title: Text, pages: seq<seq<Text>>, n: nat, page: nat,
    mono: Text -> bool)
    requires page < n <= |pages|
    ensures Streams(o, title, pages, n, mono)[page] == JoinLines(PageOps(o, title, pages, page, mono))
  {
    if page < n - 1 { StreamAt(o, title, pages, n - 1, page, mono); }
  }

  /** The strings a page object shows, read from the bytes of the file. */
  function ReadPage(p: Syntax, r: Resources, doc: Text, id: int): Option<seq<Text>> {
    var stream :- ReadPageStream(p, r, doc, id);
    Some(ShownByOps(SplitLines(stream)))
  }

  /**
   * From the bytes alone (startxref, cross-reference table, /Length, string syntax) a reader
   * gets back what each page shows: every line, in order, in its WinAnsi form. The file must
   * be shorter than ten billion bytes, so that offsets have ten digits.
   */
  lemma PageReads(p: Syntax, r: Resources, o: Operators, lines: seq<Text>, title: Text, mono: Text -> bool, page: nat)
    requires Sound(p) && Sane(r) && Usable(o)
    requires page < |Pages(lines)|
    requires |Body(p, Objects(r, Streams(o, title, Pages(lines), |Pages(lines)|, mono)))| < TEN_DIGITS
    ensures ReadPage(p, r, TextPdf(p, r, o, lines, title, mono), PageId(page))
      == Some(PageShows(o, title, Pages(lines), page))
  {
    var pages := Pages(lines);
    PageOpsSplit(o, title, pages, page, mono);
    PageOpsShow(o, title, pages, page, mono);
    StreamAt(o, title, pages, |pages|, page, mono);
    PageStreamReads(p, r, Streams(o, title, pages, |pages|, mono), page);
  }

  /** The lines of the first n pages: what they show without the title and the page numbers. */
  function ReadLines(read: nat -> Option<seq<Text>>, n: nat): Option<seq<Text>> {
    if n == 0 then Some([])
    else
      var front :- ReadLines(read, n - 1);
      var shown :- read(n - 1);
      var skip := if n == 1 then 1 else 0;
      if |shown| <= skip then None else Some(front + shown[skip..|shown| - 1])
  }

  function PageReader(p: Syntax, r: Resources, doc: Text, ids: seq<int>): nat -> Option<seq<Text>> {
    (page: nat) => if page < |ids| then ReadPage(p, r, doc, ids[page]) else None
  }

  /** The lines of a statement, page by page as its page tree lists them. */
  function ReadStatement(p: Syntax, r: Resources, doc: Text): Option<seq<Text>> {
    var ids :- ReadPages(p, r, doc);
    ReadLines(PageReader(p, r, doc, ids), |ids|)
  }

  lemma {:induction false} FlattenGrows(pages: seq<seq<Text>>, page: seq<Text>)
    ensures Flatten(pages + [page]) == Flatten(pages) + page
  {
    if pages == [] {
      assert ([] + [page])[1..] == [];
      assert [] + page == page + [];
    } else {
      FlattenGrows(pages[1..], page);
      assert (pages + [page])[1..] == pages[1..] + [page];
      AssocTexts(pages[0], Flatten(pages[1..]), page);
    }
  }

  lemma {:induction false} ShownLinesBoth(a: seq<Text>, b: seq<Text>)
    ensures ShownLines(a + b) == ShownLines(a) + ShownLines(b)
  {
    if b == [] {
      assert a + b == a;
    } else {
      var front := b[..|b| - 1];
      ShownLinesBoth(a, front);
      assert (a + b)[..|a + b| - 1] == a + front;
    }
  }

  function ShownPages(pages: seq<seq<Text>>): seq<seq<Text>> {
    if pages == [] then [] else ShownPages(pages[..|pages| - 1]) + [ShownLines(pages[|pages| - 1])]
  }

  lemma {:induction false} ShownPagesFlatten(pages: seq<seq<Text>>)
    ensures |ShownPages(pages)| == |pages|
    ensures forall k :: 0 <= k < |pages| ==> ShownPages(pages)[k] == ShownLines(pages[k])
    ensures Flatten(ShownPages(pages)) == ShownLines(Flatten(pages))
  {
    if pages != [] {
      var front, last := pages[..|pages| - 1], pages[|pages| - 1];
      ShownPagesFlatten(front);
      FlattenGrows(ShownPages(front), ShownLines(last));
      FlattenGrows(front, last);
      assert pages == front + [last];
      ShownLinesBoth(Flatten(front), last);
    }
  }

  /** A page is read as these lines, after the title on the first page and before the page number. */
  ghost predicate PageIs(read: nat -> Option<seq<Text>>, page: nat, lines: seq<Text>) {
    var skip := if page == 0 then 1 else 0;
    read(page).Some? && skip < |read(page).value| && read(page).value[skip..|read(page).value| - 1] == lines
  }

  lemma {:induction false} LinesRead(read: nat -> Option<seq<Text>>, parts: seq<seq<Text>>, n: nat)
    requires n <= |parts| && forall page: nat :: page < n ==> PageIs(read, page, parts[page])
    ensures ReadLines(read, n) == Some(Flatten(parts[..n]))
  {
    if n > 0 {
      LinesRead(read, parts, n - 1);
      assert PageIs(read, n - 1, parts[n - 1]);
      assert parts[..n] == parts[..n - 1] + [parts[n - 1]];
      FlattenGrows(parts[..n - 1], parts[n - 1]);
    }
  }

  lemma LinesShownOnPage(
    o: Operators, read: nat -> Option<seq<Text>>, title: Text, pages: seq<seq<Text>>, page: nat)
    requires page < |pages| && read(page) == Some(PageShows(o, title, pages, page))
    ensures PageIs(read, page, ShownLines(pages[page]))
  {
  }

  lemma AllPagesRead(read: nat -> Option<seq<Text>>, parts: seq<seq<Text>>)
    requires forall page: nat :: page < |parts| ==> PageIs(read, page, parts[page])
    ensures ReadLines(read, |parts|) == Some(Flatten(parts))
  {
    LinesRead(read, parts, |parts|);
    assert parts[..|parts|] == parts;
  }

  lemma PageReaderReads(
    p: Syntax, r: Resources, o: Operators, lines: seq<Text>, title: Text, mono: Text -> bool, page: nat)
    requires Sound(p) && Sane(r) && Usable(o)
    requires page < |Pages(lines)|
    requires |Body(p, Objects(r, Streams(o, title, Pages(lines), |Pages(lines)|, mono)))| < TEN_DIGITS
    ensures PageIs(
      PageReader(p, r, TextPdf(p, r, o, lines, title, mono), PageIds(0, |Pages(lines)|)),
      page, ShownLines(Pages(lines)[page]))
  {
    var ids := PageIds(0, |Pages(lines)|);
    PageIdsAre(0, |Pages(lines)|);
    assert ids[page] == PageId(page);
    PageReads(p, r, o, lines, title, mono, page);
    PageFromTree(p, r, TextPdf(p, r, o, lines, title, mono), ids, o, title, Pages(lines), page);
  }

  lemma PageFromTree(
    p: Syntax, r: Resources, doc: Text, ids: seq<int>, o: Operators, title: Text, pages: seq<seq<Text>>, page: nat)
    requires page < |ids| && page < |pages|
    requires ReadPage(p, r, doc, ids[page]) == Some(PageShows(o, title, pages, page))
    ensures PageIs(PageReader(p, r, doc, ids), page, ShownLines(pages[page]))
  {
    LinesShownOnPage(o, PageReader(p, r, doc, ids), title, pages, page);
  }

  /** Read from its bytes, the whole statement gives back every line in order. */
  lemma StatementReads(p: Syntax, r: Resources, o: Operators, lines: seq<Text>, title: Text, mono: Text -> bool)
    requires Sound(p) && Sane(r) && Usable(o)
    requires |Body(p, Objects(r, Streams(o, title, Pages(lines), |Pages(lines)|, mono)))| < TEN_DIGITS
    ensures ReadStatement(p, r, TextPdf(p, r, o, lines, title, mono)) == Some(ShownLines(lines))
  {
    var pages, doc := Pages(lines), TextPdf(p, r, o, lines, title, mono);
    var ids := PageIds(0, |pages|);
    ShownPagesFlatten(pages);
    forall page: nat | page < |pages| ensures PageIs(PageReader(p, r, doc, ids), page, ShownPages(pages)[page]) {
      PageReaderReads(p, r, o, lines, title, mono, page);
    }
    AllPagesRead(PageReader(p, r, doc, ids), ShownPages(pages));
    PagesKeepLines(lines);
    PageIdsAre(0, |pages|);
    PagesRead(p, r, Streams(o, title, pages, |pages|, mono));
    StatementOf(p, r, doc, ids);
  }

  lemma StatementOf(p: Syntax, r: Resources, doc: Text, ids: seq<int>)
    ensures ReadPages(p, r, doc) == Some(ids) ==>
      ReadStatement(p, r, doc) == ReadLines(PageReader(p, r, doc, ids), |ids|)
  {
  }

  /** The statement as the program writes it can be read back. */
  lemma WrittenStatementReads(lines: seq<Text>, title: Text, mono: Text -> bool)
    requires |Body(PDF, Objects(RESOURCES, Streams(OPERATORS, title, Pages(lines), |Pages(lines)|, mono)))| < TEN_DIGITS
    ensures ReadStatement(PDF, RESOURCES, TextPdf(PDF, RESOURCES, OPERATORS, lines, title, mono))
      == Some(ShownLines(lines))
  {
    PdfIsSound();
    ResourcesAreSane();
    OperatorsAreUsable();
    StatementReads(PDF, RESOURCES, OPERATORS, lines, title, mono);
  }

  lemma {:induction false} StreamsFit(o: Operators, title: Text, pages: seq<seq<Text>>, n: nat, mono: Text -> bool)
    requires Usable(o)
    requires n <= |pages|
    ensures forall k :: 0 <= k < n ==> FitsBytes(Streams(o, title, pages, n, mono)[k])
  {
    if n > 0 {
      StreamsFit(o, title, pages, n - 1, mono);
      OpsFit(o, title, pages, n - 1, mono);
    }
  }

  lemma OpsFit(o: Operators, title: Text, pages: seq<seq<Text>>, page: nat, mono: Text -> bool)
    requires Usable(o)
    requires page < |pages|
    ensures FitsBytes(JoinLines(PageOps(o, title, pages, page, mono)))
  {
    var ops := PageOps(o, title, pages, page, mono);
    PageOpsPrintable(o, title, pages, page, mono);
    forall i, j | 0 <= i < |ops| && 0 <= j < |ops[i]| ensures ops[i][j] < 256 { assert Printable(ops[i]); }
    JoinedLinesSmall(ops, 256);
  }
}
