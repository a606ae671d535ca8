/**
 * How the pages of a statement look, read from its bytes: the font and size each text is set in, and
 * the fonts and the parent that the page objects name.
 */
module StatementLooks {
  import opened Wrappers
  import opened Texts
  import opened PdfFile
  import opened PdfPages
  import opened PdfStrings
  import opened StatementPdf

  // ---- settings ----------------------------------------------------------------------------------------

  /** The operators before the string of an operator line, up to its parenthesis, if it has one. */
  function SettingOfOp(op: Text): seq<Text> {
    var rest := AfterParen(op);
    if rest.Some? && |rest.value| <= |op| then [op[..|op| - |rest.value|]] else []
  }

  /** The settings of a page object's texts, found through its content stream. */
  function ReadSettings(p: Syntax, r: Resources, doc: Text, id: int): Option<seq<Text>> {
    var stream :- ReadPageStream(p, r, doc, id);
    Some(FlatMap(SettingOfOp, SplitLines(stream)))
  }

  function LineSettings(o: Operators, lines: seq<Text>, mono: Text -> bool): seq<Text> {
    seq(|lines|, i requires 0 <= i < |lines| => if mono(lines[i]) then o.courier else o.helvetica)
  }

  /** What the texts of a page are set in, in the order the page shows them. */
  function PageSettings(o: Operators, pages: seq<seq<Text>>, page: nat, mono: Text -> bool): seq<Text>
    requires page < |pages|
  {
    (if page == 0 then [o.title] else []) + (LineSettings(o, pages[page], mono) + [o.footer])
  }

  lemma SettingReads(prefix: Text, escaped: Text, suffix: Text)
    requires OneParenAtEnd(prefix)
    ensures SettingOfOp(ShowOp(prefix, escaped, suffix)) == [prefix]
  {
    var rest := escaped + ([CLOSE_PAREN] + suffix);
    AfterParenReads(prefix, rest);
    assert (prefix + rest)[..|prefix|] == prefix;
  }

  lemma NoSetting(op: Text)
    requires OPEN_PAREN !in op
    ensures SettingOfOp(op) == []
  {
    NoParenShowsNothing(op);
  }

  lemma {:induction false} NoSettings(ops: seq<Text>)
    requires forall i :: 0 <= i < |ops| ==> OPEN_PAREN !in ops[i]
    ensures FlatMap(SettingOfOp, ops) == []
  {
    if ops != [] {
      NoSetting(ops[0]);
      NoSettings(ops[1..]);
    }
  }

  lemma {:induction false} LinesAreSet(o: Operators, lines: seq<Text>, mono: Text -> bool)
    requires Usable(o)
    ensures FlatMap(SettingOfOp, LineOps(o, lines, mono)) == LineSettings(o, lines, mono)
  {
    if lines != [] {
      var front, last := lines[..|lines| - 1], lines[|lines| - 1];
      LinesAreSet(o, front, mono);
      SettingReads(if mono(last) then o.courier else o.helvetica, Escape(last), o.showLine);
      FlatMapOne(SettingOfOp, LineOp(o, last, mono));
      FlatMapBoth(SettingOfOp, LineOps(o, front, mono), [LineOp(o, last, mono)]);
      assert LineSettings(o, lines, mono)
        == LineSettings(o, front, mono) + [if mono(last) then o.courier else o.helvetica];
    }
  }

  lemma PageIsSet(o: Operators, title: Text, pages: seq<seq<Text>>, page: nat, mono: Text -> bool)
    requires Usable(o) && page < |pages|
    ensures FlatMap(SettingOfOp, PageOps(o, title, pages, page, mono))
      == PageSettings(o, pages, page, mono)
  {
    NoSettings(o.begin);
    NoSetting(o.end);
    if page == 0 {
      SettingReads(o.title, Escape(title), o.showTitle);
      FlatMapOne(SettingOfOp, TitleOp(o, title));
    }
    LinesAreSet(o, pages[page], mono);
    SettingReads(o.footer, FooterText(o, page, |pages|), o.show);
    FlatMapPage(SettingOfOp, o.begin, TitleOps(o, title, page), LineOps(o, pages[page], mono),
      FooterOp(o, page, |pages|), o.end);
  }

  /** Read from its bytes, each page gives back the setting of every text it shows. */
  lemma TextsAreSet(
    p: Syntax, r: Resources, o: Operators, lines: seq<Text>, title: Text, mono: Text -> bool, page: nat)
    requires Sound(p) && Sane(r) && Usable(o)
    requires page < |Pages(lines)|
    requires |Body(p, Objects(r, Streams(o, title, Pages(lines), |Pages(lines)|, mono)))| < TEN_DIGITS
    ensures ReadSettings(p, r, TextPdf(p, r, o, lines, title, mono), PageId(page))
      == Some(PageSettings(o, Pages(lines), page, mono))
  {
    var pages := Pages(lines);
    PageOpsSplit(o, title, pages, page, mono);
    PageIsSet(o, title, pages, page, mono);
    StreamAt(o, title, pages, |pages|, page, mono);
    PageStreamReads(p, r, Streams(o, title, pages, |pages|, mono), page);
  }

  /**
   * In the statement as the program writes it: the title in Helvetica of 16, lines in Courier of 9 or
   * Helvetica of 10, page numbers in Helvetica of 8.
   */
  lemma StatementSettings(lines: seq<Text>, title: Text, mono: Text -> bool, page: nat)
    requires page < |Pages(lines)|
    requires |Body(PDF, Objects(RESOURCES, Streams(OPERATORS, title, Pages(lines), |Pages(lines)|, mono)))| < TEN_DIGITS
    ensures ReadSettings(PDF, RESOURCES, TextPdf(PDF, RESOURCES, OPERATORS, lines, title, mono), PageId(page))
      == Some(PageSettings(OPERATORS, Pages(lines), page, mono))
    ensures OPERATORS.title == Ascii("/F1 16 Tf (") && OPERATORS.footer == Ascii("/F1 8 Tf 0 -10 Td (")
    ensures OPERATORS.courier == Ascii("/F2 9 Tf (") && OPERATORS.helvetica == Ascii("/F1 10 Tf (")
  {
    PdfIsSound();
    ResourcesAreSane();
    OperatorsAreUsable();
    TextsAreSet(PDF, RESOURCES, OPERATORS, lines, title, mono, page);
  }

  // ---- fonts -------------------------------------------------------------------------------------------

  /** The parent and the fonts /F1 and /F2 that a page object names. */
  function ReadFonts(r: Resources, body: Text): Option<(int, int, int)> {
    var t :- Expect(body, r.pageHead);
    var parent :- NumberBefore(t, r.parentTail);
    var first :- NumberBefore(parent.1, r.fontTail);
    var second :- NumberBefore(first.1, r.monoTail);
    Some((parent.0, first.0, second.0))
  }

  lemma FontsRead(r: Resources, content: nat)
    requires Sane(r)
    ensures ReadFonts(r, PageBodyFor(r, content)) == Some((TREE_ID, FONT_ID, MONO_ID))
  {
    var last := Decimal(content) + r.objectTail;
    var mono := Decimal(MONO_ID) + (r.monoTail + last);
    var font := Decimal(FONT_ID) + (r.fontTail + mono);
    ExpectReads(r.pageHead, Decimal(TREE_ID) + (r.parentTail + font));
    NumberBeforeReads(TREE_ID, r.parentTail, font);
    NumberBeforeReads(FONT_ID, r.fontTail, mono);
    NumberBeforeReads(MONO_ID, r.monoTail, last);
  }

  lemma FontObjects(r: Resources, streams: seq<Text>)
    ensures |Objects(r, streams)| >= 4 && Objects(r, streams)[2] == r.font && Objects(r, streams)[3] == r.mono
  {
  }

  /**
   * The page object of each page names the page tree as its parent, and as /F1 and /F2 the objects of
   * Helvetica and Courier.
   */
  lemma PageNamesFonts(p: Syntax, r: Resources, streams: seq<Text>, page: nat) returns (body: Text)
    requires Sound(p) && Sane(r) && page < |streams|
    requires |Body(p, Objects(r, streams))| < TEN_DIGITS
    ensures var doc := Document(p, Objects(r, streams));
      && ObjectBy(p, doc, PageId(page)) == Some(body) && ReadFonts(r, body).Some?
      && ObjectBy(p, doc, ReadFonts(r, body).value.0) == Some(PageTree(r, Kids(r, |streams|), |streams|))
      && ObjectBy(p, doc, ReadFonts(r, body).value.1) == Some(r.font)
      && ObjectBy(p, doc, ReadFonts(r, body).value.2) == Some(r.mono)
  {
    var objects := Objects(r, streams);
    body := PageBody(r, page);
    PageObjectsAt(r, streams, page);
    ObjectAt(r, streams, 2 * page + 1);
    ObjectByReads(p, objects, 4 + 2 * page + 1);
    FontsRead(r, ContentId(page));
    HeadObjects(r, streams);
    FontObjects(r, streams);
    ObjectByReads(p, objects, 1);
    ObjectByReads(p, objects, 2);
    ObjectByReads(p, objects, 3);
  }
}
