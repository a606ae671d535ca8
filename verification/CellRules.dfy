/**
 * How a cell of the permission matrix is read, and what it then grants: every mark with every
 * qualifier, and blanks wherever they may stand.
 */
module CellRules {
  import opened Wrappers
  import opened Catalogue
  import opened Rows
  import opened Cells

  // ---- reading ---------------------------------------------------------------------------------------

  ghost predicate Blank(s: string) {
    forall i :: 0 <= i < |s| ==> IsSpace(s[i])
  }

  /** No blank at either end. */
  ghost predicate Bare(s: string) {
    s != "" ==> !IsSpace(s[0]) && !IsSpace(s[|s| - 1])
  }

  /** The blanks of String.prototype.trim, by code point; the first two lines of them end a line or not. */
  lemma BlanksAre(c: char)
    ensures IsLineEnd(c) <==> c as int in {10, 13, 0x2028, 0x2029}
    ensures IsSpace(c) <==>
      || c as int in {9, 10, 11, 12, 13, 32, 0xA0, 0x1680, 0x2028, 0x2029, 0x202F, 0x205F, 0x3000, 0xFEFF}
      || 0x2000 <= c as int <= 0x200A
  {
  }

  function MarkText(base: Base): string {
    match base
    case ReadRing => "R⊙"
    case Tick => "✓"
    case Read => "R"
    case Bang => "!"
    case Circle => "○"
    case Ring => "⊙"
    case Create => "create"
  }

  lemma {:induction false} StartTrims(blank: string, s: string)
    requires Blank(blank) && (s != "" ==> !IsSpace(s[0]))
    ensures TrimStart(blank + s) == s
  {
    if blank == "" {
      assert "" + s == s;
    } else {
      assert (blank + s)[1..] == blank[1..] + s;
      StartTrims(blank[1..], s);
    }
  }

  lemma {:induction false} EndTrims(s: string, blank: string)
    requires Blank(blank) && (s != "" ==> !IsSpace(s[|s| - 1]))
    ensures TrimEnd(s + blank) == s
  {
    if blank == "" {
      assert s + "" == s;
    } else {
      var n := |blank| - 1;
      assert (s + blank)[..|s + blank| - 1] == s + blank[..n];
      EndTrims(s, blank[..n]);
    }
  }

  lemma Trims(before: string, s: string, after: string)
    requires Blank(before) && Blank(after) && Bare(s)
    ensures Trim(before + s + after) == s
  {
    if s == "" {
      assert before + s + after == (before + after) + "";
      StartTrims(before + after, "");
    } else {
      assert before + s + after == before + (s + after);
      StartTrims(before, s + after);
      EndTrims(s, after);
    }
  }

  lemma MarkIsBare(base: Base)
    ensures MarkText(base) != "" && Bare(MarkText(base)) && MarkText(base)[0] != '·'
  {
    match base
    case Create =>
      assert "create"[5] == 'e';
    case _ =>
  }

  lemma RingIsNext(text: string, rest: string)
    requires text == "R" + rest
    ensures "R⊙" <= text ==> "⊙" <= rest
  {
    assert |text| > 1 ==> text[1] == rest[0];
  }

  /** Which marks begin like others: only the one for reading. */
  lemma MarkSplits(base: Base, rest: string)
    requires base == Read ==> !("⊙" <= rest)
    ensures SplitBase(MarkText(base) + rest) == Some((base, rest))
  {
    var text := MarkText(base) + rest;
    assert text[|MarkText(base)|..] == rest && text[..|MarkText(base)|] == MarkText(base);
    match base
    case Read =>
      assert text[0] == 'R';
      RingIsNext(text, rest);
    case ReadRing => assert text[0] == 'R' && text[1] == '⊙';
    case Tick => assert text[0] == '✓';
    case Bang => assert text[0] == '!';
    case Circle => assert text[0] == '○';
    case Ring => assert text[0] == '⊙';
    case Create =>
      assert text[0] == 'c' && text[1] == 'r' && text[2] == 'e' && text[3] == 'a' && text[4] == 't' && text[5] == 'e';
  }

  /** A mark and a qualifier are read back, whatever blanks stand before, between and behind them. */
  lemma CellReads(before: string, base: Base, gap: string, q: string, after: string)
    requires Blank(before) && Blank(gap) && Blank(after) && Bare(q)
    requires forall i :: 0 <= i < |q| ==> !IsLineEnd(q[i])
    requires base == Read ==> !("⊙" <= gap + q)
    ensures Split(Trim(before + (MarkText(base) + gap + q) + after)) == Some((base, q))
    ensures Trim(before + (MarkText(base) + gap + q) + after) != "·"
    ensures Trim(before + (MarkText(base) + gap + q) + after) != ""
  {
    if q == "" {
      MarkReads(before, base, gap, after);
    } else {
      var text := MarkText(base) + gap + q;
      MarkIsBare(base);
      assert text[0] == MarkText(base)[0] && text[|text| - 1] == q[|q| - 1];
      Trims(before, text, after);
      QualifierReads(base, gap, q);
    }
  }

  lemma MarkReads(before: string, base: Base, gap: string, after: string)
    requires Blank(before) && Blank(gap) && Blank(after)
    ensures var text := Trim(before + (MarkText(base) + gap + "") + after);
      Split(text) == Some((base, "")) && text != "·" && text != ""
  {
    var mark := MarkText(base);
    MarkIsBare(base);
    assert before + (mark + gap + "") + after == before + mark + (gap + after);
    Trims(before, mark, gap + after);
    assert mark + "" == mark;
    MarkSplits(base, "");
    assert TrimStart("") == "" && Trim("") == "";
  }

  lemma QualifierReads(base: Base, gap: string, q: string)
    requires Blank(gap) && Bare(q) && q != "" && forall i :: 0 <= i < |q| ==> !IsLineEnd(q[i])
    requires base == Read ==> !("⊙" <= gap + q)
    ensures Split(MarkText(base) + gap + q) == Some((base, q))
  {
    assert MarkText(base) + gap + q == MarkText(base) + (gap + q);
    MarkSplits(base, gap + q);
    StartTrims(gap, q);
    assert "" + q + "" == q;
    Trims("", q, "");
  }

  /** A qualifier that goes on in another line makes the cell unreadable, whatever its mark. */
  lemma QualifierIsOneLine(before: string, base: Base, gap: string, q: string, after: string, row: RowDef)
    requires Blank(before) && Blank(gap) && Blank(after) && Bare(q) && q != ""
    requires base == Read ==> !("⊙" <= gap + q)
    requires exists i :: 0 <= i < |q| && IsLineEnd(q[i])
    ensures ParseCell(before + (MarkText(base) + gap + q) + after, row) == Err(Unparseable)
  {
    var text := MarkText(base) + gap + q;
    MarkIsBare(base);
    assert text[0] == MarkText(base)[0] && text[|text| - 1] == q[|q| - 1];
    Trims(before, text, after);
    assert text == MarkText(base) + (gap + q);
    MarkSplits(base, gap + q);
    StartTrims(gap, q);
    assert Split(text) == None;
  }

  // ---- meaning ---------------------------------------------------------------------------------------

  ghost function Members(xs: seq<Permission>): set<Permission> {
    set p | p in xs
  }

  /** A cell that was read and grants exactly this. */
  ghost predicate Means(
    r: Parsed, allow: set<Permission>, grantable: set<Permission>, stepUp: bool, filter: Option<RowFilter>,
    maxScope: Option<ScopeKind>)
  {
    && r.Ok? && Members(r.value.allow) == allow && Members(r.value.grantable) == grantable
    && r.value.stepUp == stepUp && r.value.rowFilter == filter && r.value.maxScope == maxScope
  }

  ghost function ScopeIn(q: string): Option<ScopeKind> {
    match q
    case "(group)" => Some(GroupScope)
    case "(property)" => Some(PropertyScope)
    case _ => None
  }

  ghost function FilterIn(q: string): Option<RowFilter> {
    match q
    case "today" => Some(Today)
    case "limited" => Some(Limited)
    case "aggregate" => Some(Aggregate)
    case "name only" => Some(NameOnly)
    case "own stays" => Some(OwnStays)
    case "own" => Some(Own)
    case _ => None
  }

  /** A permission that both parts of a grant give is in it once, at its first place. */
  lemma {:induction false} UniqIsOnce(xs: seq<Permission>)
    ensures forall i, j :: 0 <= i < j < |Uniq(xs)| ==> Uniq(xs)[i] != Uniq(xs)[j]
  {
    if xs != [] { UniqIsOnce(xs[..|xs| - 1]); }
  }

  lemma UniqSame(xs: seq<Permission>, ys: seq<Permission>)
    ensures Members(Uniq(xs + ys)) == Members(xs) + Members(ys)
  {
    UniqMembers(xs + ys);
  }

  lemma NothingGranted(raw: string, row: RowDef)
    requires Trim(raw) == "·" || Trim(raw) == ""
    ensures Means(ParseCell(raw, row), {}, {}, false, None, None)
  {
  }

  ghost predicate IsCell(raw: string, base: Base, q: string) {
    Trim(raw) != "·" && Trim(raw) != "" && Split(Trim(raw)) == Some((base, q))
  }

  lemma CellGrants(raw: string, base: Base, q: string, row: RowDef)
    requires IsCell(raw, base, q)
    ensures ParseCell(raw, row) == Grants(base, if ScopeIn(q).Some? then "" else q, ScopeIn(q), row)
  {
  }

  lemma FilterIs(q: string)
    ensures FilterOf(q) == if FilterIn(q).Some? then Ok(FilterIn(q).value) else Err(UnknownFilter(q))
  {
  }

  /** The permissions of a row by the name of a subset, if it has one. */
  ghost predicate AddsNamed(
    r: Parsed, row: RowDef, name: string, filter: Option<RowFilter>, maxScope: Option<ScopeKind>)
  {
    if name in row.named then
      Means(r, Members(row.read) + Members(row.named[name]), {}, false, filter, maxScope)
    else r == Err(NoNamedSubset(name))
  }

  /**
   * A tick allows the row without what is sensitive, or reading and a named subset; `!` allows the
   * whole row with step-up.
   */
  lemma TickAndBangMean(raw: string, base: Base, q: string, row: RowDef)
    requires IsCell(raw, base, q) && (base == Tick || base == Bang)
    ensures var scope := ScopeIn(q);
      var word := if scope.Some? then "" else q;
      if base == Bang then Means(ParseCell(raw, row), Members(row.full), {}, true, None, scope)
      else if word == "" then
        Means(ParseCell(raw, row), set p | p in row.full && !IsSensitive(p), {}, false, None, scope)
      else AddsNamed(ParseCell(raw, row), row, word, None, scope)
  {
    CellGrants(raw, base, q, row);
    StripMembers(row.full);
    if q in row.named { UniqSame(row.read, row.named[q]); }
  }

  /** `R` allows reading, with a named subset behind `+`, or with a filter. */
  lemma ReadMeans(raw: string, q: string, row: RowDef)
    requires IsCell(raw, Read, q)
    ensures var r, scope := ParseCell(raw, row), ScopeIn(q);
      var word := if scope.Some? then "" else q;
      if word == "" then Means(r, Members(row.read), {}, false, None, scope)
      else if word[0] == '+' then AddsNamed(r, row, Trim(word[1..]), None, scope)
      else if FilterIn(word).Some? then Means(r, Members(row.read), {}, false, FilterIn(word), scope)
      else r == Err(UnknownFilter(word))
  {
    CellGrants(raw, Read, q, row);
    FilterIs(q);
    if q != "" && Trim(q[1..]) in row.named { UniqSame(row.read, row.named[Trim(q[1..])]); }
  }

  /** `○` allows nothing and makes the row, a named subset of it, or the row with a filter grantable. */
  lemma CircleMeans(raw: string, q: string, row: RowDef)
    requires IsCell(raw, Circle, q)
    ensures var r, scope := ParseCell(raw, row), ScopeIn(q);
      var word := if scope.Some? then "" else q;
      if word == "" then Means(r, {}, Members(row.full), false, None, scope)
      else if word in row.named then Means(r, {}, Members(row.named[word]), false, None, scope)
      else if FilterIn(word).Some? then Means(r, {}, Members(row.full), false, FilterIn(word), scope)
      else r == Err(UnknownFilter(word))
  {
    CellGrants(raw, Circle, q, row);
    FilterIs(q);
  }

  /** `⊙` allows the own subset of the row, or reading, for own rows or those of a filter. */
  lemma RingMeans(raw: string, q: string, row: RowDef)
    requires IsCell(raw, Ring, q)
    ensures var r, scope := ParseCell(raw, row), ScopeIn(q);
      var word := if scope.Some? then "" else q;
      var own := if row.own.Some? then Members(row.own.value) else Members(row.read);
      if word == "" then Means(r, own, {}, false, Some(Own), scope)
      else if FilterIn(word).Some? then Means(r, own, {}, false, FilterIn(word), scope)
      else r == Err(UnknownFilter(word))
  {
    CellGrants(raw, Ring, q, row);
    FilterIs(q);
  }

  /** `R⊙` allows reading own rows or those of a filter, or own rows and a named subset behind `+`. */
  lemma ReadRingMeans(raw: string, q: string, row: RowDef)
    requires IsCell(raw, ReadRing, q)
    ensures var r, scope := ParseCell(raw, row), ScopeIn(q);
      var word := if scope.Some? then "" else q;
      if word == "" then Means(r, Members(row.read), {}, false, Some(Own), scope)
      else if word[0] == '+' then AddsNamed(r, row, Trim(word[1..]), Some(Own), scope)
      else if FilterIn(word).Some? then Means(r, Members(row.read), {}, false, FilterIn(word), scope)
      else r == Err(UnknownFilter(word))
  {
    CellGrants(raw, ReadRing, q, row);
    FilterIs(q);
    if q != "" && Trim(q[1..]) in row.named { UniqSame(row.read, row.named[Trim(q[1..])]); }
  }

  /** `create` allows the subset of that name. */
  lemma CreateMeans(raw: string, q: string, row: RowDef)
    requires IsCell(raw, Create, q)
    ensures
      if "create" in row.named then
        Means(ParseCell(raw, row), Members(row.named["create"]), {}, false, None, ScopeIn(q))
      else ParseCell(raw, row) == Err(NoNamedSubset("create"))
  {
  }
}
