/** One cell of the permission matrix: what it grants to a role for one row. */
module Cells {
  import opened Wrappers
  import opened Catalogue
  import opened Rows

  datatype CellGrant = CellGrant(
    allow: seq<Permission>, stepUp: bool, rowFilter: Option<RowFilter>, grantable: seq<Permission>,
    maxScope: Option<ScopeKind>)

  datatype CellError = Unparseable | NoNamedSubset(name: string) | UnknownFilter(name: string)

  type Parsed = Result<CellGrant, CellError>

  const NOTHING := CellGrant([], false, None, [], None)

  // ---- text -----------------------------------------------------------------------------------------

  predicate IsLineEnd(c: char) {
    c == '\n' || c == '\r' || c == '\U{2028}' || c == '\U{2029}'
  }

  predicate IsSpace(c: char) {
    IsLineEnd(c) || c == ' ' || c == '\t' || c == '\U{0B}' || c == '\U{0C}' || c == '\U{A0}' || c == '\U{1680}'
    || '\U{2000}' <= c <= '\U{200A}' || c == '\U{202F}' || c == '\U{205F}' || c == '\U{3000}' || c == '\U{FEFF}'
  }

  function TrimStart(s: string): string {
    if s != [] && IsSpace(s[0]) then TrimStart(s[1..]) else s
  }

  function TrimEnd(s: string): string {
    if s != [] && IsSpace(s[|s| - 1]) then TrimEnd(s[..|s| - 1]) else s
  }

  function Trim(s: string): string {
    TrimEnd(TrimStart(s))
  }

  datatype Base = ReadRing | Tick | Read | Bang | Circle | Ring | Create

  /** The mark a cell starts with, and the text behind it. */
  function SplitBase(text: string): Option<(Base, string)> {
    if "R⊙" <= text then Some((ReadRing, text[2..]))
    else if "✓" <= text then Some((Tick, text[1..]))
    else if "R" <= text then Some((Read, text[1..]))
    else if "!" <= text then Some((Bang, text[1..]))
    else if "○" <= text then Some((Circle, text[1..]))
    else if "⊙" <= text then Some((Ring, text[1..]))
    else if "create" <= text then Some((Create, text[6..]))
    else None
  }

  /** The mark and the qualifier; no line may end within the qualifier. */
  function Split(text: string): Option<(Base, string)> {
    var split :- SplitBase(text);
    var rest := TrimStart(split.1);
    if exists i :: 0 <= i < |rest| && IsLineEnd(rest[i]) then None else Some((split.0, Trim(rest)))
  }

  function ScopeOf(qualifier: string): Option<ScopeKind> {
    if qualifier == "(group)" then Some(GroupScope)
    else if qualifier == "(property)" then Some(PropertyScope)
    else None
  }

  function FilterNamed(q: string): Option<RowFilter> {
    if q == "today" then Some(Today)
    else if q == "limited" then Some(Limited)
    else if q == "aggregate" then Some(Aggregate)
    else if q == "name only" then Some(NameOnly)
    else if q == "own stays" then Some(OwnStays)
    else if q == "own" then Some(Own)
    else None
  }

  // ---- grants ----------------------------------------------------------------------------------------

  /** Each permission once, in the order of first occurrence. */
  function Uniq(xs: seq<Permission>): seq<Permission> {
    if xs == [] then []
    else
      var front, last := Uniq(xs[..|xs| - 1]), xs[|xs| - 1];
      if last in front then front else front + [last]
  }

  function StripSensitive(xs: seq<Permission>): seq<Permission> {
    if xs == [] then []
    else StripSensitive(xs[..|xs| - 1]) + if IsSensitive(xs[|xs| - 1]) then [] else [xs[|xs| - 1]]
  }

  function Named(row: RowDef, name: string): Result<seq<Permission>, CellError> {
    if name in row.named then Ok(row.named[name]) else Err(NoNamedSubset(name))
  }

  function FilterOf(q: string): Result<RowFilter, CellError> {
    match FilterNamed(q)
    case Some(f) => Ok(f)
    case None => Err(UnknownFilter(q))
  }

  function Allowing(maxScope: Option<ScopeKind>, allow: seq<Permission>): CellGrant {
    NOTHING.(maxScope := maxScope, allow := allow)
  }

  predicate IsPlus(q: string) {
    q != [] && q[0] == '+'
  }

  /** What a mark with a qualifier grants. */
  function Grants(base: Base, q: string, maxScope: Option<ScopeKind>, row: RowDef): Parsed {
    match base
    case Tick =>
      if q == "" then Ok(Allowing(maxScope, StripSensitive(row.full)))
      else
        var named :- Named(row, q);
        Ok(Allowing(maxScope, Uniq(row.read + named)))
    case Bang => Ok(Allowing(maxScope, row.full).(stepUp := true))
    case Read =>
      if q == "" then Ok(Allowing(maxScope, row.read))
      else if IsPlus(q) then
        var named :- Named(row, Trim(q[1..]));
        Ok(Allowing(maxScope, Uniq(row.read + named)))
      else
        var filter :- FilterOf(q);
        Ok(Allowing(maxScope, row.read).(rowFilter := Some(filter)))
    case Circle =>
      if q == "" then Ok(NOTHING.(maxScope := maxScope, grantable := row.full))
      else if q in row.named then Ok(NOTHING.(maxScope := maxScope, grantable := row.named[q]))
      else
        var filter :- FilterOf(q);
        Ok(NOTHING.(maxScope := maxScope, grantable := row.full, rowFilter := Some(filter)))
    case Ring =>
      var allow := if row.own.Some? then row.own.value else row.read;
      var filter :- if q == "" then Ok(Own) else FilterOf(q);
      Ok(Allowing(maxScope, allow).(rowFilter := Some(filter)))
    case ReadRing =>
      if IsPlus(q) then
        var named :- Named(row, Trim(q[1..]));
        Ok(Allowing(maxScope, Uniq(row.read + named)).(rowFilter := Some(Own)))
      else
        var filter :- if q == "" then Ok(Own) else FilterOf(q);
        Ok(Allowing(maxScope, row.read).(rowFilter := Some(filter)))
    case Create =>
      var named :- Named(row, "create");
      Ok(Allowing(maxScope, named))
  }

  function ParseCell(raw: string, row: RowDef): Parsed {
    var text := Trim(raw);
    if text == "·" || text == "" then Ok(NOTHING)
    else
      match Split(text)
      case None => Err(Unparseable)
      case Some((base, qualifier)) =>
        var scope := ScopeOf(qualifier);
        Grants(base, if scope.Some? then "" else qualifier, scope, row)
  }

  // ---- what a cell may grant -----------------------------------------------------------------------

  lemma {:induction false} UniqMembers(xs: seq<Permission>)
    ensures forall p :: p in Uniq(xs) <==> p in xs
  {
    if xs != [] {
      UniqMembers(xs[..|xs| - 1]);
      assert xs == xs[..|xs| - 1] + [xs[|xs| - 1]];
    }
  }

  lemma {:induction false} StripMembers(xs: seq<Permission>)
    ensures forall p :: p in StripSensitive(xs) <==> p in xs && !IsSensitive(p)
  {
    if xs != [] {
      StripMembers(xs[..|xs| - 1]);
      assert xs == xs[..|xs| - 1] + [xs[|xs| - 1]];
    }
  }

  lemma NotIn(xs: seq<Permission>, p: Permission)
    requires NoneSensitive(xs) && IsSensitive(p)
    ensures p !in xs
  {
    if i :| 0 <= i < |xs| && xs[i] == p { assert !IsSensitive(xs[i]); }
  }

  /** A sensitive permission is allowed only by a cell that asks for step-up. */
  lemma SensitiveNeedsStepUp(raw: string, row: RowDef, p: Permission)
    requires SafeRow(row) && IsSensitive(p)
    requires ParseCell(raw, row).Ok? && p in ParseCell(raw, row).value.allow
    ensures ParseCell(raw, row).value.stepUp
  {
    StripMembers(row.full);
    NotIn(row.read, p);
    if row.own.Some? { NotIn(row.own.value, p); }
    forall k | k in row.named ensures p !in row.named[k] && p !in Uniq(row.read + row.named[k]) {
      NotIn(row.named[k], p);
      UniqMembers(row.read + row.named[k]);
    }
  }

  /** The permissions a row knows. */
  ghost predicate InRow(row: RowDef, p: Permission) {
    || p in row.read || p in row.full || (row.own.Some? && p in row.own.value)
    || exists k :: k in row.named && p in row.named[k]
  }

  /** No cell grants or makes grantable anything beyond its row. */
  lemma NothingBeyondRow(raw: string, row: RowDef, p: Permission)
    requires ParseCell(raw, row).Ok?
    requires p in ParseCell(raw, row).value.allow || p in ParseCell(raw, row).value.grantable
    ensures InRow(row, p)
  {
    var split := Split(Trim(raw));
    if split.Some? {
      var (base, qualifier) := split.value;
      var scope := ScopeOf(qualifier);
      GrantsWithinRow(base, if scope.Some? then "" else qualifier, scope, row, p);
    }
  }

  lemma GrantsWithinRow(base: Base, q: string, maxScope: Option<ScopeKind>, row: RowDef, p: Permission)
    requires Grants(base, q, maxScope, row).Ok?
    requires
      var cell := Grants(base, q, maxScope, row).value;
      p in cell.allow || p in cell.grantable
    ensures InRow(row, p)
  {
    match base
    case Tick =>
      StripMembers(row.full);
      ReadPlusWithinRow(row, q, p);
    case Read => ReadPlusWithinRow(row, if IsPlus(q) then Trim(q[1..]) else q, p);
    case ReadRing => ReadPlusWithinRow(row, if IsPlus(q) then Trim(q[1..]) else q, p);
    case _ =>
  }

  lemma ReadPlusWithinRow(row: RowDef, name: string, p: Permission)
    ensures name in row.named && p in Uniq(row.read + row.named[name]) ==> InRow(row, p)
  {
    if name in row.named { UniqMembers(row.read + row.named[name]); }
  }

  /** A qualifier that is neither a scope, nor a named subset of the row, nor a filter. */
  predicate Unknown(row: RowDef, q: string) {
    && q != "" && ScopeOf(q).None? && FilterNamed(q).None? && q !in row.named
    && (IsPlus(q) ==> Trim(q[1..]) !in row.named)
  }

  /**
   * An unknown qualifier makes a cell fail, so that a change of the specification cannot widen a
   * role unnoticed - except behind `!`, and behind `create` in a row with that subset, which
   * ignore their qualifier.
   */
  lemma UnknownQualifierFailsIff(raw: string, row: RowDef)
    requires Trim(raw) != "·" && Trim(raw) != "" && Split(Trim(raw)).Some? && Unknown(row, Split(Trim(raw)).value.1)
    ensures ParseCell(raw, row).Err? <==>
      var base := Split(Trim(raw)).value.0;
      base != Bang && !(base == Create && "create" in row.named)
  {
  }

  /** The qualifier of this cell is ignored, and the permission is allowed in full. */
  lemma IgnoredQualifier()
    ensures RowOf(PaymentInstrument).Some?
    ensures Unknown(RowOf(PaymentInstrument).value, "limitd")
    ensures ParseCell("! limitd", RowOf(PaymentInstrument).value)
      == Ok(NOTHING.(allow := [BookingReadPaymentInstrument], stepUp := true))
  {
    assert TrimStart("! limitd") == "! limitd" && TrimEnd("! limitd") == "! limitd";
    assert " limitd"[1..] == "limitd";
    assert TrimStart(" limitd") == "limitd" && TrimStart("limitd") == "limitd" && TrimEnd("limitd") == "limitd";
    assert "! limitd"[1..] == " limitd";
    assert "limitd"[4] == 't' && "limitd"[5] == 'd';
  }
}
