/** What the cells of a report and the characters of a statement look like to a reader. */
module ReportRules {
  import opened Wrappers
  import opened Texts
  import Csv
  import PdfStrings

  // ---- CSV -------------------------------------------------------------------------------------------

  /** A signed decimal number that is the whole text. */
  function ReadWhole(t: Text): Option<int> {
    if t != [] && t[0] == MINUS then
      var n :- ReadNumber(t[1..]);
      if n.1 == [] then Some(-n.0) else None
    else
      var n :- ReadNumber(t);
      if n.1 == [] then Some(n.0) else None
  }

  /** A cell of words is those words, one without a value is empty, and a number is read back from its cell. */
  lemma CellsSay(v: Csv.Value)
    ensures
      match v
      case Words(text) => Csv.CellText(v) == text
      case Missing => |Csv.CellText(v)| == 0
      case Number(n) => ReadWhole(Csv.CellText(v)) == Some(n)
  {
    match v
    case Number(n) =>
      if n < 0 {
        assert Decimal(n) == [MINUS] + Decimal(-n);
        assert ([MINUS] + Decimal(-n))[1..] == Decimal(-n);
        WholeReads(-n);
      } else {
        WholeReads(n);
        DecimalStarts(n);
      }
    case _ =>
  }

  lemma WholeReads(n: nat)
    ensures ReadNumber(Decimal(n)) == Some((n, []))
  {
    NumberReads(n, []);
    assert Decimal(n) + [] == Decimal(n);
  }

  lemma DecimalStarts(n: nat)
    ensures Decimal(n) != [] && Decimal(n)[0] != MINUS
  {
    DigitsRead(n);
  }

  /** A cell is quoted exactly when it holds a quote, a comma or a line feed; any other is written as it is. */
  lemma QuotedIff(v: Csv.Value)
    ensures var s, e := Csv.CellText(v), Csv.Escape(v);
      if exists i :: 0 <= i < |s| && (s[i] == 34 || s[i] == 44 || s[i] == 10)
      then |e| >= 2 && e[0] == 34 && e[|e| - 1] == 34 else e == s
  {
    var s, e := Csv.CellText(v), Csv.Escape(v);
    if i :| 0 <= i < |s| && (s[i] == 34 || s[i] == 44 || s[i] == 10) {
      assert Csv.IsSpecial(s[i]);
    }
  }

  // ---- characters of a statement ---------------------------------------------------------------------

  /** No pair of surrogates is split between the two parts. */
  ghost predicate Apart(a: Text, b: Text) {
    a == [] || b == [] || !(IsLead(a[|a| - 1]) && IsTrail(b[0]))
  }

  /** Characters are shown one after the other. */
  lemma {:induction false} ShownApart(a: Text, b: Text)
    requires Apart(a, b)
    ensures PdfStrings.Shown(a + b) == PdfStrings.Shown(a) + PdfStrings.Shown(b)
    decreases |a|
  {
    if a == [] {
      assert [] + b == b;
    } else if |a| > 1 && IsLead(a[0]) && IsTrail(a[1]) {
      assert (a + b)[2..] == a[2..] + b && (a + b)[1] == a[1];
      ShownApart(a[2..], b);
    } else {
      assert (a + b)[1..] == a[1..] + b;
      ShownApart(a[1..], b);
    }
  }

  /**
   * A character of WinAnsi is shown as it is, an arrow to the right as hyphen and greater-than, the euro
   * sign by its code in WinAnsi, and every other one, also one of two units, as one question mark.
   */
  lemma CharacterIsShown(u: Unit, v: Unit)
    ensures PdfStrings.Shown([u]) ==
      if 32 <= u <= 255 then [u] else if u == 0x2192 then [45, 62] else if u == 0x20AC then [128] else [63]
    ensures 0xD800 <= u <= 0xDBFF && 0xDC00 <= v <= 0xDFFF ==> PdfStrings.Shown([u, v]) == [63]
  {
    assert [u][1..] == [] && [u, v][2..] == [];
  }
}
