/** Literal strings in PDF: the statement writer's escaping against a reader of section 7.3.4.2 of ISO 32000-1. */
module PdfStrings {
  import opened Wrappers
  import opened Texts

  const OPEN_PAREN: Unit := 40
  const CLOSE_PAREN: Unit := 41
  const QUESTION: Unit := 63

  function EscapeUnit(u: Unit): Text {
    if u == OPEN_PAREN || u == CLOSE_PAREN || u == BACKSLASH then [BACKSLASH, u]
    else if u == 0x2192 then [45, 62]
    else if u == 0x20AC then [BACKSLASH, 50, 48, 48]
    else if u < 32 || u > 255 then [QUESTION]
    else [u]
  }

  /** A character outside the basic plane is one question mark. */
  function Escape(s: Text): Text {
    if s == [] then []
    else if |s| > 1 && IsLead(s[0]) && IsTrail(s[1]) then [QUESTION] + Escape(s[2..])
    else EscapeUnit(s[0]) + Escape(s[1..])
  }

  function ShownUnit(u: Unit): Text {
    if u == 0x2192 then [45, 62]
    else if u == 0x20AC then [0x80]
    else if u < 32 || u > 255 then [QUESTION]
    else [u]
  }

  /** What the page shows of a line: its WinAnsi characters, an ASCII arrow, the euro sign, and question marks. */
  function Shown(s: Text): Text {
    if s == [] then []
    else if |s| > 1 && IsLead(s[0]) && IsTrail(s[1]) then [QUESTION] + Shown(s[2..])
    else ShownUnit(s[0]) + Shown(s[1..])
  }

  /** A line of WinAnsi characters is shown as it is. */
  lemma {:induction false} PlainIsShownAsIs(s: Text)
    requires forall i :: 0 <= i < |s| ==> 32 <= s[i] <= 255
    ensures Shown(s) == s
  {
    if s != [] {
      PlainIsShownAsIs(s[1..]);
      assert s == [s[0]] + s[1..];
    }
  }

  predicate IsOctal(u: Unit) {
    48 <= u < 56
  }

  /** The octal digits at the start of a text, at most three. */
  function OctalDigits(t: Text): nat
    ensures OctalDigits(t) <= |t|
  {
    if t == [] || !IsOctal(t[0]) then 0
    else if |t| == 1 || !IsOctal(t[1]) then 1
    else if |t| == 2 || !IsOctal(t[2]) then 2
    else 3
  }

  function OctalValue(t: Text): int {
    if t == [] then 0 else 8 * OctalValue(t[..|t| - 1]) + t[|t| - 1] - 48
  }

  function Control(u: Unit): Option<Unit> {
    if u == 110 then Some(10)
    else if u == 114 then Some(13)
    else if u == 116 then Some(9)
    else if u == 98 then Some(8)
    else if u == 102 then Some(12)
    else if u == OPEN_PAREN || u == CLOSE_PAREN || u == BACKSLASH then Some(u)
    else None
  }

  /**
   * The string that starts here and ends at the closing parenthesis matching the one before
   * it, `depth` further parentheses being open, and what follows it.
   */
  function ReadLiteral(t: Text, depth: nat): Option<(Text, Text)> {
    if t == [] then None
    else if t[0] == CLOSE_PAREN then
      if depth == 0 then Some(([], t[1..])) else Prepend(t[0], ReadLiteral(t[1..], depth - 1))
    else if t[0] == OPEN_PAREN then Prepend(t[0], ReadLiteral(t[1..], depth + 1))
    else if t[0] != BACKSLASH then Prepend(t[0], ReadLiteral(t[1..], depth))
    else
      var n := OctalDigits(t[1..]);
      if n > 0 then Prepend(OctalValue(t[1..][..n]) % 256, ReadLiteral(t[1..][n..], depth))
      else if |t| > 1 && Control(t[1]).Some? then Prepend(Control(t[1]).value, ReadLiteral(t[2..], depth))
      else ReadLiteral(t[1..], depth)
  }

  lemma PlainReads(u: Unit, t: Text)
    requires u != OPEN_PAREN && u != CLOSE_PAREN && u != BACKSLASH
    ensures ReadLiteral([u] + t, 0) == Prepend(u, ReadLiteral(t, 0))
  {
    assert ([u] + t)[1..] == t;
  }

  lemma EuroReads(t: Text)
    ensures ReadLiteral([BACKSLASH, 50, 48, 48] + t, 0) == Prepend(0x80, ReadLiteral(t, 0))
  {
    var x := [BACKSLASH, 50, 48, 48] + t;
    assert x[1..][..3] == [50, 48, 48] && x[1..][3..] == t;
    assert [50, 48, 48][..2] == [50, 48] && [50, 48][..1] == [50] && [50][..0] == [];
    assert OctalValue([50]) == 2;
    assert OctalValue([50, 48]) == 16;
    assert OctalValue([50, 48, 48]) == 128;
  }

  lemma UnitReads(u: Unit, t: Text, r: (Text, Text))
    requires ReadLiteral(t, 0) == Some(r)
    ensures ReadLiteral(EscapeUnit(u) + t, 0) == Some((ShownUnit(u) + r.0, r.1))
  {
    if u == OPEN_PAREN || u == CLOSE_PAREN || u == BACKSLASH {
      var x := [BACKSLASH, u] + t;
      assert x[1..][0] == u && x[2..] == t;
    } else if u == 0x2192 {
      PlainReads(62, t);
      PlainReads(45, [62] + t);
      assert [45, 62] + t == [45] + ([62] + t);
      assert [45, 62] + r.0 == [45] + ([62] + r.0);
    } else if u == 0x20AC {
      EuroReads(t);
    } else {
      PlainReads(if u < 32 || u > 255 then QUESTION else u, t);
    }
  }

  /** Escaping a line and reading it back as a PDF string gives what the page shows of it. */
  lemma {:induction false} LiteralReads(s: Text, rest: Text)
    ensures ReadLiteral(Escape(s) + ([CLOSE_PAREN] + rest), 0) == Some((Shown(s), rest))
  {
    var tail := [CLOSE_PAREN] + rest;
    if s == [] {
      assert [] + tail == tail && tail[1..] == rest;
    } else if |s| > 1 && IsLead(s[0]) && IsTrail(s[1]) {
      LiteralReads(s[2..], rest);
      Assoc([QUESTION], Escape(s[2..]), tail);
      PlainReads(QUESTION, Escape(s[2..]) + tail);
    } else {
      LiteralReads(s[1..], rest);
      Assoc(EscapeUnit(s[0]), Escape(s[1..]), tail);
      UnitReads(s[0], Escape(s[1..]) + tail, (Shown(s[1..]), rest));
    }
  }

  /** An escaped line fits a byte per unit and has no line break. */
  lemma {:induction false} EscapedIsPrintable(s: Text)
    ensures forall i :: 0 <= i < |Escape(s)| ==> 32 <= Escape(s)[i] <= 255
  {
    if s == [] {
    } else if |s| > 1 && IsLead(s[0]) && IsTrail(s[1]) {
      EscapedIsPrintable(s[2..]);
    } else {
      EscapedIsPrintable(s[1..]);
    }
  }
}
