/**
 * The CSV of a report, against a reader of quoted fields (rules 5 to 7 of section 2 of RFC
 * 4180) that ends rows at a line feed.
 */
module Csv {
  import opened Wrappers
  import opened Texts

  datatype Value = Words(text: Text) | Number(n: int) | Missing

  function CellText(v: Value): Text {
    match v
    case Words(text) => text
    case Number(n) => Decimal(n)
    case Missing => []
  }

  predicate IsSpecial(u: Unit) {
    u == QUOTE || u == COMMA || u == LINE_FEED
  }

  predicate NeedsQuotes(s: Text) {
    exists i :: 0 <= i < |s| && IsSpecial(s[i])
  }

  function DoubleQuotes(s: Text): Text {
    if s == [] then [] else (if s[0] == QUOTE then [QUOTE, QUOTE] else [s[0]]) + DoubleQuotes(s[1..])
  }

  function Escape(v: Value): Text {
    var s := CellText(v);
    if NeedsQuotes(s) then [QUOTE] + (DoubleQuotes(s) + [QUOTE]) else s
  }

  function RowText(row: seq<Value>): Text {
    if row == [] then []
    else if |row| == 1 then Escape(row[0])
    else Escape(row[0]) + ([COMMA] + RowText(row[1..]))
  }

  /** The rows, each ended by a line feed. */
  function RowsText(rows: seq<seq<Value>>): Text {
    if rows == [] then [] else RowText(rows[0]) + ([LINE_FEED] + RowsText(rows[1..]))
  }

  /** The description of the report and its column names come first, as they are. */
  function ToCsv(description: Text, columns: Text, rows: seq<seq<Value>>): Text {
    JoinLines([description, columns] + seq(|rows|, i requires 0 <= i < |rows| => RowText(rows[i]))) + [LINE_FEED]
  }

  // ---- reader ------------------------------------------------------------------------------------

  /** A field behind its opening quote, and what follows its closing one. */
  function ReadQuoted(t: Text): (r: Option<(Text, Text)>)
    ensures r.Some? ==> |r.value.1| <= |t|
  {
    if t == [] then None
    else if t[0] != QUOTE then Prepend(t[0], ReadQuoted(t[1..]))
    else if |t| > 1 && t[1] == QUOTE then Prepend(QUOTE, ReadQuoted(t[2..]))
    else Some(([], t[1..]))
  }

  /** A field without quotes, and what follows it. */
  function ReadPlain(t: Text): (r: Option<(Text, Text)>)
    ensures r.Some? ==> |r.value.1| <= |t|
  {
    if t == [] || t[0] == COMMA || t[0] == LINE_FEED then Some(([], t))
    else if t[0] == QUOTE then None
    else Prepend(t[0], ReadPlain(t[1..]))
  }

  function ReadField(t: Text): (r: Option<(Text, Text)>)
    ensures r.Some? ==> |r.value.1| <= |t|
  {
    if t != [] && t[0] == QUOTE then ReadQuoted(t[1..]) else ReadPlain(t)
  }

  /** The fields up to the next line feed outside quotes, and what follows it. */
  function ReadRow(t: Text): (r: Option<(seq<Text>, Text)>)
    ensures r.Some? ==> |r.value.1| < |t|
    decreases |t|
  {
    var field :- ReadField(t);
    if field.1 == [] then None
    else if field.1[0] == LINE_FEED then Some(([field.0], field.1[1..]))
    else if field.1[0] == COMMA then
      var rest :- ReadRow(field.1[1..]);
      Some(([field.0] + rest.0, rest.1))
    else None
  }

  function ReadRows(t: Text): Option<seq<seq<Text>>>
    decreases |t|
  {
    if t == [] then Some([])
    else
      var row :- ReadRow(t);
      var rest :- ReadRows(row.1);
      Some([row.0] + rest)
  }

  /** What follows the first line feed. */
  function AfterLine(t: Text): Text {
    if t == [] then [] else if t[0] == LINE_FEED then t[1..] else AfterLine(t[1..])
  }

  /** The rows behind the two lines of description. */
  function ReadData(file: Text): Option<seq<seq<Text>>> {
    ReadRows(AfterLine(AfterLine(file)))
  }

  // ---- the reader finds the cells -------------------------------------------------------------------

  ghost predicate Ends(rest: Text) {
    rest != [] && (rest[0] == COMMA || rest[0] == LINE_FEED)
  }

  lemma {:induction false} PlainReads(s: Text, rest: Text)
    requires !NeedsQuotes(s) && Ends(rest)
    ensures ReadPlain(s + rest) == Some((s, rest))
  {
    if s == [] {
      assert s + rest == rest;
    } else {
      assert !IsSpecial(s[0]);
      assert !NeedsQuotes(s[1..]) by {
        assert forall i :: 0 <= i < |s[1..]| ==> s[1..][i] == s[i + 1];
      }
      PlainReads(s[1..], rest);
      assert (s + rest)[1..] == s[1..] + rest;
      assert s == [s[0]] + s[1..];
    }
  }

  lemma {:induction false} QuotedReads(s: Text, rest: Text)
    requires rest == [] || rest[0] != QUOTE
    ensures ReadQuoted(DoubleQuotes(s) + ([QUOTE] + rest)) == Some((s, rest))
  {
    var tail := [QUOTE] + rest;
    if s == [] {
      assert DoubleQuotes(s) + tail == tail;
      assert tail[1..] == rest;
    } else {
      QuotedReads(s[1..], rest);
      var first := if s[0] == QUOTE then [QUOTE, QUOTE] else [s[0]];
      Assoc(first, DoubleQuotes(s[1..]), tail);
      assert (first + (DoubleQuotes(s[1..]) + tail))[|first|..] == DoubleQuotes(s[1..]) + tail;
      assert s == [s[0]] + s[1..];
    }
  }

  lemma FieldReads(v: Value, rest: Text)
    requires Ends(rest)
    ensures ReadField(Escape(v) + rest) == Some((CellText(v), rest))
  {
    var s := CellText(v);
    if NeedsQuotes(s) {
      QuotedReads(s, rest);
      Assoc(DoubleQuotes(s), [QUOTE], rest);
      assert ([QUOTE] + (DoubleQuotes(s) + [QUOTE])) + rest == [QUOTE] + ((DoubleQuotes(s) + [QUOTE]) + rest);
    } else {
      PlainReads(s, rest);
      if s != [] {
        assert !IsSpecial(s[0]);
        assert (s + rest)[0] == s[0];
      } else {
        assert s + rest == rest;
      }
    }
  }

  /** What a row is read as: its cell texts, but a row of no cells is one empty cell. */
  function Cells(row: seq<Value>): seq<Text> {
    if row == [] then [[]] else RowTexts(row)
  }

  function RowTexts(row: seq<Value>): seq<Text> {
    if row == [] then [] else [CellText(row[0])] + RowTexts(row[1..])
  }

  lemma RowEnds(t: Text, cell: Text, rest: Text)
    requires ReadField(t) == Some((cell, [LINE_FEED] + rest))
    ensures ReadRow(t) == Some(([cell], rest))
  {
    assert ([LINE_FEED] + rest)[1..] == rest;
  }

  lemma RowGoesOn(t: Text, cell: Text, next: Text, row: (seq<Text>, Text))
    requires ReadField(t) == Some((cell, [COMMA] + next)) && ReadRow(next) == Some(row)
    ensures ReadRow(t) == Some(([cell] + row.0, row.1))
  {
    assert ([COMMA] + next)[1..] == next;
  }

  lemma {:induction false} RowReads(row: seq<Value>, rest: Text)
    ensures ReadRow(RowText(row) + ([LINE_FEED] + rest)) == Some((Cells(row), rest))
  {
    var tail := [LINE_FEED] + rest;
    if row == [] {
      FieldReads(Missing, tail);
      RowEnds(RowText(row) + tail, [], rest);
    } else if |row| == 1 {
      FieldReads(row[0], tail);
      RowEnds(RowText(row) + tail, CellText(row[0]), rest);
      assert RowTexts(row) == [CellText(row[0])];
    } else {
      var next := RowText(row[1..]) + tail;
      RowReads(row[1..], rest);
      Assoc(Escape(row[0]), [COMMA] + RowText(row[1..]), tail);
      Assoc([COMMA], RowText(row[1..]), tail);
      FieldReads(row[0], [COMMA] + next);
      RowGoesOn(RowText(row) + tail, CellText(row[0]), next, (Cells(row[1..]), rest));
    }
  }

  function CellsOfRows(rows: seq<seq<Value>>): seq<seq<Text>> {
    seq(|rows|, i requires 0 <= i < |rows| => Cells(rows[i]))
  }

  /** The data part gives back the texts of all cells, whatever quotes, commas and line feeds they hold. */
  lemma {:induction false} RowsRead(rows: seq<seq<Value>>)
    ensures ReadRows(RowsText(rows)) == Some(CellsOfRows(rows))
  {
    if rows == [] {
      assert CellsOfRows(rows) == [];
    } else {
      RowReads(rows[0], RowsText(rows[1..]));
      RowsRead(rows[1..]);
      assert CellsOfRows(rows) == [Cells(rows[0])] + CellsOfRows(rows[1..]);
    }
  }

  function TextsOfRows(rows: seq<seq<Value>>): seq<seq<Text>> {
    seq(|rows|, i requires 0 <= i < |rows| => RowTexts(rows[i]))
  }

  /** The rows are recovered cell by cell exactly when none of them is empty. */
  lemma RowsRoundTripIff(rows: seq<seq<Value>>)
    ensures ReadRows(RowsText(rows)) == Some(TextsOfRows(rows)) <==> forall i :: 0 <= i < |rows| ==> rows[i] != []
  {
    RowsRead(rows);
    if i :| 0 <= i < |rows| && rows[i] == [] {
      assert CellsOfRows(rows)[i] == [[]] && TextsOfRows(rows)[i] == [];
    } else {
      assert CellsOfRows(rows) == TextsOfRows(rows);
    }
  }

  // ---- the whole file --------------------------------------------------------------------------------

  lemma {:induction false} JoinedRows(description: Text, rows: seq<seq<Value>>)
    ensures JoinLines([description] + seq(|rows|, i requires 0 <= i < |rows| => RowText(rows[i]))) + [LINE_FEED]
      == description + ([LINE_FEED] + RowsText(rows))
    decreases |rows|
  {
    var lines := [description] + seq(|rows|, i requires 0 <= i < |rows| => RowText(rows[i]));
    if rows == [] {
      assert lines == [description];
    } else {
      var rest := [RowText(rows[0])] + seq(|rows[1..]|, i requires 0 <= i < |rows[1..]| => RowText(rows[1..][i]));
      assert lines[1..] == rest;
      JoinedRows(RowText(rows[0]), rows[1..]);
      Assoc([LINE_FEED], JoinLines(rest), [LINE_FEED]);
      Assoc(description, [LINE_FEED] + JoinLines(rest), [LINE_FEED]);
    }
  }

  lemma FileIs(description: Text, columns: Text, rows: seq<seq<Value>>)
    ensures ToCsv(description, columns, rows)
      == description + ([LINE_FEED] + (columns + ([LINE_FEED] + RowsText(rows))))
  {
    var data := seq(|rows|, i requires 0 <= i < |rows| => RowText(rows[i]));
    var lines := [description, columns] + data;
    assert lines[1..] == [columns] + data;
    JoinedRows(columns, rows);
    Assoc([LINE_FEED], JoinLines([columns] + data), [LINE_FEED]);
    Assoc(description, [LINE_FEED] + JoinLines([columns] + data), [LINE_FEED]);
  }

  lemma {:induction false} AfterLineSkips(line: Text, rest: Text)
    requires LINE_FEED !in line
    ensures AfterLine(line + ([LINE_FEED] + rest)) == rest
  {
    var t := line + ([LINE_FEED] + rest);
    if line == [] {
      assert t == [LINE_FEED] + rest && t[1..] == rest;
    } else {
      AfterLineSkips(line[1..], rest);
      assert line[0] in line;
      assert t[1..] == line[1..] + ([LINE_FEED] + rest);
    }
  }

  /** From the file: every cell of every non-empty row, when name and column names have no line feed. */
  lemma FileReads(description: Text, columns: Text, rows: seq<seq<Value>>)
    requires LINE_FEED !in description && LINE_FEED !in columns
    ensures ReadData(ToCsv(description, columns, rows)) == Some(CellsOfRows(rows))
  {
    FileIs(description, columns, rows);
    AfterLineSkips(description, columns + ([LINE_FEED] + RowsText(rows)));
    AfterLineSkips(columns, RowsText(rows));
    RowsRead(rows);
  }

  /** One row without cells comes back as a row of one empty cell. */
  lemma EmptyRowComesBackLonger()
    ensures ReadRows(RowsText([[]])) == Some([[[]]])
  {
    RowsRead([[]]);
    assert CellsOfRows([[]]) == [Cells([])];
  }
}
