/**
 * Strings of the original program as sequences of UTF-16 code units, so that lone
 * surrogates and code-unit order are what they are there.
 */
module Texts {
  import opened Wrappers

  type Unit = u: int | 0 <= u < 0x10000
  type Text = seq<Unit>

  const QUOTE: Unit := 34
  const COMMA: Unit := 44
  const MINUS: Unit := 45
  const ZERO: Unit := 48
  const COLON: Unit := 58
  const OPEN_BRACKET: Unit := 91
  const BACKSLASH: Unit := 92
  const CLOSE_BRACKET: Unit := 93
  const OPEN_BRACE: Unit := 123
  const BAR: Unit := 124
  const CLOSE_BRACE: Unit := 125

  predicate IsLead(u: Unit) {
    0xD800 <= u < 0xDC00
  }

  predicate IsTrail(u: Unit) {
    0xDC00 <= u < 0xE000
  }

  predicate IsDigit(u: Unit) {
    ZERO <= u <= 57
  }

  function Digits(n: nat): Text {
    if n < 10 then [ZERO + n] else Digits(n / 10) + [ZERO + n % 10]
  }

  /** How the program prints an integer (below 10^21 in absolute value). */
  function Decimal(n: int): Text {
    if n < 0 then [MINUS] + Digits(-n) else Digits(n)
  }

  function DigitsValue(t: Text): int {
    if t == [] then 0 else 10 * DigitsValue(t[..|t| - 1]) + (t[|t| - 1] - ZERO)
  }

  lemma {:induction false} DigitsRead(n: nat)
    ensures DigitsValue(Digits(n)) == n && Digits(n) != []
    ensures forall i :: 0 <= i < |Digits(n)| ==> IsDigit(Digits(n)[i])
  {
    if n < 10 {
      assert Digits(n)[..0] == [];
    } else {
      DigitsRead(n / 10);
      assert Digits(n)[..|Digits(n)| - 1] == Digits(n / 10);
    }
  }

  /** Two texts split at the first unit where p stops holding split in the same place. */
  lemma {:induction false} SplitIsUnique(a: Text, r: Text, b: Text, s: Text, p: Unit -> bool)
    requires a + r == b + s
    requires (forall i :: 0 <= i < |a| ==> p(a[i])) && (forall i :: 0 <= i < |b| ==> p(b[i]))
    requires (r == [] || !p(r[0])) && (s == [] || !p(s[0]))
    ensures a == b && r == s
  {
    var w := a + r;
    assert forall i :: 0 <= i < |a| ==> w[i] == a[i];
    assert forall i :: 0 <= i < |b| ==> w[i] == b[i];
    assert r != [] ==> w[|a|] == r[0];
    assert s != [] ==> w[|b|] == s[0];
    assert |a| == |b|;
    assert a == w[..|a|] && b == w[..|a|] && r == w[|a|..] && s == w[|a|..];
  }

  lemma DigitsAreUnique(m: nat, r: Text, n: nat, s: Text)
    requires Digits(m) + r == Digits(n) + s
    requires (r == [] || !IsDigit(r[0])) && (s == [] || !IsDigit(s[0]))
    ensures m == n && r == s
  {
    DigitsRead(m);
    DigitsRead(n);
    SplitIsUnique(Digits(m), r, Digits(n), s, IsDigit);
  }

  lemma Assoc(a: Text, b: Text, c: Text)
    ensures (a + b) + c == a + (b + c)
  {
  }

  lemma SameFirst(a: Text, r: Text, b: Text, s: Text)
    requires a + r == b + s && a != [] && b != []
    ensures a[0] == b[0]
  {
    assert (a + r)[0] == a[0] && (b + s)[0] == b[0];
  }

  lemma DropFirst(a: Text, a': Text, r: Text, b: Text, b': Text, s: Text)
    requires a + r == b + s && a != [] && b != [] && a == [a[0]] + a' && b == [b[0]] + b'
    ensures a[0] == b[0] && a' + r == b' + s
  {
    assert (a + r)[1..] == a' + r && (b + s)[1..] == b' + s;
    SameFirst(a, r, b, s);
  }

  lemma DecimalStarts(n: int)
    ensures Decimal(n) != [] && (Decimal(n)[0] == MINUS <==> n < 0)
    ensures Decimal(n)[0] == MINUS || IsDigit(Decimal(n)[0])
  {
    DigitsRead(if n < 0 then -n else n);
  }

  /** A decimal number is read back from any text that goes on with something else than a digit. */
  lemma DecimalIsUnique(m: int, r: Text, n: int, s: Text)
    requires Decimal(m) + r == Decimal(n) + s
    requires (r == [] || !IsDigit(r[0])) && (s == [] || !IsDigit(s[0]))
    ensures m == n && r == s
  {
    DecimalStarts(m);
    DecimalStarts(n);
    SameFirst(Decimal(m), r, Decimal(n), s);
    if m < 0 {
      DropFirst(Decimal(m), Digits(-m), r, Decimal(n), Digits(-n), s);
      DigitsAreUnique(-m, r, -n, s);
    } else {
      DigitsAreUnique(m, r, n, s);
    }
  }

  /** Order of strings by code units, as `<` compares them. */
  predicate AtMost(a: Text, b: Text) {
    a == [] || (b != [] && (a[0] < b[0] || (a[0] == b[0] && AtMost(a[1..], b[1..]))))
  }

  lemma {:induction false} AtMostTotal(a: Text, b: Text)
    ensures AtMost(a, b) || AtMost(b, a)
    ensures AtMost(a, b) && AtMost(b, a) ==> a == b
  {
    if a != [] && b != [] {
      AtMostTotal(a[1..], b[1..]);
      assert a == [a[0]] + a[1..] && b == [b[0]] + b[1..];
    }
  }

  lemma {:induction false} AtMostTransitive(a: Text, b: Text, c: Text)
    requires AtMost(a, b) && AtMost(b, c)
    ensures AtMost(a, c)
  {
    if a != [] && a[0] == b[0] && b[0] == c[0] {
      AtMostTransitive(a[1..], b[1..], c[1..]);
    }
  }

  // ---- reading ---------------------------------------------------------------------------------

  /** The code units of a text written in ASCII. */
  function Ascii(s: string): (t: Text)
    ensures |t| == |s| && forall i :: 0 <= i < |t| ==> t[i] < 128
  {
    seq(|s|, i requires 0 <= i < |s| => if s[i] as int < 128 then s[i] as int else 63)
  }

  /** What follows a prefix. */
  function Expect(t: Text, prefix: Text): (rest: Option<Text>)
    ensures rest.Some? ==> |rest.value| <= |t|
  {
    if prefix <= t then Some(t[|prefix|..]) else None
  }

  /** A unit in front of what was read. */
  function Prepend(u: Unit, r: Option<(Text, Text)>): Option<(Text, Text)> {
    if r.None? then None else Some(([u] + r.value.0, r.value.1))
  }

  lemma ExpectReads(prefix: Text, rest: Text)
    ensures Expect(prefix + rest, prefix) == Some(rest)
  {
  }

  /** How many digits a text starts with. */
  function LeadingDigits(t: Text): nat
    ensures LeadingDigits(t) <= |t|
  {
    if t == [] || !IsDigit(t[0]) then 0 else 1 + LeadingDigits(t[1..])
  }

  function ReadNumber(t: Text): (n: Option<(int, Text)>)
    ensures n.Some? ==> |n.value.1| < |t|
  {
    var n := LeadingDigits(t);
    if n == 0 then None else Some((DigitsValue(t[..n]), t[n..]))
  }

  lemma {:induction false} LeadingDigitsAre(digits: Text, rest: Text)
    requires forall i :: 0 <= i < |digits| ==> IsDigit(digits[i])
    requires rest == [] || !IsDigit(rest[0])
    ensures LeadingDigits(digits + rest) == |digits|
  {
    if digits == [] {
      assert digits + rest == rest;
    } else {
      LeadingDigitsAre(digits[1..], rest);
      assert (digits + rest)[1..] == digits[1..] + rest;
    }
  }

  lemma NumberReads(n: nat, rest: Text)
    requires rest == [] || !IsDigit(rest[0])
    ensures ReadNumber(Decimal(n) + rest) == Some((n, rest))
  {
    DigitsRead(n);
    LeadingDigitsAre(Digits(n), rest);
    assert (Digits(n) + rest)[..|Digits(n)|] == Digits(n);
  }

  /** How many digits a text ends with. */
  function TrailingDigits(t: Text): nat
    ensures TrailingDigits(t) <= |t|
  {
    if t == [] || !IsDigit(t[|t| - 1]) then 0 else 1 + TrailingDigits(t[..|t| - 1])
  }

  function ReadLastNumber(t: Text): int {
    DigitsValue(t[|t| - TrailingDigits(t)..])
  }

  lemma {:induction false} TrailingDigitsAre(front: Text, digits: Text)
    requires forall i :: 0 <= i < |digits| ==> IsDigit(digits[i])
    requires front == [] || !IsDigit(front[|front| - 1])
    ensures TrailingDigits(front + digits) == |digits|
  {
    if digits == [] {
      assert front + digits == front;
    } else {
      var n := |digits| - 1;
      TrailingDigitsAre(front, digits[..n]);
      assert (front + digits)[..|front| + n] == front + digits[..n];
    }
  }

  lemma LastNumberReads(front: Text, n: nat)
    requires front == [] || !IsDigit(front[|front| - 1])
    ensures ReadLastNumber(front + Decimal(n)) == n
  {
    DigitsRead(n);
    TrailingDigitsAre(front, Digits(n));
    assert (front + Digits(n))[|front|..] == Digits(n);
  }

  // ---- lines -------------------------------------------------------------------------------------

  const LINE_FEED: Unit := 10

  function JoinLines(lines: seq<Text>): Text {
    if lines == [] then []
    else if |lines| == 1 then lines[0]
    else lines[0] + ([LINE_FEED] + JoinLines(lines[1..]))
  }

  /** The lines of a text, the last one after the last line feed. */
  function SplitLines(t: Text): (lines: seq<Text>)
    ensures lines != []
  {
    if t == [] then [[]]
    else
      var rest := SplitLines(t[1..]);
      if t[0] == LINE_FEED then [[]] + rest else [[t[0]] + rest[0]] + rest[1..]
  }

  lemma {:induction false} SplitFirstLine(line: Text, rest: Text)
    requires LINE_FEED !in line
    ensures SplitLines(line + ([LINE_FEED] + rest)) == [line] + SplitLines(rest)
  {
    var t := line + ([LINE_FEED] + rest);
    if line == [] {
      assert t == [LINE_FEED] + rest && t[1..] == rest;
    } else {
      SplitFirstLine(line[1..], rest);
      assert t[1..] == line[1..] + ([LINE_FEED] + rest);
      assert line == [line[0]] + line[1..];
    }
  }

  lemma {:induction false} SplitOneLine(line: Text)
    requires LINE_FEED !in line
    ensures SplitLines(line) == [line]
  {
    if line != [] {
      SplitOneLine(line[1..]);
      assert line == [line[0]] + line[1..];
    }
  }

  /** Joining lines and splitting them again gives the lines. */
  lemma {:induction false} LinesSplit(lines: seq<Text>)
    requires lines != [] && forall i :: 0 <= i < |lines| ==> LINE_FEED !in lines[i]
    ensures SplitLines(JoinLines(lines)) == lines
  {
    if |lines| == 1 {
      SplitOneLine(lines[0]);
    } else {
      LinesSplit(lines[1..]);
      SplitFirstLine(lines[0], JoinLines(lines[1..]));
    }
  }

  lemma {:induction false} JoinedLinesSmall(lines: seq<Text>, bound: int)
    requires bound > LINE_FEED && forall i, j :: 0 <= i < |lines| && 0 <= j < |lines[i]| ==> lines[i][j] < bound
    ensures forall j :: 0 <= j < |JoinLines(lines)| ==> JoinLines(lines)[j] < bound
  {
    if |lines| > 1 {
      assert forall i, j :: 0 <= i < |lines[1..]| && 0 <= j < |lines[1..][i]| ==> lines[1..][i][j] == lines[i + 1][j];
      JoinedLinesSmall(lines[1..], bound);
    }
  }

  // ---- fixed width -------------------------------------------------------------------------------

  function Pow10(k: nat): nat {
    if k == 0 then 1 else 10 * Pow10(k - 1)
  }

  /** A number has at most k digits exactly when it is below ten to the k. */
  lemma {:induction false} DigitsWidth(n: nat, k: nat)
    requires k >= 1
    ensures |Digits(n)| <= k <==> n < Pow10(k)
  {
    if k == 1 {
      assert Pow10(1) == 10 * Pow10(0) == 10;
      if n >= 10 { DigitsRead(n / 10); }
    } else if n < 10 {
      Pow10AtLeast(k);
    } else {
      DigitsWidth(n / 10, k - 1);
    }
  }

  lemma {:induction false} Pow10AtLeast(k: nat)
    requires k >= 1
    ensures Pow10(k) >= 10
  {
    if k > 1 { Pow10AtLeast(k - 1); }
  }

  const TEN_DIGITS: nat := 10_000_000_000

  function Zeros(n: nat): Text {
    seq(n, _ => ZERO)
  }

  /** padStart(10, "0"): numbers of more digits are left as they are. */
  function Pad10(t: Text): Text {
    if |t| >= 10 then t else Zeros(10 - |t|) + t
  }

  lemma {:induction false} ZerosValue(n: nat)
    ensures DigitsValue(Zeros(n)) == 0
  {
    if n > 0 {
      ZerosValue(n - 1);
      assert Zeros(n)[..n - 1] == Zeros(n - 1);
    }
  }

  lemma {:induction false} LeadingZerosVanish(n: nat, digits: Text)
    ensures DigitsValue(Zeros(n) + digits) == DigitsValue(digits)
  {
    if digits == [] {
      ZerosValue(n);
      assert Zeros(n) + digits == Zeros(n);
    } else {
      var m := |digits| - 1;
      LeadingZerosVanish(n, digits[..m]);
      assert (Zeros(n) + digits)[..n + m] == Zeros(n) + digits[..m];
    }
  }

  lemma PaddedReads(n: nat)
    ensures |Pad10(Decimal(n))| == 10 <==> n < TEN_DIGITS
    ensures DigitsValue(Pad10(Decimal(n))) == n
  {
    DigitsRead(n);
    DigitsWidth(n, 10);
    assert Pow10(10) == TEN_DIGITS;
    if |Digits(n)| < 10 {
      LeadingZerosVanish(10 - |Digits(n)|, Digits(n));
    }
  }
}
