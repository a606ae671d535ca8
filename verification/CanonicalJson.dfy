/** The canonical JSON printer, and the proof that its text determines the value. */
module CanonicalJson {
  import opened Wrappers
  import opened Sorting
  import opened Texts

  type SafeInteger = n: int | -0x1F_FFFF_FFFF_FFFF <= n <= 0x1F_FFFF_FFFF_FFFF

  datatype Json =
    | Undefined
    | Null
    | Bool(b: bool)
    | Num(n: SafeInteger)
    | Str(s: Text)
    | Arr(items: seq<Json>)
    | Obj(members: seq<Member>)

  datatype Member = Member(key: Text, value: Json)

  // ---- strings: section 7 of RFC 8259 -------------------------------------------------------

  function HexDigit(d: int): Unit
    requires 0 <= d < 16
  {
    if d < 10 then 48 + d else 87 + d
  }

  function Hex(u: Unit): Text {
    var v := u / 16;
    var w := v / 16;
    [HexDigit(w / 16), HexDigit(w % 16), HexDigit(v % 16), HexDigit(u % 16)]
  }

  function EscapeUnit(u: Unit): Text {
    if u == QUOTE then [BACKSLASH, QUOTE]
    else if u == BACKSLASH then [BACKSLASH, BACKSLASH]
    else if u == 8 then [BACKSLASH, 98]
    else if u == 9 then [BACKSLASH, 116]
    else if u == 10 then [BACKSLASH, 110]
    else if u == 12 then [BACKSLASH, 102]
    else if u == 13 then [BACKSLASH, 114]
    else if u < 32 || IsLead(u) || IsTrail(u) then [BACKSLASH, 117] + Hex(u)
    else [u]
  }

  /** A well-formed surrogate pair is printed as it is; a lone surrogate is escaped. */
  function Escape(s: Text): Text {
    if s == [] then []
    else if |s| > 1 && IsLead(s[0]) && IsTrail(s[1]) then [s[0], s[1]] + Escape(s[2..])
    else EscapeUnit(s[0]) + Escape(s[1..])
  }

  function Quote(s: Text): Text {
    [QUOTE] + (Escape(s) + [QUOTE])
  }

  function HexValue(u: Unit): Option<int> {
    if 48 <= u <= 57 then Some(u - 48)
    else if 97 <= u <= 102 then Some(u - 87)
    else if 65 <= u <= 70 then Some(u - 55)
    else None
  }

  function ReadHex(t: Text): Option<int>
    requires |t| == 4
  {
    var a, b, c, d := HexValue(t[0]), HexValue(t[1]), HexValue(t[2]), HexValue(t[3]);
    if a.Some? && b.Some? && c.Some? && d.Some?
    then Some(16 * (16 * (16 * a.value + b.value) + c.value) + d.value)
    else None
  }

  function ReadEscape(u: Unit): Option<Unit> {
    if u == QUOTE || u == BACKSLASH || u == 47 then Some(u)
    else if u == 98 then Some(8)
    else if u == 116 then Some(9)
    else if u == 110 then Some(10)
    else if u == 102 then Some(12)
    else if u == 114 then Some(13)
    else None
  }

  /** An independent reader: the string that ends at the first unescaped quote, and what follows it. */
  function ReadString(t: Text): Option<(Text, Text)> {
    if t == [] || t[0] < 32 then None
    else if t[0] == QUOTE then Some(([], t[1..]))
    else if t[0] != BACKSLASH then Prepend(t[0], ReadString(t[1..]))
    else if |t| >= 6 && t[1] == 117 then
      var u := ReadHex(t[2..6]);
      if u.Some? && 0 <= u.value < 0x10000 then Prepend(u.value, ReadString(t[6..])) else None
    else if |t| >= 2 && ReadEscape(t[1]).Some? then Prepend(ReadEscape(t[1]).value, ReadString(t[2..]))
    else None
  }

  lemma HexRead(u: Unit)
    ensures ReadHex(Hex(u)) == Some(u)
  {
    var v := u / 16;
    var w := v / 16;
    DigitRead(w / 16);
    DigitRead(w % 16);
    DigitRead(v % 16);
    DigitRead(u % 16);
  }

  lemma DigitRead(d: int)
    requires 0 <= d < 16
    ensures HexValue(HexDigit(d)) == Some(d)
  {
  }

  lemma UnitRead(u: Unit, t: Text)
    ensures ReadString(EscapeUnit(u) + t) == Prepend(u, ReadString(t))
  {
    var x := EscapeUnit(u) + t;
    if |EscapeUnit(u)| == 6 {
      HexRead(u);
      assert x[2..6] == Hex(u) && x[6..] == t && x[1] == 117;
    } else if |EscapeUnit(u)| == 2 {
      assert x[2..] == t && x[1] == EscapeUnit(u)[1] != 117;
      assert ReadEscape(x[1]) == Some(u);
    } else {
      assert x[1..] == t;
    }
  }

  lemma PlainRead(u: Unit, t: Text)
    requires u >= 32 && u != QUOTE && u != BACKSLASH
    ensures ReadString([u] + t) == Prepend(u, ReadString(t))
  {
    assert ([u] + t)[1..] == t;
  }

  /** Printing a string and reading it back gives the string, whatever follows it. */
  lemma {:induction false} StringReads(s: Text, rest: Text)
    ensures ReadString(Escape(s) + ([QUOTE] + rest)) == Some((s, rest))
  {
    var tail := [QUOTE] + rest;
    if s == [] {
      assert [] + tail == tail && tail[1..] == rest;
    } else if |s| > 1 && IsLead(s[0]) && IsTrail(s[1]) {
      StringReads(s[2..], rest);
      var t := Escape(s[2..]) + tail;
      Assoc([s[0], s[1]], Escape(s[2..]), tail);
      assert [s[0], s[1]] + t == [s[0]] + ([s[1]] + t);
      PlainRead(s[0], [s[1]] + t);
      PlainRead(s[1], t);
      assert [s[0]] + ([s[1]] + s[2..]) == s;
    } else {
      StringReads(s[1..], rest);
      Assoc(EscapeUnit(s[0]), Escape(s[1..]), tail);
      UnitRead(s[0], Escape(s[1..]) + tail);
      assert [s[0]] + s[1..] == s;
    }
  }

  lemma QuoteIsUnique(x: Text, r: Text, y: Text, s: Text)
    requires Quote(x) + r == Quote(y) + s
    ensures x == y && r == s
  {
    DropFirst(Quote(x), Escape(x) + [QUOTE], r, Quote(y), Escape(y) + [QUOTE], s);
    Assoc(Escape(x), [QUOTE], r);
    Assoc(Escape(y), [QUOTE], s);
    StringReads(x, r);
    StringReads(y, s);
  }

  // ---- values --------------------------------------------------------------------------------

  const NULL: Text := [110, 117, 108, 108]
  const TRUE: Text := [116, 114, 117, 101]
  const FALSE: Text := [102, 97, 108, 115, 101]

  type Entry = (Text, Text)

  predicate ByKey(a: Entry, b: Entry) {
    AtMost(a.0, b.0)
  }

  /**
   * Members without a value are dropped, the others come in the order of their keys
   * (code units, section 3.2.3 of RFC 8785). Member values are printed before the sort
   * here and after it in the program, which is the same since the sort looks at keys only.
   */
  function Canonical(v: Json): Text
    decreases v, 0
  {
    match v
    case Undefined => NULL
    case Null => NULL
    case Bool(b) => if b then TRUE else FALSE
    case Num(n) => Decimal(n)
    case Str(s) => Quote(s)
    case Arr(items) => [OPEN_BRACKET] + (CanonicalItems(items) + [CLOSE_BRACKET])
    case Obj(members) => [OPEN_BRACE] + (JoinEntries(Sort(ByKey, Entries(members))) + [CLOSE_BRACE])
  }

  function CanonicalItems(items: seq<Json>): Text
    decreases items, 0
  {
    if items == [] then []
    else if |items| == 1 then Canonical(items[0])
    else Canonical(items[0]) + ([COMMA] + CanonicalItems(items[1..]))
  }

  function Entries(members: seq<Member>): seq<Entry>
    decreases members, 0
  {
    if members == [] then []
    else
      (if members[0].value.Undefined? then [] else [(members[0].key, Canonical(members[0].value))])
      + Entries(members[1..])
  }

  function PrintEntry(e: Entry): Text {
    Quote(e.0) + ([COLON] + e.1)
  }

  function JoinEntries(es: seq<Entry>): Text {
    if es == [] then []
    else if |es| == 1 then PrintEntry(es[0])
    else PrintEntry(es[0]) + ([COMMA] + JoinEntries(es[1..]))
  }

  /** Object keys do not repeat, at any depth. */
  ghost predicate DistinctKeys(v: Json) {
    match v
    case Arr(items) => forall x :: x in items ==> DistinctKeys(x)
    case Obj(members) =>
      && (forall i, j :: 0 <= i < j < |members| ==> members[i].key != members[j].key)
      && (forall m :: m in members ==> DistinctKeys(m.value))
    case _ => true
  }

  /** Equal up to the order of keys, members without a value, and undefined standing for null. */
  ghost predicate Equivalent(a: Json, b: Json)
    decreases a, 0
  {
    match a
    case Undefined => b.Undefined? || b.Null?
    case Null => b.Undefined? || b.Null?
    case Bool(_) => a == b
    case Num(_) => a == b
    case Str(_) => a == b
    case Arr(xs) => b.Arr? && |xs| == |b.items| && forall i :: 0 <= i < |xs| ==> Equivalent(xs[i], b.items[i])
    case Obj(ms) =>
      && b.Obj?
      && (forall m :: m in ms && !m.value.Undefined? ==> exists n :: n in b.members && Matches(m, n))
      && (forall n :: n in b.members && !n.value.Undefined? ==> exists m :: m in ms && Matches(m, n))
  }

  /** Two members with values that say the same. */
  ghost predicate Matches(m: Member, n: Member)
    decreases m, 0
  {
    !m.value.Undefined? && !n.value.Undefined? && m.key == n.key && Equivalent(m.value, n.value)
  }

  ghost predicate Delimited(r: Text) {
    r == [] || r[0] == COMMA || r[0] == CLOSE_BRACKET || r[0] == CLOSE_BRACE
  }

  /** The first unit of a printed value tells which kind of value it is. */
  lemma FirstUnit(v: Json)
    ensures Canonical(v) != []
    ensures
      var u := Canonical(v)[0];
      match v
      case Undefined => u == 110
      case Null => u == 110
      case Bool(b) => u == if b then 116 else 102
      case Num(_) => u == MINUS || IsDigit(u)
      case Str(_) => u == QUOTE
      case Arr(_) => u == OPEN_BRACKET
      case Obj(_) => u == OPEN_BRACE
  {
    if v.Num? {
      DigitsRead(if v.n < 0 then -v.n else v.n);
    }
  }

  /** A member with a value is printed as this entry. */
  ghost predicate PrintedBy(e: Entry, members: seq<Member>) {
    exists m :: m in members && !m.value.Undefined? && e == (m.key, Canonical(m.value))
  }

  ghost predicate MadeFrom(es: seq<Entry>, members: seq<Member>) {
    forall i :: 0 <= i < |es| ==> PrintedBy(es[i], members)
  }

  lemma {:induction false} EntryOrigin(members: seq<Member>, e: Entry)
    ensures e in Entries(members) <==> PrintedBy(e, members)
  {
    if members != [] {
      EntryOrigin(members[1..], e);
      assert members == [members[0]] + members[1..];
    }
  }

  lemma SortedEntries(members: seq<Member>)
    ensures MadeFrom(Sort(ByKey, Entries(members)), members)
  {
    var es := Sort(ByKey, Entries(members));
    SortPermutes(ByKey, Entries(members));
    forall i | 0 <= i < |es| ensures PrintedBy(es[i], members) {
      assert es[i] in multiset(es);
      assert es[i] in Entries(members);
      EntryOrigin(members, es[i]);
    }
  }

  /** What follows the first item of a non-empty array. */
  function AfterItem(items: seq<Json>): Text
    requires items != []
  {
    if |items| == 1 then [CLOSE_BRACKET] else [COMMA] + (CanonicalItems(items[1..]) + [CLOSE_BRACKET])
  }

  lemma SplitItems(items: seq<Json>, r: Text)
    requires items != []
    ensures CanonicalItems(items) + [CLOSE_BRACKET] + r == Canonical(items[0]) + (AfterItem(items) + r)
  {
    Assoc(Canonical(items[0]), AfterItem(items), r);
    if |items| > 1 {
      Assoc(Canonical(items[0]), [COMMA] + CanonicalItems(items[1..]), [CLOSE_BRACKET]);
      Assoc([COMMA], CanonicalItems(items[1..]), [CLOSE_BRACKET]);
    }
  }

  /** What follows the first member of a non-empty object. */
  function AfterEntry(es: seq<Entry>): Text
    requires es != []
  {
    if |es| == 1 then [CLOSE_BRACE] else [COMMA] + (JoinEntries(es[1..]) + [CLOSE_BRACE])
  }

  lemma SplitEntries(es: seq<Entry>, r: Text)
    requires es != []
    ensures JoinEntries(es) + [CLOSE_BRACE] + r == Quote(es[0].0) + ([COLON] + es[0].1 + (AfterEntry(es) + r))
  {
    Assoc(PrintEntry(es[0]), AfterEntry(es), r);
    if |es| > 1 {
      Assoc(PrintEntry(es[0]), [COMMA] + JoinEntries(es[1..]), [CLOSE_BRACE]);
      Assoc([COMMA], JoinEntries(es[1..]), [CLOSE_BRACE]);
    }
    Assoc(Quote(es[0].0), [COLON] + es[0].1, AfterEntry(es) + r);
  }

  /** A printed value followed by a delimiter can be read in one way only. */
  lemma {:induction false} ValueIsUnique(a: Json, r: Text, b: Json, s: Text)
    requires Canonical(a) + r == Canonical(b) + s
    requires Delimited(r) && Delimited(s)
    ensures Canonical(a) == Canonical(b) && r == s && Equivalent(a, b)
    decreases a, 0
  {
    FirstUnit(a);
    FirstUnit(b);
    SameFirst(Canonical(a), r, Canonical(b), s);
    match a
    case Num(n) => DecimalIsUnique(n, r, b.n, s);
    case Str(t) => QuoteIsUnique(t, r, b.s, s);
    case Arr(xs) =>
      DropFirst(
        Canonical(a), CanonicalItems(xs) + [CLOSE_BRACKET], r,
        Canonical(b), CanonicalItems(b.items) + [CLOSE_BRACKET], s);
      ItemsAreUnique(xs, r, b.items, s);
    case Obj(ms) =>
      var es, fs := Sort(ByKey, Entries(ms)), Sort(ByKey, Entries(b.members));
      DropFirst(Canonical(a), JoinEntries(es) + [CLOSE_BRACE], r, Canonical(b), JoinEntries(fs) + [CLOSE_BRACE], s);
      SortedEntries(ms);
      SortedEntries(b.members);
      EntriesAreUnique(ms, es, r, b.members, fs, s);
      SameSortSameEntries(Entries(ms), Entries(b.members));
      SameEntriesEquivalent(ms, b.members);
    case _ =>
      SameLength(Canonical(a), r, Canonical(b), s);
  }

  lemma SameLength(a: Text, r: Text, b: Text, s: Text)
    requires a + r == b + s && |a| == |b|
    ensures a == b && r == s
  {
    assert a == (a + r)[..|a|] && b == (b + s)[..|a|];
    assert r == (a + r)[|a|..] && s == (b + s)[|a|..];
  }

  lemma ItemsStart(items: seq<Json>, r: Text)
    ensures (CanonicalItems(items) + [CLOSE_BRACKET] + r)[0] == CLOSE_BRACKET <==> items == []
  {
    if items != [] {
      SplitItems(items, r);
      FirstUnit(items[0]);
    }
  }

  lemma {:induction false} ItemsAreUnique(xs: seq<Json>, r: Text, ys: seq<Json>, s: Text)
    requires CanonicalItems(xs) + [CLOSE_BRACKET] + r == CanonicalItems(ys) + [CLOSE_BRACKET] + s
    ensures CanonicalItems(xs) == CanonicalItems(ys) && r == s && |xs| == |ys|
    ensures forall i :: 0 <= i < |xs| ==> Equivalent(xs[i], ys[i])
    decreases xs, 0
  {
    ItemsStart(xs, r);
    ItemsStart(ys, s);
    if xs == [] {
      assert CanonicalItems(xs) + [CLOSE_BRACKET] == [CLOSE_BRACKET] == CanonicalItems(ys) + [CLOSE_BRACKET];
      SameLength([CLOSE_BRACKET], r, [CLOSE_BRACKET], s);
    } else {
      SplitItems(xs, r);
      SplitItems(ys, s);
      ValueIsUnique(xs[0], AfterItem(xs) + r, ys[0], AfterItem(ys) + s);
      SameFirst(AfterItem(xs), r, AfterItem(ys), s);
      if |xs| == 1 {
        SameLength([CLOSE_BRACKET], r, [CLOSE_BRACKET], s);
      } else {
        DropFirst(
          AfterItem(xs), CanonicalItems(xs[1..]) + [CLOSE_BRACKET], r,
          AfterItem(ys), CanonicalItems(ys[1..]) + [CLOSE_BRACKET], s);
        ItemsAreUnique(xs[1..], r, ys[1..], s);
        forall i | 0 < i < |xs| ensures Equivalent(xs[i], ys[i]) {
          assert xs[i] == xs[1..][i - 1] && ys[i] == ys[1..][i - 1];
        }
      }
    }
  }

  lemma EntriesStart(es: seq<Entry>, r: Text)
    ensures (JoinEntries(es) + [CLOSE_BRACE] + r)[0] == CLOSE_BRACE <==> es == []
  {
    if es != [] { SplitEntries(es, r); }
  }

  lemma {:induction false} EntryIsUnique(ms: seq<Member>, e: Entry, p: Text, ns: seq<Member>, f: Entry, q: Text)
    requires exists m :: m in ms && !m.value.Undefined? && e == (m.key, Canonical(m.value))
    requires exists n :: n in ns && !n.value.Undefined? && f == (n.key, Canonical(n.value))
    requires Quote(e.0) + ([COLON] + e.1 + p) == Quote(f.0) + ([COLON] + f.1 + q)
    requires Delimited(p) && Delimited(q)
    ensures e == f && p == q
    decreases ms, 0
  {
    QuoteIsUnique(e.0, [COLON] + e.1 + p, f.0, [COLON] + f.1 + q);
    DropFirst([COLON] + e.1, e.1, p, [COLON] + f.1, f.1, q);
    var m :| m in ms && !m.value.Undefined? && e == (m.key, Canonical(m.value));
    var n :| n in ns && !n.value.Undefined? && f == (n.key, Canonical(n.value));
    ValueIsUnique(m.value, p, n.value, q);
  }

  lemma {:induction false} EntriesAreUnique(
    ms: seq<Member>, es: seq<Entry>, r: Text, ns: seq<Member>, fs: seq<Entry>, s: Text)
    requires MadeFrom(es, ms) && MadeFrom(fs, ns)
    requires JoinEntries(es) + [CLOSE_BRACE] + r == JoinEntries(fs) + [CLOSE_BRACE] + s
    ensures es == fs && r == s
    decreases ms, 1, |es|
  {
    EntriesStart(es, r);
    EntriesStart(fs, s);
    if es == [] {
      assert JoinEntries(es) + [CLOSE_BRACE] == [CLOSE_BRACE] == JoinEntries(fs) + [CLOSE_BRACE];
      SameLength([CLOSE_BRACE], r, [CLOSE_BRACE], s);
    } else {
      SplitEntries(es, r);
      SplitEntries(fs, s);
      var p, q := AfterEntry(es) + r, AfterEntry(fs) + s;
      EntryIsUnique(ms, es[0], p, ns, fs[0], q);
      SameFirst(AfterEntry(es), r, AfterEntry(fs), s);
      assert es == [es[0]] + es[1..] && fs == [fs[0]] + fs[1..];
      if |es| == 1 {
        SameLength([CLOSE_BRACE], r, [CLOSE_BRACE], s);
      } else {
        DropFirst(
          AfterEntry(es), JoinEntries(es[1..]) + [CLOSE_BRACE], r,
          AfterEntry(fs), JoinEntries(fs[1..]) + [CLOSE_BRACE], s);
        EntriesAreUnique(ms, es[1..], r, ns, fs[1..], s);
      }
    }
  }

  lemma SameSortSameEntries(es: seq<Entry>, fs: seq<Entry>)
    requires Sort(ByKey, es) == Sort(ByKey, fs)
    ensures forall e :: e in es <==> e in fs
  {
    SortPermutes(ByKey, es);
    SortPermutes(ByKey, fs);
  }

  lemma {:induction false} SameEntriesEquivalent(ms: seq<Member>, ns: seq<Member>)
    requires forall e :: e in Entries(ms) <==> e in Entries(ns)
    ensures Equivalent(Obj(ms), Obj(ns))
    decreases ms, 2
  {
    forall m | m in ms && !m.value.Undefined? ensures exists n :: n in ns && Matches(m, n) {
      var n := MatchOnRight(ms, m, ns);
    }
    forall n | n in ns && !n.value.Undefined? ensures exists m :: m in ms && Matches(m, n) {
      var m := MatchOnLeft(ms, ns, n);
    }
  }

  lemma {:induction false} MatchOnRight(ms: seq<Member>, m: Member, ns: seq<Member>) returns (n: Member)
    requires m in ms && !m.value.Undefined?
    requires forall e :: e in Entries(ms) ==> e in Entries(ns)
    ensures n in ns && Matches(m, n)
    decreases ms, 1
  {
    EntryOrigin(ms, (m.key, Canonical(m.value)));
    EntryOrigin(ns, (m.key, Canonical(m.value)));
    n :| n in ns && !n.value.Undefined? && (m.key, Canonical(m.value)) == (n.key, Canonical(n.value));
    ValueIsUnique(m.value, [], n.value, []);
  }

  lemma {:induction false} MatchOnLeft(ms: seq<Member>, ns: seq<Member>, n: Member) returns (m: Member)
    requires n in ns && !n.value.Undefined?
    requires forall e :: e in Entries(ns) ==> e in Entries(ms)
    ensures m in ms && Matches(m, n)
    decreases ms, 1
  {
    EntryOrigin(ns, (n.key, Canonical(n.value)));
    EntryOrigin(ms, (n.key, Canonical(n.value)));
    m :| m in ms && !m.value.Undefined? && (m.key, Canonical(m.value)) == (n.key, Canonical(n.value));
    ValueIsUnique(m.value, [], n.value, []);
  }

  // ---- equivalent values print the same ------------------------------------------------------

  lemma KeysAreOrdered()
    ensures TotalPreorder(ByKey)
  {
    forall a: Entry, b: Entry ensures ByKey(a, b) || ByKey(b, a) { AtMostTotal(a.0, b.0); }
    forall a: Entry, b: Entry, c: Entry | ByKey(a, b) && ByKey(b, c) ensures ByKey(a, c) {
      AtMostTransitive(a.0, b.0, c.0);
    }
  }

  ghost predicate DistinctEntryKeys(es: seq<Entry>) {
    forall i, j :: 0 <= i < j < |es| ==> es[i].0 != es[j].0
  }

  lemma {:induction false} EntriesKeepKeysDistinct(members: seq<Member>)
    requires forall i, j :: 0 <= i < j < |members| ==> members[i].key != members[j].key
    ensures DistinctEntryKeys(Entries(members))
  {
    if members != [] {
      EntriesKeepKeysDistinct(members[1..]);
      var rest := Entries(members[1..]);
      forall j | 0 <= j < |rest| ensures rest[j].0 != members[0].key {
        assert rest[j] in rest;
        EntryOrigin(members[1..], rest[j]);
      }
    }
  }

  lemma {:induction false} SameSetSameMultiset(es: seq<Entry>, fs: seq<Entry>)
    requires DistinctEntryKeys(es) && DistinctEntryKeys(fs)
    requires forall e :: e in es <==> e in fs
    ensures multiset(es) == multiset(fs)
  {
    forall e ensures multiset(es)[e] == multiset(fs)[e] {
      OccursOnce(es, e);
      OccursOnce(fs, e);
    }
  }

  lemma {:induction false} OccursOnce(es: seq<Entry>, e: Entry)
    requires DistinctEntryKeys(es)
    ensures multiset(es)[e] == if e in es then 1 else 0
  {
    if es != [] {
      OccursOnce(es[1..], e);
      assert es == [es[0]] + es[1..];
      assert forall j :: 0 <= j < |es[1..]| ==> es[1..][j].0 == es[j + 1].0 != es[0].0;
    }
  }

  /** ms says nothing that ns does not say in the same words. */
  lemma {:induction false} EntriesIncluded(ms: seq<Member>, ns: seq<Member>)
    requires forall m :: m in ms && !m.value.Undefined? ==>
      exists n :: n in ns && !n.value.Undefined? && n.key == m.key && Canonical(n.value) == Canonical(m.value)
    ensures forall e :: e in Entries(ms) ==> e in Entries(ns)
  {
    forall e | e in Entries(ms) ensures e in Entries(ns) {
      EntryOrigin(ms, e);
      EntryOrigin(ns, e);
      var m :| m in ms && !m.value.Undefined? && e == (m.key, Canonical(m.value));
      var n :| n in ns && !n.value.Undefined? && n.key == m.key && Canonical(n.value) == Canonical(m.value);
    }
  }

  lemma SameEntriesSortSame(es: seq<Entry>, fs: seq<Entry>)
    requires DistinctEntryKeys(es) && DistinctEntryKeys(fs)
    requires forall e :: e in es <==> e in fs
    ensures Sort(ByKey, es) == Sort(ByKey, fs)
  {
    SameSetSameMultiset(es, fs);
    KeysAreOrdered();
    forall i, j | 0 <= i < |es| && 0 <= j < |es| && ByKey(es[i], es[j]) && ByKey(es[j], es[i])
      ensures es[i] == es[j]
    {
      AtMostTotal(es[i].0, es[j].0);
    }
    SortForgetsOrder(ByKey, es, fs);
  }

  /** Equal up to key order and dropped members is enough to print the same text. */
  lemma {:induction false} EquivalentPrintsSame(a: Json, b: Json)
    requires DistinctKeys(a) && DistinctKeys(b)
    requires Equivalent(a, b)
    ensures Canonical(a) == Canonical(b)
    decreases a, 0
  {
    match a
    case Arr(xs) => ItemsPrintSame(xs, b.items);
    case Obj(ms) =>
      var ns := b.members;
      MatchedEntries(ms, ns);
      MatchingEntries(ms, ns);
      EntriesKeepKeysDistinct(ms);
      EntriesKeepKeysDistinct(ns);
      SameEntriesSortSame(Entries(ms), Entries(ns));
    case _ =>
  }

  /** Members that match some of ns are printed as entries of ns. */
  lemma {:induction false} MatchedEntries(ms: seq<Member>, ns: seq<Member>)
    requires forall m :: m in ms || m in ns ==> DistinctKeys(m.value)
    requires forall m :: m in ms && !m.value.Undefined? ==> exists n :: n in ns && Matches(m, n)
    ensures forall e :: e in Entries(ms) ==> e in Entries(ns)
    decreases ms, 1
  {
    forall m | m in ms && !m.value.Undefined?
      ensures exists n :: n in ns && !n.value.Undefined? && n.key == m.key && Canonical(n.value) == Canonical(m.value)
    {
      var n :| n in ns && Matches(m, n);
      EquivalentPrintsSame(m.value, n.value);
    }
    EntriesIncluded(ms, ns);
  }

  /** Members that some of ms match are printed as entries of ms. */
  lemma {:induction false} MatchingEntries(ms: seq<Member>, ns: seq<Member>)
    requires forall m :: m in ms || m in ns ==> DistinctKeys(m.value)
    requires forall n :: n in ns && !n.value.Undefined? ==> exists m :: m in ms && Matches(m, n)
    ensures forall e :: e in Entries(ns) ==> e in Entries(ms)
    decreases ms, 1
  {
    forall n | n in ns && !n.value.Undefined?
      ensures exists m :: m in ms && !m.value.Undefined? && m.key == n.key && Canonical(m.value) == Canonical(n.value)
    {
      var m :| m in ms && Matches(m, n);
      EquivalentPrintsSame(m.value, n.value);
    }
    EntriesIncluded(ns, ms);
  }

  lemma {:induction false} ItemsPrintSame(xs: seq<Json>, ys: seq<Json>)
    requires |xs| == |ys|
    requires forall x :: x in xs || x in ys ==> DistinctKeys(x)
    requires forall i :: 0 <= i < |xs| ==> Equivalent(xs[i], ys[i])
    ensures CanonicalItems(xs) == CanonicalItems(ys)
    decreases xs, 0
  {
    if xs != [] {
      EquivalentPrintsSame(xs[0], ys[0]);
      ItemsPrintSame(xs[1..], ys[1..]);
    }
  }

  /** The canonical text is the same exactly for values that are equal up to key order and dropped members. */
  lemma CanonicalIffEquivalent(a: Json, b: Json)
    requires DistinctKeys(a) && DistinctKeys(b)
    ensures Canonical(a) == Canonical(b) <==> Equivalent(a, b)
  {
    if Canonical(a) == Canonical(b) {
      ValueIsUnique(a, [], b, []);
    }
    if Equivalent(a, b) {
      EquivalentPrintsSame(a, b);
    }
  }

  lemma {:induction false} EquivalentToItself(a: Json)
    ensures Equivalent(a, a)
  {
    match a
    case Arr(xs) => forall i | 0 <= i < |xs| ensures Equivalent(xs[i], xs[i]) { EquivalentToItself(xs[i]); }
    case Obj(ms) => forall m | m in ms && !m.value.Undefined? ensures Matches(m, m) { EquivalentToItself(m.value); }
    case _ =>
  }

  /** Permuting the members of an object, or adding members without a value, does not change its text. */
  lemma KeyOrderIsIrrelevant(ms: seq<Member>, ns: seq<Member>, absent: seq<Text>)
    requires DistinctKeys(Obj(ms)) && DistinctKeys(Obj(ns))
    requires multiset(ns)
      == multiset(ms) + multiset(seq(|absent|, i requires 0 <= i < |absent| => Member(absent[i], Undefined)))
    ensures Canonical(Obj(ns)) == Canonical(Obj(ms))
  {
    var gaps := seq(|absent|, i requires 0 <= i < |absent| => Member(absent[i], Undefined));
    forall m ensures m in ns <==> m in ms || m in gaps {
      assert m in ns <==> m in multiset(ns);
      assert m in ms <==> m in multiset(ms);
      assert m in gaps <==> m in multiset(gaps);
    }
    forall m | m in ms && !m.value.Undefined? ensures Matches(m, m) { EquivalentToItself(m.value); }
    EquivalentPrintsSame(Obj(ns), Obj(ms));
  }

  /** The printed members are exactly the ones with a value, each key once and in ascending code-unit order. */
  lemma KeysAscend(members: seq<Member>)
    requires forall i, j :: 0 <= i < j < |members| ==> members[i].key != members[j].key
    ensures
      var es := Sort(ByKey, Entries(members));
      && (forall i, j :: 0 <= i < j < |es| ==> AtMost(es[i].0, es[j].0) && es[i].0 != es[j].0)
      && (forall m :: m in members && !m.value.Undefined? ==> (m.key, Canonical(m.value)) in es)
      && (forall e :: e in es ==> PrintedBy(e, members))
  {
    var xs, es := Entries(members), Sort(ByKey, Entries(members));
    KeysAreOrdered();
    SortSorts(ByKey, xs);
    SortPermutes(ByKey, xs);
    EntriesKeepKeysDistinct(members);
    forall i, j | 0 <= i < j < |es| ensures AtMost(es[i].0, es[j].0) && es[i].0 != es[j].0 {
      assert ByKey(es[i], es[j]);
      SortedKeysDistinct(es, xs, i, j);
    }
    forall m | m in members && !m.value.Undefined? ensures (m.key, Canonical(m.value)) in es {
      EntryOrigin(members, (m.key, Canonical(m.value)));
      assert (m.key, Canonical(m.value)) in multiset(xs);
    }
    forall e | e in es ensures PrintedBy(e, members) {
      assert e in multiset(es);
      EntryOrigin(members, e);
    }
  }

  lemma SortedKeysDistinct(es: seq<Entry>, xs: seq<Entry>, i: nat, j: nat)
    requires multiset(es) == multiset(xs) && DistinctEntryKeys(xs)
    requires i < j < |es|
    ensures es[i].0 != es[j].0
  {
    assert es[i] in multiset(es) && es[j] in multiset(es);
    assert es[i] in xs && es[j] in xs;
    var k :| 0 <= k < |xs| && xs[k] == es[i];
    var l :| 0 <= l < |xs| && xs[l] == es[j];
    if es[i].0 == es[j].0 {
      assert k == l;
      OccursOnce(xs, es[i]);
      OccursTwice(es, i, j);
    }
  }

  lemma OccursTwice(es: seq<Entry>, i: nat, j: nat)
    requires i < j < |es| && es[i] == es[j]
    ensures multiset(es)[es[i]] >= 2
  {
    assert es == es[..j] + [es[j]] + es[j + 1..];
    assert es[i] == es[..j][i];
    assert es[i] in es[..j];
  }
}
