/** When and how much a booking owes: planPayments and uncoveredMinor. Days are day numbers. */
module Payments {
  import opened Wrappers
  import opened Texts
  import opened Sorting
  import opened Sums
  import opened Arithmetic
  import Money

  datatype Trigger = AtConfirmation | BeforeArrival | AfterArrival
  datatype Amount = Percent(bps: int) | Fixed(minor: int) | Remainder

  datatype Rule = Rule(
    id: Text, name: Text, trigger: Trigger, offsetDays: int, amount: Amount,
    propertyIds: seq<Text>, channels: seq<Text>, enabled: bool, position: int)

  datatype Stay = Stay(
    totalMinor: int, propertyId: Text, channel: Text, arrival: int, bookedOn: int, collectedByOta: bool)

  datatype Instalment = Instalment(ruleId: Text, name: Text, dueOn: int, amountMinor: int)

  type Planned = Result<seq<Instalment>, Money.RatioError>

  predicate Applies(r: Rule, s: Stay) {
    && r.enabled
    && (r.propertyIds == [] || s.propertyId in r.propertyIds)
    && (r.channels == [] || s.channel in r.channels)
  }

  function DueDate(r: Rule, s: Stay): int {
    if r.trigger == AtConfirmation then s.bookedOn
    else
      var days := Max(0, r.offsetDays);
      var when := if r.trigger == BeforeArrival then s.arrival - days else s.arrival + days;
      if when < s.bookedOn then s.bookedOn else when
  }

  /** What a rule asks for; a percentage below zero makes allocate throw. */
  function Wanted(r: Rule, total: int, left: int): Result<int, Money.RatioError> {
    match r.amount
    case Fixed(minor) => Ok(minor)
    case Remainder => Ok(left)
    case Percent(bps) =>
      var parts :- Money.Allocation(total, [bps, Max(0, 10_000 - bps)]);
      Ok(if parts == [] then 0 else parts[0])
  }

  function Taken(wanted: int, left: int): int {
    Max(0, Min(wanted, left))
  }

  /** The instalments of these rules in turn, `left` being still to collect. */
  function Take(rules: seq<Rule>, s: Stay, total: int, left: int): Planned {
    if rules == [] || left <= 0 then Ok([])
    else
      var wanted :- Wanted(rules[0], total, left);
      var amount := Taken(wanted, left);
      var rest :- Take(rules[1..], s, total, left - amount);
      Ok(FirstInstalment(rules[0], s, amount) + rest)
  }

  /** Nothing is scheduled for an amount of zero. */
  function FirstInstalment(r: Rule, s: Stay, amount: int): seq<Instalment> {
    if amount == 0 then [] else [Instalment(r.id, r.name, DueDate(r, s), amount)]
  }

  function Applicable(rules: seq<Rule>, s: Stay): seq<Rule> {
    if rules == [] then [] else (if Applies(rules[0], s) then [rules[0]] else []) + Applicable(rules[1..], s)
  }

  /** By position, then by identifier in the order of the collation. */
  function ByPosition(collate: (Text, Text) -> bool): (Rule, Rule) -> bool {
    (a: Rule, b: Rule) => a.position < b.position || (a.position == b.position && collate(a.id, b.id))
  }

  function ByDue(): (Instalment, Instalment) -> bool {
    (a: Instalment, b: Instalment) => a.dueOn <= b.dueOn
  }

  function InTurn(rules: seq<Rule>, s: Stay, collate: (Text, Text) -> bool): seq<Rule> {
    Sort(ByPosition(collate), Applicable(rules, s))
  }

  function Plan(rules: seq<Rule>, s: Stay, collate: (Text, Text) -> bool): Planned {
    if s.collectedByOta then Ok([])
    else
      var total := Max(0, s.totalMinor);
      var taken :- Take(InTurn(rules, s, collate), s, total, total);
      Ok(Sort(ByDue(), taken))
  }

  method FilterApplicable(rules: seq<Rule>, s: Stay) returns (applicable: seq<Rule>)
    ensures applicable == Applicable(rules, s)
  {
    applicable := [];
    assert rules[0..] == rules;
    for i := 0 to |rules|
      invariant applicable + Applicable(rules[i..], s) == Applicable(rules, s)
    {
      if Applies(rules[i], s) { applicable := applicable + [rules[i]]; }
    }
  }

  function Prefixed(out: seq<Instalment>, rest: Planned): Planned {
    if rest.Err? then rest else Ok(out + rest.value)
  }

  method Want(r: Rule, total: int, left: int) returns (wanted: Result<int, Money.RatioError>)
    ensures wanted == Wanted(r, total, left)
  {
    match r.amount {
      case Fixed(minor) => wanted := Ok(minor);
      case Remainder => wanted := Ok(left);
      case Percent(bps) =>
        var parts := Money.Allocate(total, [bps, Max(0, 10_000 - bps)]);
        if parts.Err? { return Err(parts.error); }
        wanted := Ok(if parts.value == [] then 0 else parts.value[0]);
    }
  }

  /** Rule by rule, until nothing is left. */
  method TakeInTurn(inTurn: seq<Rule>, s: Stay, total: int) returns (plan: Planned)
    ensures plan == Take(inTurn, s, total, total)
  {
    var out: seq<Instalment> := [];
    var left := total;
    assert inTurn[0..] == inTurn;
    Prefixing([], [], Take(inTurn, s, total, total));
    for i := 0 to |inTurn|
      invariant Prefixed(out, Take(inTurn[i..], s, total, left)) == Take(inTurn, s, total, total)
    {
      if left <= 0 { break; }
      var r := inTurn[i];
      var wanted := Want(r, total, left);
      TakeNext(out, inTurn, i, s, total, left);
      if wanted.Err? { return Err(wanted.error); }
      var amount := Taken(wanted.value, left);
      left := left - amount;
      out := out + FirstInstalment(r, s, amount);
    }
    Prefixing(out, [], Ok([]));
    return Ok(out);
  }

  method PlanPayments(rules: seq<Rule>, s: Stay, collate: (Text, Text) -> bool) returns (plan: Planned)
    ensures plan == Plan(rules, s, collate)
  {
    if s.collectedByOta { return Ok([]); }
    var applicable := FilterApplicable(rules, s);
    var taken := TakeInTurn(Sort(ByPosition(collate), applicable), s, Max(0, s.totalMinor));
    if taken.Err? { return taken; }
    return Ok(Sort(ByDue(), taken.value));
  }

  lemma TakeFrom(rules: seq<Rule>, i: nat, s: Stay, total: int, left: int)
    requires i < |rules| && left > 0
    ensures var wanted := Wanted(rules[i], total, left);
      Take(rules[i..], s, total, left) ==
        if wanted.Err? then Err(wanted.error)
        else
          var amount := Taken(wanted.value, left);
          Prefixed(FirstInstalment(rules[i], s, amount), Take(rules[i + 1..], s, total, left - amount))
  {
    assert rules[i..][0] == rules[i] && rules[i..][1..] == rules[i + 1..];
  }

  lemma TakeNext(out: seq<Instalment>, rules: seq<Rule>, i: nat, s: Stay, total: int, left: int)
    requires i < |rules| && left > 0
    ensures var wanted := Wanted(rules[i], total, left);
      Prefixed(out, Take(rules[i..], s, total, left)) ==
        if wanted.Err? then Err(wanted.error)
        else
          var amount := Taken(wanted.value, left);
          Prefixed(out + FirstInstalment(rules[i], s, amount), Take(rules[i + 1..], s, total, left - amount))
  {
    TakeFrom(rules, i, s, total, left);
    var wanted := Wanted(rules[i], total, left);
    if wanted.Ok? {
      var amount := Taken(wanted.value, left);
      Prefixing(out, FirstInstalment(rules[i], s, amount), Take(rules[i + 1..], s, total, left - amount));
    }
  }

  lemma Prefixing(out: seq<Instalment>, x: seq<Instalment>, rest: Planned)
    ensures Prefixed([], rest) == rest
    ensures Prefixed(out, Prefixed(x, rest)) == Prefixed(out + x, rest)
    ensures Prefixed(out + [], rest) == Prefixed(out, rest)
    ensures Prefixed(out, Ok([])) == Ok(out)
  {
    assert out + [] == out;
    if rest.Ok? {
      assert [] + rest.value == rest.value;
      assert out + (x + rest.value) == (out + x) + rest.value;
    }
  }

  // ---- amounts -----------------------------------------------------------------------------------------

  function AmountOf(): Instalment -> int {
    (x: Instalment) => x.amountMinor
  }

  function Collected(plan: seq<Instalment>): int {
    Sum(Mapped(AmountOf(), plan))
  }

  function UncoveredMinor(plan: seq<Instalment>, s: Stay): int {
    Max(0, Max(0, s.totalMinor) - Collected(plan))
  }

  lemma CollectedNext(x: Instalment, rest: seq<Instalment>)
    ensures Collected([x] + rest) == x.amountMinor + Collected(rest)
  {
    MappedParts(AmountOf(), [x], rest);
    MappedOne(AmountOf(), x);
  }

  /** What one instalment in a plan must be: positive, and due on or after the day of booking. */
  ghost predicate Sane(x: Instalment, s: Stay) {
    x.amountMinor > 0 && x.dueOn >= s.bookedOn
  }

  lemma {:induction false} TakenAreSane(rules: seq<Rule>, s: Stay, total: int, left: int)
    requires left >= 0 && Take(rules, s, total, left).Ok?
    ensures forall i :: 0 <= i < |Take(rules, s, total, left).value| ==> Sane(Take(rules, s, total, left).value[i], s)
  {
    if rules != [] && left > 0 {
      TakenAreSane(rules[1..], s, total, left - Taken(Wanted(rules[0], total, left).value, left));
    }
  }

  lemma {:induction false} TakenWithin(rules: seq<Rule>, s: Stay, total: int, left: int)
    requires left >= 0 && Take(rules, s, total, left).Ok?
    ensures 0 <= Collected(Take(rules, s, total, left).value) <= left
    ensures (exists i :: 0 <= i < |rules| && rules[i].amount == Remainder) ==>
      Collected(Take(rules, s, total, left).value) == left
  {
    if rules == [] || left <= 0 {
      assert Mapped(AmountOf(), []) == [];
    } else {
      var r, amount := rules[0], Taken(Wanted(rules[0], total, left).value, left);
      TakenWithin(rules[1..], s, total, left - amount);
      TakenFirst(Instalment(r.id, r.name, DueDate(r, s), amount), Take(rules[1..], s, total, left - amount).value);
      assert forall i :: 0 < i < |rules| ==> rules[i] == rules[1..][i - 1];
    }
  }

  lemma TakenFirst(x: Instalment, rest: seq<Instalment>)
    ensures Collected((if x.amountMinor == 0 then [] else [x]) + rest) == x.amountMinor + Collected(rest)
  {
    CollectedNext(x, rest);
    assert [] + rest == rest;
  }

  lemma SortedAmounts(taken: seq<Instalment>)
    ensures Collected(Sort(ByDue(), taken)) == Collected(taken)
  {
    SortPermutes(ByDue(), taken);
    SumForgetsOrder(AmountOf(), Sort(ByDue(), taken), taken);
  }

  lemma ByDueIsPreorder()
    ensures TotalPreorder(ByDue())
  {
  }

  /**
   * Every plan: instalments are positive, in due order and never due before the booking; they
   * never collect more than the total; and what is not planned is what uncoveredMinor says.
   */
  lemma PlanIsSound(rules: seq<Rule>, s: Stay, collate: (Text, Text) -> bool)
    requires Plan(rules, s, collate).Ok?
    ensures var plan := Plan(rules, s, collate).value;
      && (forall i :: 0 <= i < |plan| ==> Sane(plan[i], s))
      && SortedBy(ByDue(), plan)
      && Collected(plan) <= Max(0, s.totalMinor)
      && Collected(plan) + UncoveredMinor(plan, s) == Max(0, s.totalMinor)
  {
    var total := Max(0, s.totalMinor);
    var inTurn := InTurn(rules, s, collate);
    assert Mapped(AmountOf(), []) == [];
    if !s.collectedByOta {
      var taken := Take(inTurn, s, total, total).value;
      TakenAreSane(inTurn, s, total, total);
      TakenWithin(inTurn, s, total, total);
      SortedAmounts(taken);
      SortPermutes(ByDue(), taken);
      ByDueIsPreorder();
      SortSorts(ByDue(), taken);
      var plan := Sort(ByDue(), taken);
      forall i | 0 <= i < |plan| ensures Sane(plan[i], s) { assert plan[i] in taken; }
    }
  }

  lemma {:induction false} ApplicableMembers(rules: seq<Rule>, s: Stay)
    ensures forall r :: r in Applicable(rules, s) <==> r in rules && Applies(r, s)
  {
    if rules != [] {
      ApplicableMembers(rules[1..], s);
      assert rules == [rules[0]] + rules[1..];
    }
  }

  lemma InTurnMembers(rules: seq<Rule>, s: Stay, collate: (Text, Text) -> bool)
    ensures forall r :: r in InTurn(rules, s, collate) <==> r in rules && Applies(r, s)
  {
    ApplicableMembers(rules, s);
    SortPermutes(ByPosition(collate), Applicable(rules, s));
  }

  /** With a remainder rule that applies the plan collects everything, wherever the rule stands. */
  lemma RemainderCollectsAll(rules: seq<Rule>, s: Stay, collate: (Text, Text) -> bool, r: Rule)
    requires !s.collectedByOta && Plan(rules, s, collate).Ok?
    requires r in rules && Applies(r, s) && r.amount == Remainder
    ensures Collected(Plan(rules, s, collate).value) == Max(0, s.totalMinor)
    ensures UncoveredMinor(Plan(rules, s, collate).value, s) == 0
  {
    var total := Max(0, s.totalMinor);
    var inTurn := InTurn(rules, s, collate);
    InTurnMembers(rules, s, collate);
    assert r in inTurn;
    TakenWithin(inTurn, s, total, total);
    SortedAmounts(Take(inTurn, s, total, total).value);
  }

  // ---- errors ------------------------------------------------------------------------------------------

  predicate Negative(r: Rule) {
    r.amount.Percent? && r.amount.bps < 0
  }

  lemma PercentFailsIff(total: int, bps: int)
    ensures Money.Allocation(total, [bps, Max(0, 10_000 - bps)]).Err? <==> bps < 0
  {
    var ratios := [bps, Max(0, 10_000 - bps)];
    assert ratios[..1] == [bps] && ratios[..0] == [];
    assert Sum(ratios) == Sum([bps]) + ratios[1];
    assert Sum([bps]) == bps by { assert [bps] == [] + [bps]; SumGrows([], bps); }
    assert bps < 0 ==> ratios[0] < 0;
  }

  /** What the rules before the first negative percentage leave to collect. */
  function LeftAfter(rules: seq<Rule>, total: int, left: int): int {
    if rules == [] || left <= 0 then left
    else
      match Wanted(rules[0], total, left)
      case Ok(wanted) => LeftAfter(rules[1..], total, left - Taken(wanted, left))
      case Err(_) => left
  }

  /** LeftAfter past the first rule. */
  lemma LeftAfterFirst(rules: seq<Rule>, total: int, left: int, k: nat)
    requires 0 < k <= |rules| && left > 0 && Wanted(rules[0], total, left).Ok?
    ensures LeftAfter(rules[..k], total, left)
      == LeftAfter(rules[1..][..k - 1], total, left - Taken(Wanted(rules[0], total, left).value, left))
  {
    assert rules[..k][1..] == rules[1..][..k - 1];
  }

  lemma WantedFailsIff(r: Rule, total: int, left: int)
    ensures Wanted(r, total, left).Err? <==> Negative(r)
  {
    if r.amount.Percent? { PercentFailsIff(total, r.amount.bps); }
  }

  lemma {:induction false} FailureIsReached(rules: seq<Rule>, s: Stay, total: int, left: int) returns (k: nat)
    requires Take(rules, s, total, left).Err?
    ensures k < |rules| && Negative(rules[k]) && LeftAfter(rules[..k], total, left) > 0
  {
    WantedFailsIff(rules[0], total, left);
    var wanted := Wanted(rules[0], total, left);
    if wanted.Err? {
      k := 0;
    } else {
      var j := FailureIsReached(rules[1..], s, total, left - Taken(wanted.value, left));
      k := j + 1;
      LeftAfterFirst(rules, total, left, k);
    }
  }

  lemma {:induction false} ReachedFails(rules: seq<Rule>, s: Stay, total: int, left: int, k: nat)
    requires k < |rules| && Negative(rules[k]) && LeftAfter(rules[..k], total, left) > 0
    ensures Take(rules, s, total, left).Err?
  {
    WantedFailsIff(rules[0], total, left);
    var wanted := Wanted(rules[0], total, left);
    if k > 0 && wanted.Ok? && left > 0 {
      LeftAfterFirst(rules, total, left, k);
      ReachedFails(rules[1..], s, total, left - Taken(wanted.value, left), k - 1);
    }
  }

  /** A plan fails exactly when a negative percentage is reached while something is left to collect. */
  lemma PlanFailsIff(rules: seq<Rule>, s: Stay, collate: (Text, Text) -> bool)
    ensures var inTurn, total := InTurn(rules, s, collate), Max(0, s.totalMinor);
      Plan(rules, s, collate).Err? <==>
        !s.collectedByOta &&
        exists k :: 0 <= k < |inTurn| && Negative(inTurn[k]) && LeftAfter(inTurn[..k], total, total) > 0
  {
    var total := Max(0, s.totalMinor);
    var inTurn := InTurn(rules, s, collate);
    if Take(inTurn, s, total, total).Err? { var k := FailureIsReached(inTurn, s, total, total); }
    if k: nat :| k < |inTurn| && Negative(inTurn[k]) && LeftAfter(inTurn[..k], total, total) > 0 {
      ReachedFails(inTurn, s, total, total, k);
    }
  }

  /** A plan with no applicable negative percentage never fails. */
  lemma SoundRulesNeverFail(rules: seq<Rule>, s: Stay, collate: (Text, Text) -> bool)
    requires forall r :: r in rules && Applies(r, s) ==> !Negative(r)
    ensures Plan(rules, s, collate).Ok?
  {
    var inTurn := InTurn(rules, s, collate);
    InTurnMembers(rules, s, collate);
    PlanFailsIff(rules, s, collate);
    forall k | 0 <= k < |inTurn| ensures !Negative(inTurn[k]) { assert inTurn[k] in inTurn; }
  }

  /** One rule of minus one basis point makes the plan of a stay of 100 fail. */
  lemma NegativePercentFails(collate: (Text, Text) -> bool)
    ensures var r := Rule([1], [], AtConfirmation, 0, Percent(-1), [], [], true, 0);
      Plan([r], Stay(100, [2], [3], 10, 5, false), collate) == Err(Money.NegativeRatio)
  {
    var r := Rule([1], [], AtConfirmation, 0, Percent(-1), [], [], true, 0);
    var s := Stay(100, [2], [3], 10, 5, false);
    assert Applicable([r], s) == [r] + Applicable([], s) == [r];
    assert Sort(ByPosition(collate), [r]) == [r] by { assert Sort(ByPosition(collate), []) == []; }
    var ratios := [-1, 10_001];
    assert Max(0, 10_000 - -1) == 10_001;
    assert ratios[0] < 0;
    assert Money.RatioFault(ratios) == Some(Money.NegativeRatio);
  }

  // ---- shares and order ----------------------------------------------------------------------------------

  /** A percentage up to the whole wants its exact share of the total, rounded down or up. */
  lemma PercentIsShare(r: Rule, total: nat, left: int)
    requires r.amount.Percent? && 0 <= r.amount.bps <= 10_000
    ensures var wanted := Wanted(r, total, left);
      wanted.Ok? && -10_000 < 10_000 * wanted.value - total * r.amount.bps <= 10_000
  {
    var bps := r.amount.bps;
    var ratios := [bps, Max(0, 10_000 - bps)];
    PercentFailsIff(total, bps);
    assert ratios[..1] == [bps] && [bps] == [] + [bps];
    SumGrows([], bps);
    assert Sum(ratios) == 10_000;
    Money.PartIsShare(total, ratios, 0);
    DivRem(total * bps, 10_000);
  }

  ghost predicate DistinctIds(rules: seq<Rule>) {
    forall i, j :: 0 <= i < j < |rules| ==> rules[i].id != rules[j].id
  }

  lemma {:induction false} ApplicableForgetsOrder(xs: seq<Rule>, ys: seq<Rule>, s: Stay)
    requires multiset(xs) == multiset(ys)
    ensures multiset(Applicable(xs, s)) == multiset(Applicable(ys, s))
  {
    ApplicableCounts(xs, s);
    ApplicableCounts(ys, s);
    assert forall r :: multiset(Applicable(xs, s))[r] == multiset(Applicable(ys, s))[r];
  }

  lemma {:induction false} ApplicableCounts(rules: seq<Rule>, s: Stay)
    ensures forall r :: multiset(Applicable(rules, s))[r] == if Applies(r, s) then multiset(rules)[r] else 0
  {
    if rules != [] {
      ApplicableCounts(rules[1..], s);
      assert rules == [rules[0]] + rules[1..];
    }
  }

  /** The collation is a total order of the identifiers. */
  ghost predicate Collation(collate: (Text, Text) -> bool) {
    TotalPreorder(collate) && forall a, b :: collate(a, b) && collate(b, a) ==> a == b
  }

  lemma PositionIsPreorder(collate: (Text, Text) -> bool)
    requires Collation(collate)
    ensures TotalPreorder(ByPosition(collate))
  {
    var le := ByPosition(collate);
    forall a, b ensures le(a, b) || le(b, a) { assert collate(a.id, b.id) || collate(b.id, a.id); }
    forall a, b, c | le(a, b) && le(b, c) ensures le(a, c) {
      assert collate(a.id, b.id) && collate(b.id, c.id) ==> collate(a.id, c.id);
    }
  }

  /** The plan does not depend on the order the rules are stored in. */
  lemma PlanForgetsOrder(xs: seq<Rule>, ys: seq<Rule>, s: Stay, collate: (Text, Text) -> bool)
    requires Collation(collate) && DistinctIds(xs)
    requires multiset(xs) == multiset(ys)
    ensures Plan(xs, s, collate) == Plan(ys, s, collate)
  {
    var le := ByPosition(collate);
    var a := Applicable(xs, s);
    PositionIsPreorder(collate);
    ApplicableForgetsOrder(xs, ys, s);
    ApplicableMembers(xs, s);
    forall i, j | 0 <= i < |a| && 0 <= j < |a| && le(a[i], a[j]) && le(a[j], a[i]) ensures a[i] == a[j] {
      assert a[i] in a && a[j] in a;
      assert a[i].id == a[j].id;
    }
    SortForgetsOrder(le, a, Applicable(ys, s));
  }
}
