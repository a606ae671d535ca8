/**
 * What a payment plan promises, written out: which rules count and in which order, what each of
 * them asks for, and when its instalment is due.
 */
module PaymentTerms {
  import opened Wrappers
  import opened Texts
  import opened Sorting
  import opened Sums
  import opened Arithmetic
  import opened Payments
  import Money

  /** The rule is switched on and meant for the property and the channel; no list means all of them. */
  ghost predicate Counts(r: Rule, s: Stay) {
    && r.enabled
    && (|r.propertyIds| > 0 ==> exists i :: 0 <= i < |r.propertyIds| && r.propertyIds[i] == s.propertyId)
    && (|r.channels| > 0 ==> exists i :: 0 <= i < |r.channels| && r.channels[i] == s.channel)
  }

  /** The day an instalment is due: never before the booking. */
  ghost predicate IsDue(r: Rule, s: Stay, day: int) {
    var days := if r.offsetDays > 0 then r.offsetDays else 0;
    match r.trigger
    case AtConfirmation => day == s.bookedOn
    case BeforeArrival => day == (if s.arrival - days > s.bookedOn then s.arrival - days else s.bookedOn)
    case AfterArrival => day == (if s.arrival + days > s.bookedOn then s.arrival + days else s.bookedOn)
  }

  /** A percentage of a total: its share rounded down, or up when it is half or more. */
  ghost predicate IsShare(bps: int, total: int, share: int) {
    if bps >= 10_000 then share == total
    else if bps >= 5_000 then -10_000 < total * bps - 10_000 * share <= 0
    else 0 <= total * bps - 10_000 * share < 10_000
  }

  /** What a rule takes of what is left. */
  ghost predicate Takes(r: Rule, total: int, left: int, amount: int) {
    match r.amount
    case Fixed(minor) => amount == (if minor < 0 then 0 else if minor > left then left else minor)
    case Remainder => amount == left
    case Percent(bps) =>
      left == 0 == amount || (bps >= 0 && exists share ::
        IsShare(bps, total, share) && amount == if share > left then left else share)
  }

  // ---- a percentage exactly --------------------------------------------------------------------------

  /** Two ratios: the larger one is rounded up, the first of equal ones. */
  lemma TwoShares(total: nat, bps: int)
    requires 0 <= bps <= 10_000
    ensures var parts := Money.Allocation(total, [bps, 10_000 - bps]);
      parts.Ok? && |parts.value| == 2 && IsShare(bps, total, parts.value[0])
  {
    var ratios := [bps, 10_000 - bps];
    assert ratios[..1] == [bps] && [bps] == [] + [bps];
    SumGrows([], bps);
    assert Sum(ratios) == 10_000;
    Money.AllocationConserves(total, ratios);
    Money.PartIsShare(total, ratios, 0);
    Money.PartIsShare(total, ratios, 1);
    var parts := Money.WholeParts(total, ratios);
    assert Money.Times(1, parts) == parts;
    SumOfTwo(parts);
    assert parts[0] + parts[1] == total;
    FirstRoundedUpIff(total, bps);
    SharesOfTwo(total, bps, parts[0], parts[1]);
  }

  lemma SumOfTwo(xs: seq<int>)
    requires |xs| == 2
    ensures Sum(xs) == xs[0] + xs[1]
  {
    assert xs[..1] == [] + [xs[0]];
    SumGrows([], xs[0]);
  }

  /** Of two ratios one part is rounded up when they do not divide: the first from one half on. */
  lemma FirstRoundedUpIff(total: nat, bps: int)
    requires 0 <= bps <= 10_000
    ensures var ratios := [bps, 10_000 - bps];
      Sum(ratios) == 10_000 && |Money.WholeParts(total, ratios)| == 2
      && (bps >= 5_000 ==>
           Money.WholeParts(total, ratios)[1] == total * (10_000 - bps) / 10_000)
      && (bps < 5_000 ==> Money.WholeParts(total, ratios)[0] == total * bps / 10_000)
  {
    var ratios := [bps, 10_000 - bps];
    SumOfTwo(ratios);
    var order := Money.Order(ratios);
    Money.PartIsFloorOrOneMore(total, ratios, 0);
    Money.PartIsFloorOrOneMore(total, ratios, 1);
    OrderOfTwo(ratios);
    OneLeftOfTwo(total, ratios);
  }

  lemma OrderOfTwo(ratios: seq<int>)
    requires |ratios| == 2
    ensures Money.Order(ratios) == if ratios[0] >= ratios[1] then [0, 1] else [1, 0]
  {
    var le := Money.ByRatio(ratios);
    assert Money.Indices(2) == [0, 1];
    assert [0, 1][1..] == [1] && [1][1..] == [];
    assert Sort(le, []) == [];
    assert Sort(le, [1]) == Insert(le, 1, []) == [1];
    assert le(0, 1) <==> ratios[0] >= ratios[1];
    assert [1][1..] == [] && Insert(le, 0, []) == [0];
    assert Sort(le, [0, 1]) == Insert(le, 0, [1]);
  }

  lemma OneLeftOfTwo(total: nat, ratios: seq<int>)
    requires |ratios| == 2 && ratios[0] >= 0 && ratios[1] >= 0 && Sum(ratios) > 0
    ensures 0 <= Money.Left(total, ratios) <= 1
  {
    var whole := Sum(ratios);
    SumOfTwo(ratios);
    var floors := Money.Floors(total, ratios, whole);
    SumOfTwo(floors);
    DivRem(total * ratios[0], whole);
    DivRem(total * ratios[1], whole);
    Distribute(total, ratios[0], ratios[1]);
    Distribute(whole, floors[0], floors[1]);
    var left := Money.Left(total, ratios);
    Distribute(whole, total, floors[0] + floors[1]);
    assert whole * left < 2 * whole;
    Cancel(whole, left, 1);
    assert whole * (-left) <= 0;
    Cancel(whole, -left, 0);
  }

  lemma SharesOfTwo(total: nat, bps: int, first: int, second: int)
    requires 0 <= bps <= 10_000 && first + second == total
    requires bps >= 5_000 ==> second == total * (10_000 - bps) / 10_000
    requires bps < 5_000 ==> first == total * bps / 10_000
    ensures IsShare(bps, total, first)
  {
    DivRem(total * bps, 10_000);
    DivRem(total * (10_000 - bps), 10_000);
    Distribute(total, 10_000, bps);
  }

  lemma WantedIsShare(r: Rule, total: nat, left: int)
    requires r.amount.Percent? && Wanted(r, total, left).Ok?
    ensures r.amount.bps >= 0 && IsShare(r.amount.bps, total, Wanted(r, total, left).value)
  {
    var bps := r.amount.bps;
    PercentFailsIff(total, bps);
    if bps <= 10_000 {
      TwoShares(total, bps);
    } else {
      WholeToFirst(total, bps);
    }
  }

  lemma WholeToFirst(total: nat, bps: int)
    requires bps > 0
    ensures Money.Allocation(total, [bps, 0]).Ok? && |Money.Allocation(total, [bps, 0]).value| == 2
    ensures Money.Allocation(total, [bps, 0]).value[0] == total
  {
    var ratios := [bps, 0];
    SumOfTwo(ratios);
    Money.AllocationConserves(total, ratios);
    Money.PartIsShare(total, ratios, 1);
    SumOfTwo(Money.Allocation(total, ratios).value);
  }

  // ---- rule by rule ------------------------------------------------------------------------------------

  /** The instalments of rules that take these amounts; nothing is scheduled for an amount of zero. */
  ghost predicate IsSchedule(rules: seq<Rule>, amounts: seq<int>, s: Stay, plan: seq<Instalment>) {
    |rules| == |amounts| &&
    if rules == [] then plan == []
    else if amounts[0] == 0 then IsSchedule(rules[1..], amounts[1..], s, plan)
    else
      && plan != [] && IsSchedule(rules[1..], amounts[1..], s, plan[1..])
      && plan[0].ruleId == rules[0].id && plan[0].name == rules[0].name && plan[0].amountMinor == amounts[0]
      && IsDue(rules[0], s, plan[0].dueOn)
  }

  /** The rules take in turn what they ask for of what is left. */
  ghost predicate AllTake(rules: seq<Rule>, total: int, left: int, amounts: seq<int>) {
    |rules| == |amounts| &&
    (rules == [] ||
      (0 <= amounts[0] <= left && Takes(rules[0], total, left, amounts[0])
       && AllTake(rules[1..], total, left - amounts[0], amounts[1..])))
  }

  lemma {:induction false} NothingTaken(rules: seq<Rule>, s: Stay, total: int) returns (amounts: seq<int>)
    ensures AllTake(rules, total, 0, amounts) && IsSchedule(rules, amounts, s, [])
  {
    if rules == [] {
      amounts := [];
    } else {
      var rest := NothingTaken(rules[1..], s, total);
      amounts := [0] + rest;
      assert amounts[1..] == rest;
    }
  }

  lemma SumFirst(xs: seq<int>)
    requires xs != []
    ensures Sum(xs) == xs[0] + Sum(xs[1..])
  {
    assert xs == [xs[0]] + xs[1..] && [xs[0]] == [] + [xs[0]];
    SumOfParts([xs[0]], xs[1..]);
    SumGrows([], xs[0]);
  }

  /** When nothing is left nothing more is taken. */
  lemma {:induction false} TakenSum(rules: seq<Rule>, total: int, left: int, amounts: seq<int>)
    requires AllTake(rules, total, left, amounts) && left >= 0
    ensures 0 <= Sum(amounts) <= left
  {
    if rules != [] {
      TakenSum(rules[1..], total, left - amounts[0], amounts[1..]);
      SumFirst(amounts);
    }
  }

  lemma TakenIsTake(r: Rule, total: nat, left: int)
    requires left > 0 && Wanted(r, total, left).Ok?
    ensures Takes(r, total, left, Taken(Wanted(r, total, left).value, left))
  {
    if r.amount.Percent? {
      WantedIsShare(r, total, left);
      ShareIsNotNegative(r.amount.bps, total, Wanted(r, total, left).value);
    }
  }

  lemma ShareIsNotNegative(bps: int, total: nat, share: int)
    requires bps >= 0 && IsShare(bps, total, share)
    ensures share >= 0
  {
    assert total * bps >= 0;
  }

  lemma {:induction false} TakeIsSchedule(rules: seq<Rule>, s: Stay, total: nat, left: int) returns (amounts: seq<int>)
    requires left >= 0 && Take(rules, s, total, left).Ok?
    ensures AllTake(rules, total, left, amounts) && IsSchedule(rules, amounts, s, Take(rules, s, total, left).value)
  {
    if rules == [] || left == 0 {
      amounts := NothingTaken(rules, s, total);
    } else {
      var amount := Taken(Wanted(rules[0], total, left).value, left);
      var rest := TakeIsSchedule(rules[1..], s, total, left - amount);
      amounts := [amount] + rest;
      TakenIsTake(rules[0], total, left);
      assert amounts[1..] == rest;
      FirstIsScheduled(rules, s, amounts, Take(rules[1..], s, total, left - amount).value);
    }
  }

  lemma FirstIsScheduled(rules: seq<Rule>, s: Stay, amounts: seq<int>, plan: seq<Instalment>)
    requires rules != [] && |amounts| == |rules| && IsSchedule(rules[1..], amounts[1..], s, plan)
    ensures IsSchedule(rules, amounts, s, FirstInstalment(rules[0], s, amounts[0]) + plan)
  {
    if amounts[0] == 0 {
      assert [] + plan == plan;
    } else {
      assert (FirstInstalment(rules[0], s, amounts[0]) + plan)[1..] == plan;
    }
  }

  /** The rules that count, by position and then by the collation of their identifiers. */
  ghost predicate InOrder(turn: seq<Rule>, rules: seq<Rule>, s: Stay, collate: (Text, Text) -> bool) {
    && (forall r :: multiset(turn)[r] == if Counts(r, s) then multiset(rules)[r] else 0)
    && (forall i, j :: 0 <= i < j < |turn| ==>
          turn[i].position < turn[j].position
          || (turn[i].position == turn[j].position && collate(turn[i].id, turn[j].id)))
  }

  lemma CountsIff(r: Rule, s: Stay)
    ensures Counts(r, s) <==> Applies(r, s)
  {
  }

  lemma TurnIsInOrder(rules: seq<Rule>, s: Stay, collate: (Text, Text) -> bool)
    requires Collation(collate)
    ensures InOrder(InTurn(rules, s, collate), rules, s, collate)
  {
    var turn := InTurn(rules, s, collate);
    ApplicableCounts(rules, s);
    SortPermutes(ByPosition(collate), Applicable(rules, s));
    PositionIsPreorder(collate);
    SortSorts(ByPosition(collate), Applicable(rules, s));
    forall r ensures multiset(turn)[r] == if Counts(r, s) then multiset(rules)[r] else 0 { CountsIff(r, s); }
    forall i, j | 0 <= i < j < |turn|
      ensures turn[i].position < turn[j].position
        || (turn[i].position == turn[j].position && collate(turn[i].id, turn[j].id))
    {
      assert ByPosition(collate)(turn[i], turn[j]);
    }
  }

  /**
   * Every plan that is made: the rules that count take in their order what they ask for of what
   * is left of the total; each amount is an instalment of its rule, due on the day of the rule;
   * and the instalments come by their due days. A stay an agency collects has none.
   */
  lemma PlanFollowsRules(rules: seq<Rule>, s: Stay, collate: (Text, Text) -> bool)
    returns (turn: seq<Rule>, amounts: seq<int>, taken: seq<Instalment>)
    requires Collation(collate) && Plan(rules, s, collate).Ok?
    ensures s.collectedByOta ==> Plan(rules, s, collate).value == []
    ensures !s.collectedByOta ==>
      var total := if s.totalMinor > 0 then s.totalMinor else 0;
      && InOrder(turn, rules, s, collate) && AllTake(turn, total, total, amounts)
      && IsSchedule(turn, amounts, s, taken) && multiset(Plan(rules, s, collate).value) == multiset(taken)
    ensures var plan := Plan(rules, s, collate).value;
      forall i, j :: 0 <= i < j < |plan| ==> plan[i].dueOn <= plan[j].dueOn
  {
    turn, amounts, taken := InTurn(rules, s, collate), [], [];
    if !s.collectedByOta {
      var total := Max(0, s.totalMinor);
      TurnIsInOrder(rules, s, collate);
      taken := Take(turn, s, total, total).value;
      amounts := TakeIsSchedule(turn, s, total, total);
      SortPermutes(ByDue(), taken);
      ByDueIsPreorder();
      SortSorts(ByDue(), taken);
      var plan := Plan(rules, s, collate).value;
      forall i, j | 0 <= i < j < |plan| ensures plan[i].dueOn <= plan[j].dueOn { assert ByDue()(plan[i], plan[j]); }
    }
  }

  lemma {:induction false} ScheduledOf(
    rules: seq<Rule>, total: int, left: int, amounts: seq<int>, s: Stay, plan: seq<Instalment>, x: Instalment)
    returns (r: Rule)
    requires left >= 0 && AllTake(rules, total, left, amounts) && IsSchedule(rules, amounts, s, plan) && x in plan
    ensures r in rules && x.ruleId == r.id && x.name == r.name && x.amountMinor > 0 && IsDue(r, s, x.dueOn)
    ensures r.amount.Fixed? ==>
      x.amountMinor == r.amount.minor || (x.amountMinor < r.amount.minor && Sum(amounts) == left)
  {
    SumFirst(amounts);
    TakenSum(rules[1..], total, left - amounts[0], amounts[1..]);
    if amounts[0] == 0 {
      r := ScheduledOf(rules[1..], total, left, amounts[1..], s, plan, x);
    } else if x == plan[0] {
      r := rules[0];
    } else {
      assert plan == [plan[0]] + plan[1..];
      r := ScheduledOf(rules[1..], total, left - amounts[0], amounts[1..], s, plan[1..], x);
    }
  }

  lemma {:induction false} ScheduledSum(rules: seq<Rule>, amounts: seq<int>, s: Stay, plan: seq<Instalment>)
    requires IsSchedule(rules, amounts, s, plan)
    ensures Collected(plan) == Sum(amounts)
  {
    if rules == [] {
      assert Mapped(AmountOf(), plan) == [];
    } else {
      SumFirst(amounts);
      if amounts[0] == 0 {
        ScheduledSum(rules[1..], amounts[1..], s, plan);
      } else {
        ScheduledSum(rules[1..], amounts[1..], s, plan[1..]);
        assert plan == [plan[0]] + plan[1..];
        CollectedNext(plan[0], plan[1..]);
      }
    }
  }

  /**
   * Every instalment is one of a rule that counts. At confirmation it is due on the day of the
   * booking, before or after arrival that many days from the arrival, but never before the
   * booking. A fixed amount is taken in full, or the plan collects everything.
   */
  lemma InstalmentIsOfRule(rules: seq<Rule>, s: Stay, collate: (Text, Text) -> bool, x: Instalment) returns (r: Rule)
    requires Collation(collate) && Plan(rules, s, collate).Ok? && x in Plan(rules, s, collate).value
    ensures r in rules && Counts(r, s) && x.ruleId == r.id && x.name == r.name && x.amountMinor > 0
    ensures r.trigger == AtConfirmation ==> x.dueOn == s.bookedOn
    ensures r.trigger == BeforeArrival ==> x.dueOn == Max(s.bookedOn, s.arrival - Max(0, r.offsetDays))
    ensures r.trigger == AfterArrival ==> x.dueOn == Max(s.bookedOn, s.arrival + Max(0, r.offsetDays))
    ensures r.amount.Fixed? ==>
      || x.amountMinor == r.amount.minor
      || (x.amountMinor < r.amount.minor && Collected(Plan(rules, s, collate).value) == Max(0, s.totalMinor))
  {
    var turn, amounts, taken := PlanFollowsRules(rules, s, collate);
    assert x in multiset(taken);
    r := ScheduledOf(turn, Max(0, s.totalMinor), Max(0, s.totalMinor), amounts, s, taken, x);
    assert r in multiset(turn);
    ScheduledSum(turn, amounts, s, taken);
    SumForgetsOrder(AmountOf(), Plan(rules, s, collate).value, taken);
  }
}
