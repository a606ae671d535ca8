/**
 * Channel mapping suggestions and the diff of two mappings.
 *
 * Name similarity enters as a parameter, so every result holds whatever scores names get.
 * Locale collation enters as a parameter too and is only assumed to be a total order.
 */
module Mapping {
  import opened Wrappers
  import opened Sorting

  datatype MappingRow = MappingRow(
    ratePlanId: string, roomCode: string, rateCode: string,
    occupancy: Option<int>, rateType: Option<string>, derivedOption: Option<string>)

  datatype OurRatePlan = OurRatePlan(id: string, title: string, roomTypeTitle: string, occupancy: int)
  datatype Rate = Rate(code: string, title: string, occupancy: Option<int>)
  datatype TheirRoom = TheirRoom(code: string, title: string, rates: seq<Rate>)
  datatype Suggestion = Suggestion(row: MappingRow, confidence: real)

  datatype Input = Input(
    ours: seq<OurRatePlan>, theirs: seq<TheirRoom>, history: seq<MappingRow>,
    similarity: (string, string) -> real, collate: (string, string) -> bool)

  const THRESHOLD := 0.2

  function TargetKey(roomCode: string, rateCode: string): string {
    roomCode + "::" + rateCode
  }

  function Key(r: MappingRow): string {
    TargetKey(r.roomCode, r.rateCode)
  }

  function Plan(s: Suggestion): string {
    s.row.ratePlanId
  }

  function Target(s: Suggestion): string {
    Key(s.row)
  }

  // ---- candidates ----------------------------------------------------------------------

  function Offered(theirs: seq<TheirRoom>): set<string> {
    set room, rate | room in theirs && rate in room.rates :: TargetKey(room.code, rate.code)
  }

  /** The accepted mappings the channel still offers; the last row of a plan counts. */
  function Previous(history: seq<MappingRow>, offered: set<string>): map<string, MappingRow> {
    if history == [] then map[]
    else
      var last := history[|history| - 1];
      var before := Previous(history[..|history| - 1], offered);
      if Key(last) in offered then before[last.ratePlanId := last] else before
  }

  function Max(a: real, b: real): real {
    if a < b then b else a
  }

  function Min(a: real, b: real): real {
    if a < b then a else b
  }

  predicate OnlyPair(inp: Input) {
    |inp.theirs| == 1 && |inp.theirs[0].rates| == 1 && |inp.ours| == 1
  }

  function Score(inp: Input, rp: OurRatePlan, room: TheirRoom, rate: Rate): real {
    var named := 0.5 * inp.similarity(rp.roomTypeTitle, room.title) + 0.35 * inp.similarity(rp.title, rate.title);
    var fitted :=
      if rate.occupancy.None? then named
      else if rate.occupancy.value == rp.occupancy then named + 0.15
      else named - 0.1;
    if OnlyPair(inp) then Max(fitted, 0.9) else fitted
  }

  function Candidate(inp: Input, rp: OurRatePlan, room: TheirRoom, rate: Rate): Suggestion {
    Suggestion(
      MappingRow(rp.id, room.code, rate.code, rate.occupancy, None, None),
      Max(0.0, Min(1.0, Score(inp, rp, room, rate))))
  }

  function RateCandidates(inp: Input, rp: OurRatePlan, room: TheirRoom, n: nat): seq<Suggestion>
    requires n <= |room.rates|
  {
    if n == 0 then [] else RateCandidates(inp, rp, room, n - 1) + [Candidate(inp, rp, room, room.rates[n - 1])]
  }

  function RoomCandidates(inp: Input, rp: OurRatePlan, n: nat): seq<Suggestion>
    requires n <= |inp.theirs|
  {
    if n == 0 then []
    else
      var room := inp.theirs[n - 1];
      RoomCandidates(inp, rp, n - 1) + RateCandidates(inp, rp, room, |room.rates|)
  }

  function PlanCandidates(inp: Input, rp: OurRatePlan): seq<Suggestion> {
    var previous := Previous(inp.history, Offered(inp.theirs));
    if rp.id in previous then [Suggestion(previous[rp.id], 1.0)] else RoomCandidates(inp, rp, |inp.theirs|)
  }

  function CandidatesUpTo(inp: Input, n: nat): seq<Suggestion>
    requires n <= |inp.ours|
  {
    if n == 0 then [] else CandidatesUpTo(inp, n - 1) + PlanCandidates(inp, inp.ours[n - 1])
  }

  function Candidates(inp: Input): seq<Suggestion> {
    CandidatesUpTo(inp, |inp.ours|)
  }

  // ---- the greedy pick ------------------------------------------------------------------

  function Better(inp: Input): (Suggestion, Suggestion) -> bool {
    (a: Suggestion, b: Suggestion) =>
      a.confidence > b.confidence || (a.confidence == b.confidence && inp.collate(Plan(a), Plan(b)))
  }

  predicate Conflict(a: Suggestion, b: Suggestion) {
    Plan(a) == Plan(b) || Target(a) == Target(b)
  }

  predicate Eligible(taken: seq<Suggestion>, c: Suggestion) {
    c.confidence >= THRESHOLD && forall g :: g in taken ==> !Conflict(g, c)
  }

  function Pick(cs: seq<Suggestion>): seq<Suggestion> {
    if cs == [] then []
    else
      var taken := Pick(cs[..|cs| - 1]);
      var c := cs[|cs| - 1];
      if Eligible(taken, c) then taken + [c] else taken
  }

  function Suggest(inp: Input): seq<Suggestion> {
    Pick(Sort(Better(inp), Candidates(inp)))
  }

  method BuildCandidates(inp: Input) returns (candidates: seq<Suggestion>)
    ensures candidates == Candidates(inp)
  {
    candidates := [];
    var previous := Previous(inp.history, Offered(inp.theirs));
    for i := 0 to |inp.ours|
      invariant candidates == CandidatesUpTo(inp, i)
    {
      var rp := inp.ours[i];
      if rp.id in previous {
        candidates := candidates + [Suggestion(previous[rp.id], 1.0)];
        continue;
      }
      candidates := AddRoomCandidates(inp, rp, candidates);
    }
  }

  method AddRoomCandidates(inp: Input, rp: OurRatePlan, before: seq<Suggestion>) returns (candidates: seq<Suggestion>)
    ensures candidates == before + RoomCandidates(inp, rp, |inp.theirs|)
  {
    candidates := before;
    for j := 0 to |inp.theirs|
      invariant candidates == before + RoomCandidates(inp, rp, j)
    {
      var room := inp.theirs[j];
      ghost var sofar := candidates;
      for k := 0 to |room.rates|
        invariant candidates == sofar + RateCandidates(inp, rp, room, k)
      {
        candidates := candidates + [Candidate(inp, rp, room, room.rates[k])];
      }
      assert sofar + RateCandidates(inp, rp, room, |room.rates|) ==
        before + (RoomCandidates(inp, rp, j) + RateCandidates(inp, rp, room, |room.rates|));
    }
  }

  method PickGreedily(sorted: seq<Suggestion>) returns (out: seq<Suggestion>)
    ensures out == Pick(sorted)
  {
    var takenPlan: set<string>, takenTarget: set<string> := {}, {};
    out := [];
    for n := 0 to |sorted|
      invariant out == Pick(sorted[..n])
      invariant takenPlan == set g | g in out :: Plan(g)
      invariant takenTarget == set g | g in out :: Target(g)
    {
      var c := sorted[n];
      assert sorted[..n + 1][..n] == sorted[..n];
      assert Eligible(out, c) <==> !(Plan(c) in takenPlan || Target(c) in takenTarget || c.confidence < THRESHOLD);
      if Plan(c) in takenPlan || Target(c) in takenTarget || c.confidence < THRESHOLD {
        continue;
      }
      takenPlan := takenPlan + {Plan(c)};
      takenTarget := takenTarget + {Target(c)};
      out := out + [c];
    }
    assert sorted[..|sorted|] == sorted;
  }

  method SuggestMappings(inp: Input) returns (out: seq<Suggestion>)
    ensures out == Suggest(inp)
  {
    var candidates := BuildCandidates(inp);
    out := PickGreedily(Sort(Better(inp), candidates));
  }

  // ---- what the pick guarantees ----------------------------------------------------------

  ghost predicate Distinct(ss: seq<Suggestion>, id: Suggestion -> string) {
    forall i, j :: 0 <= i < j < |ss| ==> id(ss[i]) != id(ss[j])
  }

  ghost predicate Matching(ss: seq<Suggestion>) {
    Distinct(ss, Plan) && Distinct(ss, Target)
  }

  ghost function Total(ss: seq<Suggestion>): real {
    if ss == [] then 0.0 else ss[0].confidence + Total(ss[1..])
  }

  lemma {:induction false} PickIsMatching(cs: seq<Suggestion>)
    ensures Matching(Pick(cs))
    ensures forall g :: g in Pick(cs) ==> g in cs && g.confidence >= THRESHOLD
  {
    if cs != [] {
      var taken, c := Pick(cs[..|cs| - 1]), cs[|cs| - 1];
      PickIsMatching(cs[..|cs| - 1]);
      if Eligible(taken, c) {
        DistinctExtends(taken, c, Plan);
        DistinctExtends(taken, c, Target);
      }
    }
  }

  lemma DistinctExtends(ss: seq<Suggestion>, c: Suggestion, id: Suggestion -> string)
    requires Distinct(ss, id) && forall g :: g in ss ==> id(g) != id(c)
    ensures Distinct(ss + [c], id) && Distinct([c] + ss, id)
  {
    forall j | 0 <= j < |ss| ensures id(ss[j]) != id(c) {
      assert ss[j] in ss;
    }
  }

  /** Every candidate worth suggesting is matched or loses to a chosen one that is at least as good. */
  lemma {:induction false} SkippedIsBlocked(le: (Suggestion, Suggestion) -> bool, cs: seq<Suggestion>, c: Suggestion)
    requires SortedBy(le, cs) && (forall a, b :: le(a, b) ==> a.confidence >= b.confidence)
    requires c in cs && c.confidence >= THRESHOLD
    ensures exists g :: g in Pick(cs) && Conflict(g, c) && g.confidence >= c.confidence
  {
    var front, last := cs[..|cs| - 1], cs[|cs| - 1];
    if c in front {
      SkippedIsBlocked(le, front, c);
      var g :| g in Pick(front) && Conflict(g, c) && g.confidence >= c.confidence;
      assert g in Pick(cs);
    } else if Eligible(Pick(front), last) {
      assert c == last && Pick(cs)[|Pick(cs)| - 1] == c;
    } else {
      assert c == last;
      var g :| g in Pick(front) && Conflict(g, c);
      PickIsMatching(front);
      var i :| 0 <= i < |front| && front[i] == g;
      assert le(cs[i], cs[|cs| - 1]);
      assert g in Pick(cs);
    }
  }

  lemma {:induction false} TotalSplits(a: seq<Suggestion>, b: seq<Suggestion>)
    ensures Total(a + b) == Total(a) + Total(b)
  {
    if a == [] {
      assert a + b == b;
    } else {
      TotalSplits(a[1..], b);
      assert (a + b)[1..] == a[1..] + b;
    }
  }

  /** Charge each of ms to a different element of gs that has its id and at least its confidence. */
  lemma {:induction false} Charge(ms: seq<Suggestion>, gs: seq<Suggestion>, id: Suggestion -> string)
    requires Distinct(ms, id)
    requires forall g :: g in gs ==> g.confidence >= 0.0
    requires forall m :: m in ms ==> exists g :: g in gs && id(g) == id(m) && g.confidence >= m.confidence
    ensures Total(ms) <= Total(gs)
  {
    if ms == [] {
      TotalNonNegative(gs);
    } else {
      var g :| g in gs && id(g) == id(ms[0]) && g.confidence >= ms[0].confidence;
      var k :| 0 <= k < |gs| && gs[k] == g;
      var rest := gs[..k] + gs[k + 1..];
      forall m | m in ms[1..] ensures exists h :: h in rest && id(h) == id(m) && h.confidence >= m.confidence {
        var h :| h in gs && id(h) == id(m) && h.confidence >= m.confidence;
        var j :| 0 <= j < |gs| && gs[j] == h;
        assert id(m) != id(ms[0]);
        assert j != k;
        assert h in rest;
      }
      Charge(ms[1..], rest, id);
      TotalSplits(gs[..k], gs[k + 1..]);
      TotalSplits(gs[..k], gs[k..]);
      assert gs == gs[..k] + gs[k..];
    }
  }

  lemma {:induction false} TotalNonNegative(gs: seq<Suggestion>)
    requires forall g :: g in gs ==> g.confidence >= 0.0
    ensures Total(gs) >= 0.0
  {
    if gs != [] { TotalNonNegative(gs[1..]); }
  }

  ghost predicate Beaten(m: Suggestion, gs: seq<Suggestion>, id: Suggestion -> string) {
    exists g :: g in gs && id(g) == id(m) && g.confidence >= m.confidence
  }

  /** Divide ms into those beaten on their plan and those beaten on their target. */
  lemma {:induction false} Divide(ms: seq<Suggestion>, gs: seq<Suggestion>)
    returns (byPlan: seq<Suggestion>, byTarget: seq<Suggestion>)
    requires Matching(ms)
    requires forall m :: m in ms ==> Beaten(m, gs, Plan) || Beaten(m, gs, Target)
    ensures Distinct(byPlan, Plan) && Distinct(byTarget, Target)
    ensures forall m :: m in byPlan ==> m in ms && Beaten(m, gs, Plan)
    ensures forall m :: m in byTarget ==> m in ms && Beaten(m, gs, Target)
    ensures Total(ms) == Total(byPlan) + Total(byTarget)
  {
    if ms == [] {
      byPlan, byTarget := [], [];
    } else {
      var p, t := Divide(ms[1..], gs);
      assert forall m :: m in p || m in t ==> m in ms[1..];
      if Beaten(ms[0], gs, Plan) {
        DistinctExtends(p, ms[0], Plan);
        byPlan, byTarget := [ms[0]] + p, t;
      } else {
        DistinctExtends(t, ms[0], Target);
        byPlan, byTarget := p, [ms[0]] + t;
      }
    }
  }

  lemma BetterIsOrder(inp: Input)
    requires TotalPreorder(inp.collate)
    ensures TotalPreorder(Better(inp))
  {
    var le := Better(inp);
    forall a, b, c | le(a, b) && le(b, c) ensures le(a, c) {
      assert inp.collate(Plan(a), Plan(b)) && inp.collate(Plan(b), Plan(c)) ==> inp.collate(Plan(a), Plan(c));
    }
    forall a, b ensures le(a, b) || le(b, a) {
      assert inp.collate(Plan(a), Plan(b)) || inp.collate(Plan(b), Plan(a));
    }
  }

  /** MAP-1: each plan and each channel rate at most once, and only candidates of 0.2 or more. */
  lemma SuggestionsFormMatching(inp: Input)
    ensures Matching(Suggest(inp))
    ensures forall g :: g in Suggest(inp) ==> g in Candidates(inp) && g.confidence >= THRESHOLD
  {
    PickIsMatching(Sort(Better(inp), Candidates(inp)));
    SortPermutes(Better(inp), Candidates(inp));
  }

  /** Nothing worth suggesting is skipped without a reason: maximality. */
  lemma EveryCandidateIsBlocked(inp: Input, c: Suggestion)
    requires TotalPreorder(inp.collate)
    requires c in Candidates(inp) && c.confidence >= THRESHOLD
    ensures exists g :: g in Suggest(inp) && Conflict(g, c) && g.confidence >= c.confidence
  {
    var le := Better(inp);
    BetterIsOrder(inp);
    SortSorts(le, Candidates(inp));
    SortPermutes(le, Candidates(inp));
    SkippedIsBlocked(le, Sort(le, Candidates(inp)), c);
  }

  /** The suggestions are worth at least half of any other conflict-free choice of candidates. */
  lemma SuggestionsAreHalfOptimal(inp: Input, ms: seq<Suggestion>)
    requires TotalPreorder(inp.collate)
    requires Matching(ms)
    requires forall m :: m in ms ==> m in Candidates(inp) && m.confidence >= THRESHOLD
    ensures 2.0 * Total(Suggest(inp)) >= Total(ms)
  {
    var gs := Suggest(inp);
    SuggestionsFormMatching(inp);
    forall m | m in ms ensures Beaten(m, gs, Plan) || Beaten(m, gs, Target) {
      EveryCandidateIsBlocked(inp, m);
      var g :| g in gs && Conflict(g, m) && g.confidence >= m.confidence;
    }
    var byPlan, byTarget := Divide(ms, gs);
    assert forall g :: g in gs ==> g.confidence >= 0.0;
    Charge(byPlan, gs, Plan);
    Charge(byTarget, gs, Target);
  }

  /**
   * Two plans and two rooms of one rate each, all of the same names and occupancy, so that the
   * first plan fits both. The second plan was mapped to the first room before, but the first
   * plan comes first and takes that one.
   */
  function Rivals(): Input {
    Input(
      [OurRatePlan("a", "Flexible", "Double", 2), OurRatePlan("b", "Flexible", "Double", 2)],
      [TheirRoom("r", "Double", [Rate("x", "Flexible", Some(2))]),
       TheirRoom("s", "Double", [Rate("y", "Flexible", Some(2))])],
      [MappingRow("b", "r", "x", Some(2), None, None)],
      (ours: string, theirs: string) => if ours == theirs then 1.0 else 0.0,
      (p: string, q: string) => p == "a" || q != "a")
  }

  function Rival(plan: string, room: string, rate: string): Suggestion {
    Suggestion(MappingRow(plan, room, rate, Some(2), None, None), 1.0)
  }

  lemma RivalCandidates()
    ensures Candidates(Rivals()) == [Rival("a", "r", "x"), Rival("a", "s", "y"), Rival("b", "r", "x")]
  {
    var inp := Rivals();
    RivalHistory();
    RivalsOfFirst();
    assert CandidatesUpTo(inp, 1) == [] + PlanCandidates(inp, inp.ours[0]);
    assert CandidatesUpTo(inp, 2) == CandidatesUpTo(inp, 1) + PlanCandidates(inp, inp.ours[1]);
  }

  lemma RivalHistory()
    ensures Previous(Rivals().history, Offered(Rivals().theirs)) == map["b" := Rivals().history[0]]
    ensures "a" !in Previous(Rivals().history, Offered(Rivals().theirs))
  {
    var inp := Rivals();
    assert inp.theirs[0] in inp.theirs && inp.theirs[0].rates[0] in inp.theirs[0].rates;
    assert Key(inp.history[0]) in Offered(inp.theirs);
    assert Previous(inp.history[..0], Offered(inp.theirs)) == map[];
    assert "a"[0] != "b"[0];
  }

  lemma RivalsOfFirst()
    ensures PlanCandidates(Rivals(), Rivals().ours[0]) == [Rival("a", "r", "x"), Rival("a", "s", "y")]
  {
    var inp := Rivals();
    var rp, r, s := inp.ours[0], inp.theirs[0], inp.theirs[1];
    RivalHistory();
    assert RateCandidates(inp, rp, r, 1) == [] + [Candidate(inp, rp, r, r.rates[0])];
    assert RateCandidates(inp, rp, s, 1) == [] + [Candidate(inp, rp, s, s.rates[0])];
    assert RoomCandidates(inp, rp, 1) == [] + RateCandidates(inp, rp, r, 1);
    assert Candidate(inp, rp, r, r.rates[0]) == Rival("a", "r", "x");
    assert Candidate(inp, rp, s, s.rates[0]) == Rival("a", "s", "y");
  }

  lemma PickNext(cs: seq<Suggestion>, c: Suggestion)
    ensures Pick(cs + [c]) == if Eligible(Pick(cs), c) then Pick(cs) + [c] else Pick(cs)
  {
    assert (cs + [c])[..|cs|] == cs;
  }

  /** What conflicts with the first is not picked. */
  lemma PickOnlyFirst(a: Suggestion, b: Suggestion, c: Suggestion)
    requires a.confidence >= THRESHOLD && Conflict(a, b) && Conflict(a, c)
    ensures Pick([a, b, c]) == [a]
  {
    PickNext([], a);
    PickNext([a], b);
    PickNext([a, b], c);
    assert [] + [a] == [a] && [a] + [b] == [a, b] && [a, b] + [c] == [a, b, c];
  }

  lemma TotalOfTwo(a: Suggestion, b: Suggestion)
    ensures Total([a]) == a.confidence && Total([a, b]) == a.confidence + b.confidence
  {
    assert [a, b][1..] == [b] && [b][1..] == [] && [a][1..] == [];
  }

  lemma RivalTargets()
    ensures Target(Rival("a", "r", "x")) == Target(Rival("b", "r", "x")) == "r::x"
    ensures Target(Rival("a", "s", "y")) == "s::y"
  {
    assert "r" + "::" + "x" == "r::x" && "s" + "::" + "y" == "s::y";
  }

  lemma RivalsConflict()
    ensures Conflict(Rival("a", "r", "x"), Rival("a", "s", "y"))
    ensures Conflict(Rival("a", "r", "x"), Rival("b", "r", "x"))
    ensures Matching([Rival("a", "s", "y"), Rival("b", "r", "x")])
  {
    RivalTargets();
    assert "r::x"[0] == 'r' && "s::y"[0] == 's';
    assert "a"[0] == 'a' && "b"[0] == 'b';
  }

  /** Equal confidences, and plans in order. */
  lemma SortedByHand(inp: Input, a: Suggestion, b: Suggestion, c: Suggestion)
    requires a.confidence == b.confidence == c.confidence
    requires inp.collate(Plan(a), Plan(b)) && inp.collate(Plan(a), Plan(c)) && inp.collate(Plan(b), Plan(c))
    ensures SortedBy(Better(inp), [a, b, c])
  {
    var cs, le := [a, b, c], Better(inp);
    assert le(a, b) && le(a, c) && le(b, c);
    forall i, j | 0 <= i < j < 3 ensures le(cs[i], cs[j]) {
      assert i == 0 || i == 1;
    }
  }

  /** No factor below two would do: here the suggestions are worth exactly half of the best choice. */
  lemma HalfIsTight() returns (best: seq<Suggestion>)
    ensures TotalPreorder(Rivals().collate)
    ensures Matching(best) && forall m :: m in best ==> m in Candidates(Rivals())
    ensures Total(Suggest(Rivals())) == 1.0 && Total(best) == 2.0
  {
    var first, other, rival := Rival("a", "r", "x"), Rival("a", "s", "y"), Rival("b", "r", "x");
    best := [other, rival];
    RivalCandidates();
    RivalsConflict();
    SortedByHand(Rivals(), first, other, rival);
    SortedStays(Better(Rivals()), [first, other, rival]);
    PickOnlyFirst(first, other, rival);
    TotalOfTwo(first, first);
    TotalOfTwo(other, rival);
  }

  // ---- remembered mappings and offered targets ------------------------------------------

  lemma {:induction false} PreviousIsOffered(history: seq<MappingRow>, offered: set<string>, id: string)
    requires id in Previous(history, offered)
    ensures Previous(history, offered)[id] in history
    ensures Previous(history, offered)[id].ratePlanId == id && Key(Previous(history, offered)[id]) in offered
  {
    var front := history[..|history| - 1];
    if id in Previous(front, offered) { PreviousIsOffered(front, offered, id); }
  }

  lemma {:induction false} RoomCandidatesOffered(inp: Input, rp: OurRatePlan, n: nat, s: Suggestion)
    requires n <= |inp.theirs| && s in RoomCandidates(inp, rp, n)
    ensures Plan(s) == rp.id && Target(s) in Offered(inp.theirs) && 0.0 <= s.confidence <= 1.0
  {
    if s in RoomCandidates(inp, rp, n - 1) {
      RoomCandidatesOffered(inp, rp, n - 1, s);
    } else {
      var room := inp.theirs[n - 1];
      var k := RateCandidateAt(inp, rp, room, |room.rates|, s);
      assert room in inp.theirs && room.rates[k] in room.rates;
    }
  }

  lemma {:induction false} RateCandidateAt(inp: Input, rp: OurRatePlan, room: TheirRoom, n: nat, s: Suggestion)
    returns (k: nat)
    requires n <= |room.rates| && s in RateCandidates(inp, rp, room, n)
    ensures k < n && s == Candidate(inp, rp, room, room.rates[k])
  {
    if s in RateCandidates(inp, rp, room, n - 1) {
      k := RateCandidateAt(inp, rp, room, n - 1, s);
    } else {
      k := n - 1;
    }
  }

  lemma PlanCandidateOrigin(inp: Input, rp: OurRatePlan, s: Suggestion)
    requires s in PlanCandidates(inp, rp)
    ensures Plan(s) == rp.id && Target(s) in Offered(inp.theirs) && 0.0 <= s.confidence <= 1.0
  {
    if rp.id in Previous(inp.history, Offered(inp.theirs)) {
      PreviousIsOffered(inp.history, Offered(inp.theirs), rp.id);
    } else {
      RoomCandidatesOffered(inp, rp, |inp.theirs|, s);
    }
  }

  lemma {:induction false} CandidateOrigin(inp: Input, n: nat, s: Suggestion) returns (i: nat)
    requires n <= |inp.ours| && s in CandidatesUpTo(inp, n)
    ensures i < n && s in PlanCandidates(inp, inp.ours[i])
    ensures Plan(s) == inp.ours[i].id && Target(s) in Offered(inp.theirs) && 0.0 <= s.confidence <= 1.0
  {
    if s in CandidatesUpTo(inp, n - 1) {
      i := CandidateOrigin(inp, n - 1, s);
    } else {
      i := n - 1;
      PlanCandidateOrigin(inp, inp.ours[i], s);
    }
  }

  /** Suggestions stay between 0.2 and 1, for a plan of ours and a rate the channel offers now. */
  lemma SuggestionsAreOffered(inp: Input, s: Suggestion)
    requires s in Suggest(inp)
    ensures Target(s) in Offered(inp.theirs)
    ensures exists rp :: rp in inp.ours && rp.id == Plan(s)
    ensures THRESHOLD <= s.confidence <= 1.0
  {
    SuggestionsFormMatching(inp);
    var i := CandidateOrigin(inp, |inp.ours|, s);
    assert inp.ours[i] in inp.ours;
  }

  lemma InEither(front: seq<Suggestion>, last: seq<Suggestion>, s: Suggestion)
    requires s in front || s in last
    ensures s in front + last
  {
  }

  lemma {:induction false} PlanCandidateIncluded(inp: Input, n: nat, i: nat, s: Suggestion)
    requires i < n <= |inp.ours| && s in PlanCandidates(inp, inp.ours[i])
    ensures s in CandidatesUpTo(inp, n)
  {
    if i < n - 1 {
      PlanCandidateIncluded(inp, n - 1, i, s);
    }
    InEither(CandidatesUpTo(inp, n - 1), PlanCandidates(inp, inp.ours[n - 1]), s);
  }

  /**
   * A remembered mapping that is still offered is suggested again, unless another plan
   * takes the same channel rate with full confidence; the plan gets nothing else.
   */
  lemma RememberedMappingWins(inp: Input, i: nat)
    requires TotalPreorder(inp.collate)
    requires i < |inp.ours| && inp.ours[i].id in Previous(inp.history, Offered(inp.theirs))
    ensures
      var prior := Previous(inp.history, Offered(inp.theirs))[inp.ours[i].id];
      || Suggestion(prior, 1.0) in Suggest(inp)
      || (exists g :: g in Suggest(inp) && Plan(g) != inp.ours[i].id && Target(g) == Key(prior) && g.confidence == 1.0)
    ensures forall g :: g in Suggest(inp) && Plan(g) == inp.ours[i].id ==>
      g == Suggestion(Previous(inp.history, Offered(inp.theirs))[inp.ours[i].id], 1.0)
  {
    var rp := inp.ours[i];
    var prior := Previous(inp.history, Offered(inp.theirs))[rp.id];
    var c := Suggestion(prior, 1.0);
    PreviousIsOffered(inp.history, Offered(inp.theirs), rp.id);
    assert c in PlanCandidates(inp, rp);
    PlanCandidateIncluded(inp, |inp.ours|, i, c);
    SuggestionsFormMatching(inp);
    forall g | g in Suggest(inp) && Plan(g) == rp.id ensures g == c {
      var k := CandidateOrigin(inp, |inp.ours|, g);
      assert inp.ours[k].id == rp.id;
    }
    EveryCandidateIsBlocked(inp, c);
    var g :| g in Suggest(inp) && Conflict(g, c) && g.confidence >= c.confidence;
    SuggestionsAreOffered(inp, g);
  }

  // ---- mapping diff (MAP-4) -----------------------------------------------------------------

  datatype MappingChange = MappingChange(before: MappingRow, after: MappingRow)
  datatype MappingDiff = MappingDiff(
    startsSelling: seq<MappingRow>, stopsSelling: seq<MappingRow>, changed: seq<MappingChange>)

  /** The rows by plan; the last row of a plan counts. */
  function ByPlan(rows: seq<MappingRow>): map<string, MappingRow> {
    if rows == [] then map[] else ByPlan(rows[..|rows| - 1])[rows[|rows| - 1].ratePlanId := rows[|rows| - 1]]
  }

  /** The plans of the rows in the order a Map keeps them: by first appearance. */
  function PlanOrder(rows: seq<MappingRow>): seq<string> {
    if rows == [] then []
    else
      var order := PlanOrder(rows[..|rows| - 1]);
      var id := rows[|rows| - 1].ratePlanId;
      if id in order then order else order + [id]
  }

  /** What the channel sells for a plan: the target, the occupancy and the derivation. */
  predicate SellsSame(x: MappingRow, y: MappingRow) {
    Key(x) == Key(y) && x.occupancy == y.occupancy && x.derivedOption == y.derivedOption
  }

  lemma {:induction false} PlanOrderIsDomain(rows: seq<MappingRow>)
    ensures forall id :: id in PlanOrder(rows) <==> id in ByPlan(rows)
    ensures forall id :: id in ByPlan(rows) ==> ByPlan(rows)[id].ratePlanId == id && ByPlan(rows)[id] in rows
    ensures forall i, j :: 0 <= i < j < |PlanOrder(rows)| ==> PlanOrder(rows)[i] != PlanOrder(rows)[j]
  {
    if rows != [] { PlanOrderIsDomain(rows[..|rows| - 1]); }
  }

  /** The rows of `rows` whose plan `others` does not have, in the given order. */
  function Unmatched(
    rows: map<string, MappingRow>, others: map<string, MappingRow>, order: seq<string>): seq<MappingRow>
    requires forall id :: id in order ==> id in rows
  {
    if order == [] then []
    else
      var id := order[|order| - 1];
      Unmatched(rows, others, order[..|order| - 1]) + (if id in others then [] else [rows[id]])
  }

  function Changed(b: map<string, MappingRow>, a: map<string, MappingRow>, order: seq<string>): seq<MappingChange>
    requires forall id :: id in order ==> id in a
  {
    if order == [] then []
    else
      var id := order[|order| - 1];
      Changed(b, a, order[..|order| - 1])
      + (if id in b && !SellsSame(b[id], a[id]) then [MappingChange(b[id], a[id])] else [])
  }

  function Diff(before: seq<MappingRow>, after: seq<MappingRow>): MappingDiff {
    PlanOrderIsDomain(before);
    PlanOrderIsDomain(after);
    var b, a := ByPlan(before), ByPlan(after);
    MappingDiff(Unmatched(a, b, PlanOrder(after)), Unmatched(b, a, PlanOrder(before)), Changed(b, a, PlanOrder(after)))
  }

  method DiffMappings(before: seq<MappingRow>, after: seq<MappingRow>) returns (diff: MappingDiff)
    ensures diff == Diff(before, after)
  {
    PlanOrderIsDomain(before);
    PlanOrderIsDomain(after);
    var b, a := ByPlan(before), ByPlan(after);
    var starts: seq<MappingRow>, changed: seq<MappingChange> := [], [];
    var order := PlanOrder(after);
    for i := 0 to |order|
      invariant starts == Unmatched(a, b, order[..i]) && changed == Changed(b, a, order[..i])
    {
      var id := order[i];
      assert order[..i + 1][..i] == order[..i];
      if id !in b {
        starts := starts + [a[id]];
      } else if !SellsSame(b[id], a[id]) {
        changed := changed + [MappingChange(b[id], a[id])];
      }
    }
    assert order[..|order|] == order;
    var stops := CollectStopped(b, a, PlanOrder(before));
    diff := MappingDiff(starts, stops, changed);
  }

  method CollectStopped(b: map<string, MappingRow>, a: map<string, MappingRow>, order: seq<string>)
    returns (stops: seq<MappingRow>)
    requires forall id :: id in order ==> id in b
    ensures stops == Unmatched(b, a, order)
  {
    stops := [];
    for i := 0 to |order|
      invariant stops == Unmatched(b, a, order[..i])
    {
      assert order[..i + 1][..i] == order[..i];
      if order[i] !in a {
        stops := stops + [b[order[i]]];
      }
    }
    assert order[..|order|] == order;
  }

  lemma {:induction false} UnmatchedHas(
    rows: map<string, MappingRow>, others: map<string, MappingRow>, order: seq<string>, row: MappingRow)
    requires forall id :: id in order ==> id in rows && rows[id].ratePlanId == id
    ensures row in Unmatched(rows, others, order) <==>
      row.ratePlanId in order && row.ratePlanId !in others && row == rows[row.ratePlanId]
  {
    if order != [] {
      UnmatchedHas(rows, others, order[..|order| - 1], row);
      assert order == order[..|order| - 1] + [order[|order| - 1]];
    }
  }

  lemma {:induction false} ChangedHas(
    b: map<string, MappingRow>, a: map<string, MappingRow>, order: seq<string>, c: MappingChange)
    requires forall id :: id in order ==> id in a && a[id].ratePlanId == id
    ensures c in Changed(b, a, order) <==>
      && c.after.ratePlanId in order && c.after.ratePlanId in b && c.after == a[c.after.ratePlanId]
      && c.before == b[c.after.ratePlanId] && !SellsSame(c.before, c.after)
  {
    if order != [] {
      ChangedHas(b, a, order[..|order| - 1], c);
      assert order == order[..|order| - 1] + [order[|order| - 1]];
    }
  }

  /** The rows left after a diff is carried out on the live mapping. */
  ghost function Patch(b: map<string, MappingRow>, d: MappingDiff): map<string, MappingRow> {
    var stopped := set row | row in d.stopsSelling :: row.ratePlanId;
    var written := set row | row in d.startsSelling + Afters(d.changed) :: row.ratePlanId;
    map id | id in (b.Keys - stopped) + written ::
      if id in written then Written(d, id) else b[id]
  }

  ghost function Written(d: MappingDiff, id: string): MappingRow
    requires exists row :: row in d.startsSelling + Afters(d.changed) && row.ratePlanId == id
  {
    var row :| row in d.startsSelling + Afters(d.changed) && row.ratePlanId == id;
    row
  }

  ghost function Afters(changed: seq<MappingChange>): seq<MappingRow> {
    seq(|changed|, i requires 0 <= i < |changed| => changed[i].after)
  }

  ghost predicate Starts(b: map<string, MappingRow>, a: map<string, MappingRow>, row: MappingRow) {
    row.ratePlanId in a && row == a[row.ratePlanId] && row.ratePlanId !in b
  }

  ghost predicate Changes(b: map<string, MappingRow>, a: map<string, MappingRow>, c: MappingChange) {
    && c.after.ratePlanId in b && c.after.ratePlanId in a
    && c.before == b[c.after.ratePlanId] && c.after == a[c.after.ratePlanId] && !SellsSame(c.before, c.after)
  }

  /** What is reported: exactly the plans that start, stop, or sell something else. */
  lemma DiffIsExact(before: seq<MappingRow>, after: seq<MappingRow>)
    ensures forall row :: row in Diff(before, after).startsSelling <==> Starts(ByPlan(before), ByPlan(after), row)
    ensures forall row :: row in Diff(before, after).stopsSelling <==> Starts(ByPlan(after), ByPlan(before), row)
    ensures forall c :: c in Diff(before, after).changed <==> Changes(ByPlan(before), ByPlan(after), c)
  {
    var b, a, d := ByPlan(before), ByPlan(after), Diff(before, after);
    PlanOrderIsDomain(before);
    PlanOrderIsDomain(after);
    forall row ensures row in d.startsSelling <==> Starts(b, a, row) { UnmatchedHas(a, b, PlanOrder(after), row); }
    forall row ensures row in d.stopsSelling <==> Starts(a, b, row) { UnmatchedHas(b, a, PlanOrder(before), row); }
    forall c ensures c in d.changed <==> Changes(b, a, c) { ChangedHas(b, a, PlanOrder(after), c); }
  }

  lemma WrittenAreNew(b: map<string, MappingRow>, a: map<string, MappingRow>, d: MappingDiff, row: MappingRow)
    requires forall r :: r in d.startsSelling <==> Starts(b, a, r)
    requires forall c :: c in d.changed <==> Changes(b, a, c)
    requires row in d.startsSelling + Afters(d.changed)
    ensures row.ratePlanId in a && row == a[row.ratePlanId]
  {
    if row !in d.startsSelling {
      assert row in Afters(d.changed);
      var i :| 0 <= i < |d.changed| && d.changed[i].after == row;
      assert d.changed[i] in d.changed;
    }
  }

  lemma PatchedSells(b: map<string, MappingRow>, a: map<string, MappingRow>, d: MappingDiff, id: string)
    requires forall k :: k in b ==> b[k].ratePlanId == k
    requires forall k :: k in a ==> a[k].ratePlanId == k
    requires forall r :: r in d.startsSelling <==> Starts(b, a, r)
    requires forall r :: r in d.stopsSelling <==> Starts(a, b, r)
    requires forall c :: c in d.changed <==> Changes(b, a, c)
    ensures id in Patch(b, d) <==> id in a
    ensures id in a ==> SellsSame(Patch(b, d)[id], a[id])
  {
    var rows := d.startsSelling + Afters(d.changed);
    assert id in a && id !in b ==> a[id] in rows;
    assert id in b && id !in a ==> b[id] in d.stopsSelling;
    if id in a && id in b && !SellsSame(b[id], a[id]) {
      var c := MappingChange(b[id], a[id]);
      assert c in d.changed;
      var i :| 0 <= i < |d.changed| && d.changed[i] == c;
      assert Afters(d.changed)[i] == a[id] && a[id] in rows;
    }
    if row :| row in rows && row.ratePlanId == id {
      WrittenAreNew(b, a, d, Written(d, id));
    }
  }

  /** MAP-4: carrying out the diff on the old mapping sells exactly what the new mapping sells. */
  lemma DiffPatches(before: seq<MappingRow>, after: seq<MappingRow>)
    ensures
      var patched := Patch(ByPlan(before), Diff(before, after));
      && patched.Keys == ByPlan(after).Keys
      && (forall id :: id in patched ==> SellsSame(patched[id], ByPlan(after)[id]))
  {
    var b, a, d := ByPlan(before), ByPlan(after), Diff(before, after);
    PlanOrderIsDomain(before);
    PlanOrderIsDomain(after);
    DiffIsExact(before, after);
    forall id ensures id in Patch(b, d) <==> id in a
      ensures id in a ==> SellsSame(Patch(b, d)[id], a[id])
    {
      PatchedSells(b, a, d, id);
    }
  }
}
