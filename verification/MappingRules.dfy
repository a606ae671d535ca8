/**
 * What channel mapping promises of its input, written out: which pairs of a plan and a rate are
 * weighed, what they score, what is remembered, and what a diff reports.
 */
module MappingRules {
  import opened Wrappers
  import opened Sorting
  import opened Mapping

  /** The channel still offers the room and the rate of an accepted mapping. */
  ghost predicate StillThere(theirs: seq<TheirRoom>, h: MappingRow) {
    exists j, k ::
      0 <= j < |theirs| && 0 <= k < |theirs[j].rates| &&
      theirs[j].code + "::" + theirs[j].rates[k].code == h.roomCode + "::" + h.rateCode
  }

  /** Nothing accepted earlier for the plan is still there. */
  ghost predicate NotRemembered(inp: Input, id: string) {
    forall n :: 0 <= n < |inp.history| && inp.history[n].ratePlanId == id ==> !StillThere(inp.theirs, inp.history[n])
  }

  lemma StillThereIff(theirs: seq<TheirRoom>, h: MappingRow)
    ensures StillThere(theirs, h) <==> Key(h) in Offered(theirs)
  {
    if room, rate :| room in theirs && rate in room.rates && TargetKey(room.code, rate.code) == Key(h) {
      var j :| 0 <= j < |theirs| && theirs[j] == room;
      var k :| 0 <= k < |room.rates| && room.rates[k] == rate;
      assert theirs[j].code + "::" + theirs[j].rates[k].code == h.roomCode + "::" + h.rateCode;
    }
    if StillThere(theirs, h) {
      var j, k :| 0 <= j < |theirs| && 0 <= k < |theirs[j].rates|
        && theirs[j].code + "::" + theirs[j].rates[k].code == h.roomCode + "::" + h.rateCode;
      assert theirs[j] in theirs && theirs[j].rates[k] in theirs[j].rates;
      assert TargetKey(theirs[j].code, theirs[j].rates[k].code) == Key(h);
    }
  }

  lemma {:induction false} RememberedIff(history: seq<MappingRow>, offered: set<string>, id: string)
    ensures id in Previous(history, offered) <==>
      exists n :: 0 <= n < |history| && history[n].ratePlanId == id && Key(history[n]) in offered
  {
    if history != [] {
      var front := history[..|history| - 1];
      RememberedIff(front, offered, id);
      if n :| 0 <= n < |front| && front[n].ratePlanId == id && Key(front[n]) in offered {
        assert history[n] == front[n];
      }
      if n :| 0 <= n < |history| && history[n].ratePlanId == id && Key(history[n]) in offered {
        assert n < |front| ==> front[n] == history[n];
      }
    }
  }

  lemma {:induction false} LatestIsRemembered(history: seq<MappingRow>, offered: set<string>, n: nat)
    requires n < |history| && Key(history[n]) in offered
    requires forall m :: n < m < |history| && history[m].ratePlanId == history[n].ratePlanId ==>
      Key(history[m]) !in offered
    ensures history[n].ratePlanId in Previous(history, offered)
    ensures Previous(history, offered)[history[n].ratePlanId] == history[n]
  {
    if n < |history| - 1 { LatestIsRemembered(history[..|history| - 1], offered, n); }
  }

  lemma NotRememberedIff(inp: Input, id: string)
    ensures NotRemembered(inp, id) <==> id !in Previous(inp.history, Offered(inp.theirs))
  {
    RememberedIff(inp.history, Offered(inp.theirs), id);
    forall n | 0 <= n < |inp.history|
      ensures StillThere(inp.theirs, inp.history[n]) <==> Key(inp.history[n]) in Offered(inp.theirs)
    {
      StillThereIff(inp.theirs, inp.history[n]);
    }
  }

  // ---- every pair is weighed --------------------------------------------------------------------------

  lemma {:induction false} RateIsCandidate(inp: Input, rp: OurRatePlan, room: TheirRoom, n: nat, k: nat)
    requires k < n <= |room.rates|
    ensures Candidate(inp, rp, room, room.rates[k]) in RateCandidates(inp, rp, room, n)
  {
    if k < n - 1 { RateIsCandidate(inp, rp, room, n - 1, k); }
    InEither(RateCandidates(inp, rp, room, n - 1), [Candidate(inp, rp, room, room.rates[n - 1])],
      Candidate(inp, rp, room, room.rates[k]));
  }

  lemma {:induction false} PairIsRoomCandidate(inp: Input, rp: OurRatePlan, n: nat, j: nat, k: nat)
    requires j < n <= |inp.theirs| && k < |inp.theirs[j].rates|
    ensures Candidate(inp, rp, inp.theirs[j], inp.theirs[j].rates[k]) in RoomCandidates(inp, rp, n)
  {
    var room, last := inp.theirs[j], inp.theirs[n - 1];
    if j < n - 1 {
      PairIsRoomCandidate(inp, rp, n - 1, j, k);
    } else {
      RateIsCandidate(inp, rp, room, |room.rates|, k);
    }
    InEither(RoomCandidates(inp, rp, n - 1), RateCandidates(inp, rp, last, |last.rates|),
      Candidate(inp, rp, room, room.rates[k]));
  }

  lemma PairIsCandidate(inp: Input, i: nat, j: nat, k: nat)
    requires i < |inp.ours| && j < |inp.theirs| && k < |inp.theirs[j].rates|
    requires NotRemembered(inp, inp.ours[i].id)
    ensures Candidate(inp, inp.ours[i], inp.theirs[j], inp.theirs[j].rates[k]) in Candidates(inp)
  {
    NotRememberedIff(inp, inp.ours[i].id);
    PairIsRoomCandidate(inp, inp.ours[i], |inp.theirs|, j, k);
    PlanCandidateIncluded(
      inp, |inp.ours|, i, Candidate(inp, inp.ours[i], inp.theirs[j], inp.theirs[j].rates[k]));
  }

  /** The confidence of a pair: the weighed names, 0.15 for the occupancy or 0.1 against it, within 0 and 1. */
  ghost predicate Scores(inp: Input, rp: OurRatePlan, room: TheirRoom, rate: Rate, confidence: real) {
    var names := 0.5 * inp.similarity(rp.roomTypeTitle, room.title) + 0.35 * inp.similarity(rp.title, rate.title);
    var score :=
      match rate.occupancy
      case None => names
      case Some(guests) => if guests == rp.occupancy then names + 0.15 else names - 0.1;
    // a single plan and a single rate on either side belong together
    var paired :=
      if |inp.ours| == 1 && |inp.theirs| == 1 && |inp.theirs[0].rates| == 1 && score < 0.9 then 0.9 else score;
    confidence == if paired < 0.0 then 0.0 else if paired > 1.0 then 1.0 else paired
  }

  lemma CandidateScores(inp: Input, rp: OurRatePlan, room: TheirRoom, rate: Rate)
    ensures Scores(inp, rp, room, rate, Candidate(inp, rp, room, rate).confidence)
    ensures Candidate(inp, rp, room, rate).row == MappingRow(rp.id, room.code, rate.code, rate.occupancy, None, None)
  {
  }

  /**
   * MAP-1, for every plan without a remembered mapping, every room and every rate of it: when
   * the pair scores 0.2 or more, the plan or the rate is suggested with at least that score.
   */
  lemma EveryPairIsWeighed(inp: Input, i: nat, j: nat, k: nat, confidence: real)
    requires TotalPreorder(inp.collate)
    requires i < |inp.ours| && j < |inp.theirs| && k < |inp.theirs[j].rates|
    requires NotRemembered(inp, inp.ours[i].id)
    requires Scores(inp, inp.ours[i], inp.theirs[j], inp.theirs[j].rates[k], confidence) && confidence >= 0.2
    ensures exists g ::
      && g in Suggest(inp) && g.confidence >= confidence
      && (g.row.ratePlanId == inp.ours[i].id
          || g.row.roomCode + "::" + g.row.rateCode == inp.theirs[j].code + "::" + inp.theirs[j].rates[k].code)
  {
    var c := Candidate(inp, inp.ours[i], inp.theirs[j], inp.theirs[j].rates[k]);
    CandidateScores(inp, inp.ours[i], inp.theirs[j], inp.theirs[j].rates[k]);
    PairIsCandidate(inp, i, j, k);
    EveryCandidateIsBlocked(inp, c);
    var g :| g in Suggest(inp) && Conflict(g, c) && g.confidence >= c.confidence;
    assert g.row.ratePlanId == inp.ours[i].id || Target(g) == Target(c);
  }

  /** A suggestion is a pair with its score. */
  ghost predicate IsPair(inp: Input, s: Suggestion, i: nat, j: nat, k: nat) {
    && i < |inp.ours| && j < |inp.theirs| && k < |inp.theirs[j].rates|
    && NotRemembered(inp, inp.ours[i].id)
    && s.row == MappingRow(
      inp.ours[i].id, inp.theirs[j].code, inp.theirs[j].rates[k].code, inp.theirs[j].rates[k].occupancy, None, None)
    && Scores(inp, inp.ours[i], inp.theirs[j], inp.theirs[j].rates[k], s.confidence)
  }

  /** A suggestion repeats the latest accepted mapping of a plan that is still there. */
  ghost predicate IsRemembered(inp: Input, s: Suggestion, i: nat, n: nat) {
    && i < |inp.ours| && n < |inp.history| && s == Suggestion(inp.history[n], 1.0)
    && LatestAccepted(inp, inp.ours[i].id, n)
  }

  ghost predicate LatestAccepted(inp: Input, id: string, n: nat)
    requires n < |inp.history|
  {
    && inp.history[n].ratePlanId == id && StillThere(inp.theirs, inp.history[n])
    && forall m :: n < m < |inp.history| && inp.history[m].ratePlanId == id ==> !StillThere(inp.theirs, inp.history[m])
  }

  lemma LatestAcceptedIs(inp: Input, id: string, n: nat)
    requires n < |inp.history| && LatestAccepted(inp, id, n)
    ensures id in Previous(inp.history, Offered(inp.theirs))
    ensures Previous(inp.history, Offered(inp.theirs))[id] == inp.history[n]
  {
    forall m | 0 <= m < |inp.history|
      ensures StillThere(inp.theirs, inp.history[m]) <==> Key(inp.history[m]) in Offered(inp.theirs)
    {
      StillThereIff(inp.theirs, inp.history[m]);
    }
    LatestIsRemembered(inp.history, Offered(inp.theirs), n);
  }

  lemma {:induction false} LastOffered(history: seq<MappingRow>, offered: set<string>, id: string) returns (n: nat)
    requires id in Previous(history, offered)
    ensures n < |history| && history[n].ratePlanId == id && Key(history[n]) in offered
    ensures forall m :: n < m < |history| && history[m].ratePlanId == id ==> Key(history[m]) !in offered
  {
    var last := history[|history| - 1];
    if last.ratePlanId == id && Key(last) in offered {
      n := |history| - 1;
    } else {
      n := LastOffered(history[..|history| - 1], offered, id);
    }
  }

  lemma SomeLatestAccepted(inp: Input, id: string) returns (n: nat)
    requires !NotRemembered(inp, id)
    ensures n < |inp.history| && LatestAccepted(inp, id, n)
  {
    NotRememberedIff(inp, id);
    n := LastOffered(inp.history, Offered(inp.theirs), id);
    forall m | 0 <= m < |inp.history|
      ensures StillThere(inp.theirs, inp.history[m]) <==> Key(inp.history[m]) in Offered(inp.theirs)
    {
      StillThereIff(inp.theirs, inp.history[m]);
    }
  }

  lemma {:induction false} RoomCandidateIsPair(inp: Input, rp: OurRatePlan, n: nat, s: Suggestion)
    returns (j: nat, k: nat)
    requires n <= |inp.theirs| && s in RoomCandidates(inp, rp, n)
    ensures j < n && k < |inp.theirs[j].rates| && s == Candidate(inp, rp, inp.theirs[j], inp.theirs[j].rates[k])
  {
    if s in RoomCandidates(inp, rp, n - 1) {
      j, k := RoomCandidateIsPair(inp, rp, n - 1, s);
    } else {
      j := n - 1;
      k := RateCandidateAt(inp, rp, inp.theirs[j], |inp.theirs[j].rates|, s);
    }
  }

  /** Every suggestion is worth 0.2 or more, and either repeats an accepted mapping or is a pair with its score. */
  lemma SuggestionsAreScored(inp: Input, s: Suggestion) returns (i: nat, j: nat, k: nat)
    requires s in Suggest(inp)
    ensures s.confidence >= 0.2
    ensures IsRemembered(inp, s, i, j) || IsPair(inp, s, i, j, k)
  {
    SuggestionsFormMatching(inp);
    i := CandidateOrigin(inp, |inp.ours|, s);
    NotRememberedIff(inp, inp.ours[i].id);
    k := 0;
    if NotRemembered(inp, inp.ours[i].id) {
      j, k := RoomCandidateIsPair(inp, inp.ours[i], |inp.theirs|, s);
      CandidateScores(inp, inp.ours[i], inp.theirs[j], inp.theirs[j].rates[k]);
    } else {
      j := SomeLatestAccepted(inp, inp.ours[i].id);
      LatestAcceptedIs(inp, inp.ours[i].id, j);
    }
  }

  /**
   * The latest accepted mapping of a plan that is still there is suggested with confidence 1 and
   * nothing else for the plan, unless another plan takes the same rate with confidence 1.
   */
  lemma LatestAcceptedWins(inp: Input, i: nat, n: nat)
    requires TotalPreorder(inp.collate)
    requires i < |inp.ours| && n < |inp.history| && LatestAccepted(inp, inp.ours[i].id, n)
    ensures
      || Suggestion(inp.history[n], 1.0) in Suggest(inp)
      || (exists g :: g in Suggest(inp) && g.confidence == 1.0 && g.row.ratePlanId != inp.ours[i].id
            && g.row.roomCode + "::" + g.row.rateCode == inp.history[n].roomCode + "::" + inp.history[n].rateCode)
    ensures forall g :: g in Suggest(inp) && g.row.ratePlanId == inp.ours[i].id ==>
      g == Suggestion(inp.history[n], 1.0)
  {
    LatestAcceptedIs(inp, inp.ours[i].id, n);
    RememberedMappingWins(inp, i);
  }

  /** Two suggestions in a row: the more confident first, and among equals by the plan. */
  lemma {:induction false} PicksInOrder(le: (Suggestion, Suggestion) -> bool, cs: seq<Suggestion>)
    requires SortedBy(le, cs)
    ensures SortedBy(le, Pick(cs))
  {
    if cs != [] {
      var front, c := cs[..|cs| - 1], cs[|cs| - 1];
      PicksInOrder(le, front);
      PickIsMatching(front);
      forall i | 0 <= i < |Pick(front)| ensures le(Pick(front)[i], c) {
        assert Pick(front)[i] in Pick(front);
        var m :| 0 <= m < |front| && front[m] == Pick(front)[i];
        assert le(cs[m], cs[|cs| - 1]);
      }
    }
  }

  lemma BetterMeans(inp: Input, a: Suggestion, b: Suggestion)
    ensures Better(inp)(a, b) <==>
      a.confidence > b.confidence || (a.confidence == b.confidence && inp.collate(Plan(a), Plan(b)))
  {
  }

  /** Suggestions come by falling confidence, and equal ones in the order of their plans. */
  lemma SuggestionsInOrder(inp: Input, i: nat, j: nat)
    requires TotalPreorder(inp.collate)
    requires i < j < |Suggest(inp)|
    ensures var a, b := Suggest(inp)[i], Suggest(inp)[j];
      a.confidence > b.confidence
      || (a.confidence == b.confidence && inp.collate(a.row.ratePlanId, b.row.ratePlanId))
  {
    BetterIsOrder(inp);
    SortSorts(Better(inp), Candidates(inp));
    PicksInOrder(Better(inp), Sort(Better(inp), Candidates(inp)));
    BetterMeans(inp, Suggest(inp)[i], Suggest(inp)[j]);
  }

  // ---- the diff ---------------------------------------------------------------------------------------

  /** The row is the last one of its plan. */
  ghost predicate LastOfPlan(rows: seq<MappingRow>, row: MappingRow) {
    exists n :: 0 <= n < |rows| && rows[n] == row
      && forall m :: n < m < |rows| ==> rows[m].ratePlanId != row.ratePlanId
  }

  ghost predicate NoRowOf(rows: seq<MappingRow>, id: string) {
    forall n :: 0 <= n < |rows| ==> rows[n].ratePlanId != id
  }

  lemma {:induction false} ByPlanIsLast(rows: seq<MappingRow>, row: MappingRow)
    ensures LastOfPlan(rows, row) <==> row.ratePlanId in ByPlan(rows) && ByPlan(rows)[row.ratePlanId] == row
    ensures NoRowOf(rows, row.ratePlanId) <==> row.ratePlanId !in ByPlan(rows)
  {
    if rows != [] {
      var front, last := rows[..|rows| - 1], rows[|rows| - 1];
      ByPlanIsLast(front, row);
      assert forall n :: 0 <= n < |front| ==> front[n] == rows[n];
      if last.ratePlanId == row.ratePlanId {
        assert last == row ==> LastOfPlan(rows, row) by { assert rows[|rows| - 1] == last; }
      } else {
        LastOfFront(rows, row);
      }
    }
  }

  lemma LastOfFront(rows: seq<MappingRow>, row: MappingRow)
    requires rows != [] && rows[|rows| - 1].ratePlanId != row.ratePlanId
    ensures LastOfPlan(rows, row) <==> LastOfPlan(rows[..|rows| - 1], row)
  {
    var front := rows[..|rows| - 1];
    if n :| 0 <= n < |rows| && rows[n] == row && forall m :: n < m < |rows| ==> rows[m].ratePlanId != row.ratePlanId {
      assert front[n] == row;
    }
    if LastOfPlan(front, row) {
      var n :| 0 <= n < |front| && front[n] == row
        && forall m :: n < m < |front| ==> front[m].ratePlanId != row.ratePlanId;
      assert rows[n] == row;
      forall m | n < m < |rows| ensures rows[m].ratePlanId != row.ratePlanId {
        assert m < |front| ==> front[m] == rows[m];
      }
    }
  }

  /** The channel sells something else for the plan: another room or rate, occupancy or derivation. */
  ghost predicate SellsElse(x: MappingRow, y: MappingRow) {
    || x.roomCode + "::" + x.rateCode != y.roomCode + "::" + y.rateCode
    || x.occupancy != y.occupancy || x.derivedOption != y.derivedOption
  }

  /** MAP-4, of any rows before and after: what a diff reports, and nothing twice. */
  lemma DiffReports(before: seq<MappingRow>, after: seq<MappingRow>, row: MappingRow, c: MappingChange)
    ensures row in Diff(before, after).startsSelling <==> LastOfPlan(after, row) && NoRowOf(before, row.ratePlanId)
    ensures row in Diff(before, after).stopsSelling <==> LastOfPlan(before, row) && NoRowOf(after, row.ratePlanId)
    ensures c in Diff(before, after).changed <==>
      && LastOfPlan(before, c.before) && LastOfPlan(after, c.after)
      && c.before.ratePlanId == c.after.ratePlanId && SellsElse(c.before, c.after)
  {
    DiffIsExact(before, after);
    ByPlanIsLast(before, row);
    ByPlanIsLast(after, row);
    ByPlanIsLast(before, c.before);
    ByPlanIsLast(after, c.after);
    PlanOrderIsDomain(before);
    PlanOrderIsDomain(after);
  }
}
