/**
 * What the calendar promises of its edits, written out over the stored cells: when a list of
 * edits is written, what it writes, and what an editor with an old version is told.
 */
module CalendarEdits {
  import opened Wrappers
  import opened Texts
  import opened CalendarUndo

  /** All edited plans belong to the property. */
  ghost predicate PlansOf(s: State, propertyId: Text, edits: seq<Edit>) {
    forall e :: e in edits ==> e.change.key.planId in s.plans && s.plans[e.change.key.planId] == propertyId
  }

  /** The cell of the edit is stored, in the version its editor saw if it names one. */
  ghost predicate UpToDate(cells: Cells, e: Edit) {
    && e.change.key in cells
    && (e.expectedVersion.Some? ==> e.expectedVersion.value == cells[e.change.key].version)
  }

  lemma {:induction false} CheckedAt(cells: Cells, edits: seq<Edit>, i: nat)
    requires i < |edits|
    ensures CheckAll(cells, edits)[i] ==
      if edits[i].change.key !in cells then Missing
      else if UpToDate(cells, edits[i]) then Verdict.Written(cells[edits[i].change.key].version + 1)
      else Conflict(cells[edits[i].change.key])
  {
  }

  /**
   * Edits of the property's plans are written exactly when every cell is stored and none has moved
   * on since its editor saw it. Otherwise nothing is written, and every editor with an old version
   * is told the row that is stored now: never a silent last write wins.
   */
  lemma EditsAreWrittenIff(s: State, propertyId: Text, edits: seq<Edit>, id: nat)
    requires PlansOf(s, propertyId, edits)
    ensures var answer := EditAnswer(s, propertyId, edits, id);
      && answer.Ok? && |answer.value.outcomes| == |edits|
      && (answer.value.undoId == Some(id) <==> forall e :: e in edits ==> UpToDate(s.cells, e))
      && (answer.value.undoId != Some(id) ==> answer.value.undoId == None && AfterEdit(s, propertyId, edits, id) == s)
      && forall i :: 0 <= i < |edits| ==>
        answer.value.outcomes[i] ==
          if edits[i].change.key !in s.cells then Missing
          else if UpToDate(s.cells, edits[i]) then Verdict.Written(s.cells[edits[i].change.key].version + 1)
          else Conflict(s.cells[edits[i].change.key])
  {
    forall i | 0 <= i < |edits|
      ensures CheckAll(s.cells, edits)[i].Written? <==> UpToDate(s.cells, edits[i])
    {
      CheckedAt(s.cells, edits, i);
    }
    if AllWritten(CheckAll(s.cells, edits)) {
      forall e | e in edits ensures UpToDate(s.cells, e) {
        var i :| 0 <= i < |edits| && edits[i] == e;
        assert CheckAll(s.cells, edits)[i].Written?;
      }
    }
  }

  /** Plans of another property refuse the whole list. */
  lemma OtherPlansAreRefused(s: State, propertyId: Text, edits: seq<Edit>, id: nat)
    requires !PlansOf(s, propertyId, edits)
    ensures EditAnswer(s, propertyId, edits, id) == Err(CrossProperty) && AfterEdit(s, propertyId, edits, id) == s
  {
  }

  // ---- what is written -------------------------------------------------------------------------------

  /** The edit gives the field of the cell a value. */
  ghost predicate Gives(e: Edit, k: Key, f: Field) {
    e.change.key == k && f in e.change.values && e.change.values[f] != Undefined
  }

  /** A cell that is written keeps the values the change does not give and counts its version on, from one. */
  lemma CellIsWritten(cells: Cells, c: Change, f: Field)
    ensures var after := SetRate(cells, c);
      && after.Keys == cells.Keys + {c.key}
      && (forall k :: k in cells && k != c.key ==> after[k] == cells[k])
      && after[c.key].version == (if c.key in cells then cells[c.key].version + 1 else 1)
      && Read(after, c.key, f) ==
        if f in c.values && c.values[f] != Undefined then c.values[f] else Read(cells, c.key, f)
  {
  }

  /** None of the edits from i on gives the field a value. */
  ghost predicate NoneGives(edits: seq<Edit>, i: nat, k: Key, f: Field) {
    forall j :: i <= j < |edits| ==> !Gives(edits[j], k, f)
  }

  lemma NextShows(cells: Cells, edits: seq<Edit>, k: Key, f: Field)
    requires edits != []
    ensures var n := |edits| - 1;
      Read(Apply(cells, Changes(edits)), k, f) ==
        if Gives(edits[n], k, f) then edits[n].change.values[f] else Read(Apply(cells, Changes(edits[..n])), k, f)
  {
    var n := |edits| - 1;
    assert Changes(edits)[..n] == Changes(edits[..n]);
    SetRateReads(Apply(cells, Changes(edits[..n])), edits[n].change, k, f);
  }

  lemma {:induction false} UngivenShows(cells: Cells, edits: seq<Edit>, k: Key, f: Field)
    requires NoneGives(edits, 0, k, f)
    ensures Read(Apply(cells, Changes(edits)), k, f) == Read(cells, k, f)
  {
    if edits != [] {
      UngivenShows(cells, edits[..|edits| - 1], k, f);
      NextShows(cells, edits, k, f);
    }
  }

  lemma {:induction false} LastEditShows(cells: Cells, edits: seq<Edit>, i: nat, k: Key, f: Field)
    requires i < |edits| && Gives(edits[i], k, f) && NoneGives(edits, i + 1, k, f)
    ensures Read(Apply(cells, Changes(edits)), k, f) == edits[i].change.values[f]
  {
    NextShows(cells, edits, k, f);
    if i < |edits| - 1 { LastEditShows(cells, edits[..|edits| - 1], i, k, f); }
  }

  lemma {:induction false} OtherRowsStay(cells: Cells, edits: seq<Edit>, k: Key)
    requires forall e :: e in edits ==> e.change.key != k
    ensures k in Apply(cells, Changes(edits)) <==> k in cells
    ensures k in cells ==> Apply(cells, Changes(edits))[k] == cells[k]
  {
    if edits != [] {
      var n := |edits| - 1;
      OtherRowsStay(cells, edits[..n], k);
      assert Changes(edits)[..n] == Changes(edits[..n]);
    }
  }

  /**
   * Edits that are written: a field shows what the last edit that gives it a value says, and what it
   * showed before when none does.
   */
  lemma EditsShow(s: State, propertyId: Text, edits: seq<Edit>, id: nat, k: Key, f: Field)
    requires PlansOf(s, propertyId, edits) && forall e :: e in edits ==> UpToDate(s.cells, e)
    ensures NoneGives(edits, 0, k, f) ==>
      Read(AfterEdit(s, propertyId, edits, id).cells, k, f) == Read(s.cells, k, f)
    ensures forall i: nat :: i < |edits| && Gives(edits[i], k, f) && NoneGives(edits, i + 1, k, f) ==>
      Read(AfterEdit(s, propertyId, edits, id).cells, k, f) == edits[i].change.values[f]
  {
    EditsAreWrittenIff(s, propertyId, edits, id);
    if NoneGives(edits, 0, k, f) { UngivenShows(s.cells, edits, k, f); }
    forall i: nat | i < |edits| && Gives(edits[i], k, f) && NoneGives(edits, i + 1, k, f)
      ensures Read(AfterEdit(s, propertyId, edits, id).cells, k, f) == edits[i].change.values[f]
    {
      LastEditShows(s.cells, edits, i, k, f);
    }
  }

  /**
   * The version of an edited cell grows by one for each of its edits; other cells and plans stay;
   * the operation is recorded for the property and not undone, others stay.
   */
  lemma EditsRecord(s: State, propertyId: Text, edits: seq<Edit>, id: nat, k: Key)
    requires PlansOf(s, propertyId, edits) && forall e :: e in edits ==> UpToDate(s.cells, e)
    ensures var after := AfterEdit(s, propertyId, edits, id);
      && (k in after.cells <==> k in s.cells)
      && (k in s.cells ==> after.cells[k].version == s.cells[k].version + Occurrences(edits, k))
      && (k in s.cells && (forall e :: e in edits ==> e.change.key != k) ==> after.cells[k] == s.cells[k])
      && after.plans == s.plans && after.operations.Keys == s.operations.Keys + {id}
      && after.operations[id].propertyId == propertyId && !after.operations[id].undone
      && forall other :: other in s.operations && other != id ==> after.operations[other] == s.operations[other]
  {
    EditsAreWrittenIff(s, propertyId, edits, id);
    if k in s.cells { VersionsGrow(s.cells, edits, k); }
    if forall e :: e in edits ==> e.change.key != k { OtherRowsStay(s.cells, edits, k); }
    if k !in s.cells { forall e | e in edits ensures e.change.key != k { assert UpToDate(s.cells, e); } }
  }

  /** Of two editors who saw the same version of a cell, the second one is refused and told what the first one wrote. */
  lemma SecondEditorIsRefused(
    s: State, propertyId: Text, first: seq<Edit>, second: seq<Edit>, id: nat, id': nat, i: nat, j: nat)
    requires PlansOf(s, propertyId, first) && forall e :: e in first ==> UpToDate(s.cells, e)
    requires PlansOf(s, propertyId, second) && i < |first| && j < |second|
    requires first[i].change.key == second[j].change.key && first[i].change.key in s.cells
    requires second[j].expectedVersion == Some(s.cells[first[i].change.key].version)
    ensures var after := AfterEdit(s, propertyId, first, id);
      var answer := EditAnswer(after, propertyId, second, id');
      && AfterEdit(after, propertyId, second, id') == after
      && second[j].change.key in after.cells
      && answer.Ok? && answer.value.undoId == None
      && |answer.value.outcomes| == |second| && answer.value.outcomes[j] == Conflict(after.cells[second[j].change.key])
  {
    var k := first[i].change.key;
    var after := AfterEdit(s, propertyId, first, id);
    assert first[i] in first && second[j] in second;
    EditsRecord(s, propertyId, first, id, k);
    OccursOnceOrMore(first, i);
    assert !UpToDate(after.cells, second[j]);
    EditsAreWrittenIff(after, propertyId, second, id');
  }

  lemma {:induction false} OccursOnceOrMore(edits: seq<Edit>, i: nat)
    requires i < |edits|
    ensures Occurrences(edits, edits[i].change.key) >= 1
  {
    if i < |edits| - 1 { OccursOnceOrMore(edits[..|edits| - 1], i); }
  }

  // ---- undo --------------------------------------------------------------------------------------------

  /** An operation is undone exactly when it is known to the property and not undone yet. */
  lemma UndoAnswers(s: State, id: nat, propertyId: Text, redoId: nat)
    ensures UndoAnswer(s, id, propertyId, redoId) ==
      if !(id in s.operations && s.operations[id].propertyId == propertyId) then Err(NotFound)
      else if s.operations[id].undone then Err(AlreadyUndone)
      else Ok((|s.operations[id].inverse|, redoId))
    ensures UndoAnswer(s, id, propertyId, redoId).Err? ==> AfterUndo(s, id, propertyId, redoId) == s
  {
  }

  /** Undoing marks the operation, records one of the same property that is not undone, and leaves all others. */
  lemma UndoRecords(s: State, id: nat, propertyId: Text, redoId: nat)
    requires UndoAnswer(s, id, propertyId, redoId).Ok? && redoId !in s.operations
    ensures var after := AfterUndo(s, id, propertyId, redoId);
      && after.plans == s.plans && after.operations.Keys == s.operations.Keys + {redoId}
      && after.operations[id] == s.operations[id].(undone := true)
      && after.operations[redoId].propertyId == propertyId && !after.operations[redoId].undone
      && forall other :: other in s.operations && other != id ==> after.operations[other] == s.operations[other]
  {
  }
}
