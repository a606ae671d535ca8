/**
 * Calendar edits that can be undone, and undos that can be undone. Derived plans are left out:
 * writing a plan's cells here changes only that plan's cells.
 */
module CalendarUndo {
  import opened Wrappers
  import opened Texts

  datatype Field =
    | Rate | Rates | MinStay | MinStayArrival | MinStayThrough | MaxStay
    | ClosedToArrival | ClosedToDeparture | StopSell

  /** A member given as undefined is not stored; one given as null is. */
  datatype Value = Undefined | Null | Number(n: int) | Flag(b: bool) | PerOccupancy(rates: map<int, int>)

  type Values = map<Field, Value>

  datatype Key = Key(planId: Text, date: int)

  datatype Row = Row(values: Values, version: int)

  type Cells = map<Key, Row>

  datatype Change = Change(key: Key, values: Values)

  datatype Edit = Edit(change: Change, expectedVersion: Option<int>)

  function Stored(values: Values): Values {
    map f | f in values && values[f] != Undefined :: values[f]
  }

  /** Writing a cell merges the new values into the old ones. */
  function SetRate(cells: Cells, c: Change): Cells {
    cells[c.key :=
      if c.key in cells then Row(cells[c.key].values + Stored(c.values), cells[c.key].version + 1)
      else Row(Stored(c.values), 1)]
  }

  function Apply(cells: Cells, changes: seq<Change>): Cells {
    if changes == [] then cells else SetRate(Apply(cells, changes[..|changes| - 1]), changes[|changes| - 1])
  }

  /** What a cell shows in a field; an absent one reads as null. */
  function Read(cells: Cells, k: Key, f: Field): Value {
    if k in cells && f in cells[k].values then cells[k].values[f] else Null
  }

  /** The current values of the fields a change names. */
  function Picked(cells: Cells, c: Change): Change {
    Change(c.key, map f | f in c.values :: Read(cells, c.key, f))
  }

  function Inverse(cells: Cells, changes: seq<Change>): (inverse: seq<Change>)
    ensures |inverse| == |changes|
  {
    if changes == [] then []
    else Inverse(cells, changes[..|changes| - 1]) + [Picked(cells, changes[|changes| - 1])]
  }

  function Changes(edits: seq<Edit>): (changes: seq<Change>)
    ensures |changes| == |edits|
  {
    if edits == [] then [] else Changes(edits[..|edits| - 1]) + [edits[|edits| - 1].change]
  }

  // ---- undo on cells ---------------------------------------------------------------------------------

  ghost predicate Touches(changes: seq<Change>, k: Key, f: Field) {
    exists i :: 0 <= i < |changes| && changes[i].key == k && f in changes[i].values
  }

  /** Stored rows have no undefined members. */
  ghost predicate Clean(cells: Cells) {
    forall k :: k in cells ==> Undefined !in cells[k].values.Values
  }

  lemma SetRateReads(cells: Cells, c: Change, k: Key, f: Field)
    ensures Read(SetRate(cells, c), k, f) ==
      if k == c.key && f in c.values && c.values[f] != Undefined then c.values[f] else Read(cells, k, f)
  {
  }

  lemma ReadIsDefined(cells: Cells, k: Key, f: Field)
    requires Clean(cells)
    ensures Read(cells, k, f) != Undefined
  {
    if k in cells && f in cells[k].values { assert cells[k].values[f] in cells[k].values.Values; }
  }

  lemma {:induction false} ApplyIsClean(cells: Cells, changes: seq<Change>)
    requires Clean(cells)
    ensures Clean(Apply(cells, changes))
  {
    if changes != [] {
      var before := Apply(cells, changes[..|changes| - 1]);
      var c := changes[|changes| - 1];
      ApplyIsClean(cells, changes[..|changes| - 1]);
      assert forall k :: k in SetRate(before, c) && k != c.key ==> k in before && SetRate(before, c)[k] == before[k];
    }
  }

  lemma {:induction false} UntouchedStays(cells: Cells, changes: seq<Change>, k: Key, f: Field)
    requires !Touches(changes, k, f)
    ensures Read(Apply(cells, changes), k, f) == Read(cells, k, f)
  {
    if changes != [] {
      var n := |changes| - 1;
      assert forall i :: 0 <= i < n ==> changes[..n][i] == changes[i];
      UntouchedStays(cells, changes[..n], k, f);
      SetRateReads(Apply(cells, changes[..n]), changes[n], k, f);
    }
  }

  /**
   * Applying an inverse, to whatever the cells have become, gives every touched field the value
   * it had when the inverse was recorded and leaves every other field as it is.
   */
  lemma {:induction false} InverseRestores(recorded: Cells, now: Cells, changes: seq<Change>, k: Key, f: Field)
    requires Clean(recorded)
    ensures Read(Apply(now, Inverse(recorded, changes)), k, f) ==
      if Touches(changes, k, f) then Read(recorded, k, f) else Read(now, k, f)
  {
    if changes != [] {
      var n := |changes| - 1;
      var c := changes[n];
      InverseRestores(recorded, now, changes[..n], k, f);
      assert Inverse(recorded, changes)[..n] == Inverse(recorded, changes[..n]);
      SetRateReads(Apply(now, Inverse(recorded, changes[..n])), Picked(recorded, c), k, f);
      ReadIsDefined(recorded, k, f);
      TouchesNext(changes, k, f);
    }
  }

  lemma TouchesNext(changes: seq<Change>, k: Key, f: Field)
    requires changes != []
    ensures var n := |changes| - 1;
      Touches(changes, k, f) <==> Touches(changes[..n], k, f) || (changes[n].key == k && f in changes[n].values)
  {
    var n := |changes| - 1;
    if i :| 0 <= i < n && changes[..n][i].key == k && f in changes[..n][i].values {
      assert changes[i] == changes[..n][i];
    }
    if i :| 0 <= i <= n && changes[i].key == k && f in changes[i].values {
      assert i < n ==> changes[..n][i] == changes[i];
    }
  }

  ghost predicate ReadsAs(a: Cells, b: Cells) {
    forall k, f :: Read(a, k, f) == Read(b, k, f)
  }

  /** Undoing changes restores what every cell showed, for any list of changes, repeated cells included. */
  lemma UndoRestores(cells: Cells, changes: seq<Change>)
    requires Clean(cells)
    ensures ReadsAs(Apply(Apply(cells, changes), Inverse(cells, changes)), cells)
  {
    var now := Apply(cells, changes);
    forall k, f ensures Read(Apply(now, Inverse(cells, changes)), k, f) == Read(cells, k, f) {
      InverseRestores(cells, now, changes, k, f);
      if !Touches(changes, k, f) { UntouchedStays(cells, changes, k, f); }
    }
  }

  // ---- operations ----------------------------------------------------------------------------------

  datatype Operation = Operation(propertyId: Text, inverse: seq<Change>, undone: bool)

  /** The cells, the operations by number, and the property of each plan. */
  datatype State = Snapshot(cells: Cells, operations: map<nat, Operation>, plans: map<Text, Text>)

  datatype Problem = NotFound | AlreadyUndone | CrossProperty

  datatype Verdict = Written(version: int) | Conflict(current: Row) | Missing

  /** An edit of a cell that is gone or has moved on is refused. */
  function Check(cells: Cells, e: Edit): Verdict {
    if e.change.key !in cells then Missing
    else if e.expectedVersion.Some? && cells[e.change.key].version != e.expectedVersion.value then
      Conflict(cells[e.change.key])
    else Written(cells[e.change.key].version + 1)
  }

  function CheckAll(cells: Cells, edits: seq<Edit>): (verdicts: seq<Verdict>)
    ensures |verdicts| == |edits|
    ensures forall i :: 0 <= i < |edits| ==> verdicts[i] == Check(cells, edits[i])
  {
    if edits == [] then [] else CheckAll(cells, edits[..|edits| - 1]) + [Check(cells, edits[|edits| - 1])]
  }

  predicate AllWritten(verdicts: seq<Verdict>) {
    forall i :: 0 <= i < |verdicts| ==> verdicts[i].Written?
  }

  predicate OwnsPlans(s: State, propertyId: Text, edits: seq<Edit>) {
    forall i :: 0 <= i < |edits| ==>
      edits[i].change.key.planId in s.plans && s.plans[edits[i].change.key.planId] == propertyId
  }

  datatype EditResult = EditResult(outcomes: seq<Verdict>, undoId: Option<nat>)

  function EditAnswer(s: State, propertyId: Text, edits: seq<Edit>, id: nat): Result<EditResult, Problem> {
    if !OwnsPlans(s, propertyId, edits) then Err(CrossProperty)
    else
      var outcomes := CheckAll(s.cells, edits);
      Ok(EditResult(outcomes, if AllWritten(outcomes) then Some(id) else None))
  }

  function AfterEdit(s: State, propertyId: Text, edits: seq<Edit>, id: nat): State {
    if !OwnsPlans(s, propertyId, edits) || !AllWritten(CheckAll(s.cells, edits)) then s
    else
      s.(cells := Apply(s.cells, Changes(edits)),
         operations := s.operations[id := Operation(propertyId, Inverse(s.cells, Changes(edits)), false)])
  }

  function UndoAnswer(s: State, id: nat, propertyId: Text, redoId: nat): Result<(nat, nat), Problem> {
    if id !in s.operations || s.operations[id].propertyId != propertyId then Err(NotFound)
    else if s.operations[id].undone then Err(AlreadyUndone)
    else Ok((|s.operations[id].inverse|, redoId))
  }

  function AfterUndo(s: State, id: nat, propertyId: Text, redoId: nat): State {
    if UndoAnswer(s, id, propertyId, redoId).Err? then s
    else
      var op := s.operations[id];
      s.(cells := Apply(s.cells, op.inverse),
         operations := s.operations[id := op.(undone := true)]
                                   [redoId := Operation(op.propertyId, Inverse(s.cells, op.inverse), false)])
  }

  class Calendar {
    var cells: Cells
    var operations: map<nat, Operation>
    const plans: map<Text, Text>

    function Current(): State
      reads this
    {
      Snapshot(cells, operations, plans)
    }

    method ApplyRateCells(changes: seq<Change>)
      modifies this`cells
      ensures cells == Apply(old(cells), changes)
    {
      for i := 0 to |changes|
        invariant cells == Apply(old(cells), changes[..i])
      {
        assert changes[..i + 1][..i] == changes[..i];
        cells := SetRate(cells, changes[i]);
      }
      assert changes[..|changes|] == changes;
    }

    method Record(changes: seq<Change>) returns (inverse: seq<Change>)
      ensures inverse == Inverse(cells, changes)
    {
      inverse := [];
      for i := 0 to |changes|
        invariant inverse == Inverse(cells, changes[..i])
      {
        assert changes[..i + 1][..i] == changes[..i];
        inverse := inverse + [Picked(cells, changes[i])];
      }
      assert changes[..|changes|] == changes;
    }

    method ApplyCellEdits(propertyId: Text, edits: seq<Edit>, undoId: nat) returns (r: Result<EditResult, Problem>)
      modifies this
      ensures Current() == AfterEdit(old(Current()), propertyId, edits, undoId)
      ensures r == EditAnswer(old(Current()), propertyId, edits, undoId)
    {
      if !OwnsPlans(Current(), propertyId, edits) { return Err(CrossProperty); }
      var outcomes := CheckAll(cells, edits);
      if !AllWritten(outcomes) { return Ok(EditResult(outcomes, None)); }
      var inverse := Record(Changes(edits));
      ApplyRateCells(Changes(edits));
      operations := operations[undoId := Operation(propertyId, inverse, false)];
      return Ok(EditResult(outcomes, Some(undoId)));
    }

    method UndoOperation(id: nat, propertyId: Text, redoId: nat) returns (r: Result<(nat, nat), Problem>)
      modifies this
      ensures Current() == AfterUndo(old(Current()), id, propertyId, redoId)
      ensures r == UndoAnswer(old(Current()), id, propertyId, redoId)
    {
      if id !in operations || operations[id].propertyId != propertyId { return Err(NotFound); }
      var op := operations[id];
      if op.undone { return Err(AlreadyUndone); }
      var before := Record(op.inverse);
      ApplyRateCells(op.inverse);
      operations := operations[id := op.(undone := true)];
      operations := operations[redoId := Operation(op.propertyId, before, false)];
      return Ok((|op.inverse|, redoId));
    }
  }

  // ---- undo and redo of operations -----------------------------------------------------------------

  /**
   * An edit, its undo, and the undo of that: after the undo every cell shows what it showed
   * before the edit, after the redo what it showed after the edit.
   */
  lemma UndoThenRedo(s: State, propertyId: Text, edits: seq<Edit>, undoId: nat, redoId: nat, undoId': nat)
    requires Clean(s.cells) && undoId != redoId
    requires EditAnswer(s, propertyId, edits, undoId).Ok? && EditAnswer(s, propertyId, edits, undoId).value.undoId.Some?
    ensures var edited := AfterEdit(s, propertyId, edits, undoId);
      var undone := AfterUndo(edited, undoId, propertyId, redoId);
      var redone := AfterUndo(undone, redoId, propertyId, undoId');
      && UndoAnswer(edited, undoId, propertyId, redoId).Ok? && ReadsAs(undone.cells, s.cells)
      && UndoAnswer(undone, redoId, propertyId, undoId').Ok? && ReadsAs(redone.cells, edited.cells)
  {
    var changes := Changes(edits);
    var edited := AfterEdit(s, propertyId, edits, undoId);
    UndoRestores(s.cells, changes);
    ApplyIsClean(s.cells, changes);
    UndoRestores(edited.cells, Inverse(s.cells, changes));
  }

  datatype Event =
    | EditCells(propertyId: Text, edits: seq<Edit>, id: nat)
    | Undo(operation: nat, propertyId: Text, id: nat)

  /** Identifiers of operations are new. */
  predicate Fresh(s: State, e: Event) {
    e.id !in s.operations
  }

  function Step(s: State, e: Event): State {
    match e
    case EditCells(propertyId, edits, id) => AfterEdit(s, propertyId, edits, id)
    case Undo(operation, propertyId, id) => AfterUndo(s, operation, propertyId, id)
  }

  function Run(s: State, events: seq<Event>): State
    decreases |events|
  {
    if events == [] then s else Run(Step(s, events[0]), events[1..])
  }

  predicate AllFresh(s: State, events: seq<Event>)
    decreases |events|
  {
    events == [] || (Fresh(s, events[0]) && AllFresh(Step(s, events[0]), events[1..]))
  }

  lemma {:induction false} UndoneStays(s: State, events: seq<Event>, id: nat)
    requires id in s.operations && s.operations[id].undone && AllFresh(s, events)
    ensures id in Run(s, events).operations && Run(s, events).operations[id].undone
    decreases |events|
  {
    if events != [] { UndoneStays(Step(s, events[0]), events[1..], id); }
  }

  /** After a successful undo, whatever happens, no further undo of the operation succeeds or changes anything. */
  lemma UndoneOnce(
    s: State, id: nat, propertyId: Text, redoId: nat, events: seq<Event>, propertyId': Text, redoId': nat)
    requires UndoAnswer(s, id, propertyId, redoId).Ok? && redoId !in s.operations
    requires AllFresh(AfterUndo(s, id, propertyId, redoId), events)
    ensures var later := Run(AfterUndo(s, id, propertyId, redoId), events);
      UndoAnswer(later, id, propertyId', redoId').Err? && AfterUndo(later, id, propertyId', redoId') == later
  {
    UndoneStays(AfterUndo(s, id, propertyId, redoId), events, id);
  }

  // ---- reported versions -----------------------------------------------------------------------------

  function Occurrences(edits: seq<Edit>, k: Key): nat {
    if edits == [] then 0
    else Occurrences(edits[..|edits| - 1], k) + if edits[|edits| - 1].change.key == k then 1 else 0
  }

  lemma {:induction false} VersionsGrow(cells: Cells, edits: seq<Edit>, k: Key)
    requires k in cells
    ensures k in Apply(cells, Changes(edits))
    ensures Apply(cells, Changes(edits))[k].version == cells[k].version + Occurrences(edits, k)
  {
    if edits != [] {
      var n := |edits| - 1;
      VersionsGrow(cells, edits[..n], k);
      assert Changes(edits)[..n] == Changes(edits[..n]);
    }
  }

  /** The version an edit reports is the version stored exactly when no other edit of the list has the same cell. */
  lemma {:induction false} ReportedVersionIff(s: State, propertyId: Text, edits: seq<Edit>, id: nat, i: nat)
    requires i < |edits| && OwnsPlans(s, propertyId, edits) && AllWritten(CheckAll(s.cells, edits))
    ensures var k := edits[i].change.key;
      k in AfterEdit(s, propertyId, edits, id).cells &&
      (EditAnswer(s, propertyId, edits, id).value.outcomes[i]
        == Written(AfterEdit(s, propertyId, edits, id).cells[k].version)
       <==> Occurrences(edits, k) == 1)
  {
    assert CheckAll(s.cells, edits)[i].Written?;
    VersionsGrow(s.cells, edits, edits[i].change.key);
  }

  /** Two edits of one cell: both report version 2, stored is version 3. */
  lemma RepeatedCellReportsTooLow()
    ensures var k := Key([1], 0);
      var s := Snapshot(map[k := Row(map[Rate := Number(100)], 1)], map[], map[[1] := [2]]);
      var edits := [
        Edit(Change(k, map[Rate := Number(120)]), None), Edit(Change(k, map[MinStay := Number(2)]), None)];
      && EditAnswer(s, [2], edits, 0) == Ok(EditResult([Verdict.Written(2), Verdict.Written(2)], Some(0)))
      && k in AfterEdit(s, [2], edits, 0).cells && AfterEdit(s, [2], edits, 0).cells[k].version == 3
  {
    var k := Key([1], 0);
    var s := Snapshot(map[k := Row(map[Rate := Number(100)], 1)], map[], map[[1] := [2]]);
    var first := Edit(Change(k, map[Rate := Number(120)]), None);
    var second := Edit(Change(k, map[MinStay := Number(2)]), None);
    var edits := [first, second];
    assert edits[..1] == [first] && [first][..0] == [];
    assert CheckAll(s.cells, edits) == [Verdict.Written(2), Verdict.Written(2)];
    assert Occurrences([first], k) == 1 && Occurrences(edits, k) == 2;
    VersionsGrow(s.cells, edits, k);
  }
}
