/** What a role compiled from the matrix is, permission by permission and cell by cell. */
module RoleRules {
  import opened Wrappers
  import opened Catalogue
  import opened Rows
  import opened Cells
  import opened Roles

  ghost predicate Allows(cells: seq<CellGrant>, i: int, p: Permission) {
    0 <= i < |cells| && p in cells[i].allow
  }

  /** The cell filters rows of the permission, allowed or grantable. */
  ghost predicate Filters(cells: seq<CellGrant>, i: int, p: Permission) {
    0 <= i < |cells| && cells[i].rowFilter != None && (p in cells[i].allow || p in cells[i].grantable)
  }

  ghost predicate Limits(cells: seq<CellGrant>, i: int, p: Permission) {
    Allows(cells, i, p) && cells[i].maxScope != None
  }

  lemma {:induction false} SteppedUpIff(cells: seq<CellGrant>, p: Permission)
    ensures p in SteppedUpBy(cells) <==> exists i :: Allows(cells, i, p) && cells[i].stepUp
  {
    if cells != [] {
      var n := |cells| - 1;
      SteppedUpIff(cells[..n], p);
      if i :| Allows(cells[..n], i, p) && cells[..n][i].stepUp { assert Allows(cells, i, p) && cells[i].stepUp; }
      if i :| Allows(cells, i, p) && cells[i].stepUp { assert i < n ==> Allows(cells[..n], i, p); }
    }
  }

  lemma {:induction false} GrantableIff(cells: seq<CellGrant>, p: Permission)
    ensures p in GrantableBy(cells) <==> exists i :: 0 <= i < |cells| && p in cells[i].grantable
  {
    if cells != [] {
      var n := |cells| - 1;
      GrantableIff(cells[..n], p);
      assert forall i :: 0 <= i < n ==> cells[..n][i] == cells[i];
      if i :| 0 <= i < |cells| && p in cells[i].grantable { assert i < n ==> p in cells[..n][i].grantable; }
    }
  }

  lemma {:induction false} LastFilter(cells: seq<CellGrant>, p: Permission, i: nat)
    requires Filters(cells, i, p) && forall j :: i < j < |cells| ==> !Filters(cells, j, p)
    ensures FilterFor(cells, p) == cells[i].rowFilter
  {
    var n := |cells| - 1;
    assert !Filters(cells, n, p) || i == n;
    if i < n {
      assert forall j :: i < j < n ==> (Filters(cells[..n], j, p) <==> Filters(cells, j, p));
      LastFilter(cells[..n], p, i);
    }
  }

  lemma {:induction false} NoFilter(cells: seq<CellGrant>, p: Permission)
    requires forall i :: !Filters(cells, i, p)
    ensures FilterFor(cells, p) == None
  {
    if cells != [] {
      var n := |cells| - 1;
      assert forall j :: Filters(cells[..n], j, p) ==> Filters(cells, j, p);
      assert !Filters(cells, n, p);
      NoFilter(cells[..n], p);
    }
  }

  lemma {:induction false} LastLimit(cells: seq<CellGrant>, p: Permission, i: nat)
    requires Limits(cells, i, p) && forall j :: i < j < |cells| ==> !Limits(cells, j, p)
    ensures ScopeFor(cells, p) == cells[i].maxScope
  {
    var n := |cells| - 1;
    assert !Limits(cells, n, p) || i == n;
    if i < n {
      assert forall j :: i < j < n ==> (Limits(cells[..n], j, p) <==> Limits(cells, j, p));
      LastLimit(cells[..n], p, i);
    }
  }

  lemma {:induction false} NoLimit(cells: seq<CellGrant>, p: Permission)
    requires forall i :: !Limits(cells, i, p)
    ensures ScopeFor(cells, p) == None
  {
    if cells != [] {
      var n := |cells| - 1;
      assert forall j :: Limits(cells[..n], j, p) ==> Limits(cells, j, p);
      assert !Limits(cells, n, p);
      NoLimit(cells[..n], p);
    }
  }

  /**
   * A role allows what some cell allows, asks for step-up where some cell that allows it does, and makes
   * grantable what some cell does.
   */
  lemma RoleAllowsIff(role: RoleDefinition, cells: seq<CellGrant>, p: Permission)
    requires IsRole(role, cells)
    ensures p in role.allow <==> exists i :: Allows(cells, i, p)
    ensures p in role.stepUp <==> exists i :: Allows(cells, i, p) && cells[i].stepUp
    ensures p in role.grantable <==> exists i :: 0 <= i < |cells| && p in cells[i].grantable
  {
    AllowedByIff(cells, p);
    if i :| 0 <= i < |cells| && p in cells[i].allow { assert Allows(cells, i, p); }
    SteppedUpIff(cells, p);
    GrantableIff(cells, p);
  }

  /** The scope limit of a permission is that of the last cell that allows it with one. */
  lemma RoleLimitIs(role: RoleDefinition, cells: seq<CellGrant>, p: Permission)
    requires IsRole(role, cells)
    ensures (forall i :: !Limits(cells, i, p)) ==> p !in role.maxScope
    ensures forall i :: Limits(cells, i, p) && (forall j :: i < j < |cells| ==> !Limits(cells, j, p)) ==>
      p in role.maxScope && Some(role.maxScope[p]) == cells[i].maxScope
  {
    if forall i :: !Limits(cells, i, p) { NoLimit(cells, p); }
    forall i | Limits(cells, i, p) && (forall j :: i < j < |cells| ==> !Limits(cells, j, p))
      ensures p in role.maxScope && Some(role.maxScope[p]) == cells[i].maxScope
    {
      LastLimit(cells, p, i);
    }
  }

  /** The last cell that filters the permission. */
  ghost predicate LastToFilter(cells: seq<CellGrant>, i: int, p: Permission) {
    Filters(cells, i, p) && forall j :: i < j < |cells| ==> !Filters(cells, j, p)
  }

  /** No cell allows the permission without a filter. */
  ghost predicate NeverUnfiltered(cells: seq<CellGrant>, p: Permission) {
    forall i :: Allows(cells, i, p) ==> cells[i].rowFilter != None
  }

  lemma NeverUnfilteredIff(cells: seq<CellGrant>, p: Permission)
    ensures NeverUnfiltered(cells, p) <==> OnlyFiltered(cells, p)
  {
    if NeverUnfiltered(cells, p) {
      forall i | 0 <= i < |cells| && p in cells[i].allow ensures cells[i].rowFilter.Some? {
        assert Allows(cells, i, p);
      }
    }
  }

  lemma FilterIn(role: RoleDefinition, cells: seq<CellGrant>, p: Permission)
    requires IsRole(role, cells)
    ensures p in role.rowFilter <==> (p in role.allow ==> NeverUnfiltered(cells, p)) && FilterFor(cells, p).Some?
    ensures p in role.rowFilter ==> FilterFor(cells, p) == Some(role.rowFilter[p])
  {
    NeverUnfilteredIff(cells, p);
  }

  /** Where every cell that allows the permission filters it, its filter is that of the last cell that filters it. */
  lemma RoleFilterIs(role: RoleDefinition, cells: seq<CellGrant>, p: Permission, i: nat)
    requires IsRole(role, cells) && NeverUnfiltered(cells, p) && LastToFilter(cells, i, p)
    ensures p in role.rowFilter && Some(role.rowFilter[p]) == cells[i].rowFilter
  {
    FilterIn(role, cells, p);
    LastFilter(cells, p, i);
  }

  /** It has none where no cell filters it, or some cell allows it without a filter. */
  lemma RoleHasNoFilter(role: RoleDefinition, cells: seq<CellGrant>, p: Permission)
    requires IsRole(role, cells)
    requires (forall j :: !Filters(cells, j, p)) || !NeverUnfiltered(cells, p)
    ensures p !in role.rowFilter
  {
    FilterIn(role, cells, p);
    if NeverUnfiltered(cells, p) {
      NoFilter(cells, p);
    } else {
      var i :| Allows(cells, i, p) && cells[i].rowFilter == None;
      AllowedByIff(cells, p);
    }
  }

  /** A table has every role of the matrix, made of the cells of the matrix. */
  lemma TableHasRoles(table: RoleTable, matrix: seq<MatrixRow>, role: SystemRole)
    requires IsTable(table, matrix)
    ensures System(role) in table && CellsFor(matrix, role).Ok?
    ensures IsRole(table[System(role)], CellsFor(matrix, role).value)
  {
    assert HasRole(table, matrix, role);
  }

  /** Each cell of a role is the one the matrix has for it in that row, read with the sets of the row. */
  lemma CellsAreRead(matrix: seq<MatrixRow>, role: SystemRole, i: nat)
    requires CellsFor(matrix, role).Ok? && i < |matrix|
    ensures |CellsFor(matrix, role).value| == |matrix|
    ensures RowOf(matrix[i].name).Some? && role in matrix[i].cells
    ensures ParseCell(matrix[i].cells[role], RowOf(matrix[i].name).value) == Ok(CellsFor(matrix, role).value[i])
  {
    CellsAsManyAsRows(matrix, role);
    CellOf(matrix, role, i);
    CellIsRead(matrix[i], role);
  }

  lemma CellIsRead(row: MatrixRow, role: SystemRole)
    requires CellFor(row, role).Ok?
    ensures RowOf(row.name).Some? && role in row.cells
    ensures ParseCell(row.cells[role], RowOf(row.name).value) == Ok(CellFor(row, role).value)
  {
  }

  /** A cell is had exactly when the row is defined, has one for the role, and it can be read. */
  lemma CellFailsIff(row: MatrixRow, role: SystemRole)
    ensures CellFor(row, role) == Err(NoRow(row.name)) <==> RowOf(row.name) == None
    ensures CellFor(row, role) == Err(MissingCell(row.name)) <==> RowOf(row.name) != None && role !in row.cells
    ensures CellFor(row, role).Ok? <==>
      RowOf(row.name).Some? && role in row.cells && ParseCell(row.cells[role], RowOf(row.name).value).Ok?
  {
  }

  /** No role outside the matrix gets anything. */
  lemma OthersAreEmpty(table: RoleTable, matrix: seq<MatrixRow>, p: Permission)
    requires IsTable(table, matrix)
    ensures forall key :: key in table && (key == PlatformOperator || key == ServiceAccount) ==>
      && p !in table[key].allow && p !in table[key].stepUp && p !in table[key].grantable
      && p !in table[key].rowFilter && p !in table[key].maxScope
  {
  }
}
