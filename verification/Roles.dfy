/** The permission sets of the roles, compiled from the matrix (buildRoles). */
module Roles {
  import opened Wrappers
  import opened Catalogue
  import opened Rows
  import opened Cells

  datatype RoleDefinition = RoleDefinition(
    allow: set<Permission>, stepUp: set<Permission>, rowFilter: map<Permission, RowFilter>,
    grantable: set<Permission>, maxScope: map<Permission, ScopeKind>)

  /** A row of the matrix: its label and the text of its cell for each role. */
  datatype MatrixRow = MatrixRow(name: RowLabel, cells: map<SystemRole, string>)

  datatype BuildError = NoRow(name: RowLabel) | MissingCell(name: RowLabel) | BadCell(error: CellError)

  const EMPTY_ROLE := RoleDefinition({}, {}, map[], {}, map[])

  function CellFor(row: MatrixRow, role: SystemRole): Result<CellGrant, BuildError> {
    match RowOf(row.name)
    case None => Err(NoRow(row.name))
    case Some(definition) =>
      if role !in row.cells then Err(MissingCell(row.name))
      else
        match ParseCell(row.cells[role], definition)
        case Ok(cell) => Ok(cell)
        case Err(e) => Err(BadCell(e))
  }

  /** The cells of a role, row by row; the first bad one stops it. */
  function CellsFor(matrix: seq<MatrixRow>, role: SystemRole): Result<seq<CellGrant>, BuildError> {
    if matrix == [] then Ok([])
    else
      var front :- CellsFor(matrix[..|matrix| - 1], role);
      var cell :- CellFor(matrix[|matrix| - 1], role);
      Ok(front + [cell])
  }

  // ---- what cells add up to ------------------------------------------------------------------------

  function Members(xs: seq<Permission>): set<Permission> {
    set p | p in xs
  }

  function AllowedBy(cells: seq<CellGrant>): set<Permission> {
    if cells == [] then {} else AllowedBy(cells[..|cells| - 1]) + Members(cells[|cells| - 1].allow)
  }

  function SteppedUpBy(cells: seq<CellGrant>): set<Permission> {
    if cells == [] then {}
    else
      var last := cells[|cells| - 1];
      SteppedUpBy(cells[..|cells| - 1]) + if last.stepUp then Members(last.allow) else {}
  }

  function GrantableBy(cells: seq<CellGrant>): set<Permission> {
    if cells == [] then {} else GrantableBy(cells[..|cells| - 1]) + Members(cells[|cells| - 1].grantable)
  }

  lemma {:induction false} AllowedByIff(cells: seq<CellGrant>, p: Permission)
    ensures p in AllowedBy(cells) <==> exists i :: 0 <= i < |cells| && p in cells[i].allow
  {
    if cells != [] {
      var n := |cells| - 1;
      AllowedByIff(cells[..n], p);
      assert forall i :: 0 <= i < n ==> cells[..n][i] == cells[i];
      if i :| 0 <= i < |cells| && p in cells[i].allow { assert i < n ==> p in cells[..n][i].allow; }
    }
  }

  lemma {:induction false} SteppedUpIf(cells: seq<CellGrant>, p: Permission, i: nat)
    requires i < |cells| && cells[i].stepUp && p in cells[i].allow
    ensures p in SteppedUpBy(cells)
  {
    if i < |cells| - 1 { SteppedUpIf(cells[..|cells| - 1], p, i); }
  }

  lemma {:induction false} SteppedUpWithin(cells: seq<CellGrant>)
    ensures SteppedUpBy(cells) <= AllowedBy(cells)
  {
    if cells != [] { SteppedUpWithin(cells[..|cells| - 1]); }
  }

  /** Every cell that allows the permission filters it. */
  predicate OnlyFiltered(cells: seq<CellGrant>, p: Permission) {
    forall i :: 0 <= i < |cells| && p in cells[i].allow ==> cells[i].rowFilter.Some?
  }

  /** The filter of the last cell that filters the permission. */
  function FilterFor(cells: seq<CellGrant>, p: Permission): Option<RowFilter> {
    if cells == [] then None
    else
      var last := cells[|cells| - 1];
      if last.rowFilter.Some? && (p in last.allow || p in last.grantable) then last.rowFilter
      else FilterFor(cells[..|cells| - 1], p)
  }

  /** The scope set by the last cell that limits the permission. */
  function ScopeFor(cells: seq<CellGrant>, p: Permission): Option<ScopeKind> {
    if cells == [] then None
    else
      var last := cells[|cells| - 1];
      if last.maxScope.Some? && p in last.allow then last.maxScope else ScopeFor(cells[..|cells| - 1], p)
  }

  /** A map that is defined where an option is there, with its value. */
  ghost predicate Tabulates<V>(m: map<Permission, V>, f: Permission -> Option<V>) {
    forall p :: (p in m <==> f(p).Some?) && (p in m ==> m[p] == f(p).value)
  }

  /** What a role compiled from these cells must be. */
  ghost predicate IsRole(role: RoleDefinition, cells: seq<CellGrant>) {
    && role.allow == AllowedBy(cells) && role.stepUp == SteppedUpBy(cells) && role.grantable == GrantableBy(cells)
    && Tabulates(role.maxScope, p => ScopeFor(cells, p))
    && Tabulates(role.rowFilter,
      p => if p in AllowedBy(cells) && !OnlyFiltered(cells, p) then None else FilterFor(cells, p))
  }

  // ---- one role ------------------------------------------------------------------------------------

  /** The sets and maps while rows are added, before filters are taken back. */
  ghost predicate Collected(role: RoleDefinition, cells: seq<CellGrant>) {
    && role.allow == AllowedBy(cells) && role.stepUp == SteppedUpBy(cells) && role.grantable == GrantableBy(cells)
    && Tabulates(role.maxScope, p => ScopeFor(cells, p))
    && Tabulates(role.rowFilter, p => FilterFor(cells, p))
  }

  lemma FiltersNext(m: map<Permission, RowFilter>, cells: seq<CellGrant>, c: CellGrant)
    requires Tabulates(m, p => FilterFor(cells, p))
    ensures Tabulates(SetAll(m, Members(c.allow) + Members(c.grantable), c.rowFilter), p => FilterFor(cells + [c], p))
  {
    assert (cells + [c])[..|cells|] == cells;
  }

  lemma ScopesNext(m: map<Permission, ScopeKind>, cells: seq<CellGrant>, c: CellGrant)
    requires Tabulates(m, p => ScopeFor(cells, p))
    ensures Tabulates(SetAll(m, Members(c.allow), c.maxScope), p => ScopeFor(cells + [c], p))
  {
    assert (cells + [c])[..|cells|] == cells;
  }

  method AddCell(role: RoleDefinition, c: CellGrant, ghost cells: seq<CellGrant>) returns (more: RoleDefinition)
    requires Collected(role, cells)
    ensures Collected(more, cells + [c])
  {
    assert (cells + [c])[..|cells|] == cells;
    FiltersNext(role.rowFilter, cells, c);
    ScopesNext(role.maxScope, cells, c);
    more := RoleDefinition(
      role.allow + Members(c.allow),
      if c.stepUp then role.stepUp + Members(c.allow) else role.stepUp,
      SetAll(role.rowFilter, Members(c.allow) + Members(c.grantable), c.rowFilter),
      role.grantable + Members(c.grantable),
      SetAll(role.maxScope, Members(c.allow), c.maxScope));
  }

  /** The value, if there is one, for all these permissions. */
  function SetAll<V>(m: map<Permission, V>, permissions: set<Permission>, v: Option<V>): (after: map<Permission, V>)
    ensures forall p :: p in after <==> p in m || (v.Some? && p in permissions)
    ensures forall p :: p in after ==> after[p] == if v.Some? && p in permissions then v.value else m[p]
  {
    if v.None? then m else m + map p | p in permissions :: v.value
  }

  /** The role of the matrix, or the error of its first bad row. */
  method BuildRole(matrix: seq<MatrixRow>, key: SystemRole) returns (r: Result<RoleDefinition, BuildError>)
    ensures match CellsFor(matrix, key) case Err(e) => r == Err(e) case Ok(cells) => r.Ok? && IsRole(r.value, cells)
  {
    var role := EMPTY_ROLE;
    var cells: seq<CellGrant> := [];
    for i := 0 to |matrix|
      invariant CellsFor(matrix[..i], key) == Ok(cells) && Collected(role, cells)
    {
      var cell := CellFor(matrix[i], key);
      CellsNext(matrix, key, i, cells);
      if cell.Err? { return Err(cell.error); }
      role := AddCell(role, cell.value, cells);
      cells := cells + [cell.value];
    }
    assert matrix[..|matrix|] == matrix;
    role := TakeBackFilters(role, cells);
    return Ok(role);
  }

  /** A permission that one cell allows unfiltered is not filtered by another. */
  method TakeBackFilters(role: RoleDefinition, cells: seq<CellGrant>) returns (r: RoleDefinition)
    requires Collected(role, cells)
    ensures IsRole(r, cells)
  {
    var kept := set p | p in role.rowFilter && !(p in role.allow && !OnlyFiltered(cells, p));
    r := role.(rowFilter := map p | p in kept :: role.rowFilter[p]);
  }

  lemma CellsNext(matrix: seq<MatrixRow>, key: SystemRole, i: nat, cells: seq<CellGrant>)
    requires i < |matrix| && CellsFor(matrix[..i], key) == Ok(cells)
    ensures
      match CellFor(matrix[i], key)
      case Ok(cell) => CellsFor(matrix[..i + 1], key) == Ok(cells + [cell])
      case Err(e) => CellsFor(matrix, key) == Err(e)
  {
    assert matrix[..i + 1][..i] == matrix[..i];
    if CellFor(matrix[i], key).Err? { FirstErrorStays(matrix, key, i + 1); }
  }

  lemma {:induction false} FirstErrorStays(matrix: seq<MatrixRow>, key: SystemRole, n: nat)
    requires n <= |matrix| && CellsFor(matrix[..n], key).Err?
    ensures CellsFor(matrix, key) == CellsFor(matrix[..n], key)
  {
    if n == |matrix| {
      assert matrix[..n] == matrix;
    } else {
      assert matrix[..|matrix| - 1][..n] == matrix[..n];
      FirstErrorStays(matrix[..|matrix| - 1], key, n);
    }
  }

  // ---- the table ------------------------------------------------------------------------------------

  const SYSTEM_ROLES := [
    OrgOwner, OrgAdmin, PortfolioManager, PropertyManager, RevenueManager, ReservationsAgent,
    OpsCoordinator, Cleaner, MaintenanceTech, GuestRelations, Finance, Owner, Viewer]

  type RoleTable = map<RoleKey, RoleDefinition>

  ghost predicate HasRole(table: RoleTable, matrix: seq<MatrixRow>, role: SystemRole) {
    System(role) in table && CellsFor(matrix, role).Ok? && IsRole(table[System(role)], CellsFor(matrix, role).value)
  }

  /** The table built from a matrix: every role of it from its cells, the two others empty. */
  ghost predicate IsTable(table: RoleTable, matrix: seq<MatrixRow>) {
    && (forall role: SystemRole :: HasRole(table, matrix, role))
    && PlatformOperator in table && table[PlatformOperator] == EMPTY_ROLE
    && ServiceAccount in table && table[ServiceAccount] == EMPTY_ROLE
  }

  lemma EveryRoleListed(role: SystemRole)
    ensures role in SYSTEM_ROLES
  {
    var i := match role
      case OrgOwner => 0 case OrgAdmin => 1 case PortfolioManager => 2 case PropertyManager => 3
      case RevenueManager => 4 case ReservationsAgent => 5 case OpsCoordinator => 6 case Cleaner => 7
      case MaintenanceTech => 8 case GuestRelations => 9 case Finance => 10 case Owner => 11 case Viewer => 12;
    assert SYSTEM_ROLES[i] == role;
  }

  method BuildRoles(matrix: seq<MatrixRow>) returns (r: Result<RoleTable, BuildError>)
    ensures r.Ok? ==> IsTable(r.value, matrix)
    ensures r.Err? ==> exists role: SystemRole :: CellsFor(matrix, role) == Err(r.error)
  {
    var table: RoleTable := map[];
    var roles := SYSTEM_ROLES;
    assert roles[..0] == [];
    for i := 0 to |roles|
      invariant AllBuilt(table, matrix, roles[..i])
    {
      var role := BuildRole(matrix, roles[i]);
      if role.Err? {
        assert CellsFor(matrix, roles[i]) == Err(role.error);
        return Err(role.error);
      }
      OneMoreBuilt(table, matrix, roles, i, role.value);
      table := table[System(roles[i]) := role.value];
    }
    EveryRoleBuilt(table, matrix);
    table := table[PlatformOperator := EMPTY_ROLE];
    table := table[ServiceAccount := EMPTY_ROLE];
    return Ok(table);
  }

  ghost predicate AllBuilt(table: RoleTable, matrix: seq<MatrixRow>, roles: seq<SystemRole>) {
    forall role :: role in roles ==> HasRole(table, matrix, role)
  }

  lemma OneMoreBuilt(table: RoleTable, matrix: seq<MatrixRow>, roles: seq<SystemRole>, i: nat, role: RoleDefinition)
    requires i < |roles| && AllBuilt(table, matrix, roles[..i])
    requires CellsFor(matrix, roles[i]).Ok? && IsRole(role, CellsFor(matrix, roles[i]).value)
    ensures AllBuilt(table[System(roles[i]) := role], matrix, roles[..i + 1])
  {
    var longer := table[System(roles[i]) := role];
    forall r | r in roles[..i + 1] ensures HasRole(longer, matrix, r) {
      if r != roles[i] {
        assert r in roles[..i];
        assert HasRole(table, matrix, r);
      }
    }
  }

  lemma EveryRoleBuilt(table: RoleTable, matrix: seq<MatrixRow>)
    requires AllBuilt(table, matrix, SYSTEM_ROLES[..|SYSTEM_ROLES|])
    ensures IsTable(table[PlatformOperator := EMPTY_ROLE][ServiceAccount := EMPTY_ROLE], matrix)
  {
    var full := table[PlatformOperator := EMPTY_ROLE][ServiceAccount := EMPTY_ROLE];
    assert SYSTEM_ROLES[..|SYSTEM_ROLES|] == SYSTEM_ROLES;
    forall role: SystemRole ensures HasRole(full, matrix, role) {
      EveryRoleListed(role);
      RoleStays(table, matrix, role);
    }
  }

  lemma RoleStays(table: RoleTable, matrix: seq<MatrixRow>, role: SystemRole)
    ensures HasRole(table, matrix, role) ==>
      HasRole(table[PlatformOperator := EMPTY_ROLE][ServiceAccount := EMPTY_ROLE], matrix, role)
  {
  }

  // ---- what every table keeps to -----------------------------------------------------------------------

  lemma {:induction false} CellOf(matrix: seq<MatrixRow>, key: SystemRole, i: nat)
    requires CellsFor(matrix, key).Ok? && i < |CellsFor(matrix, key).value|
    ensures |CellsFor(matrix, key).value| == |matrix|
    ensures CellFor(matrix[i], key) == Ok(CellsFor(matrix, key).value[i])
  {
    CellsAsManyAsRows(matrix, key);
    LastCell(matrix, key);
    if i < |matrix| - 1 { CellOf(matrix[..|matrix| - 1], key, i); }
  }

  lemma LastCell(matrix: seq<MatrixRow>, key: SystemRole)
    requires CellsFor(matrix, key).Ok? && matrix != []
    ensures var front, n := CellsFor(matrix[..|matrix| - 1], key), |matrix| - 1;
      && front.Ok? && |front.value| == n && CellFor(matrix[n], key).Ok?
      && CellsFor(matrix, key).value == front.value + [CellFor(matrix[n], key).value]
  {
    CellsAsManyAsRows(matrix[..|matrix| - 1], key);
  }

  lemma {:induction false} CellsAsManyAsRows(matrix: seq<MatrixRow>, key: SystemRole)
    requires CellsFor(matrix, key).Ok?
    ensures |CellsFor(matrix, key).value| == |matrix|
  {
    if matrix != [] { CellsAsManyAsRows(matrix[..|matrix| - 1], key); }
  }

  /** In every table the matrix compiles to, each sensitive permission a role allows asks for step-up. */
  lemma SensitiveAsksForStepUp(table: RoleTable, matrix: seq<MatrixRow>, key: RoleKey, p: Permission)
    requires IsTable(table, matrix) && key in table
    requires IsSensitive(p) && p in table[key].allow
    ensures p in table[key].stepUp
  {
    var role := key.role;
    assert HasRole(table, matrix, role);
    var cells := CellsFor(matrix, role).value;
    AllowedByIff(cells, p);
    var i :| 0 <= i < |cells| && p in cells[i].allow;
    CellOf(matrix, role, i);
    RowsAreSafe(matrix[i].name);
    SensitiveNeedsStepUp(matrix[i].cells[role], RowOf(matrix[i].name).value, p);
    SteppedUpIf(cells, p, i);
  }

  lemma KeptFilter(role: RoleDefinition, cells: seq<CellGrant>, p: Permission)
    requires IsRole(role, cells) && p in role.allow
    ensures p in role.rowFilter <==> OnlyFiltered(cells, p) && FilterFor(cells, p).Some?
  {
  }

  /** A role's permission keeps a filter exactly when every cell that allows it has one. */
  lemma FilteredIff(role: RoleDefinition, cells: seq<CellGrant>, p: Permission)
    requires IsRole(role, cells) && p in role.allow
    ensures p in role.rowFilter <==> forall i :: 0 <= i < |cells| && p in cells[i].allow ==> cells[i].rowFilter.Some?
  {
    KeptFilter(role, cells, p);
    AllowedByIff(cells, p);
    AllFilteredHasOne(cells, p);
  }

  lemma AllFilteredHasOne(cells: seq<CellGrant>, p: Permission)
    requires exists i :: 0 <= i < |cells| && p in cells[i].allow
    ensures OnlyFiltered(cells, p) ==> FilterFor(cells, p).Some?
  {
    var i :| 0 <= i < |cells| && p in cells[i].allow;
    if OnlyFiltered(cells, p) { SomeFilter(cells, p, i); }
  }

  lemma {:induction false} SomeFilter(cells: seq<CellGrant>, p: Permission, i: nat)
    requires i < |cells| && p in cells[i].allow && cells[i].rowFilter.Some?
    ensures FilterFor(cells, p).Some?
  {
    if i < |cells| - 1 { SomeFilter(cells[..|cells| - 1], p, i); }
  }

  /** Whatever asks for step-up is allowed, and a filter is one that some cell of the matrix sets. */
  lemma StepUpIsAllowed(role: RoleDefinition, cells: seq<CellGrant>)
    requires IsRole(role, cells)
    ensures role.stepUp <= role.allow
    ensures role.rowFilter.Keys <= role.allow + role.grantable
    ensures role.maxScope.Keys <= role.allow
  {
    SteppedUpWithin(cells);
    forall p | p in role.rowFilter ensures p in role.allow + role.grantable { FilterIsGranted(cells, p); }
    forall p | p in role.maxScope ensures p in role.allow { ScopeIsAllowed(cells, p); }
  }

  lemma {:induction false} FilterIsGranted(cells: seq<CellGrant>, p: Permission)
    requires FilterFor(cells, p).Some?
    ensures p in AllowedBy(cells) + GrantableBy(cells)
  {
    var n := |cells| - 1;
    var last := cells[n];
    if !(last.rowFilter.Some? && (p in last.allow || p in last.grantable)) { FilterIsGranted(cells[..n], p); }
  }

  lemma {:induction false} ScopeIsAllowed(cells: seq<CellGrant>, p: Permission)
    requires ScopeFor(cells, p).Some?
    ensures p in AllowedBy(cells)
  {
    var n := |cells| - 1;
    var last := cells[n];
    if !(last.maxScope.Some? && p in last.allow) { ScopeIsAllowed(cells[..n], p); }
  }
}
