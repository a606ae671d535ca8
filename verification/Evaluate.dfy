/** Who may do what where: the decision over the grants of a member (evaluate). */
module Evaluate {
  import opened Wrappers
  import opened Catalogue
  import opened Roles

  datatype ScopeRef = ScopeRef(kind: ScopeKind, id: nat)

  /** One organization; a property may belong to several groups. */
  datatype ScopeGraph = ScopeGraph(orgId: nat, groupProperties: map<nat, set<nat>>)

  datatype RoleRef = Key(key: RoleKey) | Custom(definition: RoleDefinition)

  datatype Grant = Grant(
    role: RoleRef, scope: ScopeRef, allow: set<Permission>, deny: set<Permission>, expiresAt: Option<int>)

  datatype Reason = NoGrant | Denied | UnknownPermission | OutOfScope

  datatype Decision = Refused(reason: Reason) | Allowed(stepUp: bool, rowFilter: Option<RowFilter>)

  /** What a decision is about: the place, the instant, the roles. */
  datatype Context = Context(target: ScopeRef, graph: ScopeGraph, now: int, roles: RoleTable)

  function Rank(kind: ScopeKind): int {
    match kind
    case OrganizationScope => 0
    case GroupScope => 1
    case PropertyScope => 2
  }

  predicate Covers(scope: ScopeRef, target: ScopeRef, graph: ScopeGraph) {
    if scope.kind == OrganizationScope then scope.id == graph.orgId
    else if scope.kind == target.kind then scope.id == target.id
    else if scope.kind == GroupScope && target.kind == PropertyScope then
      scope.id in graph.groupProperties && target.id in graph.groupProperties[scope.id]
    else false
  }

  /** The table has every key a grant can name. */
  ghost predicate Complete(roles: RoleTable) {
    forall key: RoleKey :: key in roles
  }

  function ResolveRole(g: Grant, c: Context): RoleDefinition
    requires Complete(c.roles)
  {
    match g.role
    case Key(key) => c.roles[key]
    case Custom(definition) => definition
  }

  /** Unexpired and covering the target. */
  predicate Live(g: Grant, c: Context) {
    (g.expiresAt.Some? ==> g.expiresAt.value > c.now) && Covers(g.scope, c.target, c.graph)
  }

  predicate ViaRole(g: Grant, p: Permission, c: Context)
    requires Complete(c.roles)
  {
    var role := ResolveRole(g, c);
    p in role.allow && (p in role.maxScope ==> Rank(g.scope.kind) >= Rank(role.maxScope[p]))
  }

  predicate Contributes(g: Grant, p: Permission, c: Context)
    requires Complete(c.roles)
  {
    ViaRole(g, p, c) || p in g.allow
  }

  function FilterOfGrant(g: Grant, p: Permission, c: Context): Option<RowFilter>
    requires Complete(c.roles)
  {
    var role := ResolveRole(g, c);
    if ViaRole(g, p, c) && p in role.rowFilter then Some(role.rowFilter[p]) else None
  }

  // ---- what the decision must be -----------------------------------------------------------------------

  ghost predicate Any(gs: seq<Grant>, f: Grant -> bool) {
    gs != [] && (Any(gs[..|gs| - 1], f) || f(gs[|gs| - 1]))
  }

  lemma {:induction false} AnyIff(gs: seq<Grant>, f: Grant -> bool)
    ensures Any(gs, f) <==> exists g :: g in gs && f(g)
  {
    if gs != [] {
      var front, last := gs[..|gs| - 1], gs[|gs| - 1];
      AnyIff(front, f);
      assert gs == front + [last];
    }
  }

  lemma AnyNext(gs: seq<Grant>, g: Grant, f: Grant -> bool)
    ensures Any(gs + [g], f) <==> Any(gs, f) || f(g)
  {
    assert (gs + [g])[..|gs|] == gs;
  }

  function IsLive(c: Context): Grant -> bool {
    g => Live(g, c)
  }

  function Denies(p: Permission, c: Context): Grant -> bool {
    g => Live(g, c) && p in g.deny
  }

  function Gives(p: Permission, c: Context): Grant -> bool
    requires Complete(c.roles)
  {
    g => Live(g, c) && Contributes(g, p, c)
  }

  function AsksStepUp(p: Permission, c: Context): Grant -> bool
    requires Complete(c.roles)
  {
    g => Live(g, c) && Contributes(g, p, c) && p in ResolveRole(g, c).stepUp
  }

  function GivesUnfiltered(p: Permission, c: Context): Grant -> bool
    requires Complete(c.roles)
  {
    g => Live(g, c) && Contributes(g, p, c) && FilterOfGrant(g, p, c).None?
  }

  /** The filter of the first contributing grant that has one. */
  function FirstFilter(gs: seq<Grant>, p: Permission, c: Context): Option<RowFilter>
    requires Complete(c.roles)
  {
    if gs == [] then None
    else
      var front, last := FirstFilter(gs[..|gs| - 1], p, c), gs[|gs| - 1];
      if front.Some? then front
      else if Live(last, c) && Contributes(last, p, c) then FilterOfGrant(last, p, c)
      else None
  }

  /** The decision by what grants there are, whatever their order. */
  ghost function Verdict(gs: seq<Grant>, permission: Option<Permission>, c: Context): Decision
    requires Complete(c.roles)
  {
    if permission.None? then Refused(UnknownPermission)
    else
      var p := permission.value;
      if Any(gs, Denies(p, c)) then Refused(Denied)
      else if !Any(gs, Gives(p, c)) then Refused(if Any(gs, IsLive(c)) then NoGrant else OutOfScope)
      else Allowed(Any(gs, AsksStepUp(p, c)), if Any(gs, GivesUnfiltered(p, c)) then None else FirstFilter(gs, p, c))
  }

  /** What the loop knows after some of the grants. */
  ghost predicate Knows(
    gs: seq<Grant>, p: Permission, c: Context, allowed: bool, stepUp: bool, unfiltered: bool,
    filter: Option<RowFilter>, sawCovering: bool)
    requires Complete(c.roles)
  {
    && !Any(gs, Denies(p, c))
    && (allowed <==> Any(gs, Gives(p, c))) && (stepUp <==> Any(gs, AsksStepUp(p, c)))
    && (unfiltered <==> Any(gs, GivesUnfiltered(p, c))) && (sawCovering <==> Any(gs, IsLive(c)))
    && filter == FirstFilter(gs, p, c)
  }

  lemma NextFilter(gs: seq<Grant>, g: Grant, p: Permission, c: Context)
    requires Complete(c.roles)
    ensures FirstFilter(gs + [g], p, c) ==
      if FirstFilter(gs, p, c).None? && Gives(p, c)(g) then FilterOfGrant(g, p, c) else FirstFilter(gs, p, c)
  {
    assert (gs + [g])[..|gs|] == gs;
  }

  /** What one more grant that denies nothing adds to what is known. */
  lemma NextKnown(
    gs: seq<Grant>, g: Grant, p: Permission, c: Context, allowed: bool, stepUp: bool, unfiltered: bool,
    filter: Option<RowFilter>, sawCovering: bool)
    requires Complete(c.roles) && Knows(gs, p, c, allowed, stepUp, unfiltered, filter, sawCovering)
    requires !Denies(p, c)(g)
    ensures Knows(
      gs + [g], p, c, allowed || Gives(p, c)(g), stepUp || AsksStepUp(p, c)(g),
      unfiltered || GivesUnfiltered(p, c)(g),
      if filter.None? && Gives(p, c)(g) then FilterOfGrant(g, p, c) else filter, sawCovering || IsLive(c)(g))
  {
    AnyNext(gs, g, IsLive(c));
    AnyNext(gs, g, Denies(p, c));
    AnyNext(gs, g, Gives(p, c));
    AnyNext(gs, g, AsksStepUp(p, c));
    AnyNext(gs, g, GivesUnfiltered(p, c));
    NextFilter(gs, g, p, c);
  }

  lemma {:induction false} DenyStays(gs: seq<Grant>, i: nat, p: Permission, c: Context)
    requires i < |gs| && Live(gs[i], c) && p in gs[i].deny
    ensures Any(gs, Denies(p, c))
  {
    AnyIff(gs, Denies(p, c));
    assert gs[i] in gs && Denies(p, c)(gs[i]);
  }

  method Evaluate(grants: seq<Grant>, permission: Option<Permission>, c: Context) returns (decision: Decision)
    requires Complete(c.roles)
    ensures decision == Verdict(grants, permission, c)
  {
    if permission.None? { return Refused(UnknownPermission); }
    var p := permission.value;
    var allowed, stepUp, unfiltered, sawCovering := false, false, false, false;
    var filter: Option<RowFilter> := None;
    for i := 0 to |grants|
      invariant Knows(grants[..i], p, c, allowed, stepUp, unfiltered, filter, sawCovering)
    {
      var g := grants[i];
      assert grants[..i + 1] == grants[..i] + [g];
      if !(Live(g, c) && p in g.deny) {
        NextKnown(grants[..i], g, p, c, allowed, stepUp, unfiltered, filter, sawCovering);
      }
      if g.expiresAt.Some? && g.expiresAt.value <= c.now { continue; }
      if !Covers(g.scope, c.target, c.graph) { continue; }
      sawCovering := true;
      if p in g.deny {
        DenyStays(grants, i, p, c);
        return Refused(Denied);
      }
      var role := ResolveRole(g, c);
      var viaRole := p in role.allow && (p !in role.maxScope || Rank(g.scope.kind) >= Rank(role.maxScope[p]));
      var viaOverride := p in g.allow;
      if !viaRole && !viaOverride { continue; }
      allowed := true;
      if p in role.stepUp { stepUp := true; }
      var f := if viaRole && p in role.rowFilter then Some(role.rowFilter[p]) else None;
      if f.Some? { filter := if filter.None? then f else filter; } else { unfiltered := true; }
    }
    assert grants[..|grants|] == grants;
    if !allowed { return Refused(if sawCovering then NoGrant else OutOfScope); }
    return if unfiltered || filter.None? then Allowed(stepUp, None) else Allowed(stepUp, filter);
  }

  // ---- what follows for every list of grants -----------------------------------------------------------

  /** Access exactly when some unexpired covering grant gives the permission and none denies it. */
  lemma AllowedIff(gs: seq<Grant>, p: Permission, c: Context)
    requires Complete(c.roles)
    ensures Verdict(gs, Some(p), c).Allowed? <==>
      && (exists g :: g in gs && Live(g, c) && Contributes(g, p, c))
      && !(exists g :: g in gs && Live(g, c) && p in g.deny)
  {
    GivenIff(gs, p, c);
    DeniedIff(gs, p, c);
  }

  lemma GivenIff(gs: seq<Grant>, p: Permission, c: Context)
    requires Complete(c.roles)
    ensures Any(gs, Gives(p, c)) <==> exists g :: g in gs && Live(g, c) && Contributes(g, p, c)
  {
    AnyIff(gs, Gives(p, c));
    assert forall g :: Gives(p, c)(g) <==> Live(g, c) && Contributes(g, p, c);
  }

  lemma DeniedIff(gs: seq<Grant>, p: Permission, c: Context)
    ensures Any(gs, Denies(p, c)) <==> exists g :: g in gs && Live(g, c) && p in g.deny
  {
    AnyIff(gs, Denies(p, c));
    assert forall g :: Denies(p, c)(g) <==> Live(g, c) && p in g.deny;
  }

  ghost predicate SameGrants(gs: seq<Grant>, hs: seq<Grant>) {
    forall g :: g in gs <==> g in hs
  }

  /** A decision but for which filter it names. */
  ghost predicate SameDecision(a: Decision, b: Decision) {
    match a
    case Refused(reason) => b == a
    case Allowed(stepUp, rowFilter) => b.Allowed? && b.stepUp == stepUp && (b.rowFilter.Some? <==> rowFilter.Some?)
  }

  function GivesFiltered(p: Permission, c: Context): Grant -> bool
    requires Complete(c.roles)
  {
    g => Live(g, c) && Contributes(g, p, c) && FilterOfGrant(g, p, c).Some?
  }

  lemma {:induction false} FirstFilterIff(gs: seq<Grant>, p: Permission, c: Context)
    requires Complete(c.roles)
    ensures FirstFilter(gs, p, c).Some? <==> Any(gs, GivesFiltered(p, c))
  {
    if gs != [] { FirstFilterIff(gs[..|gs| - 1], p, c); }
  }

  lemma SameAny(gs: seq<Grant>, hs: seq<Grant>, f: Grant -> bool)
    requires SameGrants(gs, hs)
    ensures Any(gs, f) == Any(hs, f)
  {
    AnyIff(gs, f);
    AnyIff(hs, f);
  }

  /** Order and repetition of grants do not matter. */
  lemma OnlyTheSetMatters(gs: seq<Grant>, hs: seq<Grant>, permission: Option<Permission>, c: Context)
    requires Complete(c.roles) && SameGrants(gs, hs)
    ensures SameDecision(Verdict(gs, permission, c), Verdict(hs, permission, c))
  {
    if permission.Some? {
      var p := permission.value;
      SameAny(gs, hs, IsLive(c));
      SameAny(gs, hs, Denies(p, c));
      SameAny(gs, hs, Gives(p, c));
      SameAny(gs, hs, AsksStepUp(p, c));
      SameAny(gs, hs, GivesUnfiltered(p, c));
      SameAny(gs, hs, GivesFiltered(p, c));
      FirstFilterIff(gs, p, c);
      FirstFilterIff(hs, p, c);
    }
  }

  lemma {:induction false} FilteredOrNot(gs: seq<Grant>, p: Permission, c: Context)
    requires Complete(c.roles)
    ensures Any(gs, Gives(p, c)) ==> Any(gs, GivesUnfiltered(p, c)) || FirstFilter(gs, p, c).Some?
  {
    if gs != [] { FilteredOrNot(gs[..|gs| - 1], p, c); }
  }

  /** One more grant that does not deny the permission never takes access away or filters what was unfiltered. */
  lemma MoreGrantsNeverNarrow(gs: seq<Grant>, g: Grant, p: Permission, c: Context)
    requires Complete(c.roles) && p !in g.deny
    requires Verdict(gs, Some(p), c).Allowed?
    ensures var more := Verdict(gs + [g], Some(p), c);
      && more.Allowed?
      && (Verdict(gs, Some(p), c).rowFilter.None? ==> more.rowFilter.None?)
      && (Verdict(gs, Some(p), c).stepUp ==> more.stepUp)
  {
    AnyNext(gs, g, Denies(p, c));
    AnyNext(gs, g, Gives(p, c));
    AnyNext(gs, g, AsksStepUp(p, c));
    AnyNext(gs, g, GivesUnfiltered(p, c));
    FilteredOrNot(gs, p, c);
  }

  /** A denial anywhere decides, whatever else is granted. */
  lemma DenyWins(gs: seq<Grant>, g: Grant, p: Permission, c: Context)
    requires Complete(c.roles) && g in gs && Live(g, c) && p in g.deny
    ensures Verdict(gs, Some(p), c) == Refused(Denied)
  {
    AnyIff(gs, Denies(p, c));
    assert Denies(p, c)(g);
  }

  /** A table built from a matrix knows every key. */
  lemma TableIsComplete(table: RoleTable, matrix: seq<MatrixRow>)
    requires IsTable(table, matrix)
    ensures Complete(table)
  {
    forall key: RoleKey ensures key in table {
      match key
      case System(role) => assert HasRole(table, matrix, role);
      case PlatformOperator =>
      case ServiceAccount =>
    }
  }

  /**
   * With roles compiled from the matrix a sensitive permission is allowed without step-up only
   * when an override of a grant gives it: no grant gives it through its role.
   */
  lemma SensitiveOnlyByOverride(gs: seq<Grant>, p: Permission, c: Context, matrix: seq<MatrixRow>)
    requires IsTable(c.roles, matrix) && IsSensitive(p)
    requires forall g :: g in gs ==> g.role.Key?
    ensures Complete(c.roles)
    ensures Verdict(gs, Some(p), c).Allowed? && !Verdict(gs, Some(p), c).stepUp ==>
      forall g :: g in gs && Live(g, c) && Contributes(g, p, c) ==> p in g.allow && !ViaRole(g, p, c)
  {
    TableIsComplete(c.roles, matrix);
    if Verdict(gs, Some(p), c).Allowed? && !Verdict(gs, Some(p), c).stepUp {
      forall g | g in gs && Live(g, c) && Contributes(g, p, c) ensures p in g.allow && !ViaRole(g, p, c) {
        AnyIff(gs, AsksStepUp(p, c));
        assert !AsksStepUp(p, c)(g);
        if ViaRole(g, p, c) { SensitiveAsksForStepUp(c.roles, matrix, g.role.key, p); }
      }
    }
  }
}
