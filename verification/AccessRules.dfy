/**
 * The access decision written out over the grants: which grants are in force at a place and an
 * instant, what each gives, and what follows.
 */
module AccessRules {
  import opened Wrappers
  import opened Catalogue
  import opened Roles
  import opened Evaluate

  /** The scope of a grant: the organization, the target itself, or a group that holds the target property. */
  ghost predicate InScope(scope: ScopeRef, target: ScopeRef, graph: ScopeGraph) {
    || scope == ScopeRef(OrganizationScope, graph.orgId)
    || (scope.kind != OrganizationScope && scope == target)
    || (scope.kind == GroupScope && target.kind == PropertyScope
        && scope.id in graph.groupProperties && target.id in graph.groupProperties[scope.id])
  }

  ghost predicate InForce(g: Grant, c: Context) {
    (g.expiresAt.None? || c.now < g.expiresAt.value) && InScope(g.scope, c.target, c.graph)
  }

  ghost function RoleOf(g: Grant, c: Context): RoleDefinition
    requires Complete(c.roles)
  {
    if g.role.Custom? then g.role.definition else c.roles[g.role.key]
  }

  /** The role allows it, and its limit is no narrower than the scope of the grant. */
  ghost predicate RoleGives(g: Grant, p: Permission, c: Context)
    requires Complete(c.roles)
  {
    var role := RoleOf(g, c);
    p in role.allow && (p in role.maxScope ==>
      match role.maxScope[p]
      case OrganizationScope => true
      case GroupScope => g.scope.kind == GroupScope || g.scope.kind == PropertyScope
      case PropertyScope => g.scope.kind == PropertyScope)
  }

  /** A grant in force gives the permission by an override or by its role. */
  ghost predicate GivesNow(g: Grant, p: Permission, c: Context)
    requires Complete(c.roles)
  {
    InForce(g, c) && (p in g.allow || RoleGives(g, p, c))
  }

  /** What it gives, it gives only for some rows. */
  ghost predicate FiltersRows(g: Grant, p: Permission, c: Context)
    requires Complete(c.roles)
  {
    RoleGives(g, p, c) && p in RoleOf(g, c).rowFilter
  }

  lemma InForceIff(g: Grant, c: Context)
    ensures Live(g, c) <==> InForce(g, c)
  {
  }

  lemma RoleGivesIff(g: Grant, p: Permission, c: Context)
    requires Complete(c.roles)
    ensures ResolveRole(g, c) == RoleOf(g, c)
    ensures ViaRole(g, p, c) <==> RoleGives(g, p, c)
  {
    if p in RoleOf(g, c).maxScope {
      RankIff(g.scope.kind, RoleOf(g, c).maxScope[p]);
    }
  }

  lemma RankIff(kind: ScopeKind, limit: ScopeKind)
    ensures Rank(kind) >= Rank(limit) <==>
      match limit
      case OrganizationScope => true
      case GroupScope => kind == GroupScope || kind == PropertyScope
      case PropertyScope => kind == PropertyScope
  {
  }

  lemma GivesIff(g: Grant, p: Permission, c: Context)
    requires Complete(c.roles)
    ensures ResolveRole(g, c) == RoleOf(g, c)
    ensures Live(g, c) && Contributes(g, p, c) <==> GivesNow(g, p, c)
    ensures FilterOfGrant(g, p, c) == if FiltersRows(g, p, c) then Some(RoleOf(g, c).rowFilter[p]) else None
  {
    RoleGivesIff(g, p, c);
    InForceIff(g, c);
  }

  /**
   * For every list of grants: access exactly when a grant in force gives the permission and none in
   * force denies it; a refusal names the denial first, then that nothing in force covers the target.
   */
  lemma AccessIff(gs: seq<Grant>, p: Permission, c: Context)
    requires Complete(c.roles)
    ensures Verdict(gs, Some(p), c).Allowed? <==>
      (exists g :: g in gs && GivesNow(g, p, c)) && !(exists g :: g in gs && InForce(g, c) && p in g.deny)
    ensures Verdict(gs, Some(p), c) == Refused(Denied) <==> exists g :: g in gs && InForce(g, c) && p in g.deny
    ensures Verdict(gs, Some(p), c) == Refused(OutOfScope) <==> forall g :: g in gs ==> !InForce(g, c)
    ensures Verdict(gs, Some(p), c) == Refused(NoGrant) <==>
      && (exists g :: g in gs && InForce(g, c))
      && forall g :: g in gs ==> !GivesNow(g, p, c) && !(InForce(g, c) && p in g.deny)
    ensures Verdict(gs, None, c) == Refused(UnknownPermission)
  {
    forall g ensures IsLive(c)(g) <==> InForce(g, c) { InForceIff(g, c); }
    forall g ensures Gives(p, c)(g) <==> GivesNow(g, p, c) { GivesIff(g, p, c); }
    AnyIff(gs, IsLive(c));
    AnyIff(gs, Gives(p, c));
    AnyIff(gs, Denies(p, c));
    assert forall g :: Denies(p, c)(g) <==> IsLive(c)(g) && p in g.deny;
  }

  /** Step-up is asked for exactly when the role of a grant that gives the permission asks for it. */
  lemma StepUpIff(gs: seq<Grant>, p: Permission, c: Context)
    requires Complete(c.roles) && Verdict(gs, Some(p), c).Allowed?
    ensures Verdict(gs, Some(p), c).stepUp <==>
      exists g :: g in gs && GivesNow(g, p, c) && p in RoleOf(g, c).stepUp
  {
    forall g ensures AsksStepUp(p, c)(g) <==> GivesNow(g, p, c) && p in RoleOf(g, c).stepUp { GivesIff(g, p, c); }
    AnyIff(gs, AsksStepUp(p, c));
  }

  /** The first grant of the list that gives the permission. */
  ghost predicate FirstToGive(gs: seq<Grant>, i: nat, p: Permission, c: Context)
    requires Complete(c.roles)
  {
    i < |gs| && GivesNow(gs[i], p, c) && forall j :: 0 <= j < i ==> !GivesNow(gs[j], p, c)
  }

  lemma {:induction false} FirstFilterIs(gs: seq<Grant>, p: Permission, c: Context, i: nat)
    requires Complete(c.roles) && FirstToGive(gs, i, p, c) && FiltersRows(gs[i], p, c)
    ensures FirstFilter(gs, p, c) == Some(RoleOf(gs[i], c).rowFilter[p])
  {
    GivesIff(gs[|gs| - 1], p, c);
    if i < |gs| - 1 {
      FirstFilterIs(gs[..|gs| - 1], p, c, i);
    } else {
      NoFilterYet(gs[..i], p, c);
    }
  }

  lemma {:induction false} NoFilterYet(gs: seq<Grant>, p: Permission, c: Context)
    requires Complete(c.roles) && forall j :: 0 <= j < |gs| ==> !GivesNow(gs[j], p, c)
    ensures FirstFilter(gs, p, c) == None
  {
    if gs != [] {
      NoFilterYet(gs[..|gs| - 1], p, c);
      GivesIff(gs[|gs| - 1], p, c);
    }
  }

  lemma {:induction false} SomeFirst(gs: seq<Grant>, p: Permission, c: Context) returns (i: nat)
    requires Complete(c.roles) && exists g :: g in gs && GivesNow(g, p, c)
    ensures FirstToGive(gs, i, p, c)
  {
    var front := gs[..|gs| - 1];
    if g :| g in front && GivesNow(g, p, c) {
      i := SomeFirst(front, p, c);
    } else {
      i := |gs| - 1;
      var g :| g in gs && GivesNow(g, p, c);
      assert gs == front + [gs[i]];
      assert forall j :: 0 <= j < i ==> gs[j] in front;
    }
  }

  /**
   * Access is limited to rows exactly when every grant that gives the permission limits it; then the
   * filter is that of the first of them.
   */
  lemma RowFilterIs(gs: seq<Grant>, p: Permission, c: Context) returns (i: nat)
    requires Complete(c.roles) && Verdict(gs, Some(p), c).Allowed?
    ensures FirstToGive(gs, i, p, c)
    ensures Verdict(gs, Some(p), c).rowFilter ==
      if forall g :: g in gs && GivesNow(g, p, c) ==> FiltersRows(g, p, c)
      then Some(RoleOf(gs[i], c).rowFilter[p]) else None
  {
    AccessIff(gs, p, c);
    i := SomeFirst(gs, p, c);
    assert gs[i] in gs;
    forall g ensures GivesUnfiltered(p, c)(g) <==> GivesNow(g, p, c) && !FiltersRows(g, p, c) { GivesIff(g, p, c); }
    AnyIff(gs, GivesUnfiltered(p, c));
    if FiltersRows(gs[i], p, c) { FirstFilterIs(gs, p, c, i); }
  }

  /** A scope that has nothing to do with a property. */
  ghost predicate Elsewhere(scope: ScopeRef, property: nat, graph: ScopeGraph) {
    match scope.kind
    case OrganizationScope => scope.id != graph.orgId
    case GroupScope => scope.id in graph.groupProperties ==> property !in graph.groupProperties[scope.id]
    case PropertyScope => scope.id != property
  }

  /**
   * Isolation: grants on other properties, on groups without the property and in other organizations
   * never give anything on a property, whatever they allow and deny.
   */
  lemma GrantsElsewhereGiveNothing(gs: seq<Grant>, p: Permission, c: Context)
    requires Complete(c.roles) && c.target.kind == PropertyScope
    requires forall g :: g in gs ==> Elsewhere(g.scope, c.target.id, c.graph)
    ensures Verdict(gs, Some(p), c) == Refused(OutOfScope)
  {
    AccessIff(gs, p, c);
  }

  /** An expired grant gives and denies nothing. */
  lemma ExpiredGrantsCountForNothing(gs: seq<Grant>, p: Permission, c: Context)
    requires Complete(c.roles)
    requires forall g :: g in gs ==> g.expiresAt.Some? && g.expiresAt.value <= c.now
    ensures Verdict(gs, Some(p), c) == Refused(OutOfScope)
  {
    AccessIff(gs, p, c);
  }
}
