/** When a check is allowed, what it does not depend on, and what it leaves in the audit log. */
module AuthTheorems {
  import opened Sequences
  import opened Keyed
  import opened AuthCatalog
  import opened AuthService

  // ----- when a check is allowed -----

  /** A scope covers what is asked for: the requested scope if one is given, else the resource itself. A global scope covers
      all, any other one its own kind, and of that only its id if it has one. */
  predicate Covers(scope: Scope, resource: Resource) {
    var target := if resource.scope.Some? then resource.scope.value else Scope(resource.kind, resource.id);
    || scope.kind == "global"
    || (scope.kind == target.kind && scope.scopeId.None?)
    || (scope.kind == target.kind && scope.scopeId.Some? && target.scopeId == Some(scope.scopeId.value))
  }

  lemma ScopeIs(scope: Scope, resource: Resource)
    ensures ScopeMatches(scope, resource) <==> Covers(scope, resource)
  {
  }

  /** The binding is active, gives a role of the context, and that role, as the catalog has it, has the permission. */
  predicate Gives(c: Catalog, x: Context, p: Permission, b: RoleBinding) {
    && b.status == Active
    && (exists r :: r in x.roles && r.id == b.roleId)
    && GetRole(c, b.roleId).Some? && p.id in GetRole(c, b.roleId).value.permissions
  }

  lemma QualifiesIs(c: Catalog, x: Context, p: Permission, b: RoleBinding)
    ensures Qualifies(c, x, p, b) <==> Gives(c, x, p, b)
  {
    LookupFresh(RoleKey(), b.roleId, x.roles);
  }

  /** The binding reaches the actor: through the principal, or through one of the actor's teams. */
  ghost predicate Reaches(c: Catalog, actor: Actor, principal: Id, b: RoleBinding) {
    || b.principalId == Some(principal)
    || exists n, t :: n in actor.teams && GetTeam(c, n) == Some(t) && b.teamId == Some(t.id)
  }

  /** Some active binding that reaches the actor gives it an active role with the permission, in scope. */
  ghost predicate BindingGrants(c: Catalog, actor: Actor, principal: Id, permission: Permission, resource: Resource) {
    exists b, r :: Grants(c, actor, principal, permission, resource, b, r)
  }

  ghost predicate Grants(
    c: Catalog, actor: Actor, principal: Id, permission: Permission, resource: Resource, b: RoleBinding, r: Role)
  {
    && b in c.bindings && b.status == Active && Reaches(c, actor, principal, b)
    && r in c.roles && r.id == b.roleId && r.status == Active && permission.id in r.permissions
    && Covers(b.scope, resource)
  }

  lemma {:induction false} TeamsOfMembers(c: Catalog, names: seq<string>, t: Team)
    ensures t in TeamsOf(c, names) <==> exists n :: n in names && GetTeam(c, n) == Some(t)
  {
    if names != [] {
      TeamsOfMembers(c, names[1..], t);
      assert names == [names[0]] + names[1..];
    }
  }

  lemma BindingsForMembers(c: Catalog, actor: Actor, principal: Principal, b: RoleBinding)
    requires WellFormed(c)
    ensures b in BindingsFor(c, principal, TeamsOf(c, actor.teams))
       <==> b in c.bindings && b.status == Active && Reaches(c, actor, principal.id, b)
  {
    var teams := TeamsOf(c, actor.teams);
    var all := Filter(BoundToPrincipal(principal.id), c.bindings) + TeamBindings(c, teams);
    FilterMembers(BoundToPrincipal(principal.id), c.bindings);
    TeamBindingsMembers(c, teams, b);
    if t :| t in teams && b.teamId == Some(t.id) {
      TeamsOfMembers(c, actor.teams, t);
    }
    if n, t :| n in actor.teams && GetTeam(c, n) == Some(t) && b.teamId == Some(t.id) {
      TeamsOfMembers(c, actor.teams, t);
    }
    assert b in all <==> b in c.bindings && Reaches(c, actor, principal.id, b);
    UniqueByMembers(BindingKey(), all);
    FilterMembers(ActiveBinding(), UniqueBy(BindingKey(), all));
    if b in all {
      var kept :| kept in UniqueBy(BindingKey(), all) && BindingKey()(kept) == BindingKey()(b);
      AllBindingsKnown(c, principal.id, teams, kept);
      LookupIs(BindingKey(), c.bindings, kept);
      LookupIs(BindingKey(), c.bindings, b);
    }
  }

  lemma AllBindingsKnown(c: Catalog, principal: Id, teams: seq<Team>, b: RoleBinding)
    requires b in Filter(BoundToPrincipal(principal), c.bindings) + TeamBindings(c, teams)
    ensures b in c.bindings
  {
    FilterMembers(BoundToPrincipal(principal), c.bindings);
    TeamBindingsMembers(c, teams, b);
  }

  /** The roles of a context are active; every active role that an actual binding names is among them. */
  lemma RolesForMembers(c: Catalog, names: seq<string>, bindings: seq<RoleBinding>, r: Role)
    requires WellFormed(c)
    ensures r in RolesFor(c, names, bindings) ==> r in c.roles && r.status == Active
    ensures r in c.roles && r.status == Active && (exists b :: b in bindings && b.roleId == r.id)
        ==> r in RolesFor(c, names, bindings)
  {
    var ids := Map(RoleIdOf(), bindings);
    var all := RolesOf(c, names) + RolesOf(c, ids);
    UniqueByMembers(RoleKey(), all);
    FilterMembers(ActiveRole(), UniqueBy(RoleKey(), all));
    RolesOfMembers(c, names, r);
    RolesOfMembers(c, ids, r);
    if r in c.roles && r.status == Active && exists b :: b in bindings && b.roleId == r.id {
      var b :| b in bindings && b.roleId == r.id;
      var k :| 0 <= k < |bindings| && bindings[k] == b;
      assert ids[k] == r.id;
      RoleIs(c, r);
      assert r in all;
      var kept :| kept in UniqueBy(RoleKey(), all) && RoleKey()(kept) == RoleKey()(r);
      RolesOfMembers(c, names, kept);
      RolesOfMembers(c, ids, kept);
      assert kept in c.roles;
    }
  }

  lemma PermissionsForMembers(c: Catalog, roles: seq<Role>, r: Role, p: Permission)
    requires WellFormed(c) && r in roles && p in c.permissions && p.id in r.permissions
    ensures Lookup(PermissionKey(), p.id, PermissionsFor(c, roles)).Some?
  {
    PermissionIs(c, p);
    RolePermissionsMembers(c, roles, p);
    UniqueByMembers(PermissionKey(), RolePermissions(c, roles));
    LookupFresh(PermissionKey(), p.id, PermissionsFor(c, roles));
  }

  lemma {:induction false} SomeBindingIs(c: Catalog, x: Context, p: Permission, resource: Resource, bindings: seq<RoleBinding>)
    ensures SomeBinding(c, x, p, resource, bindings).0
       <==> exists b :: b in bindings && Gives(c, x, p, b) && Covers(b.scope, resource)
  {
    if bindings != [] {
      QualifiesIs(c, x, p, bindings[0]);
      ScopeIs(bindings[0].scope, resource);
      SomeBindingIs(c, x, p, resource, bindings[1..]);
      assert bindings == [bindings[0]] + bindings[1..];
    }
  }

  /** On a context resolved from the same catalog, the binding check grants exactly when some active binding that
      reaches the actor gives it an active role with the permission and a matching scope. */
  lemma BindingCheckIs(c: Catalog, actor: Actor, missing: bool, unknown: Id, p: Permission, resource: Resource)
    requires WellFormed(c) && p in c.permissions
    ensures var x := ContextOf(c, actor, missing, unknown);
            BindingCheck(c, x, p, resource).0 <==> BindingGrants(c, actor, x.principal.id, p, resource)
  {
    var x := ContextOf(c, actor, missing, unknown);
    SomeBindingIs(c, x, p, resource, x.bindings);
    if BindingCheck(c, x, p, resource).0 {
      var b :| b in x.bindings && Gives(c, x, p, b) && Covers(b.scope, resource);
      BindingsForMembers(c, actor, x.principal, b);
      LookupFresh(RoleKey(), b.roleId, x.roles);
      var r := Lookup(RoleKey(), b.roleId, x.roles).value;
      RolesForMembers(c, actor.roles, x.bindings, r);
      RoleIs(c, r);
      assert Grants(c, actor, x.principal.id, p, resource, b, r);
    }
    if BindingGrants(c, actor, x.principal.id, p, resource) {
      var b, r :| Grants(c, actor, x.principal.id, p, resource, b, r);
      BindingsForMembers(c, actor, x.principal, b);
      RolesForMembers(c, actor.roles, x.bindings, r);
      RoleIs(c, r);
      LookupFresh(RoleKey(), b.roleId, x.roles);
      PermissionsForMembers(c, x.roles, r, p);
      assert Gives(c, x, p, b);
    }
  }

  ghost predicate Authenticated(c: Catalog, actorId: Id) {
    && GetActor(c, actorId).Some?
    && var actor := GetActor(c, actorId).value;
       actor.status == Active
       && GetPrincipal(c, actor.principalId).Some? && GetPrincipal(c, actor.principalId).value.status == PrincipalActive
  }

  /** The whole decision, for a context resolved from the same catalog: allowed exactly when actor and principal
      exist and are active, the action is registered, a binding grants it, and the policy does not apply or allows. */
  lemma AllowedExactly(policy: Policy, c: Catalog, actorId: Id, unknown: Id, action: string, resource: Resource, extra: string)
    requires WellFormed(c)
    ensures var r := Request(Resolve(c, actorId, unknown), action, resource, extra);
            (Evaluate(policy, c, r).0.allowed)
              <==> (&& Authenticated(c, actorId)
                    && GetPermission(c, action).Some?
                    && BindingGrants(c, GetActor(c, actorId).value, GetActor(c, actorId).value.principalId,
                                     GetPermission(c, action).value, resource)
                    && (policy.applies(action, resource.kind) ==> policy.evaluate(c, r).allowed))
  {
    var found, p := GetActor(c, actorId), GetPermission(c, action);
    if found.Some? {
      var principal := GetPrincipal(c, found.value.principalId);
      LookupFresh(PrincipalKey(), found.value.principalId, c.principals);
      assert principal.Some? ==> principal.value.id == found.value.principalId;
      if p.Some? {
        BindingCheckIs(c, found.value, false, unknown, p.value, resource);
      }
    }
  }

  // ----- what the check does not depend on -----

  /** The actor's direct role list plays no part in the binding check, and the check that some permission of the
      context has the id is implied by the binding test. */
  lemma DirectRolesAreIrrelevant(c: Catalog, actor: Actor, roles: seq<string>, missing: bool, unknown: Id, p: Permission, resource: Resource)
    requires WellFormed(c) && p in c.permissions
    ensures var x := ContextOf(c, actor, missing, unknown);
            var y := ContextOf(c, actor.(roles := roles), missing, unknown);
            && BindingCheck(c, x, p, resource).0 == BindingCheck(c, y, p, resource).0
            && BindingCheck(c, x, p, resource).0 == SomeBinding(c, x, p, resource, x.bindings).0
  {
    var x := ContextOf(c, actor, missing, unknown);
    BindingCheckIs(c, actor, missing, unknown, p, resource);
    BindingCheckIs(c, actor.(roles := roles), missing, unknown, p, resource);
    forall b | b in c.bindings
      ensures Reaches(c, actor, x.principal.id, b) <==> Reaches(c, actor.(roles := roles), x.principal.id, b)
    {
    }
    assert BindingGrants(c, actor, x.principal.id, p, resource)
      <==> BindingGrants(c, actor.(roles := roles), x.principal.id, p, resource) by {
      if b, r :| Grants(c, actor, x.principal.id, p, resource, b, r) {
        assert Grants(c, actor.(roles := roles), x.principal.id, p, resource, b, r);
      }
      if b, r :| Grants(c, actor.(roles := roles), x.principal.id, p, resource, b, r) {
        assert Grants(c, actor, x.principal.id, p, resource, b, r);
      }
    }
    FirstTestIsRedundant(c, actor, missing, unknown, p, resource);
  }

  lemma FirstTestIsRedundant(c: Catalog, actor: Actor, missing: bool, unknown: Id, p: Permission, resource: Resource)
    requires WellFormed(c) && p in c.permissions
    ensures var x := ContextOf(c, actor, missing, unknown);
            SomeBinding(c, x, p, resource, x.bindings).0 ==> Lookup(PermissionKey(), p.id, x.permissions).Some?
  {
    var x := ContextOf(c, actor, missing, unknown);
    SomeBindingIs(c, x, p, resource, x.bindings);
    if SomeBinding(c, x, p, resource, x.bindings).0 {
      var b :| b in x.bindings && Gives(c, x, p, b) && Covers(b.scope, resource);
      LookupFresh(RoleKey(), b.roleId, x.roles);
      var r := Lookup(RoleKey(), b.roleId, x.roles).value;
      RolesForMembers(c, actor.roles, x.bindings, r);
      RoleIs(c, r);
      PermissionsForMembers(c, x.roles, r, p);
    }
  }

  /** The binding check for an actor, on the context resolved from the catalog. */
  predicate Granted(c: Catalog, actor: Actor, missing: bool, unknown: Id, p: Permission, resource: Resource) {
    BindingCheck(c, ContextOf(c, actor, missing, unknown), p, resource).0
  }

  /** after has every binding and role that grants something before. */
  lemma GrantsCarryOver(c: Catalog, d: Catalog, actor: Actor, missing: bool, unknown: Id, p: Permission, resource: Resource)
    requires WellFormed(c) && WellFormed(d) && p in c.permissions && p in d.permissions
    requires c.principals == d.principals && c.teams == d.teams
    requires forall b :: b in c.bindings && b.status == Active ==> b in d.bindings
    requires forall r :: r in c.roles && r.status == Active ==> r in d.roles
    requires Granted(c, actor, missing, unknown, p, resource)
    ensures Granted(d, actor, missing, unknown, p, resource)
  {
    BindingCheckIs(c, actor, missing, unknown, p, resource);
    BindingCheckIs(d, actor, missing, unknown, p, resource);
    var principal := ContextOf(c, actor, missing, unknown).principal;
    assert ContextOf(d, actor, missing, unknown).principal == principal;
    BindingGrantsCarryOver(c, d, actor, principal.id, p, resource);
  }

  lemma BindingGrantsCarryOver(c: Catalog, d: Catalog, actor: Actor, principal: Id, p: Permission, resource: Resource)
    requires c.teams == d.teams
    requires forall b :: b in c.bindings && b.status == Active ==> b in d.bindings
    requires forall r :: r in c.roles && r.status == Active ==> r in d.roles
    requires BindingGrants(c, actor, principal, p, resource)
    ensures BindingGrants(d, actor, principal, p, resource)
  {
    var b, r :| Grants(c, actor, principal, p, resource, b, r);
    assert Reaches(d, actor, principal, b);
    assert Grants(d, actor, principal, p, resource, b, r);
  }

  /** Upserting a new binding never turns a grant into a denial. */
  lemma AddingABindingKeepsGrants(
    c: Catalog, b: RoleBinding, actor: Actor, missing: bool, unknown: Id, p: Permission, resource: Resource)
    requires WellFormed(c) && p in c.permissions && Keyed.Fresh(BindingKey(), b.id, c.bindings)
    requires Granted(c, actor, missing, unknown, p, resource)
    ensures Granted(c.(bindings := Upsert(BindingKey(), c.bindings, b)), actor, missing, unknown, p, resource)
  {
    UpsertMembers(BindingKey(), c.bindings, b);
    GrantsCarryOver(c, c.(bindings := Upsert(BindingKey(), c.bindings, b)), actor, missing, unknown, p, resource);
  }

  /** Disabling a binding never creates a grant. */
  lemma DisablingABindingCreatesNoGrant(
    c: Catalog, b: RoleBinding, actor: Actor, missing: bool, unknown: Id, p: Permission, resource: Resource)
    requires WellFormed(c) && p in c.permissions && b in c.bindings
    requires Granted(c.(bindings := Upsert(BindingKey(), c.bindings, b.(status := Disabled))), actor, missing, unknown, p, resource)
    ensures Granted(c, actor, missing, unknown, p, resource)
  {
    UpsertMembers(BindingKey(), c.bindings, b.(status := Disabled));
    GrantsCarryOver(c.(bindings := Upsert(BindingKey(), c.bindings, b.(status := Disabled))), c,
                    actor, missing, unknown, p, resource);
  }

  lemma DisabledRoleStaysWellFormed(c: Catalog, r: Role)
    requires WellFormed(c) && r in c.roles
    ensures var d := c.(roles := Upsert(RoleKey(), c.roles, r.(status := Disabled)));
            WellFormed(d) && forall q :: q in d.roles && q.status == Active ==> q in c.roles
  {
    UpsertMembers(RoleKey(), c.roles, r.(status := Disabled));
  }

  /** Disabling a role never creates a grant. */
  lemma DisablingARoleCreatesNoGrant(
    c: Catalog, r: Role, actor: Actor, missing: bool, unknown: Id, p: Permission, resource: Resource)
    requires WellFormed(c) && p in c.permissions && r in c.roles
    requires Granted(c.(roles := Upsert(RoleKey(), c.roles, r.(status := Disabled))), actor, missing, unknown, p, resource)
    ensures Granted(c, actor, missing, unknown, p, resource)
  {
    DisabledRoleStaysWellFormed(c, r);
    GrantsCarryOver(c.(roles := Upsert(RoleKey(), c.roles, r.(status := Disabled))), c, actor, missing, unknown, p, resource);
  }

  // ----- the audit log -----

  function QualifiesIn(c: Catalog, x: Context, p: Permission): RoleBinding -> bool {
    (b: RoleBinding) => Gives(c, x, p, b)
  }

  function InScope(resource: Resource): RoleBinding -> bool {
    (b: RoleBinding) => Covers(b.scope, resource)
  }

  function EventOf(x: Context, p: Permission, resource: Resource): RoleBinding -> AuditEvent {
    (b: RoleBinding) =>
      AuditEvent(BindingEvaluated, x.actor.id, x.principal.id, Some(p.action),
                 if Covers(b.scope, resource) then ResultAllowed else ResultDenied, OfBinding(b.id), None)
  }

  /** The bindings up to and including the first one in scope. */
  function UpToFirst(resource: Resource, bindings: seq<RoleBinding>): seq<RoleBinding> {
    var k := FirstIndex(InScope(resource), bindings);
    if k < |bindings| then bindings[..k + 1] else bindings
  }

  lemma UpToFirstCons(resource: Resource, b: RoleBinding, rest: seq<RoleBinding>)
    ensures UpToFirst(resource, [b] + rest)
         == if Covers(b.scope, resource) then [b] else [b] + UpToFirst(resource, rest)
  {
    var all := [b] + rest;
    assert all[1..] == rest;
    if !Covers(b.scope, resource) {
      var k := FirstIndex(InScope(resource), rest);
      assert FirstIndex(InScope(resource), all) == k + 1;
      assert k < |rest| ==> all[..k + 2] == [b] + rest[..k + 1];
    } else {
      assert FirstIndex(InScope(resource), all) == 0;
    }
  }

  lemma MapCons<A, B>(f: A -> B, x: A, s: seq<A>)
    ensures Map(f, [x] + s) == [f(x)] + Map(f, s)
  {
    assert ([x] + s)[1..] == s;
  }

  /** The binding check records one event for each qualifying binding, up to and including the first in scope, and
      grants exactly when there is one in scope. */
  lemma {:induction false} EventsUpToFirstMatch(c: Catalog, x: Context, p: Permission, resource: Resource, bindings: seq<RoleBinding>)
    ensures var qualifying := Filter(QualifiesIn(c, x, p), bindings);
            && SomeBinding(c, x, p, resource, bindings).0 == Find(InScope(resource), qualifying).Some?
            && SomeBinding(c, x, p, resource, bindings).1 == Map(EventOf(x, p, resource), UpToFirst(resource, qualifying))
  {
    if bindings != [] {
      var b, rest := bindings[0], bindings[1..];
      EventsUpToFirstMatch(c, x, p, resource, rest);
      QualifiesIs(c, x, p, b);
      ScopeIs(b.scope, resource);
      if Gives(c, x, p, b) {
        var q, f := Filter(QualifiesIn(c, x, p), rest), EventOf(x, p, resource);
        UpToFirstCons(resource, b, q);
        MapCons(f, b, UpToFirst(resource, q));
        MapCons(f, b, []);
        assert [b] + [] == [b];
        assert ([b] + q)[1..] == q;
      }
    }
  }

  predicate IsFinal(e: AuditEvent) {
    e.kind == AuthorizationAllowed || e.kind == AuthorizationDenied
  }

  function Finals(events: seq<AuditEvent>): nat {
    if events == [] then 0 else (if IsFinal(events[0]) then 1 else 0) + Finals(events[1..])
  }

  function Alloweds(events: seq<AuditEvent>): nat {
    if events == [] then 0 else (if events[0].kind == AuthorizationAllowed then 1 else 0) + Alloweds(events[1..])
  }

  lemma {:induction false} CountsAppend(s: seq<AuditEvent>, t: seq<AuditEvent>)
    ensures Finals(s + t) == Finals(s) + Finals(t) && Alloweds(s + t) == Alloweds(s) + Alloweds(t)
  {
    if s == [] {
      assert s + t == t;
    } else {
      assert (s + t)[1..] == s[1..] + t;
      CountsAppend(s[1..], t);
    }
  }

  lemma {:induction false} NoFinals(events: seq<AuditEvent>)
    requires forall e :: e in events ==> !IsFinal(e)
    ensures Finals(events) == 0 && Alloweds(events) == 0
  {
    if events != [] {
      assert events[0] in events;
      NoFinals(events[1..]);
    }
  }

  lemma {:induction false} BindingEventsAreNotFinal(c: Catalog, x: Context, p: Permission, resource: Resource, bindings: seq<RoleBinding>)
    ensures forall e :: e in SomeBinding(c, x, p, resource, bindings).1 ==> e.kind == BindingEvaluated
  {
    if bindings != [] {
      BindingEventsAreNotFinal(c, x, p, resource, bindings[1..]);
    }
  }

  /** One check appends exactly one final event, the last one; it says what the decision says. */
  lemma OneFinalEvent(policy: Policy, c: Catalog, r: Request)
    ensures var (decision, before) := Evaluate(policy, c, r);
            && (forall e :: e in before ==> e.kind == BindingEvaluated)
            && Finals(before + [decision.event]) == 1
            && Alloweds(before + [decision.event]) == (if decision.allowed then 1 else 0)
            && decision.event.kind == (if decision.allowed then AuthorizationAllowed else AuthorizationDenied)
            && decision.event.result == (if decision.allowed then ResultAllowed else ResultDenied)
            && (decision.event.reason == decision.reason <==> !decision.allowed)
            && (decision.allowed ==> decision.reason == PlainlyAllowed && decision.event.reason == RbacAndPolicyAllowed)
            && decision.event.action == Some(r.action)
  {
    var (decision, before) := Evaluate(policy, c, r);
    var p := GetPermission(c, r.action);
    if p.Some? {
      BindingEventsAreNotFinal(c, r.context, p.value, r.resource, r.context.bindings);
    }
    assert forall e :: e in before ==> !IsFinal(e);
    NoFinals(before);
    CountsAppend(before, [decision.event]);
  }

  datatype Call =
    | ResolveCall(actorId: Id, unknown: Id)
    | CheckCall(request: Request)
    | PutBinding(binding: RoleBinding)
    | PutRole(role: Role)

  datatype AuthState = AuthState(catalog: Catalog, events: seq<AuditEvent>)

  function CallOnce(policy: Policy, s: AuthState, call: Call): AuthState {
    match call
    case ResolveCall(actorId, unknown) =>
      s.(events := s.events + ResolutionEvents(Resolve(s.catalog, actorId, unknown), GetActor(s.catalog, actorId).None?))
    case CheckCall(r) =>
      var (decision, before) := Evaluate(policy, s.catalog, r);
      s.(events := s.events + before + [decision.event])
    case PutBinding(b) => s.(catalog := s.catalog.(bindings := Upsert(BindingKey(), s.catalog.bindings, b)))
    case PutRole(r) => s.(catalog := s.catalog.(roles := Upsert(RoleKey(), s.catalog.roles, r)))
  }

  function CallAll(policy: Policy, s: AuthState, calls: seq<Call>): AuthState
    decreases |calls|
  {
    if calls == [] then s else CallAll(policy, CallOnce(policy, s, calls[0]), calls[1..])
  }

  function Checks(calls: seq<Call>): nat {
    if calls == [] then 0 else (if calls[0].CheckCall? then 1 else 0) + Checks(calls[1..])
  }

  function AllowedChecks(policy: Policy, s: AuthState, calls: seq<Call>): nat
    decreases |calls|
  {
    if calls == [] then 0
    else
      (if calls[0].CheckCall? && Evaluate(policy, s.catalog, calls[0].request).0.allowed then 1 else 0)
      + AllowedChecks(policy, CallOnce(policy, s, calls[0]), calls[1..])
  }

  lemma CheckCounts(policy: Policy, s: AuthState, r: Request)
    ensures var t := CallOnce(policy, s, CheckCall(r));
            && Finals(t.events) == Finals(s.events) + 1
            && Alloweds(t.events) == Alloweds(s.events) + (if Evaluate(policy, s.catalog, r).0.allowed then 1 else 0)
  {
    OneFinalEvent(policy, s.catalog, r);
    var (decision, before) := Evaluate(policy, s.catalog, r);
    var added := before + [decision.event];
    assert s.events + before + [decision.event] == s.events + added;
    CountsAppend(s.events, added);
  }

  lemma NothingFinalAdded(events: seq<AuditEvent>, added: seq<AuditEvent>)
    requires forall e :: e in added ==> !IsFinal(e)
    ensures Finals(events + added) == Finals(events) && Alloweds(events + added) == Alloweds(events)
  {
    NoFinals(added);
    CountsAppend(events, added);
  }

  lemma ResolutionIsNotFinal(context: Context, missing: bool)
    ensures forall e :: e in ResolutionEvents(context, missing) ==> !IsFinal(e)
  {
  }

  lemma ResolutionCounts(policy: Policy, s: AuthState, actorId: Id, unknown: Id)
    ensures var t := CallOnce(policy, s, ResolveCall(actorId, unknown));
            Finals(t.events) == Finals(s.events) && Alloweds(t.events) == Alloweds(s.events)
  {
    var context, missing := Resolve(s.catalog, actorId, unknown), GetActor(s.catalog, actorId).None?;
    ResolutionIsNotFinal(context, missing);
    NothingFinalAdded(s.events, ResolutionEvents(context, missing));
  }

  lemma OneCallCounts(policy: Policy, s: AuthState, call: Call)
    ensures var t := CallOnce(policy, s, call);
            && Finals(t.events) == Finals(s.events) + (if call.CheckCall? then 1 else 0)
            && Alloweds(t.events) == Alloweds(s.events)
                 + (if call.CheckCall? && Evaluate(policy, s.catalog, call.request).0.allowed then 1 else 0)
  {
    match call
    case ResolveCall(actorId, unknown) => ResolutionCounts(policy, s, actorId, unknown);
    case CheckCall(r) => CheckCounts(policy, s, r);
    case _ =>
  }

  /** Over any run of resolutions, checks and upserts, the log gains one final event per check, and one
      allowed event per allowed check. */
  lemma {:induction false} EveryCheckIsLogged(policy: Policy, s: AuthState, calls: seq<Call>)
    ensures Finals(CallAll(policy, s, calls).events) == Finals(s.events) + Checks(calls)
    ensures Alloweds(CallAll(policy, s, calls).events) == Alloweds(s.events) + AllowedChecks(policy, s, calls)
    decreases |calls|
  {
    if calls != [] {
      OneCallCounts(policy, s, calls[0]);
      EveryCheckIsLogged(policy, CallOnce(policy, s, calls[0]), calls[1..]);
    }
  }
}
