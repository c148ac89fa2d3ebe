/** What a check decides and says, and what it resolves an actor to, in the fields of the catalog and the request
    (packages/auth/src/service.ts:153-303, packages/auth/src/providers.ts:77-150). */
module AuthMeaning {
  import opened Sequences
  import opened Keyed
  import opened AuthCatalog
  import opened AuthService
  import opened AuthTheorems

  // ----- the decision -----

  /** The context names the permission, and one of its bindings gives it for what is asked. */
  ghost predicate Permits(c: Catalog, x: Context, p: Permission, resource: Resource) {
    && (exists q :: q in x.permissions && q.id == p.id)
    && exists b :: b in x.bindings && Gives(c, x, p, b) && Covers(b.scope, resource)
  }

  lemma CheckIs(c: Catalog, x: Context, p: Permission, resource: Resource)
    ensures BindingCheck(c, x, p, resource).0 <==> Permits(c, x, p, resource)
  {
    LookupFresh(PermissionKey(), p.id, x.permissions);
    SomeBindingIs(c, x, p, resource, x.bindings);
  }

  predicate Identified(x: Context) {
    x.authenticated && x.actor.status == Active && x.principal.status == PrincipalActive
  }

  /** Which answer a check gives, for any context: the first test that fails names the reason. */
  lemma ReasonsExactly(policy: Policy, c: Catalog, r: Request)
    ensures var d, p := Evaluate(policy, c, r).0, GetPermission(c, r.action);
            var known := Identified(r.context) && p.Some?;
            var permits := known && Permits(c, r.context, p.value, r.resource);
            var refused := policy.applies(r.action, r.resource.kind) && !policy.evaluate(c, r).allowed;
            && (d.reason == NotAuthenticated <==> !Identified(r.context))
            && (d.reason == NotRegistered(r.action) <==> Identified(r.context) && p.None?)
            && (d.reason == PermissionDenied(r.action) <==> known && !permits)
            && (d.reason == PolicyDenied(policy.evaluate(c, r).reason) <==> permits && refused)
            && (d.reason == PlainlyAllowed <==> permits && !refused)
            && (d.allowed <==> permits && !refused)
  {
    var p := GetPermission(c, r.action);
    if p.Some? {
      CheckIs(c, r.context, p.value, r.resource);
    }
  }

  /** What comes with the answer: the permission that was required, the policy's decision exactly when it was asked, and an
      event that names the actor, the principal and the action. */
  lemma DecisionCarries(policy: Policy, c: Catalog, r: Request)
    ensures var d, p := Evaluate(policy, c, r).0, GetPermission(c, r.action);
            var asked := Identified(r.context) && p.Some? && Permits(c, r.context, p.value, r.resource)
                         && policy.applies(r.action, r.resource.kind);
            && d.requiredPermission == (if p.Some? then p.value.action else r.action)
            && d.policy == (if asked then Some(policy.evaluate(c, r)) else None)
            && d.event.policyDecisionId == (if asked then Some(policy.evaluate(c, r).id) else None)
            && d.event.actorId == r.context.actor.id && d.event.principalId == r.context.principal.id
            && d.event.action == Some(r.action)
            && (d.event.kind == AuthorizationAllowed <==> d.allowed) && (d.event.kind == AuthorizationDenied <==> !d.allowed)
            && (d.event.result == ResultAllowed <==> d.allowed) && (d.event.result == ResultDenied <==> !d.allowed)
            && d.event.reason == (if d.allowed then RbacAndPolicyAllowed else d.reason)
  {
    var p := GetPermission(c, r.action);
    if p.Some? {
      CheckIs(c, r.context, p.value, r.resource);
    }
  }

  /** An active binding that reaches the actor and gives it an active role with the permission, whatever its scope. */
  ghost predicate Holds(c: Catalog, actor: Actor, p: Permission, b: RoleBinding) {
    && b in c.bindings && b.status == Active && Reaches(c, actor, actor.principalId, b)
    && exists r :: r in c.roles && r.id == b.roleId && r.status == Active && p.id in r.permissions
  }

  /** The scope rule at the check, for a known actor and a registered action: it is refused for lack of permission exactly
      when every such binding is neither global, nor of the target's kind without an id, nor of its kind with its id. */
  lemma RefusedByScopeExactly(policy: Policy, c: Catalog, actorId: Id, unknown: Id, action: string, resource: Resource, extra: string)
    requires WellFormed(c) && Authenticated(c, actorId) && GetPermission(c, action).Some?
    ensures var actor, p := GetActor(c, actorId).value, GetPermission(c, action).value;
            var kind := if resource.scope.Some? then resource.scope.value.kind else resource.kind;
            var id := if resource.scope.Some? then resource.scope.value.scopeId else resource.id;
            (Evaluate(policy, c, Request(Resolve(c, actorId, unknown), action, resource, extra)).0.reason == PermissionDenied(action))
              <==> forall b :: Holds(c, actor, p, b) ==>
                     && b.scope.kind != "global"
                     && !(b.scope.kind == kind && b.scope.scopeId == None)
                     && !(b.scope.kind == kind && b.scope.scopeId == id)
  {
    var r := Request(Resolve(c, actorId, unknown), action, resource, extra);
    var actor, p := GetActor(c, actorId).value, GetPermission(c, action).value;
    ReasonsExactly(policy, c, r);
    CheckIs(c, r.context, p, resource);
    LookupFresh(PrincipalKey(), actor.principalId, c.principals);
    BindingCheckIs(c, actor, false, unknown, p, resource);
    HoldersGrant(c, actor, p, resource);
  }

  lemma HoldersGrant(c: Catalog, actor: Actor, p: Permission, resource: Resource)
    ensures BindingGrants(c, actor, actor.principalId, p, resource)
       <==> exists b :: Holds(c, actor, p, b) && Covers(b.scope, resource)
  {
    if b, r :| Grants(c, actor, actor.principalId, p, resource, b, r) {
      assert Holds(c, actor, p, b) && Covers(b.scope, resource);
    }
    if b :| Holds(c, actor, p, b) && Covers(b.scope, resource) {
      var r :| r in c.roles && r.id == b.roleId && r.status == Active && p.id in r.permissions;
      assert Grants(c, actor, actor.principalId, p, resource, b, r);
    }
  }

  /** A binding with an id never covers another one: when all that the actor holds is for other ids, the check is denied. */
  lemma OtherIdsAreDenied(policy: Policy, c: Catalog, actorId: Id, unknown: Id, action: string, resource: Resource, extra: string)
    requires WellFormed(c) && Authenticated(c, actorId) && GetPermission(c, action).Some?
    requires forall b :: Holds(c, GetActor(c, actorId).value, GetPermission(c, action).value, b) ==>
               && b.scope.kind != "global" && b.scope.scopeId.Some?
               && b.scope.scopeId != if resource.scope.Some? then resource.scope.value.scopeId else resource.id
    ensures !Evaluate(policy, c, Request(Resolve(c, actorId, unknown), action, resource, extra)).0.allowed
  {
    RefusedByScopeExactly(policy, c, actorId, unknown, action, resource, extra);
    ReasonsExactly(policy, c, Request(Resolve(c, actorId, unknown), action, resource, extra));
  }

  /** A requested scope hides the resource: its own kind and id then play no part, in the verdict or in the events. */
  lemma {:induction false} RequestedScopeHides(
    c: Catalog, x: Context, p: Permission, scope: Scope, a: Resource, b: Resource, bindings: seq<RoleBinding>)
    requires a.scope == Some(scope) && b.scope == Some(scope)
    ensures SomeBinding(c, x, p, a, bindings) == SomeBinding(c, x, p, b, bindings)
  {
    if bindings != [] {
      ScopeIs(bindings[0].scope, a);
      ScopeIs(bindings[0].scope, b);
      RequestedScopeHides(c, x, p, scope, a, b, bindings[1..]);
    }
  }

  // ----- the lookups by id or name -----

  /** x is the first of the list for which p holds. */
  ghost predicate IsFirst<T(!new)>(p: T -> bool, s: seq<T>, x: T) {
    exists i :: 0 <= i < |s| && s[i] == x && p(x) && forall j :: 0 <= j < i ==> !p(s[j])
  }

  lemma FindIsFirst<T(!new)>(p: T -> bool, q: T -> bool, s: seq<T>, x: T)
    requires forall y :: p(y) == q(y)
    ensures Find(p, s) == Some(x) <==> IsFirst(q, s, x)
  {
    var k := FirstIndex(p, s);
    if k < |s| {
      assert s[k] == s[k] && q(s[k]);
    }
    if IsFirst(q, s, x) {
      var i :| 0 <= i < |s| && s[i] == x && q(x) && forall j :: 0 <= j < i ==> !q(s[j]);
      assert !(k < i) && !(i < k);
    }
  }

  /** Principals and actors are found by id; teams and roles by id or name, permissions by id or action; the first one
      counts. */
  lemma LookupsFindFirst(c: Catalog, key: string, principal: Principal, actor: Actor, team: Team, role: Role, permission: Permission)
    ensures GetPrincipal(c, key) == Some(principal) <==> IsFirst((y: Principal) => y.id == key, c.principals, principal)
    ensures GetActor(c, key) == Some(actor) <==> IsFirst((y: Actor) => y.id == key, c.actors, actor)
    ensures GetTeam(c, key) == Some(team) <==> IsFirst((y: Team) => y.id == key || y.name == key, c.teams, team)
    ensures GetRole(c, key) == Some(role) <==> IsFirst((y: Role) => y.id == key || y.name == key, c.roles, role)
    ensures GetPermission(c, key) == Some(permission)
       <==> IsFirst((y: Permission) => y.id == key || y.action == key, c.permissions, permission)
  {
    FindIsFirst(WithKey(PrincipalKey(), key), (y: Principal) => y.id == key, c.principals, principal);
    FindIsFirst(WithKey(ActorKey(), key), (y: Actor) => y.id == key, c.actors, actor);
    FindIsFirst(TeamNamed(key), (y: Team) => y.id == key || y.name == key, c.teams, team);
    FindIsFirst(RoleNamed(key), (y: Role) => y.id == key || y.name == key, c.roles, role);
    FindIsFirst(PermissionNamed(key), (y: Permission) => y.id == key || y.action == key, c.permissions, permission);
  }

  // ----- the context -----

  /** Whom a request is resolved to: the actor with the id, or a disabled stand-in without roles and teams; its principal, or
      a disabled one; authenticated exactly when both are in the catalog and active. */
  lemma IdentityIs(c: Catalog, actorId: Id, unknown: Id)
    ensures var x := Resolve(c, actorId, unknown);
            && (forall a :: GetActor(c, actorId) == Some(a) ==> x.actor == a)
            && (GetActor(c, actorId).None? ==>
                  && x.actor.id == actorId && x.actor.principalId == unknown && x.actor.kind == AnonymousMock
                  && x.actor.roles == [] && x.actor.teams == [] && x.actor.status == Disabled)
            && (forall p :: GetPrincipal(c, x.actor.principalId) == Some(p) ==> x.principal == p)
            && (GetPrincipal(c, x.actor.principalId).None? ==> x.principal.id == unknown && x.principal.status == PrincipalDisabled)
            && (x.authenticated <==> Authenticated(c, actorId))
            && (x.authenticated ==> Identified(x))
  {
  }

  lemma RolesAre(c: Catalog, names: seq<string>, bindings: seq<RoleBinding>, r: Role)
    requires WellFormed(c)
    ensures r in RolesFor(c, names, bindings)
       <==> r in c.roles && r.status == Active
            && ((exists n :: n in names && Named(r, n))
                || exists b :: b in bindings && Named(r, b.roleId))
  {
    var ids := Map(RoleIdOf(), bindings);
    var all := RolesOf(c, names) + RolesOf(c, ids);
    UniqueByMembers(RoleKey(), all);
    FilterMembers(ActiveRole(), UniqueBy(RoleKey(), all));
    NamedRoles(c, names, r);
    NamedRoles(c, ids, r);
    RoleIdsOf(bindings, r);
    if r in all {
      var kept :| kept in UniqueBy(RoleKey(), all) && RoleKey()(kept) == RoleKey()(r);
      NamedRoles(c, names, kept);
      NamedRoles(c, ids, kept);
      assert kept in c.roles;
    }
  }

  lemma NamedRoles(c: Catalog, names: seq<string>, r: Role)
    requires WellFormed(c)
    ensures r in RolesOf(c, names) <==> r in c.roles && exists n :: n in names && Named(r, n)
  {
    RolesOfMembers(c, names, r);
    if r in c.roles {
      RoleIs(c, r);
    }
  }

  /** The role has the name or id. */
  predicate Named(r: Role, n: string) {
    r.id == n || r.name == n
  }

  lemma RoleIdsOf(bindings: seq<RoleBinding>, r: Role)
    ensures (exists n :: n in Map(RoleIdOf(), bindings) && Named(r, n)) <==> exists b :: b in bindings && Named(r, b.roleId)
  {
    var ids := Map(RoleIdOf(), bindings);
    if exists n :: n in ids && Named(r, n) {
      var n :| n in ids && Named(r, n);
      var k :| 0 <= k < |ids| && ids[k] == n;
      assert bindings[k] in bindings;
    }
    if exists b :: b in bindings && Named(r, b.roleId) {
      var b :| b in bindings && Named(r, b.roleId);
      var k :| 0 <= k < |bindings| && bindings[k] == b;
      assert ids[k] in ids;
    }
  }

  lemma PermissionsAre(c: Catalog, roles: seq<Role>, p: Permission)
    requires WellFormed(c)
    ensures p in PermissionsFor(c, roles)
       <==> p in c.permissions && exists r, i :: r in roles && i in r.permissions && (p.id == i || p.action == i)
  {
    UniqueByMembers(PermissionKey(), RolePermissions(c, roles));
    NamedPermissions(c, roles, p);
    if p in RolePermissions(c, roles) {
      var kept :| kept in PermissionsFor(c, roles) && PermissionKey()(kept) == PermissionKey()(p);
      NamedPermissions(c, roles, kept);
    }
  }

  lemma NamedPermissions(c: Catalog, roles: seq<Role>, p: Permission)
    requires WellFormed(c)
    ensures p in RolePermissions(c, roles)
       <==> p in c.permissions && exists r, i :: r in roles && i in r.permissions && (p.id == i || p.action == i)
  {
    RolePermissionsMembers(c, roles, p);
    if r, i :| r in roles && i in r.permissions && GetPermission(c, i) == Some(p) {
      assert PermissionNamed(i)(p);
    }
    if p in c.permissions && exists r, i :: r in roles && i in r.permissions && (p.id == i || p.action == i) {
      var r, i :| r in roles && i in r.permissions && (p.id == i || p.action == i);
      PermissionIs(c, p);
      assert GetPermission(c, i) == Some(p);
    }
  }

  /** What the context of an actor holds: its teams, the active bindings that reach it, the active roles it or a binding
      names, and the permissions those roles name. */
  lemma ContextHolds(c: Catalog, actorId: Id, unknown: Id, t: Team, b: RoleBinding, r: Role, p: Permission)
    requires WellFormed(c)
    ensures var x := Resolve(c, actorId, unknown);
            && (t in x.teams <==> exists n :: n in x.actor.teams && GetTeam(c, n) == Some(t))
            && (b in x.bindings <==> b in c.bindings && b.status == Active && Reaches(c, x.actor, x.principal.id, b))
            && (r in x.roles <==> r in c.roles && r.status == Active
                                  && ((exists n :: n in x.actor.roles && Named(r, n))
                                      || exists d :: d in x.bindings && Named(r, d.roleId)))
            && (p in x.permissions <==> p in c.permissions
                                        && exists q, i :: q in x.roles && i in q.permissions && (p.id == i || p.action == i))
  {
    var x := Resolve(c, actorId, unknown);
    TeamsOfMembers(c, x.actor.teams, t);
    BindingsForMembers(c, x.actor, x.principal, b);
    RolesAre(c, x.actor.roles, x.bindings, r);
    PermissionsAre(c, x.roles, p);
  }

  /** An event of resolving: of the actor and its principal, without an action or a policy decision. */
  predicate Resolving(e: AuditEvent, x: Context, kind: EventKind, result: AuditResult, reason: string) {
    && e.kind == kind && e.result == result && e.reason == ContextReason(reason)
    && e.actorId == x.actor.id && e.principalId == x.principal.id && e.action.None? && e.policyDecisionId.None?
  }

  /** What resolving records: for a missing actor one event that says so; for any other one that it was resolved, one that it
      is a mock actor and, for a service account, whether it may act. */
  lemma ResolutionRecords(c: Catalog, actorId: Id, unknown: Id)
    ensures var x, found := Resolve(c, actorId, unknown), GetActor(c, actorId);
            var events := ResolutionEvents(x, found.None?);
            if found.None? then
              |events| == 1 && Resolving(events[0], x, ContextMissing, ResultMissing, "actor_not_found")
            else
              && |events| == (if found.value.kind == ServiceAccountActor then 3 else 2)
              && Resolving(events[0], x, ContextResolved, ResultResolved, "mock_auth_context_resolved")
              && Resolving(events[1], x, MockActorUsed, ResultResolved, "MockAuthProvider is default and is not production auth.")
              && (|events| == 3 && Authenticated(c, actorId) ==>
                    Resolving(events[2], x, ServiceAccountUsed, ResultResolved, "service_account_context_resolved"))
              && (|events| == 3 && !Authenticated(c, actorId) ==>
                    Resolving(events[2], x, ServiceAccountUsed, ResultDenied, "service_account_disabled_or_missing"))
  {
    var x := Resolve(c, actorId, unknown);
    IdentityIs(c, actorId, unknown);
    if GetActor(c, actorId).Some? {
      assert x.actor == GetActor(c, actorId).value;
      FoundRecords(x);
    }
  }

  lemma FoundRecords(x: Context)
    ensures var events := ResolutionEvents(x, false);
            && |events| == (if x.actor.kind == ServiceAccountActor then 3 else 2)
            && Resolving(events[0], x, ContextResolved, ResultResolved, "mock_auth_context_resolved")
            && Resolving(events[1], x, MockActorUsed, ResultResolved, "MockAuthProvider is default and is not production auth.")
            && (|events| == 3 ==>
                  if x.authenticated then Resolving(events[2], x, ServiceAccountUsed, ResultResolved, "service_account_context_resolved")
                  else Resolving(events[2], x, ServiceAccountUsed, ResultDenied, "service_account_disabled_or_missing"))
  {
  }
}
