/** AuthorizationService.evaluate and the audit events it appends while deciding (packages/auth/src/service.ts:153-303). */
module AuthService {
  import opened Sequences
  import opened Keyed
  import opened AuthCatalog

  datatype Resource = Resource(kind: string, id: Option<Id>, scope: Option<Scope>)

  /** A check; the policy context of the request is carried along for the policy only. */
  datatype Request = Request(context: Context, action: string, resource: Resource, policyContext: string)

  datatype PolicyDecision = PolicyDecision(id: Id, allowed: bool, reason: string)

  /** The policy engine: whether it knows the action and resource kind, and what it decides. */
  datatype Policy = Policy(applies: (string, string) -> bool, evaluate: (Catalog, Request) -> PolicyDecision)

  /** An allowed check answers "allowed" and logs "rbac_and_policy_allowed". */
  datatype Reason =
    | NotAuthenticated
    | NotRegistered(action: string)
    | PermissionDenied(action: string)
    | PolicyDenied(why: string)
    | RbacAndPolicyAllowed
    | PlainlyAllowed
    | OfBinding(binding: Id)
    | ContextReason(text: string)

  datatype EventKind =
    | ContextResolved | ContextMissing | MockActorUsed | ServiceAccountUsed
    | BindingEvaluated | AuthorizationAllowed | AuthorizationDenied

  datatype AuditResult = ResultAllowed | ResultDenied | ResultResolved | ResultMissing

  datatype AuditEvent = AuditEvent(
    kind: EventKind, actorId: Id, principalId: Id, action: Option<string>, result: AuditResult, reason: Reason,
    policyDecisionId: Option<Id>)

  datatype Decision = Decision(
    allowed: bool, reason: Reason, requiredPermission: string, policy: Option<PolicyDecision>, event: AuditEvent)

  predicate ScopeMatches(binding: Scope, resource: Resource) {
    if binding.kind == "global" then true
    else if resource.scope.Some? then
      binding.kind == resource.scope.value.kind
      && (binding.scopeId.None? || binding.scopeId == resource.scope.value.scopeId)
    else
      binding.kind == resource.kind && (binding.scopeId.None? || binding.scopeId == resource.id)
  }

  /** What the loop checks before it records an evaluation of the binding. */
  predicate Qualifies(c: Catalog, context: Context, permission: Permission, b: RoleBinding) {
    && b.status == Active
    && Lookup(RoleKey(), b.roleId, context.roles).Some?
    && GetRole(c, b.roleId).Some?
    && permission.id in GetRole(c, b.roleId).value.permissions
  }

  function EventFor(context: Context, permission: Permission, resource: Resource, b: RoleBinding): AuditEvent {
    AuditEvent(BindingEvaluated, context.actor.id, context.principal.id, Some(permission.action),
               if ScopeMatches(b.scope, resource) then ResultAllowed else ResultDenied, OfBinding(b.id), None)
  }

  /** The short-circuiting `some` over the bindings: the verdict and the events appended on the way. */
  function SomeBinding(c: Catalog, context: Context, permission: Permission, resource: Resource, bindings: seq<RoleBinding>)
    : (bool, seq<AuditEvent>)
  {
    if bindings == [] then (false, [])
    else if !Qualifies(c, context, permission, bindings[0]) then
      SomeBinding(c, context, permission, resource, bindings[1..])
    else
      var event := EventFor(context, permission, resource, bindings[0]);
      if ScopeMatches(bindings[0].scope, resource) then (true, [event])
      else
        var rest := SomeBinding(c, context, permission, resource, bindings[1..]);
        (rest.0, [event] + rest.1)
  }

  function BindingCheck(c: Catalog, context: Context, permission: Permission, resource: Resource): (bool, seq<AuditEvent>) {
    if Lookup(PermissionKey(), permission.id, context.permissions).None? then (false, [])
    else SomeBinding(c, context, permission, resource, context.bindings)
  }

  function Deny(r: Request, reason: Reason, permission: Option<Permission>, policy: Option<PolicyDecision>): Decision {
    Decision(false, reason, if permission.Some? then permission.value.action else r.action, policy,
             AuditEvent(AuthorizationDenied, r.context.actor.id, r.context.principal.id, Some(r.action), ResultDenied, reason,
                        if policy.Some? then Some(policy.value.id) else None))
  }

  function Allow(r: Request, permission: Permission, policy: Option<PolicyDecision>): Decision {
    Decision(true, PlainlyAllowed, permission.action, policy,
             AuditEvent(AuthorizationAllowed, r.context.actor.id, r.context.principal.id, Some(r.action), ResultAllowed,
                        RbacAndPolicyAllowed, if policy.Some? then Some(policy.value.id) else None))
  }

  function AfterBinding(policy: Policy, c: Catalog, r: Request, permission: Permission): Decision {
    if policy.applies(r.action, r.resource.kind) then
      var p := policy.evaluate(c, r);
      if !p.allowed then Deny(r, PolicyDenied(p.reason), Some(permission), Some(p)) else Allow(r, permission, Some(p))
    else Allow(r, permission, None)
  }

  /** evaluate: the decision, and the events appended before its own. */
  function Evaluate(policy: Policy, c: Catalog, r: Request): (Decision, seq<AuditEvent>) {
    var permission := GetPermission(c, r.action);
    if !r.context.authenticated || r.context.actor.status != Active || r.context.principal.status != PrincipalActive then
      (Deny(r, NotAuthenticated, permission, None), [])
    else if permission.None? then (Deny(r, NotRegistered(r.action), None, None), [])
    else
      var check := BindingCheck(c, r.context, permission.value, r.resource);
      if !check.0 then (Deny(r, PermissionDenied(r.action), permission, None), check.1)
      else (AfterBinding(policy, c, r, permission.value), check.1)
  }

  /** The events of resolveAuthContext. */
  function ResolutionEvents(context: Context, missing: bool): seq<AuditEvent> {
    [AuditEvent(if missing then ContextMissing else ContextResolved, context.actor.id, context.principal.id, None,
                if missing then ResultMissing else ResultResolved,
                ContextReason(if missing then "actor_not_found" else "mock_auth_context_resolved"), None)]
    + (if missing then []
       else [AuditEvent(MockActorUsed, context.actor.id, context.principal.id, None, ResultResolved,
                        ContextReason("MockAuthProvider is default and is not production auth."), None)])
    + (if context.actor.kind != ServiceAccountActor then []
       else [AuditEvent(ServiceAccountUsed, context.actor.id, context.principal.id, None,
                        if context.authenticated then ResultResolved else ResultDenied,
                        ContextReason(if context.authenticated then "service_account_context_resolved"
                                      else "service_account_disabled_or_missing"), None)])
  }

  // ----- the repository and the service over it -----

  class AuthServer {
    const policy: Policy
    var catalog: Catalog
    var events: seq<AuditEvent>

    constructor (policy: Policy, catalog: Catalog)
      ensures this.policy == policy && this.catalog == catalog && events == []
    {
      this.policy, this.catalog, this.events := policy, catalog, [];
    }

    method RecordAuthAuditEvent(event: AuditEvent)
      modifies this`events
      ensures events == old(events) + [event]
    {
      events := events + [event];
    }

    method UpsertRoleBinding(b: RoleBinding)
      modifies this`catalog
      ensures catalog == old(catalog).(bindings := Upsert(BindingKey(), old(catalog).bindings, b))
    {
      var i := FirstIndex(WithKey(BindingKey(), b.id), catalog.bindings);
      if i < |catalog.bindings| {
        catalog := catalog.(bindings := catalog.bindings[i := b]);
      } else {
        catalog := catalog.(bindings := catalog.bindings + [b]);
      }
    }

    method UpsertRole(r: Role)
      modifies this`catalog
      ensures catalog == old(catalog).(roles := Upsert(RoleKey(), old(catalog).roles, r))
    {
      var i := FirstIndex(WithKey(RoleKey(), r.id), catalog.roles);
      if i < |catalog.roles| {
        catalog := catalog.(roles := catalog.roles[i := r]);
      } else {
        catalog := catalog.(roles := catalog.roles + [r]);
      }
    }

    method ResolveAuthContext(actorId: Id, unknown: Id) returns (context: Context)
      modifies this`events
      ensures context == Resolve(catalog, actorId, unknown)
      ensures events == old(events) + ResolutionEvents(context, GetActor(catalog, actorId).None?)
    {
      var found := GetActor(catalog, actorId);
      var actor := found.GetOr(UnknownActor(actorId, unknown));
      var principal := GetPrincipal(catalog, actor.principalId).GetOr(Principal(unknown, PrincipalDisabled));
      var teams := TeamsOf(catalog, actor.teams);
      var unique := UniqueByLoop(BindingKey(), Filter(BoundToPrincipal(principal.id), catalog.bindings) + TeamBindings(catalog, teams));
      var bindings := Filter(ActiveBinding(), unique);
      var namedRoles := UniqueByLoop(RoleKey(), RolesOf(catalog, actor.roles) + RolesOf(catalog, Map(RoleIdOf(), bindings)));
      var roles := Filter(ActiveRole(), namedRoles);
      var permissions := UniqueByLoop(PermissionKey(), RolePermissions(catalog, roles));
      var authenticated := found.Some? && actor.status == Active && principal.status == PrincipalActive;
      context := Context(actor, principal, teams, roles, permissions, bindings, authenticated);
      events := events + ResolutionEvents(context, found.None?);
    }

    method PermissionGrantedByActiveBinding(context: Context, permission: Permission, resource: Resource) returns (granted: bool)
      modifies this`events
      ensures granted == BindingCheck(catalog, context, permission, resource).0
      ensures events == old(events) + BindingCheck(catalog, context, permission, resource).1
    {
      if Lookup(PermissionKey(), permission.id, context.permissions).None? {
        return false;
      }
      var i := 0;
      while i < |context.bindings|
        invariant 0 <= i <= |context.bindings|
        invariant var all := SomeBinding(catalog, context, permission, resource, context.bindings);
                  var left := SomeBinding(catalog, context, permission, resource, context.bindings[i..]);
                  left.0 == all.0 && events + left.1 == old(events) + all.1
      {
        var b := context.bindings[i];
        assert context.bindings[i..][1..] == context.bindings[i + 1..];
        if Qualifies(catalog, context, permission, b) {
          RecordAuthAuditEvent(EventFor(context, permission, resource, b));
          if ScopeMatches(b.scope, resource) {
            return true;
          }
        }
        i := i + 1;
      }
      granted := false;
    }

    method Check(r: Request) returns (decision: Decision)
      modifies this`events
      ensures decision == Evaluate(policy, catalog, r).0
      ensures events == old(events) + Evaluate(policy, catalog, r).1 + [decision.event]
    {
      var permission := GetPermission(catalog, r.action);
      if !r.context.authenticated || r.context.actor.status != Active || r.context.principal.status != PrincipalActive {
        decision := Deny(r, NotAuthenticated, permission, None);
      } else if permission.None? {
        decision := Deny(r, NotRegistered(r.action), None, None);
      } else {
        var granted := PermissionGrantedByActiveBinding(r.context, permission.value, r.resource);
        if !granted {
          decision := Deny(r, PermissionDenied(r.action), permission, None);
        } else if policy.applies(r.action, r.resource.kind) {
          var p := policy.evaluate(catalog, r);
          if !p.allowed {
            decision := Deny(r, PolicyDenied(p.reason), permission, Some(p));
          } else {
            decision := Allow(r, permission.value, Some(p));
          }
        } else {
          decision := Allow(r, permission.value, None);
        }
      }
      RecordAuthAuditEvent(decision.event);
    }
  }
}
