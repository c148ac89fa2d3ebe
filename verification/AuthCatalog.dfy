/** The RBAC catalog, its lookups and the resolution of an auth context (packages/auth/src/repository.ts,
    packages/auth/src/providers.ts). */
module AuthCatalog {
  import opened Sequences
  import opened Keyed

  type Id = string

  datatype Status = Active | Disabled
  datatype PrincipalStatus = PrincipalActive | PrincipalDisabled | Suspended | Deleted
  datatype ActorKind = HumanUser | ServiceAccountActor | SystemActor | LocalAgentActor | AnonymousMock

  datatype Principal = Principal(id: Id, status: PrincipalStatus)
  datatype Actor = Actor(id: Id, principalId: Id, kind: ActorKind, roles: seq<string>, teams: seq<string>, status: Status)
  datatype Team = Team(id: Id, name: string)
  datatype Permission = Permission(id: Id, action: string)
  datatype Role = Role(id: Id, name: string, permissions: seq<Id>, status: Status)
  datatype Scope = Scope(kind: string, scopeId: Option<Id>)
  datatype RoleBinding = RoleBinding(
    id: Id, principalId: Option<Id>, teamId: Option<Id>, roleId: Id, scope: Scope, status: Status)

  datatype Catalog = Catalog(
    principals: seq<Principal>,
    actors: seq<Actor>,
    teams: seq<Team>,
    roles: seq<Role>,
    permissions: seq<Permission>,
    bindings: seq<RoleBinding>)

  datatype Context = Context(
    actor: Actor,
    principal: Principal,
    teams: seq<Team>,
    roles: seq<Role>,
    permissions: seq<Permission>,
    bindings: seq<RoleBinding>,
    authenticated: bool)

  function PrincipalKey(): Principal -> Id { (p: Principal) => p.id }
  function ActorKey(): Actor -> Id { (a: Actor) => a.id }
  function RoleKey(): Role -> Id { (r: Role) => r.id }
  function PermissionKey(): Permission -> Id { (p: Permission) => p.id }
  function BindingKey(): RoleBinding -> Id { (b: RoleBinding) => b.id }

  // ----- lookups -----

  function TeamNamed(x: string): Team -> bool { (t: Team) => t.id == x || t.name == x }
  function RoleNamed(x: string): Role -> bool { (r: Role) => r.id == x || r.name == x }
  function PermissionNamed(x: string): Permission -> bool { (p: Permission) => p.id == x || p.action == x }

  function GetPrincipal(c: Catalog, id: Id): Option<Principal> { Lookup(PrincipalKey(), id, c.principals) }
  function GetActor(c: Catalog, id: Id): Option<Actor> { Lookup(ActorKey(), id, c.actors) }
  function GetTeam(c: Catalog, x: string): Option<Team> { Find(TeamNamed(x), c.teams) }
  function GetRole(c: Catalog, x: string): Option<Role> { Find(RoleNamed(x), c.roles) }
  function GetPermission(c: Catalog, x: string): Option<Permission> { Find(PermissionNamed(x), c.permissions) }

  function BoundToPrincipal(id: Id): RoleBinding -> bool { (b: RoleBinding) => b.principalId == Some(id) }
  function BoundToTeam(id: Id): RoleBinding -> bool { (b: RoleBinding) => b.teamId == Some(id) }

  /** Replace the record with the same id, or append. */
  function Upsert<T(!new)>(key: T -> Id, s: seq<T>, x: T): seq<T> {
    if Lookup(key, key(x), s).Some? then Put(key, s, x) else s + [x]
  }

  lemma UpsertMembers<T(!new)>(key: T -> Id, s: seq<T>, x: T)
    requires UniqueKeys(key, s)
    ensures UniqueKeys(key, Upsert(key, s, x))
    ensures forall y :: y in Upsert(key, s, x) <==> y == x || (y in s && key(y) != key(x))
    ensures Lookup(key, key(x), Upsert(key, s, x)) == Some(x)
  {
    LookupFresh(key, key(x), s);
    if Lookup(key, key(x), s).Some? {
      PutMembers(key, s, x);
    } else {
      AppendUnique(key, s, x);
    }
    LookupIs(key, Upsert(key, s, x), x);
  }

  // ----- uniqueBy -----

  /** The first element of each key, in order. */
  function UniqueBy<T(!new)>(key: T -> Id, s: seq<T>): (r: seq<T>)
    ensures |r| <= |s|
  {
    if s == [] then []
    else
      var front, last := s[..|s| - 1], s[|s| - 1];
      if Lookup(key, key(last), front).Some? then UniqueBy(key, front) else UniqueBy(key, front) + [last]
  }

  ghost predicate HasKey<T(!new)>(key: T -> Id, id: Id, s: seq<T>) {
    exists x :: x in s && key(x) == id
  }

  /** u lists each key of s once. */
  ghost predicate Represents<T(!new)>(key: T -> Id, u: seq<T>, s: seq<T>) {
    && UniqueKeys(key, u)
    && (forall x :: x in u ==> x in s)
    && (forall x :: x in s ==> HasKey(key, key(x), u))
  }

  lemma RepresentsOld<T(!new)>(key: T -> Id, u: seq<T>, s: seq<T>, x: T)
    requires Represents(key, u, s) && Lookup(key, key(x), s).Some?
    ensures Represents(key, u, s + [x])
  {
    LookupFresh(key, key(x), s);
  }

  lemma RepresentsNew<T(!new)>(key: T -> Id, u: seq<T>, s: seq<T>, x: T)
    requires Represents(key, u, s) && Lookup(key, key(x), s).None?
    ensures Represents(key, u + [x], s + [x])
  {
    LookupFresh(key, key(x), s);
    AppendUnique(key, u, x);
    forall z | z in s + [x]
      ensures HasKey(key, key(z), u + [x])
    {
      if z in s {
        assert HasKey(key, key(z), u);
        var y :| y in u && key(y) == key(z);
        assert (u + [x])[..|u|] == u;
        assert y in u + [x];
      } else {
        assert (u + [x])[|u|] == x;
      }
    }
  }

  lemma {:induction false} UniqueByMembers<T(!new)>(key: T -> Id, s: seq<T>)
    ensures Represents(key, UniqueBy(key, s), s)
  {
    if s != [] {
      var front, last := s[..|s| - 1], s[|s| - 1];
      assert s == front + [last];
      UniqueByMembers(key, front);
      if Lookup(key, key(last), front).Some? {
        RepresentsOld(key, UniqueBy(key, front), front, last);
      } else {
        RepresentsNew(key, UniqueBy(key, front), front, last);
      }
    }
  }

  lemma FilterSnoc<T(!new)>(p: T -> bool, s: seq<T>, x: T)
    ensures Filter(p, s + [x]) == Filter(p, s) + (if p(x) then [x] else [])
  {
    FilterAppend(p, s, [x]);
  }

  /** A key is in [x] + s exactly when it is x's key or the key of something the filter keeps. */
  lemma KeyBehind<T(!new)>(key: T -> Id, x: T, s: seq<T>, id: Id)
    ensures Lookup(key, id, [x] + s).Some? <==> id == key(x) || Lookup(key, id, Filter(WithoutKey(key, key(x)), s)).Some?
  {
    var p := WithoutKey(key, key(x));
    LookupFresh(key, id, [x] + s);
    LookupFresh(key, id, Filter(p, s));
    FilterMembers(p, s);
    assert x in [x] + s;
  }

  lemma UniqueBySnoc<T(!new)>(key: T -> Id, s: seq<T>, x: T)
    ensures UniqueBy(key, s + [x]) == if Lookup(key, key(x), s).Some? then UniqueBy(key, s) else UniqueBy(key, s) + [x]
  {
    assert (s + [x])[..|s|] == s;
  }

  lemma KeepsFirstSnoc<T(!new)>(key: T -> Id, x: T, s: seq<T>, kept: seq<T>, last: T)
    requires UniqueBy(key, s) == [x] + UniqueBy(key, kept)
    requires Lookup(key, key(last), s).Some? <==> key(last) == key(x) || Lookup(key, key(last), kept).Some?
    ensures UniqueBy(key, s + [last]) == [x] + UniqueBy(key, if key(last) == key(x) then kept else kept + [last])
  {
    var u := UniqueBy(key, kept);
    assert [x] + (u + [last]) == [x] + u + [last];
    UniqueBySnoc(key, s, last);
    UniqueBySnoc(key, kept, last);
  }

  /** Keeping the first element of each key, said from the front: the first one stays, whatever shares its key goes, and
      the rest is treated alike. */
  lemma {:induction false} UniqueByKeepsFirst<T(!new)>(key: T -> Id, x: T, s: seq<T>)
    ensures UniqueBy(key, [x] + s) == [x] + UniqueBy(key, Filter(WithoutKey(key, key(x)), s))
    decreases |s|
  {
    if s == [] {
      assert [x] + s == [] + [x];
      UniqueBySnoc(key, [], x);
    } else {
      var front, last := s[..|s| - 1], s[|s| - 1];
      assert s == front + [last] && [x] + s == [x] + front + [last];
      UniqueByKeepsFirst(key, x, front);
      var kept := Filter(WithoutKey(key, key(x)), front);
      FilterSnoc(WithoutKey(key, key(x)), front, last);
      assert kept + [] == kept;
      KeyBehind(key, x, front, key(last));
      KeepsFirstSnoc(key, x, [x] + front, kept, last);
    }
  }

  /** Between two rounds of the loop: what is out, and which keys were seen. */
  ghost predicate Deduplicated<T(!new)>(key: T -> Id, s: seq<T>, seen: set<Id>, output: seq<T>) {
    && output == UniqueBy(key, s)
    && forall id :: id in seen <==> Lookup(key, id, s).Some?
  }

  lemma DeduplicatedSnoc<T(!new)>(key: T -> Id, s: seq<T>, seen: set<Id>, output: seq<T>, x: T)
    requires Deduplicated(key, s, seen, output)
    ensures key(x) in seen ==> Deduplicated(key, s + [x], seen, output)
    ensures key(x) !in seen ==> Deduplicated(key, s + [x], seen + {key(x)}, output + [x])
  {
    UniqueBySnoc(key, s, x);
    forall id
      ensures Lookup(key, id, s + [x]).Some? <==> Lookup(key, id, s).Some? || id == key(x)
    {
      LookupFresh(key, id, s);
      LookupFresh(key, id, s + [x]);
    }
  }

  /** The loop of providers.ts:22-33, with its set of seen keys. */
  method UniqueByLoop<T(!new)>(key: T -> Id, items: seq<T>) returns (output: seq<T>)
    ensures output == UniqueBy(key, items)
  {
    var seen: set<Id> := {};
    output := [];
    for i := 0 to |items|
      invariant Deduplicated(key, items[..i], seen, output)
    {
      var item := items[i];
      DeduplicatedSnoc(key, items[..i], seen, output, item);
      assert items[..i + 1] == items[..i] + [item];
      if key(item) !in seen {
        seen := seen + {key(item)};
        output := output + [item];
      }
    }
    assert items[..|items|] == items;
  }

  // ----- resolveAuthContext -----

  function TeamsOf(c: Catalog, names: seq<string>): seq<Team> {
    if names == [] then []
    else (match GetTeam(c, names[0]) case Some(t) => [t] case None => []) + TeamsOf(c, names[1..])
  }

  function RolesOf(c: Catalog, names: seq<string>): seq<Role> {
    if names == [] then []
    else (match GetRole(c, names[0]) case Some(r) => [r] case None => []) + RolesOf(c, names[1..])
  }

  function PermissionsOf(c: Catalog, ids: seq<Id>): seq<Permission> {
    if ids == [] then []
    else (match GetPermission(c, ids[0]) case Some(p) => [p] case None => []) + PermissionsOf(c, ids[1..])
  }

  function TeamBindings(c: Catalog, teams: seq<Team>): seq<RoleBinding> {
    if teams == [] then [] else Filter(BoundToTeam(teams[0].id), c.bindings) + TeamBindings(c, teams[1..])
  }

  function RolePermissions(c: Catalog, roles: seq<Role>): seq<Permission> {
    if roles == [] then [] else PermissionsOf(c, roles[0].permissions) + RolePermissions(c, roles[1..])
  }

  function ActiveBinding(): RoleBinding -> bool { (b: RoleBinding) => b.status == Active }
  function ActiveRole(): Role -> bool { (r: Role) => r.status == Active }
  function RoleIdOf(): RoleBinding -> Id { (b: RoleBinding) => b.roleId }

  function BindingsFor(c: Catalog, principal: Principal, teams: seq<Team>): seq<RoleBinding> {
    Filter(ActiveBinding(),
           UniqueBy(BindingKey(), Filter(BoundToPrincipal(principal.id), c.bindings) + TeamBindings(c, teams)))
  }

  function RolesFor(c: Catalog, names: seq<string>, bindings: seq<RoleBinding>): seq<Role> {
    Filter(ActiveRole(), UniqueBy(RoleKey(), RolesOf(c, names) + RolesOf(c, Map(RoleIdOf(), bindings))))
  }

  function PermissionsFor(c: Catalog, roles: seq<Role>): seq<Permission> {
    UniqueBy(PermissionKey(), RolePermissions(c, roles))
  }

  /** The stand-ins for an actor or principal that is not in the catalog; both are disabled. */
  function UnknownActor(id: Id, principalId: Id): Actor {
    Actor(id, principalId, AnonymousMock, [], [], Disabled)
  }

  function ContextOf(c: Catalog, actor: Actor, missing: bool, unknown: Id): Context {
    var principal := GetPrincipal(c, actor.principalId).GetOr(Principal(unknown, PrincipalDisabled));
    var teams := TeamsOf(c, actor.teams);
    var bindings := BindingsFor(c, principal, teams);
    var roles := RolesFor(c, actor.roles, bindings);
    Context(actor, principal, teams, roles, PermissionsFor(c, roles), bindings,
            !missing && actor.status == Active && principal.status == PrincipalActive)
  }

  /** unknown is the id printed for a principal that is not in the catalog. */
  function Resolve(c: Catalog, actorId: Id, unknown: Id): Context {
    match GetActor(c, actorId)
    case Some(actor) => ContextOf(c, actor, false, unknown)
    case None => ContextOf(c, UnknownActor(actorId, unknown), true, unknown)
  }

  // ----- a well-formed catalog -----

  /** Ids are unique, and so are role names and actions; no id is another record's name or action. */
  ghost predicate WellFormed(c: Catalog) {
    && UniqueKeys(BindingKey(), c.bindings) && UniqueKeys(RoleKey(), c.roles) && UniqueKeys(PermissionKey(), c.permissions)
    && (forall r, q :: r in c.roles && q in c.roles && (r.id == q.id || r.id == q.name || r.name == q.name) ==> r == q)
    && (forall p, q :: (p in c.permissions && q in c.permissions
                        && (p.id == q.id || p.id == q.action || p.action == q.action)) ==> p == q)
  }

  lemma RoleIs(c: Catalog, r: Role)
    requires WellFormed(c) && r in c.roles
    ensures GetRole(c, r.id) == Some(r) && GetRole(c, r.name) == Some(r)
  {
    assert RoleNamed(r.id)(r) && RoleNamed(r.name)(r);
  }

  lemma PermissionIs(c: Catalog, p: Permission)
    requires WellFormed(c) && p in c.permissions
    ensures GetPermission(c, p.id) == Some(p) && GetPermission(c, p.action) == Some(p)
  {
    assert PermissionNamed(p.id)(p) && PermissionNamed(p.action)(p);
  }

  lemma {:induction false} TeamBindingsMembers(c: Catalog, teams: seq<Team>, b: RoleBinding)
    ensures b in TeamBindings(c, teams) <==> b in c.bindings && exists t :: t in teams && b.teamId == Some(t.id)
  {
    if teams != [] {
      TeamBindingsMembers(c, teams[1..], b);
      FilterMembers(BoundToTeam(teams[0].id), c.bindings);
      assert teams == [teams[0]] + teams[1..];
    }
  }

  lemma {:induction false} RolesOfMembers(c: Catalog, names: seq<string>, r: Role)
    ensures r in RolesOf(c, names) <==> exists n :: n in names && GetRole(c, n) == Some(r)
  {
    if names != [] {
      RolesOfMembers(c, names[1..], r);
      assert names == [names[0]] + names[1..];
    }
  }

  lemma {:induction false} PermissionsOfMembers(c: Catalog, ids: seq<Id>, p: Permission)
    ensures p in PermissionsOf(c, ids) <==> exists i :: i in ids && GetPermission(c, i) == Some(p)
  {
    if ids != [] {
      PermissionsOfMembers(c, ids[1..], p);
      assert ids == [ids[0]] + ids[1..];
    }
  }

  lemma {:induction false} RolePermissionsMembers(c: Catalog, roles: seq<Role>, p: Permission)
    ensures p in RolePermissions(c, roles)
       <==> exists r, i :: r in roles && i in r.permissions && GetPermission(c, i) == Some(p)
  {
    if roles != [] {
      RolePermissionsMembers(c, roles[1..], p);
      PermissionsOfMembers(c, roles[0].permissions, p);
      assert roles == [roles[0]] + roles[1..];
    }
  }
}
