/** Role and permission management with delegated authority. */
module Rbac {
  import opened TrackIds
  import opened Text

  const RESERVED_ROLE_NAMES: set<string> := {
    "SUPER_ADMIN", "SYSTEM_ADMIN", "SECURITY_ADMIN", "OPERATIONS_ADMIN", "OPERATOR", "ANALYST", "RESEARCHER", "VIEWER"
  }

  const SUPER_ADMIN := "SUPER_ADMIN"
  const ROLES_ASSIGN := "roles.assign"
  const ROLES_UPDATE := "roles.update"

  datatype User = User(active: bool, roles: seq<Id>)
  datatype Role = Role(name: string, description: string, isSystem: bool, permissions: seq<string>)
  datatype Db = Db(users: map<Id, User>, roles: map<Id, Role>)

  datatype Error = Forbidden | Invalid(reason: string) | Missing

  datatype Op =
    | CreateRole(id: Id, name: string, description: string)
    | UpdateRole(role: Id, description: string)
    | DeleteRole(role: Id)
    | AssignRole(actor: Id, target: Id, role: Id)
    | RevokeRole(actor: Id, target: Id, role: Id)
    | AssignPermission(actor: Id, role: Id, permission: string)
    | RevokePermission(actor: Id, role: Id, permission: string)

  /** `permission_keys`: the keys reached through the user's roles. */
  function Permissions(db: Db, user: Id): set<string> {
    if user !in db.users then {}
    else set r, p | r in db.users[user].roles && r in db.roles && p in db.roles[r].permissions :: p
  }

  function RoleKeys(role: Role): set<string> { set p | p in role.permissions }

  predicate HasAuthority(db: Db, actor: Id, required: string) {
    actor in db.users && db.users[actor].active && required in Permissions(db, actor)
  }

  /** Some active user other than `user` holds a super-admin role other than `role`. */
  predicate SuperAdminRemains(db: Db, user: Id, role: Id) {
    exists u | u in db.users ::
      u != user && db.users[u].active
      && exists r | r in db.users[u].roles :: r in db.roles && r != role && db.roles[r].name == SUPER_ADMIN
  }

  /** The list without the first occurrence, as removing an element does. */
  function Without<T(==)>(q: seq<T>, x: T): (r: seq<T>)
    ensures forall y | y in r :: y in q
  {
    if q == [] then []
    else if q[0] == x then q[1..]
    else [q[0]] + Without(q[1..], x)
  }

  lemma {:induction false} WithoutIs<T>(q: seq<T>, x: T) returns (i: nat)
    requires x in q
    ensures i < |q| && q[i] == x && x !in q[..i] && Without(q, x) == q[..i] + q[i + 1..]
    decreases |q|
  {
    if q[0] == x {
      i := 0;
    } else {
      var j := WithoutIs(q[1..], x);
      i := j + 1;
      assert q[..i] == [q[0]] + q[1..][..j] && q[i + 1..] == q[1..][j + 1..];
    }
  }

  ghost predicate NoRepeats<T>(q: seq<T>) { forall i, j | 0 <= i < j < |q| :: q[i] != q[j] }

  /** One occurrence goes ... */
  lemma WithoutTakesOne<T>(q: seq<T>, x: T)
    requires x in q
    ensures multiset(Without(q, x)) == multiset(q) - multiset{x}
  {
    var i := WithoutIs(q, x);
    assert q == q[..i] + [x] + q[i + 1..];
    hide Without;
  }

  /** ... and from a list without repetitions the element is gone and nothing else. */
  lemma WithoutTakesAll<T>(q: seq<T>, x: T)
    requires x in q && NoRepeats(q)
    ensures NoRepeats(Without(q, x)) && forall y :: y in Without(q, x) <==> y in q && y != x
  {
    var i := WithoutIs(q, x);
    var r := Without(q, x);
    hide Without;
    forall l | 0 <= l < |r| ensures r[l] == q[if l < i then l else l + 1] {}
    forall y | y in q && y != x ensures y in r {
      var j :| 0 <= j < |q| && q[j] == y;
      assert r[if j < i then j else j - 1] == y;
    }
    forall y | y in r ensures y in q && y != x {
      var l :| 0 <= l < |r| && r[l] == y;
      var j := if l < i then l else l + 1;
      assert q[j] == y && j != i;
    }
  }

  /** Every occurrence, as deleting a role's association rows does. */
  function Purge(q: seq<Id>, x: Id): (r: seq<Id>)
    ensures forall y :: y in r <==> y in q && y != x
  {
    if q == [] then []
    else (if q[0] == x then [] else [q[0]]) + Purge(q[1..], x)
  }

  function SetRoles(db: Db, user: Id, roles: seq<Id>): Db
    requires user in db.users
  {
    db.(users := db.users[user := db.users[user].(roles := roles)])
  }

  function SetPermissions(db: Db, role: Id, permissions: seq<string>): Db
    requires role in db.roles
  {
    db.(roles := db.roles[role := db.roles[role].(permissions := permissions)])
  }

  function Apply(db: Db, op: Op): (Db, Option<Error>) {
    match op
    case CreateRole(id, name, description) =>
      var normalized := Upper(Strip(name));
      if normalized in RESERVED_ROLE_NAMES then (db, Some(Invalid("System role names are reserved")))
      else if id in db.roles || (exists r | r in db.roles :: db.roles[r].name == normalized) then
        (db, Some(Invalid("Role name is already in use")))
      else (db.(roles := db.roles[id := Role(normalized, Strip(description), false, [])]), None)
    case UpdateRole(role, description) =>
      if role !in db.roles then (db, Some(Missing))
      else if db.roles[role].isSystem then (db, Some(Invalid("System roles cannot be modified")))
      else (db.(roles := db.roles[role := db.roles[role].(description := description)]), None)
    case DeleteRole(role) =>
      if role !in db.roles then (db, Some(Missing))
      else if db.roles[role].isSystem then (db, Some(Invalid("System roles cannot be deleted")))
      else (Db(map u | u in db.users :: db.users[u].(roles := Purge(db.users[u].roles, role)), db.roles - {role}), None)
    case AssignRole(actor, target, role) =>
      if target !in db.users || role !in db.roles || actor !in db.users then (db, Some(Missing))
      else if !HasAuthority(db, actor, ROLES_ASSIGN) then (db, Some(Forbidden))
      else if !(RoleKeys(db.roles[role]) <= Permissions(db, actor)) then (db, Some(Forbidden))
      else if role in db.users[target].roles then (db, Some(Invalid("Role is already assigned")))
      else (SetRoles(db, target, db.users[target].roles + [role]), None)
    case RevokeRole(actor, target, role) =>
      if target !in db.users || role !in db.roles || actor !in db.users then (db, Some(Missing))
      else if !HasAuthority(db, actor, ROLES_ASSIGN) then (db, Some(Forbidden))
      else if !(RoleKeys(db.roles[role]) <= Permissions(db, actor)) then (db, Some(Forbidden))
      else if role !in db.users[target].roles then (db, Some(Invalid("Role is not assigned")))
      else if db.roles[role].name == SUPER_ADMIN && db.users[target].active && !SuperAdminRemains(db, target, role) then
        (db, Some(Invalid("The operation would leave no active SUPER_ADMIN")))
      else (SetRoles(db, target, Without(db.users[target].roles, role)), None)
    case AssignPermission(actor, role, permission) =>
      if role !in db.roles || actor !in db.users then (db, Some(Missing))
      else if db.roles[role].isSystem then (db, Some(Invalid("System roles cannot be modified")))
      else if !HasAuthority(db, actor, ROLES_UPDATE) then (db, Some(Forbidden))
      else if permission !in Permissions(db, actor) then (db, Some(Forbidden))
      else if permission in db.roles[role].permissions then (db, Some(Invalid("Permission is already assigned")))
      else (SetPermissions(db, role, db.roles[role].permissions + [permission]), None)
    case RevokePermission(actor, role, permission) =>
      if role !in db.roles || actor !in db.users then (db, Some(Missing))
      else if db.roles[role].isSystem then (db, Some(Invalid("System roles cannot be modified")))
      else if !HasAuthority(db, actor, ROLES_UPDATE) then (db, Some(Forbidden))
      else if permission !in Permissions(db, actor) then (db, Some(Forbidden))
      else if permission !in db.roles[role].permissions then (db, Some(Invalid("Permission is not assigned")))
      else (SetPermissions(db, role, Without(db.roles[role].permissions, permission)), None)
  }

  class RbacService {
    var users: map<Id, User>
    var roles: map<Id, Role>

    function State(): Db
      reads this
    {
      Db(users, roles)
    }

    constructor (db: Db)
      ensures State() == db
    {
      users, roles := db.users, db.roles;
    }

    /** `_require_actor_authority`: the actor's permissions, or the refusal. */
    method RequireAuthority(actor: Id, required: string) returns (permissions: set<string>, error: Option<Error>)
      requires actor in users
      ensures error == if HasAuthority(State(), actor, required) then None else Some(Forbidden)
      ensures permissions == Permissions(State(), actor)
    {
      permissions := Permissions(State(), actor);
      if !users[actor].active {
        return permissions, Some(Forbidden);
      }
      if required !in permissions {
        return permissions, Some(Forbidden);
      }
      error := None;
    }

    method Create(id: Id, name: string, description: string) returns (error: Option<Error>)
      modifies this
      ensures (State(), error) == Apply(old(State()), CreateRole(id, name, description))
    {
      var normalized := Upper(Strip(name));
      if normalized in RESERVED_ROLE_NAMES {
        return Some(Invalid("System role names are reserved"));
      }
      if id in roles || exists r | r in roles :: roles[r].name == normalized {
        return Some(Invalid("Role name is already in use"));
      }
      roles := roles[id := Role(normalized, Strip(description), false, [])];
      error := None;
    }

    method Update(role: Id, description: string) returns (error: Option<Error>)
      modifies this
      ensures (State(), error) == Apply(old(State()), UpdateRole(role, description))
    {
      if role !in roles {
        return Some(Missing);
      }
      if roles[role].isSystem {
        return Some(Invalid("System roles cannot be modified"));
      }
      roles := roles[role := roles[role].(description := description)];
      error := None;
    }

    method Delete(role: Id) returns (error: Option<Error>)
      modifies this
      ensures (State(), error) == Apply(old(State()), DeleteRole(role))
    {
      if role !in roles {
        return Some(Missing);
      }
      if roles[role].isSystem {
        return Some(Invalid("System roles cannot be deleted"));
      }
      users := map u | u in users :: users[u].(roles := Purge(users[u].roles, role));
      roles := roles - {role};
      error := None;
    }

    method Assign(actor: Id, target: Id, role: Id) returns (error: Option<Error>)
      modifies this
      ensures (State(), error) == Apply(old(State()), AssignRole(actor, target, role))
    {
      if target !in users || role !in roles || actor !in users {
        return Some(Missing);
      }
      var actorPermissions;
      actorPermissions, error := RequireAuthority(actor, ROLES_ASSIGN);
      if error.Some? {
        return;
      }
      if !(RoleKeys(roles[role]) <= actorPermissions) {
        return Some(Forbidden);
      }
      if role in users[target].roles {
        return Some(Invalid("Role is already assigned"));
      }
      users := users[target := users[target].(roles := users[target].roles + [role])];
    }

    method Revoke(actor: Id, target: Id, role: Id) returns (error: Option<Error>)
      modifies this
      ensures (State(), error) == Apply(old(State()), RevokeRole(actor, target, role))
    {
      if target !in users || role !in roles || actor !in users {
        return Some(Missing);
      }
      var actorPermissions;
      actorPermissions, error := RequireAuthority(actor, ROLES_ASSIGN);
      if error.Some? {
        return;
      }
      if !(RoleKeys(roles[role]) <= actorPermissions) {
        return Some(Forbidden);
      }
      if role !in users[target].roles {
        return Some(Invalid("Role is not assigned"));
      }
      if roles[role].name == SUPER_ADMIN && users[target].active {
        if !SuperAdminRemains(State(), target, role) {
          return Some(Invalid("The operation would leave no active SUPER_ADMIN"));
        }
      }
      users := users[target := users[target].(roles := Without(users[target].roles, role))];
    }

    method Grant(actor: Id, role: Id, permission: string) returns (error: Option<Error>)
      modifies this
      ensures (State(), error) == Apply(old(State()), AssignPermission(actor, role, permission))
    {
      if role !in roles || actor !in users {
        return Some(Missing);
      }
      if roles[role].isSystem {
        return Some(Invalid("System roles cannot be modified"));
      }
      var actorPermissions;
      actorPermissions, error := RequireAuthority(actor, ROLES_UPDATE);
      if error.Some? {
        return;
      }
      if permission !in actorPermissions {
        return Some(Forbidden);
      }
      if permission in roles[role].permissions {
        return Some(Invalid("Permission is already assigned"));
      }
      roles := roles[role := roles[role].(permissions := roles[role].permissions + [permission])];
    }

    method Withdraw(actor: Id, role: Id, permission: string) returns (error: Option<Error>)
      modifies this
      ensures (State(), error) == Apply(old(State()), RevokePermission(actor, role, permission))
    {
      if role !in roles || actor !in users {
        return Some(Missing);
      }
      if roles[role].isSystem {
        return Some(Invalid("System roles cannot be modified"));
      }
      var held;
      held, error := RequireAuthority(actor, ROLES_UPDATE);
      if error.Some? {
        return;
      }
      if permission !in Permissions(State(), actor) {
        return Some(Forbidden);
      }
      if permission !in roles[role].permissions {
        return Some(Invalid("Permission is not assigned"));
      }
      roles := roles[role := roles[role].(permissions := Without(roles[role].permissions, permission))];
    }
  }

  // ----- What each operation does -----

  /** The keys a list of roles gives. */
  function KeysOf(roles: map<Id, Role>, held: set<Id>): set<string> {
    set r, p | r in held && r in roles && p in roles[r].permissions :: p
  }

  function HeldBy(user: User): set<Id> { set r | r in user.roles }

  lemma PermissionsAre(db: Db, u: Id)
    requires u in db.users
    ensures Permissions(db, u) == KeysOf(db.roles, HeldBy(db.users[u]))
  {
  }

  lemma KeysMore(roles: map<Id, Role>, held: set<Id>, role: Id)
    requires role in roles
    ensures KeysOf(roles, held + {role}) == KeysOf(roles, held) + RoleKeys(roles[role])
  {
    var more := KeysOf(roles, held + {role});
    forall p | p in more ensures p in KeysOf(roles, held) + RoleKeys(roles[role]) {
      var r :| r in held + {role} && r in roles && p in roles[r].permissions;
    }
    forall p | p in KeysOf(roles, held) + RoleKeys(roles[role]) ensures p in more {
      if p in KeysOf(roles, held) {
        var r :| r in held && r in roles && p in roles[r].permissions;
        assert r in held + {role};
      } else {
        assert role in held + {role} && p in roles[role].permissions;
      }
    }
  }

  lemma KeysWithout(roles: map<Id, Role>, held: set<Id>, role: Id)
    ensures KeysOf(roles - {role}, held) == KeysOf(roles, held - {role})
  {
    forall p ensures p in KeysOf(roles - {role}, held) <==> p in KeysOf(roles, held - {role}) {
      if p in KeysOf(roles - {role}, held) {
        var r :| r in held && r in roles - {role} && p in (roles - {role})[r].permissions;
        assert r in held - {role} && p in roles[r].permissions;
      }
      if p in KeysOf(roles, held - {role}) {
        var r :| r in held - {role} && r in roles && p in roles[r].permissions;
        assert r in roles - {role} && p in (roles - {role})[r].permissions;
      }
    }
  }

  /** Changing one role's keys changes what is reached through that role only. */
  lemma KeysChanged(roles: map<Id, Role>, next: map<Id, Role>, held: set<Id>, role: Id, p: string)
    requires role in next && forall r | r != role :: (r in roles <==> r in next) && (r in roles ==> roles[r] == next[r])
    ensures p in KeysOf(next, held)
            <==> p in KeysOf(roles, held - {role}) || (role in held && p in next[role].permissions)
  {
    if p in KeysOf(next, held) {
      var r :| r in held && r in next && p in next[r].permissions;
      assert r != role ==> r in held - {role} && p in roles[r].permissions;
    }
    if p in KeysOf(roles, held - {role}) {
      var r :| r in held - {role} && r in roles && p in roles[r].permissions;
      assert r in held && r in next && p in next[r].permissions;
    }
  }

  /** Users have no role twice and roles no permission twice. */
  ghost predicate NoDuplicates(db: Db) {
    && (forall u | u in db.users :: NoRepeats(db.users[u].roles))
    && (forall r | r in db.roles :: NoRepeats(db.roles[r].permissions))
  }

  /** The actor is active, holds the authority, and holds all the given permissions itself. */
  predicate MayDelegate(db: Db, actor: Id, authority: string, permissions: set<string>) {
    && actor in db.users && db.users[actor].active
    && authority in Permissions(db, actor) && permissions <= Permissions(db, actor)
  }

  /** Only one user's role list may have changed. */
  ghost predicate OnlyRolesOf(db: Db, next: Db, target: Id) {
    && next.roles == db.roles && next.users.Keys == db.users.Keys && target in db.users
    && next.users[target].active == db.users[target].active
    && forall u | u in db.users && u != target :: next.users[u] == db.users[u]
  }

  /** Only one role's permission list may have changed. */
  ghost predicate OnlyPermissionsOf(db: Db, next: Db, role: Id) {
    && next.users == db.users && next.roles.Keys == db.roles.Keys && role in db.roles
    && next.roles[role] == db.roles[role].(permissions := next.roles[role].permissions)
    && forall r | r in db.roles && r != role :: next.roles[r] == db.roles[r]
  }

  /** An assignment succeeds exactly for an actor who may delegate all of the role to a target without it;
      then the target has the role and its permissions in addition, and nothing else changed. */
  lemma AssignRoleIs(db: Db, actor: Id, target: Id, role: Id)
    ensures var (next, e) := Apply(db, AssignRole(actor, target, role));
            && (e == None <==> && target in db.users && role in db.roles && role !in db.users[target].roles
                               && MayDelegate(db, actor, "roles.assign", RoleKeys(db.roles[role])))
            && (e != None ==> next == db)
            && (e == None ==>
                  && OnlyRolesOf(db, next, target) && next.users[target].roles == db.users[target].roles + [role]
                  && Permissions(next, target) == Permissions(db, target) + RoleKeys(db.roles[role]))
  {
    var next := Apply(db, AssignRole(actor, target, role)).0;
    if actor in db.users { AuthorityIs(db, actor, ROLES_ASSIGN); }
    hide SuperAdminRemains, HasAuthority, Permissions;
    if target in db.users && role in db.roles {
      PermissionsAre(db, target);
      PermissionsAre(next, target);
      KeysMore(db.roles, HeldBy(db.users[target]), role);
      assert HeldBy(User(true, db.users[target].roles + [role])) == HeldBy(db.users[target]) + {role};
    }
    hide KeysOf, RoleKeys;
  }

  lemma AuthorityIs(db: Db, actor: Id, authority: string)
    requires actor in db.users
    ensures HasAuthority(db, actor, authority) == (db.users[actor].active && authority in Permissions(db, actor))
  {
    hide Permissions;
  }

  /** A revocation takes exactly that role away: once from the list, for good from a list without
      repetitions, and with it the permissions that no other role of the target gives. */
  lemma RevokeRoleIs(db: Db, actor: Id, target: Id, role: Id)
    ensures var (next, e) := Apply(db, RevokeRole(actor, target, role));
            && (e == None <==> && target in db.users && role in db.roles && role in db.users[target].roles
                               && MayDelegate(db, actor, "roles.assign", RoleKeys(db.roles[role]))
                               && (db.roles[role].name == "SUPER_ADMIN" && db.users[target].active ==>
                                     SuperAdminRemains(db, target, role)))
            && (e != None ==> next == db)
            && (e == None ==>
                  && OnlyRolesOf(db, next, target)
                  && multiset(next.users[target].roles) == multiset(db.users[target].roles) - multiset{role}
                  && (NoDuplicates(db) ==>
                        && role !in next.users[target].roles
                        && Permissions(next, target) == KeysOf(db.roles, HeldBy(db.users[target]) - {role})))
  {
    if actor in db.users { AuthorityIs(db, actor, ROLES_ASSIGN); }
    hide SuperAdminRemains, HasAuthority, Permissions, Without, KeysOf, RoleKeys, NoDuplicates;
    if target in db.users && role in db.users[target].roles {
      RolesLeft(db, target, role);
    }
  }

  lemma RolesLeft(db: Db, target: Id, role: Id)
    requires target in db.users && role in db.users[target].roles
    ensures var next := SetRoles(db, target, Without(db.users[target].roles, role));
            && multiset(next.users[target].roles) == multiset(db.users[target].roles) - multiset{role}
            && (NoDuplicates(db) ==>
                  && role !in next.users[target].roles
                  && Permissions(next, target) == KeysOf(db.roles, HeldBy(db.users[target]) - {role}))
  {
    hide Permissions, Without, KeysOf;
    var next := SetRoles(db, target, Without(db.users[target].roles, role));
    WithoutTakesOne(db.users[target].roles, role);
    PermissionsAre(next, target);
    if NoDuplicates(db) {
      WithoutTakesAll(db.users[target].roles, role);
      assert HeldBy(next.users[target]) == HeldBy(db.users[target]) - {role};
    }
  }

  /** A permission granted to a role reaches exactly the users who have that role. */
  lemma AssignPermissionIs(db: Db, actor: Id, role: Id, permission: string)
    ensures var (next, e) := Apply(db, AssignPermission(actor, role, permission));
            && (e == None <==> && role in db.roles && !db.roles[role].isSystem
                               && permission !in db.roles[role].permissions
                               && MayDelegate(db, actor, "roles.update", {permission}))
            && (e != None ==> next == db)
            && (e == None ==>
                  && OnlyPermissionsOf(db, next, role)
                  && next.roles[role].permissions == db.roles[role].permissions + [permission]
                  && forall u | u in db.users ::
                       Permissions(next, u)
                       == Permissions(db, u) + if role in db.users[u].roles then {permission} else {})
  {
    var next := Apply(db, AssignPermission(actor, role, permission)).0;
    if actor in db.users { AuthorityIs(db, actor, ROLES_UPDATE); }
    hide SuperAdminRemains, HasAuthority, Permissions;
    if role in db.roles {
      forall u, p | u in db.users && next == SetPermissions(db, role, db.roles[role].permissions + [permission])
        ensures p in Permissions(next, u)
                <==> p in Permissions(db, u) || (role in db.users[u].roles && p == permission)
      {
        PermissionsAre(db, u);
        PermissionsAre(next, u);
        KeysChanged(db.roles, next.roles, HeldBy(db.users[u]), role, p);
        KeysChanged(db.roles, db.roles, HeldBy(db.users[u]), role, p);
      }
    }
    hide KeysOf, RoleKeys;
  }

  /** A permission withdrawn from a role is gone from it, and from every user who has it from no other. */
  lemma RevokePermissionIs(db: Db, actor: Id, role: Id, permission: string)
    ensures var (next, e) := Apply(db, RevokePermission(actor, role, permission));
            && (e == None <==> && role in db.roles && !db.roles[role].isSystem
                               && permission in db.roles[role].permissions
                               && MayDelegate(db, actor, "roles.update", {permission}))
            && (e != None ==> next == db)
            && (e == None ==>
                  && OnlyPermissionsOf(db, next, role)
                  && multiset(next.roles[role].permissions)
                     == multiset(db.roles[role].permissions) - multiset{permission}
                  && (NoDuplicates(db) ==>
                        && permission !in next.roles[role].permissions
                        && forall u, p | u in db.users ::
                             p in Permissions(next, u)
                             <==> p in Permissions(db, u)
                                  && (p == permission ==>
                                        p in KeysOf(db.roles, HeldBy(db.users[u]) - {role}))))
  {
    if actor in db.users { AuthorityIs(db, actor, ROLES_UPDATE); }
    hide SuperAdminRemains, HasAuthority, Without, Permissions, KeysOf, RoleKeys, NoDuplicates;
    if role in db.roles && permission in db.roles[role].permissions {
      WithoutTakesOne(db.roles[role].permissions, permission);
      if NoDuplicates(db) {
        WithdrawnFrom(db, role, permission);
      }
    }
  }

  lemma WithdrawnFrom(db: Db, role: Id, permission: string)
    requires role in db.roles && permission in db.roles[role].permissions && NoDuplicates(db)
    ensures var next := SetPermissions(db, role, Without(db.roles[role].permissions, permission));
            && permission !in next.roles[role].permissions
            && forall u, p | u in db.users ::
                 p in Permissions(next, u)
                 <==> p in Permissions(db, u)
                      && (p == permission ==> p in KeysOf(db.roles, HeldBy(db.users[u]) - {role}))
  {
    WithoutTakesAll(db.roles[role].permissions, permission);
    hide Without, Permissions, KeysOf;
    var next := SetPermissions(db, role, Without(db.roles[role].permissions, permission));
    forall u, p | u in db.users
      ensures p in Permissions(next, u)
              <==> p in Permissions(db, u)
                   && (p == permission ==> p in KeysOf(db.roles, HeldBy(db.users[u]) - {role}))
    {
      PermissionsAre(db, u);
      PermissionsAre(next, u);
      KeysChanged(db.roles, next.roles, HeldBy(db.users[u]), role, p);
      KeysChanged(db.roles, db.roles, HeldBy(db.users[u]), role, p);
    }
  }

  lemma SameKeysSamePermissions(db: Db, next: Db, role: Id)
    requires next.users == db.users && role in next.roles
    requires forall r | r != role ::
               (r in db.roles <==> r in next.roles) && (r in db.roles ==> db.roles[r] == next.roles[r])
    requires if role in db.roles then next.roles[role].permissions == db.roles[role].permissions
             else next.roles[role].permissions == []
    ensures forall u :: Permissions(next, u) == Permissions(db, u)
  {
    hide KeysOf;
    forall u ensures Permissions(next, u) == Permissions(db, u) {
      if u in db.users {
        PermissionsAre(db, u);
        PermissionsAre(next, u);
        forall p ensures p in Permissions(next, u) <==> p in Permissions(db, u) {
          KeysChanged(db.roles, next.roles, HeldBy(db.users[u]), role, p);
          if role in db.roles {
            KeysChanged(db.roles, db.roles, HeldBy(db.users[u]), role, p);
          } else {
            KeysWithout(db.roles, HeldBy(db.users[u]), role);
            assert db.roles - {role} == db.roles;
          }
        }
      }
    }
  }

  /** A created role has a normal name that is neither reserved nor taken, and gives nothing yet. */
  lemma CreateRoleIs(db: Db, id: Id, name: string, description: string)
    ensures var (next, e) := Apply(db, CreateRole(id, name, description));
            && (e == None <==> Upper(Strip(name)) !in RESERVED_ROLE_NAMES && id !in db.roles
                               && forall r | r in db.roles :: db.roles[r].name != Upper(Strip(name)))
            && (e != None ==> next == db)
            && (e == None ==>
                  && next == db.(roles := db.roles[id := Role(Upper(Strip(name)), Strip(description), false, [])])
                  && forall u :: Permissions(next, u) == Permissions(db, u))
  {
    hide SuperAdminRemains, HasAuthority, Upper, Strip, Permissions;
    var (next, e) := Apply(db, CreateRole(id, name, description));
    if e == None {
      SameKeysSamePermissions(db, next, id);
    }
  }

  /** An updated role keeps all but its description; system roles cannot be updated. */
  lemma UpdateRoleIs(db: Db, id: Id, description: string)
    ensures var (next, e) := Apply(db, UpdateRole(id, description));
            && (e == None <==> id in db.roles && !db.roles[id].isSystem)
            && (e != None ==> next == db)
            && (e == None ==>
                  && next == db.(roles := db.roles[id := db.roles[id].(description := description)])
                  && forall u :: Permissions(next, u) == Permissions(db, u))
  {
    hide SuperAdminRemains, HasAuthority, Permissions;
    var (next, e) := Apply(db, UpdateRole(id, description));
    if e == None {
      SameKeysSamePermissions(db, next, id);
    }
  }

  /** A deleted role is nobody's any more, and its permissions go with it. */
  lemma DeleteRoleIs(db: Db, id: Id)
    ensures var (next, e) := Apply(db, DeleteRole(id));
            && (e == None <==> id in db.roles && !db.roles[id].isSystem)
            && (e != None ==> next == db)
            && (e == None ==>
                  && next.roles == db.roles - {id} && next.users.Keys == db.users.Keys
                  && forall u | u in db.users ::
                       && next.users[u].active == db.users[u].active
                       && (forall r :: r in next.users[u].roles <==> r in db.users[u].roles && r != id)
                       && Permissions(next, u) == KeysOf(db.roles, HeldBy(db.users[u]) - {id}))
  {
    hide SuperAdminRemains, HasAuthority, Permissions, KeysOf, Purge;
    var (next, e) := Apply(db, DeleteRole(id));
    if e == None {
      forall u | u in db.users
        ensures Permissions(next, u) == KeysOf(db.roles, HeldBy(db.users[u]) - {id})
      {
        PermissionsAre(next, u);
        assert HeldBy(next.users[u]) == HeldBy(db.users[u]) - {id};
        KeysWithout(db.roles, HeldBy(db.users[u]) - {id}, id);
        assert HeldBy(db.users[u]) - {id} - {id} == HeldBy(db.users[u]) - {id};
      }
    }
  }

  // ----- Over whole runs: no duplicates, names -----

  lemma ApplyNoDuplicates(db: Db, op: Op)
    requires NoDuplicates(db)
    ensures NoDuplicates(Apply(db, op).0)
  {
    hide Permissions, HasAuthority, RoleKeys, SuperAdminRemains, Without;
    match op
    case CreateRole(_, _, _) =>
    case UpdateRole(_, _) =>
    case DeleteRole(role) =>
      forall u | u in db.users ensures NoRepeats(Purge(db.users[u].roles, role)) {
        PurgeNoRepeats(db.users[u].roles, role);
      }
    case AssignRole(actor, target, role) => if target in db.users { MoreNoRepeats(db.users[target].roles, role); }
    case RevokeRole(actor, target, role) =>
      if target in db.users && role in db.users[target].roles { WithoutTakesAll(db.users[target].roles, role); }
    case AssignPermission(actor, role, permission) =>
      if role in db.roles { MoreNoRepeats(db.roles[role].permissions, permission); }
    case RevokePermission(actor, role, permission) =>
      if role in db.roles && permission in db.roles[role].permissions {
        WithoutTakesAll(db.roles[role].permissions, permission);
      }
  }

  lemma MoreNoRepeats<T>(q: seq<T>, x: T)
    ensures NoRepeats(q) && x !in q ==> NoRepeats(q + [x])
  {
  }

  lemma {:induction false} PurgeNoRepeats(q: seq<Id>, x: Id)
    requires NoRepeats(q)
    ensures NoRepeats(Purge(q, x))
    decreases |q|
  {
    if q != [] {
      assert NoRepeats(q[1..]) && q[0] !in q[1..];
      PurgeNoRepeats(q[1..], x);
      var r := Purge(q[1..], x);
      assert q[0] !in r;
    }
  }

  /** In every run of operations no user gets a role twice and no role a permission twice. */
  lemma {:induction false} RunNoDuplicates(db: Db, ops: seq<Op>)
    requires NoDuplicates(db)
    ensures NoDuplicates(Run(db, ops))
    decreases |ops|
  {
    hide NoDuplicates, Apply;
    if ops != [] {
      RunNoDuplicates(db, ops[..|ops| - 1]);
      ApplyNoDuplicates(Run(db, ops[..|ops| - 1]), ops[|ops| - 1]);
    }
  }

  lemma ApplyUniqueNames(db: Db, op: Op)
    requires UniqueNames(db)
    ensures UniqueNames(Apply(db, op).0)
  {
    hide Permissions, HasAuthority, RoleKeys, SuperAdminRemains, Upper, Strip;
  }

  /** In every run role names stay unique. */
  lemma {:induction false} RunUniqueNames(db: Db, ops: seq<Op>)
    requires UniqueNames(db)
    ensures UniqueNames(Run(db, ops))
    decreases |ops|
  {
    hide UniqueNames, Apply;
    if ops != [] {
      RunUniqueNames(db, ops[..|ops| - 1]);
      ApplyUniqueNames(Run(db, ops[..|ops| - 1]), ops[|ops| - 1]);
    }
  }

  // ----- Delegation over whole runs -----

  function Run(db: Db, ops: seq<Op>): Db {
    if ops == [] then db else Apply(Run(db, ops[..|ops| - 1]), ops[|ops| - 1]).0
  }

  function Actors(op: Op): set<Id> {
    match op
    case AssignRole(a, _, _) => {a}
    case RevokeRole(a, _, _) => {a}
    case AssignPermission(a, _, _) => {a}
    case RevokePermission(a, _, _) => {a}
    case _ => {}
  }

  ghost predicate PerformedBy(ops: seq<Op>, actors: set<Id>) {
    forall op | op in ops :: Actors(op) <= actors
  }

  /** Everything the actors hold between them. */
  function Pool(db: Db, actors: set<Id>): set<string> {
    set a, p | a in actors && p in Permissions(db, a) :: p
  }

  /** No user holds more than at the start plus the pool. */
  ghost predicate Contained(start: Db, db: Db, pool: set<string>) {
    forall u :: Permissions(db, u) <= Permissions(start, u) + pool
  }

  /** An operation other than a grant gives nobody anything. */
  lemma OnlyGrantsWiden(db: Db, op: Op, u: Id)
    requires !op.AssignRole? && !op.AssignPermission?
    ensures Permissions(Apply(db, op).0, u) <= Permissions(db, u)
  {
    hide HasAuthority, RoleKeys, SuperAdminRemains;
  }

  lemma AssignRoleWidens(db: Db, actor: Id, target: Id, role: Id, u: Id)
    ensures Permissions(Apply(db, AssignRole(actor, target, role)).0, u) <= Permissions(db, u) + Permissions(db, actor)
  {
    hide HasAuthority, SuperAdminRemains;
    var next := Apply(db, AssignRole(actor, target, role)).0;
    forall p | p in Permissions(next, u) && p !in Permissions(db, u) ensures p in Permissions(db, actor) {
      var r :| r in next.users[u].roles && r in next.roles && p in next.roles[r].permissions;
      assert r == role && p in RoleKeys(db.roles[role]);
    }
  }

  lemma AssignPermissionWidens(db: Db, actor: Id, role: Id, permission: string, u: Id)
    ensures Permissions(Apply(db, AssignPermission(actor, role, permission)).0, u)
            <= Permissions(db, u) + Permissions(db, actor)
  {
    hide HasAuthority, RoleKeys, SuperAdminRemains;
    var next := Apply(db, AssignPermission(actor, role, permission)).0;
    forall p | p in Permissions(next, u) && p !in Permissions(db, u) ensures p in Permissions(db, actor) {
      var r :| r in next.users[u].roles && r in next.roles && p in next.roles[r].permissions;
      assert r == role && p == permission;
    }
  }

  /** One operation widens nobody's permissions by more than its actor already holds. */
  lemma StepContained(db: Db, op: Op, u: Id)
    ensures Permissions(Apply(db, op).0, u) <= Permissions(db, u) + Pool(db, Actors(op))
  {
    hide Permissions, Apply;
    match op
    case AssignRole(a, t, role) => AssignRoleWidens(db, a, t, role, u);
    case AssignPermission(a, role, permission) => AssignPermissionWidens(db, a, role, permission, u);
    case _ => OnlyGrantsWiden(db, op, u);
  }

  /** No escalation by delegation: in any run performed by a set of actors, every user's permissions
      stay within what that user had at the start together with what the actors had at the start. */
  lemma {:induction false} NoEscalation(db: Db, ops: seq<Op>, actors: set<Id>)
    requires PerformedBy(ops, actors)
    ensures Contained(db, Run(db, ops), Pool(db, actors))
    decreases |ops|
  {
    if ops != [] {
      var prefix, op := ops[..|ops| - 1], ops[|ops| - 1];
      assert op in ops && PerformedBy(prefix, actors);
      NoEscalation(db, prefix, actors);
      var mid, pool := Run(db, prefix), Pool(db, actors);
      hide Run, Apply;
      PoolStays(db, mid, Actors(op), actors);
      forall u ensures Permissions(Apply(mid, op).0, u) <= Permissions(db, u) + pool {
        StepContained(mid, op, u);
      }
      assert Contained(db, Apply(mid, op).0, pool);
      RunStep(db, ops);
    }
  }

  lemma RunStep(db: Db, ops: seq<Op>)
    requires ops != []
    ensures Run(db, ops) == Apply(Run(db, ops[..|ops| - 1]), ops[|ops| - 1]).0
  {
  }

  /** What some of the actors hold later is still within the pool they started with. */
  lemma PoolStays(db: Db, mid: Db, some: set<Id>, actors: set<Id>)
    requires Contained(db, mid, Pool(db, actors)) && some <= actors
    ensures Pool(mid, some) <= Pool(db, actors)
  {
    hide Permissions;
    forall p | p in Pool(mid, some) ensures p in Pool(db, actors) {
      var a :| a in some && p in Permissions(mid, a);
      assert p in Permissions(db, a) + Pool(db, actors);
    }
  }

  /** So nobody can obtain a permission that neither they nor any actor held. */
  lemma NewPermissionComesFromAnActor(db: Db, ops: seq<Op>, actors: set<Id>, u: Id, p: string)
    requires PerformedBy(ops, actors)
    requires p in Permissions(Run(db, ops), u) && p !in Permissions(db, u)
    ensures exists a :: a in actors && p in Permissions(db, a)
  {
    hide Run, Permissions;
    NoEscalation(db, ops, actors);
    assert p in Permissions(db, u) + Pool(db, actors);
  }

  lemma StepKeepsSystemRole(db: Db, op: Op, role: Id)
    requires role in db.roles && db.roles[role].isSystem
    ensures role in Apply(db, op).0.roles && Apply(db, op).0.roles[role] == db.roles[role]
  {
    hide Permissions, HasAuthority, RoleKeys, SuperAdminRemains;
  }

  /** System roles keep their permissions, name and existence through every run. */
  lemma {:induction false} SystemRolesFixed(db: Db, ops: seq<Op>, role: Id)
    requires role in db.roles && db.roles[role].isSystem
    ensures role in Run(db, ops).roles && Run(db, ops).roles[role] == db.roles[role]
    decreases |ops|
  {
    if ops != [] {
      SystemRolesFixed(db, ops[..|ops| - 1], role);
      StepKeepsSystemRole(Run(db, ops[..|ops| - 1]), ops[|ops| - 1], role);
    }
  }

  ghost predicate UniqueNames(db: Db) {
    forall r, s | r in db.roles && s in db.roles && db.roles[r].name == db.roles[s].name :: r == s
  }

  /** Because the remaining-super-admin check leaves out the very role being revoked, and role names are
      unique, revoking SUPER_ADMIN succeeds exactly when everything else allows it and the target is
      inactive: from an active holder it is refused even while other active super admins exist. */
  lemma SuperAdminRevokedIffInactive(db: Db, actor: Id, target: Id, role: Id)
    requires UniqueNames(db) && role in db.roles && db.roles[role].name == SUPER_ADMIN
    requires actor in db.users && target in db.users && role in db.users[target].roles
    requires HasAuthority(db, actor, ROLES_ASSIGN) && RoleKeys(db.roles[role]) <= Permissions(db, actor)
    ensures Apply(db, RevokeRole(actor, target, role)).1.None? <==> !db.users[target].active
  {
    hide Permissions, HasAuthority, RoleKeys;
    assert !SuperAdminRemains(db, target, role);
  }
}
