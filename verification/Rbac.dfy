/** Roles, permissions and the two join tables; flattening of a user's roles into the names that
    are baked into an access token. */
module Rbac {
  import opened Basics

  /** Entities as the ORM hands them out: a role comes with its permissions (eager loading). */
  datatype Permission = Permission(id: Id, name: string)
  datatype Role = Role(id: Id, name: string, permissions: Option<seq<Permission>>)

  /** The `roles` table row; `permissions` rows are already entities. */
  datatype RoleRow = RoleRow(id: Id, name: string)

  /** `roles`, `permissions`, `role_permissions` (role, permission) and `user_roles` (user, role). */
  datatype Graph = Graph(
    roles: seq<RoleRow>, permissions: seq<Permission>,
    rolePermissions: set<(Id, Id)>, userRoles: set<(Id, Id)>)

  // ---------- flattening ----------

  function FlattenRoleNames(roles: seq<Role>): seq<string> {
    seq(|roles|, i requires 0 <= i < |roles| => roles[i].name)
  }

  /** Role names are listed role by role, in order, repetitions included. */
  lemma RoleNamesConcat(a: seq<Role>, b: seq<Role>)
    ensures FlattenRoleNames(a + b) == FlattenRoleNames(a) + FlattenRoleNames(b)
    ensures forall role :: FlattenRoleNames([role]) == [role.name]
  {
  }

  /** `role.permissions ?? []` */
  function PermissionsOf(role: Role): seq<Permission> {
    if role.permissions.None? then [] else role.permissions.value
  }

  /** `Set.add`: a JavaScript set iterates in insertion order. */
  function SetAdd(names: seq<string>, name: string): seq<string> {
    if name in names then names else names + [name]
  }

  function AddAll(names: seq<string>, permissions: seq<Permission>): seq<string> {
    if permissions == [] then names
    else SetAdd(AddAll(names, permissions[..|permissions| - 1]), permissions[|permissions| - 1].name)
  }

  function PermissionNames(roles: seq<Role>): seq<string> {
    if roles == [] then []
    else AddAll(PermissionNames(roles[..|roles| - 1]), PermissionsOf(roles[|roles| - 1]))
  }

  /** The nested loops over roles and permissions. */
  method FlattenPermissionNames(roles: seq<Role>) returns (names: seq<string>)
    ensures names == PermissionNames(roles)
  {
    names := [];
    for i := 0 to |roles|
      invariant names == PermissionNames(roles[..i])
    {
      var permissions := PermissionsOf(roles[i]);
      ghost var before := names;
      for j := 0 to |permissions|
        invariant names == AddAll(before, permissions[..j])
      {
        names := SetAdd(names, permissions[j].name);
        assert permissions[..j + 1][..j] == permissions[..j];
      }
      assert permissions[..|permissions|] == permissions;
      assert roles[..i + 1][..i] == roles[..i];
    }
    assert roles[..|roles|] == roles;
  }

  /** Every permission name in the order the nested loops meet it, repetitions included. */
  ghost function AllNames(roles: seq<Role>): seq<string> {
    if roles == [] then []
    else AllNames(roles[..|roles| - 1]) + NamesOf(PermissionsOf(roles[|roles| - 1]))
  }

  function NamesOf(permissions: seq<Permission>): seq<string> {
    seq(|permissions|, i requires 0 <= i < |permissions| => permissions[i].name)
  }

  /** The elements of `s` that do not occur earlier in `s`, in order. */
  ghost function FirstOccurrences(s: seq<string>): seq<string> {
    if s == [] then []
    else
      var front := s[..|s| - 1];
      if s[|s| - 1] in front then FirstOccurrences(front) else FirstOccurrences(front) + [s[|s| - 1]]
  }

  lemma {:induction false} FirstOccurrencesExact(s: seq<string>)
    ensures forall x :: x in FirstOccurrences(s) <==> x in s
    ensures forall i, j :: 0 <= i < j < |FirstOccurrences(s)| ==> FirstOccurrences(s)[i] != FirstOccurrences(s)[j]
  {
    if s != [] {
      var front := s[..|s| - 1];
      FirstOccurrencesExact(front);
      assert s == front + [s[|s| - 1]];
    }
  }

  lemma {:induction false} AddAllIsFirstOccurrences(s: seq<string>, permissions: seq<Permission>)
    ensures AddAll(FirstOccurrences(s), permissions) == FirstOccurrences(s + NamesOf(permissions))
  {
    if permissions == [] {
      assert s + NamesOf(permissions) == s;
    } else {
      var front := permissions[..|permissions| - 1];
      var last := permissions[|permissions| - 1].name;
      AddAllIsFirstOccurrences(s, front);
      var all := s + NamesOf(permissions);
      assert all[..|all| - 1] == s + NamesOf(front) && all[|all| - 1] == last;
      FirstOccurrencesExact(s + NamesOf(front));
    }
  }

  /** Flattening lists each reachable permission name once, in first-occurrence order. */
  lemma {:induction false} FlattenIsFirstOccurrences(roles: seq<Role>)
    ensures PermissionNames(roles) == FirstOccurrences(AllNames(roles))
  {
    if roles != [] {
      FlattenIsFirstOccurrences(roles[..|roles| - 1]);
      AddAllIsFirstOccurrences(AllNames(roles[..|roles| - 1]), PermissionsOf(roles[|roles| - 1]));
    }
  }

  ghost predicate Grants(role: Role, name: string) {
    exists p :: p in PermissionsOf(role) && p.name == name
  }

  lemma {:induction false} AllNamesAreGranted(roles: seq<Role>, name: string)
    ensures name in AllNames(roles) <==> exists r :: r in roles && Grants(r, name)
  {
    if roles != [] {
      var front, last := roles[..|roles| - 1], roles[|roles| - 1];
      AllNamesAreGranted(front, name);
      assert roles == front + [last];
      var names := NamesOf(PermissionsOf(last));
      if name in names {
        var i :| 0 <= i < |names| && names[i] == name;
        assert PermissionsOf(last)[i] in PermissionsOf(last);
        assert Grants(last, name);
      }
      if Grants(last, name) {
        var p :| p in PermissionsOf(last) && p.name == name;
        var i :| 0 <= i < |names| && PermissionsOf(last)[i] == p;
        assert names[i] == name;
      }
    }
  }

  /** The flattened list holds exactly the union over the roles, without repetition. */
  lemma FlattenIsUnion(roles: seq<Role>)
    ensures forall name :: name in PermissionNames(roles) <==> exists r :: r in roles && Grants(r, name)
    ensures forall i, j :: 0 <= i < j < |PermissionNames(roles)| ==> PermissionNames(roles)[i] != PermissionNames(roles)[j]
  {
    FlattenIsFirstOccurrences(roles);
    FirstOccurrencesExact(AllNames(roles));
    forall name
      ensures name in PermissionNames(roles) <==> exists r :: r in roles && Grants(r, name)
    {
      AllNamesAreGranted(roles, name);
    }
  }

  /** The set of names does not depend on the order of the roles, and more roles never take a name away. */
  lemma FlattenMonotone(fewer: seq<Role>, more: seq<Role>)
    requires forall r :: r in fewer ==> r in more
    ensures forall name :: name in PermissionNames(fewer) ==> name in PermissionNames(more)
    ensures (forall r :: r in more ==> r in fewer) ==>
              forall name :: name in PermissionNames(fewer) <==> name in PermissionNames(more)
  {
    FlattenIsUnion(fewer);
    FlattenIsUnion(more);
  }

  // ---------- loading ----------

  function LoadPermissions(ps: seq<Permission>, role: Id, links: set<(Id, Id)>): (r: seq<Permission>)
    ensures forall p :: p in r <==> p in ps && (role, p.id) in links
  {
    if ps == [] then []
    else
      var front := LoadPermissions(ps[..|ps| - 1], role, links);
      assert ps == ps[..|ps| - 1] + [ps[|ps| - 1]];
      if (role, ps[|ps| - 1].id) in links then front + [ps[|ps| - 1]] else front
  }

  function LoadRole(g: Graph, row: RoleRow): Role {
    Role(row.id, row.name, Some(LoadPermissions(g.permissions, row.id, g.rolePermissions)))
  }

  function LoadRows(g: Graph, rows: seq<RoleRow>): seq<Role> {
    seq(|rows|, i requires 0 <= i < |rows| => LoadRole(g, rows[i]))
  }

  function RowsOfUser(rows: seq<RoleRow>, user: Id, links: set<(Id, Id)>): (r: seq<RoleRow>)
    ensures forall x :: x in r <==> x in rows && (user, x.id) in links
  {
    if rows == [] then []
    else
      var front := RowsOfUser(rows[..|rows| - 1], user, links);
      assert rows == rows[..|rows| - 1] + [rows[|rows| - 1]];
      if (user, rows[|rows| - 1].id) in links then front + [rows[|rows| - 1]] else front
  }

  /** `user.roles` as eagerly loaded with the user. */
  function RolesOfUser(g: Graph, user: Id): seq<Role> {
    LoadRows(g, RowsOfUser(g.roles, user, g.userRoles))
  }

  /** The user really holds the permission: some role linked to the user carries it. */
  ghost predicate Holds(g: Graph, user: Id, name: string) {
    exists r: Id :: HasRole(g, r) && (user, r) in g.userRoles && Carries(g, r, name)
  }

  ghost predicate Carries(g: Graph, role: Id, name: string) {
    exists p: Id :: (role, p) in g.rolePermissions && HasPermission(g, p, name)
  }

  ghost predicate HasRole(g: Graph, id: Id) {
    exists row :: row in g.roles && row.id == id
  }

  ghost predicate HasPermission(g: Graph, id: Id, name: string) {
    exists p :: p in g.permissions && p.id == id && p.name == name
  }

  /** What is baked into a token is exactly what the user holds through the role graph. */
  lemma FlattenedIsHeld(g: Graph, user: Id, name: string)
    ensures name in PermissionNames(RolesOfUser(g, user)) <==> Holds(g, user, name)
  {
    var rows := RowsOfUser(g.roles, user, g.userRoles);
    var roles := RolesOfUser(g, user);
    FlattenIsUnion(roles);
    if name in PermissionNames(roles) {
      var role :| role in roles && Grants(role, name);
      var i :| 0 <= i < |roles| && roles[i] == role;
      var p :| p in PermissionsOf(role) && p.name == name;
      assert rows[i] in g.roles && HasRole(g, role.id) && HasPermission(g, p.id, name);
      assert (user, role.id) in g.userRoles && (role.id, p.id) in g.rolePermissions;
      assert Carries(g, role.id, name);
    }
    if Holds(g, user, name) {
      var r: Id :| HasRole(g, r) && (user, r) in g.userRoles && Carries(g, r, name);
      var p: Id :| (r, p) in g.rolePermissions && HasPermission(g, p, name);
      var row :| row in g.roles && row.id == r;
      var q :| q in g.permissions && q.id == p && q.name == name;
      var i :| 0 <= i < |rows| && rows[i] == row;
      assert q in PermissionsOf(roles[i]);
      assert Grants(roles[i], name);
    }
  }

  // ---------- mutation of the graph ----------

  function FindRole(rows: seq<RoleRow>, id: Id): (at: int)
    ensures -1 <= at < |rows|
    ensures at >= 0 ==> rows[at].id == id
    ensures at < 0 ==> forall r :: r in rows ==> r.id != id
  {
    if rows == [] then -1
    else
      var at := FindRole(rows[..|rows| - 1], id);
      assert rows == rows[..|rows| - 1] + [rows[|rows| - 1]];
      if at >= 0 then at else if rows[|rows| - 1].id == id then |rows| - 1 else -1
  }

  /** `find({ where: { name: In(names) } })` */
  function RolesNamed(rows: seq<RoleRow>, names: seq<string>): (r: seq<RoleRow>)
    ensures forall x :: x in r <==> x in rows && x.name in names
  {
    if rows == [] then []
    else
      var front := RolesNamed(rows[..|rows| - 1], names);
      assert rows == rows[..|rows| - 1] + [rows[|rows| - 1]];
      if rows[|rows| - 1].name in names then front + [rows[|rows| - 1]] else front
  }

  function PermissionsNamed(rows: seq<Permission>, names: seq<string>): (r: seq<Permission>)
    ensures forall x :: x in r <==> x in rows && x.name in names
  {
    if rows == [] then []
    else
      var front := PermissionsNamed(rows[..|rows| - 1], names);
      assert rows == rows[..|rows| - 1] + [rows[|rows| - 1]];
      if rows[|rows| - 1].name in names then front + [rows[|rows| - 1]] else front
  }

  /** `names.filter(n => !foundNames.has(n))` */
  function Missing(names: seq<string>, found: set<string>): (r: seq<string>)
    ensures forall n :: n in r <==> n in names && n !in found
  {
    if names == [] then []
    else
      var front := Missing(names[..|names| - 1], found);
      assert names == names[..|names| - 1] + [names[|names| - 1]];
      if names[|names| - 1] !in found then front + [names[|names| - 1]] else front
  }

  lemma MissingNone(found: set<string>)
    ensures Missing([], found) == []
  {
  }

  lemma MissingOne(n: string, found: set<string>)
    ensures Missing([n], found) == if n in found then [] else [n]
  {
    assert [n][..0] == [];
    assert Missing([n][..0], found) == [];
  }

  lemma MissingLast(names: seq<string>, found: set<string>)
    requires names != []
    ensures var front, last := Missing(names[..|names| - 1], found), names[|names| - 1];
            Missing(names, found) == if last in found then front else front + [last]
  {
  }

  /** Filtering keeps order and repetitions: part by part, from the left. */
  lemma {:induction false} MissingConcat(a: seq<string>, b: seq<string>, found: set<string>)
    ensures Missing(a + b, found) == Missing(a, found) + Missing(b, found)
  {
    hide Missing;
    if b == [] {
      assert a + b == a;
      MissingNone(found);
    } else {
      MissingConcat(a, b[..|b| - 1], found);
      assert (a + b)[..|a + b| - 1] == a + b[..|b| - 1];
      MissingLast(a + b, found);
      MissingLast(b, found);
    }
  }

  function CreateRole(g: Graph, id: Id, name: string): Result<Graph> {
    if exists r :: r in g.roles && r.name == name then Err(NameTaken)
    else Ok(g.(roles := g.roles + [RoleRow(id, name)]))
  }

  function CreatePermission(g: Graph, id: Id, name: string): Result<Graph> {
    if exists p :: p in g.permissions && p.name == name then Err(NameTaken)
    else Ok(g.(permissions := g.permissions + [Permission(id, name)]))
  }

  /** Deleting a role cascades into both join tables. */
  function RemoveRole(g: Graph, id: Id): Result<Graph> {
    var at := FindRole(g.roles, id);
    if at < 0 then Err(RoleNotFound)
    else Ok(g.(roles := g.roles[..at] + g.roles[at + 1..],
               rolePermissions := (set l | l in g.rolePermissions && l.0 != id),
               userRoles := (set l | l in g.userRoles && l.1 != id)))
  }

  function SetPermissions(g: Graph, id: Id, names: seq<string>): Result<Graph> {
    if FindRole(g.roles, id) < 0 then Err(RoleNotFound)
    else
      var found := PermissionsNamed(g.permissions, names);
      var missing := Missing(names, set p | p in found :: p.name);
      if missing != [] then Err(UnknownNames(missing))
      else Ok(g.(rolePermissions := (set l | l in g.rolePermissions && l.0 != id) + (set p | p in found :: (id, p.id))))
  }

  /** The part of `assignRoles` after the user has been found. */
  function AssignRoles(g: Graph, user: Id, names: seq<string>): Result<Graph> {
    var found := RolesNamed(g.roles, names);
    var missing := Missing(names, set r | r in found :: r.name);
    if missing != [] then Err(UnknownNames(missing))
    else Ok(LinkUser(g, user, found))
  }

  /** `user.roles = roles` and save. */
  function LinkUser(g: Graph, user: Id, rows: seq<RoleRow>): Graph {
    g.(userRoles := (set l | l in g.userRoles && l.0 != user) + (set r | r in rows :: (user, r.id)))
  }

  /** Names and ids are unique, and no link dangles. */
  ghost predicate Sound(g: Graph, next: nat) {
    && (forall i :: 0 <= i < |g.roles| ==> g.roles[i].id < next)
    && (forall i :: 0 <= i < |g.permissions| ==> g.permissions[i].id < next)
    && (forall i, j :: 0 <= i < j < |g.roles| ==> g.roles[i].id != g.roles[j].id && g.roles[i].name != g.roles[j].name)
    && (forall i, j :: 0 <= i < j < |g.permissions| ==>
          g.permissions[i].id != g.permissions[j].id && g.permissions[i].name != g.permissions[j].name)
    && (forall l :: l in g.rolePermissions ==> HasRole(g, l.0) && exists p :: p in g.permissions && p.id == l.1)
    && (forall l :: l in g.userRoles ==> l.0 < next && HasRole(g, l.1))
  }

  lemma UniqueRole(g: Graph, next: nat, a: RoleRow, b: RoleRow)
    requires Sound(g, next) && a in g.roles && b in g.roles && (a.id == b.id || a.name == b.name)
    ensures a == b
  {
  }

  lemma UniquePermission(g: Graph, next: nat, a: Permission, b: Permission)
    requires Sound(g, next) && a in g.permissions && b in g.permissions && (a.id == b.id || a.name == b.name)
    ensures a == b
  {
  }

  ghost predicate KnownPermission(g: Graph, name: string) {
    exists p :: p in g.permissions && p.name == name
  }

  ghost predicate KnownRole(g: Graph, name: string) {
    exists r :: r in g.roles && r.name == name
  }

  /** The user is linked to the role of that name. */
  ghost predicate Member(g: Graph, user: Id, name: string) {
    exists r :: r in g.roles && r.name == name && (user, r.id) in g.userRoles
  }

  /** `setPermissions` installs exactly the requested names on that role and on no other, or fails
      because the role or one of the names does not exist. */
  lemma SetPermissionsExact(g: Graph, next: nat, id: Id, names: seq<string>)
    requires Sound(g, next)
    ensures SetPermissions(g, id, names).Ok? <==> HasRole(g, id) && forall n :: n in names ==> KnownPermission(g, n)
    ensures SetPermissions(g, id, names).Ok? ==>
              var g' := SetPermissions(g, id, names).value;
              && (forall n :: Carries(g', id, n) <==> n in names)
              && (forall r: Id, n :: r != id ==> (Carries(g', r, n) <==> Carries(g, r, n)))
              && g' == g.(rolePermissions := g'.rolePermissions)
    ensures SetPermissions(g, id, names).Err? && HasRole(g, id) ==>
              && SetPermissions(g, id, names).error.UnknownNames?
              && forall n :: n in SetPermissions(g, id, names).error.names <==> n in names && !KnownPermission(g, n)
  {
    MissingPermissions(g, names);
    if SetPermissions(g, id, names).Ok? {
      var g' := SetPermissions(g, id, names).value;
      InstalledPermissions(g, next, id, names, g');
      forall r: Id, n | r != id ensures Carries(g', r, n) <==> Carries(g, r, n) {
        assert forall p: Id :: (r, p) in g'.rolePermissions <==> (r, p) in g.rolePermissions;
        assert forall p: Id :: HasPermission(g', p, n) <==> HasPermission(g, p, n);
      }
    }
  }

  lemma MissingPermissions(g: Graph, names: seq<string>)
    ensures var missing := Missing(names, set p | p in PermissionsNamed(g.permissions, names) :: p.name);
            && (forall n :: n in missing <==> n in names && !KnownPermission(g, n))
            && (missing == [] <==> forall n :: n in names ==> KnownPermission(g, n))
  {
    var foundNames := set p | p in PermissionsNamed(g.permissions, names) :: p.name;
    var missing := Missing(names, foundNames);
    assert forall n :: n in names ==> (n in foundNames <==> KnownPermission(g, n));
    assert missing != [] ==> missing[0] in missing;
  }

  lemma InstalledPermissions(g: Graph, next: nat, id: Id, names: seq<string>, g': Graph)
    requires Sound(g, next) && SetPermissions(g, id, names) == Ok(g') && forall n :: n in names ==> KnownPermission(g, n)
    ensures forall n :: Carries(g', id, n) <==> n in names
  {
    var found := PermissionsNamed(g.permissions, names);
    forall n ensures Carries(g', id, n) <==> n in names {
      if Carries(g', id, n) {
        var p: Id :| (id, p) in g'.rolePermissions && HasPermission(g', p, n);
        var a :| a in found && a.id == p;
        var b :| b in g.permissions && b.id == p && b.name == n;
        UniquePermission(g, next, a, b);
      }
      if n in names {
        var p :| p in g.permissions && p.name == n;
        assert (id, p.id) in g'.rolePermissions && HasPermission(g', p.id, n);
      }
    }
  }

  /** `assignRoles` makes the user a member of exactly the named roles and touches no other user,
      or fails because one of the names does not exist. */
  lemma AssignRolesExact(g: Graph, next: nat, user: Id, names: seq<string>)
    requires Sound(g, next)
    ensures AssignRoles(g, user, names).Ok? <==> forall n :: n in names ==> KnownRole(g, n)
    ensures AssignRoles(g, user, names).Ok? ==>
              var g' := AssignRoles(g, user, names).value;
              && (forall n :: Member(g', user, n) <==> n in names)
              && (forall u: Id, r: Id :: u != user ==> ((u, r) in g'.userRoles <==> (u, r) in g.userRoles))
              && g' == g.(userRoles := g'.userRoles)
    ensures AssignRoles(g, user, names).Err? ==>
              && AssignRoles(g, user, names).error.UnknownNames?
              && forall n :: n in AssignRoles(g, user, names).error.names <==> n in names && !KnownRole(g, n)
  {
    MissingRoles(g, names);
    LinkedMembership(g, next, user, names);
  }

  lemma MissingRoles(g: Graph, names: seq<string>)
    ensures var missing := Missing(names, set r | r in RolesNamed(g.roles, names) :: r.name);
            && (forall n :: n in missing <==> n in names && !KnownRole(g, n))
            && (missing == [] <==> forall n :: n in names ==> KnownRole(g, n))
  {
    var foundNames := set r | r in RolesNamed(g.roles, names) :: r.name;
    var missing := Missing(names, foundNames);
    assert forall n :: n in names ==> (n in foundNames <==> KnownRole(g, n));
    assert missing != [] ==> missing[0] in missing;
  }

  lemma LinkedMembership(g: Graph, next: nat, user: Id, names: seq<string>)
    requires Sound(g, next)
    ensures forall n :: Member(LinkUser(g, user, RolesNamed(g.roles, names)), user, n) <==> n in names && KnownRole(g, n)
  {
  }

  /** After `remove`, a user holds what the roles left to it carry, and nothing else. */
  lemma RemoveRoleExact(g: Graph, next: nat, id: Id, user: Id, name: string)
    requires Sound(g, next)
    ensures RemoveRole(g, id).Ok? <==> HasRole(g, id)
    ensures RemoveRole(g, id).Ok? ==>
              (Holds(RemoveRole(g, id).value, user, name) <==>
               exists r: Id :: r != id && HasRole(g, r) && (user, r) in g.userRoles && Carries(g, r, name))
  {
  }

  /** What removing a role leaves alone: every other role with its links and permissions. */
  lemma RemoveRoleElsewhere(g: Graph, next: nat, id: Id)
    requires Sound(g, next)
    ensures RemoveRole(g, id).Err? ==> RemoveRole(g, id).error == RoleNotFound
    ensures RemoveRole(g, id).Ok? ==>
              var g' := RemoveRole(g, id).value;
              && (forall x :: x in g'.roles <==> x in g.roles && x.id != id)
              && (forall u: Id, r: Id :: (u, r) in g'.userRoles <==> (u, r) in g.userRoles && r != id)
              && (forall r: Id, p: Id :: (r, p) in g'.rolePermissions <==> (r, p) in g.rolePermissions && r != id)
              && g'.permissions == g.permissions
  {
    var at := FindRole(g.roles, id);
    if at >= 0 {
      var roles' := g.roles[..at] + g.roles[at + 1..];
      forall x | x in g.roles && x.id != id ensures x in roles' {
        var i :| 0 <= i < |g.roles| && g.roles[i] == x;
        assert roles'[if i < at then i else i - 1] == x;
      }
    }
  }

  /** Creating a role adds that name and no other, with no permission and no user, and changes nothing else. */
  lemma CreateRoleExact(g: Graph, next: nat, id: Id, name: string)
    requires Sound(g, next) && next <= id
    ensures if KnownRole(g, name) then CreateRole(g, id, name) == Err(NameTaken) else CreateRole(g, id, name).Ok?
    ensures CreateRole(g, id, name).Ok? ==>
              var g' := CreateRole(g, id, name).value;
              && HasRole(g', id) && !HasRole(g, id)
              && (forall x :: x in g'.roles <==> x in g.roles || x == RoleRow(id, name))
              && (forall n :: KnownRole(g', n) <==> KnownRole(g, n) || n == name)
              && (forall n :: !Carries(g', id, n)) && (forall u: Id :: (u, id) !in g'.userRoles)
              && g' == g.(roles := g'.roles)
  {
    if !KnownRole(g, name) {
      var g' := CreateRole(g, id, name).value;
      assert g'.roles[|g.roles|] == RoleRow(id, name) && RoleRow(id, name) in g'.roles;
      forall l | l in g.rolePermissions ensures l.0 != id {}
      forall l | l in g.userRoles ensures l.1 != id {}
    }
  }

  /** The same for a permission: it exists afterwards, and nobody carries it yet. */
  lemma CreatePermissionExact(g: Graph, next: nat, id: Id, name: string)
    requires Sound(g, next) && next <= id
    ensures if KnownPermission(g, name) then CreatePermission(g, id, name) == Err(NameTaken) else CreatePermission(g, id, name).Ok?
    ensures CreatePermission(g, id, name).Ok? ==>
              var g' := CreatePermission(g, id, name).value;
              && (forall x :: x in g'.permissions <==> x in g.permissions || x == Permission(id, name))
              && (forall n :: KnownPermission(g', n) <==> KnownPermission(g, n) || n == name)
              && (forall r: Id, n :: Carries(g', r, n) <==> Carries(g, r, n))
              && g' == g.(permissions := g'.permissions)
  {
    if !KnownPermission(g, name) {
      var g' := CreatePermission(g, id, name).value;
      assert g'.permissions[|g.permissions|] == Permission(id, name) && Permission(id, name) in g'.permissions;
      forall l | l in g.rolePermissions ensures l.1 != id {}
      forall r: Id, n ensures Carries(g', r, n) <==> Carries(g, r, n) {
        forall p: Id | (r, p) in g.rolePermissions ensures HasPermission(g', p, n) <==> HasPermission(g, p, n) {
          assert p != id;
        }
      }
    }
  }

  // ---------- every mutation keeps the graph sound ----------

  lemma SoundLater(g: Graph, next: nat, next': nat)
    requires Sound(g, next) && next <= next'
    ensures Sound(g, next')
  {
  }

  lemma CreateRoleSound(g: Graph, next: nat, id: Id, name: string)
    requires Sound(g, next) && next <= id
    ensures CreateRole(g, id, name).Ok? <==> !KnownRole(g, name)
    ensures CreateRole(g, id, name).Ok? ==> Sound(CreateRole(g, id, name).value, id + 1)
  {
  }

  lemma CreatePermissionSound(g: Graph, next: nat, id: Id, name: string)
    requires Sound(g, next) && next <= id
    ensures CreatePermission(g, id, name).Ok? <==> !KnownPermission(g, name)
    ensures CreatePermission(g, id, name).Ok? ==> Sound(CreatePermission(g, id, name).value, id + 1)
  {
  }

  lemma RemovedRolesUnique(rows: seq<RoleRow>, at: nat, next: nat)
    requires at < |rows| && forall i :: 0 <= i < |rows| ==> rows[i].id < next
    requires forall i, j :: 0 <= i < j < |rows| ==> rows[i].id != rows[j].id && rows[i].name != rows[j].name
    ensures var rest := rows[..at] + rows[at + 1..];
            && (forall i :: 0 <= i < |rest| ==> rest[i].id < next)
            && (forall i, j :: 0 <= i < j < |rest| ==> rest[i].id != rest[j].id && rest[i].name != rest[j].name)
  {
    var rest := rows[..at] + rows[at + 1..];
    forall i | 0 <= i < |rest| ensures rest[i] == rows[if i < at then i else i + 1] {}
  }

  lemma RemoveRoleSound(g: Graph, next: nat, id: Id)
    requires Sound(g, next)
    ensures RemoveRole(g, id).Ok? ==> Sound(RemoveRole(g, id).value, next)
  {
    var at := FindRole(g.roles, id);
    if at >= 0 {
      RemovedRolesUnique(g.roles, at, next);
      RemoveRoleElsewhere(g, next, id);
      RemovedLinks(g, RemoveRole(g, id).value, id);
    }
  }

  lemma RemovedLinks(g: Graph, g': Graph, id: Id)
    requires forall x :: x in g'.roles <==> x in g.roles && x.id != id
    ensures forall role: Id :: role != id && HasRole(g, role) ==> HasRole(g', role)
  {
    forall role: Id | role != id && HasRole(g, role) ensures HasRole(g', role) {
      var x :| x in g.roles && x.id == role;
      assert x in g'.roles;
    }
  }

  lemma SetPermissionsSound(g: Graph, next: nat, id: Id, names: seq<string>)
    requires Sound(g, next)
    ensures SetPermissions(g, id, names).Ok? ==> Sound(SetPermissions(g, id, names).value, next)
  {
  }

  lemma LinkUserSound(g: Graph, next: nat, user: Id, rows: seq<RoleRow>)
    requires Sound(g, next) && user < next && forall r :: r in rows ==> r in g.roles
    ensures Sound(LinkUser(g, user, rows), next)
  {
  }
}
