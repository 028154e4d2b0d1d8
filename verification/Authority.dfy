/** How stale the authority in an access token can be. */
module Authority {
  import opened Basics
  import opened RefreshTable
  import opened Rbac
  import opened Email
  import opened World
  import opened Invariants
  import opened Runs

  /** The names baked into the token are exactly what its subject holds in this role graph. */
  ghost predicate TrueOf(a: AccessToken, g: Graph) {
    && (forall p :: p in a.permissions <==> Holds(g, a.sub, p))
    && (forall n :: n in a.roles <==> Member(g, a.sub, n))
  }

  lemma RoleNamesAreMemberships(g: Graph, user: Id, name: string)
    ensures name in FlattenRoleNames(RolesOfUser(g, user)) <==> Member(g, user, name)
  {
    var rows := RowsOfUser(g.roles, user, g.userRoles);
    var names := FlattenRoleNames(RolesOfUser(g, user));
    if name in names {
      var i :| 0 <= i < |names| && names[i] == name;
      assert rows[i] in rows;
    }
    if Member(g, user, name) {
      var row :| row in g.roles && row.name == name && (user, row.id) in g.userRoles;
      var i :| 0 <= i < |rows| && rows[i] == row;
      assert names[i] == name;
    }
  }

  /** A freshly registered user holds what the role named `user` carries. */
  lemma NewUserRoles(g: Graph, next: nat, user: Id)
    requires Sound(g, next)
    ensures var rows := RolesNamed(g.roles, ["user"]);
            LoadRows(g, rows) == RolesOfUser(LinkUser(g, user, rows), user)
  {
    var rows := RolesNamed(g.roles, ["user"]);
    var links := LinkUser(g, user, rows).userRoles;
    forall x | x in g.roles ensures (user, x.id) in links <==> x.name in ["user"] {
      if (user, x.id) in links {
        var y :| y in rows && y.id == x.id;
        UniqueRole(g, next, x, y);
      }
    }
    SameFilter(g.roles, ["user"], user, links);
  }

  lemma {:induction false} SameFilter(rows: seq<RoleRow>, names: seq<string>, user: Id, links: set<(Id, Id)>)
    requires forall x :: x in rows ==> ((user, x.id) in links <==> x.name in names)
    ensures RolesNamed(rows, names) == RowsOfUser(rows, user, links)
  {
    if rows != [] {
      assert rows[|rows| - 1] in rows;
      SameFilter(rows[..|rows| - 1], names, user, links);
    }
  }

  /** What is signed is true of the role graph at the moment of signing. */
  lemma SignedIsTrue(c: Config, w: World, e: Event)
    requires WorldInv(c, w) && Step(c, w, e).1.Pair?
    ensures TrueOf(Step(c, w, e).1.pair.accessToken, Step(c, w, e).0.graph)
  {
    var g, a := Step(c, w, e).0.graph, Step(c, w, e).1.pair.accessToken;
    SignedNames(c, w, e);
    forall p ensures p in a.permissions <==> Holds(g, a.sub, p) { FlattenedIsHeld(g, a.sub, p); }
    forall n ensures n in a.roles <==> Member(g, a.sub, n) { RoleNamesAreMemberships(g, a.sub, n); }
  }

  /** The role and permission names of the token are the flattened roles of its subject. */
  ghost predicate NamesOf(a: AccessToken, g: Graph) {
    a.permissions == PermissionNames(RolesOfUser(g, a.sub)) && a.roles == FlattenRoleNames(RolesOfUser(g, a.sub))
  }

  lemma RegisterNames(c: Config, w: World, email: string, password: string, meta: RequestMeta)
    requires Sound(w.graph, w.next) && Register(c, w, email, password, meta).1.Pair?
    ensures NamesOf(Register(c, w, email, password, meta).1.pair.accessToken, Register(c, w, email, password, meta).0.graph)
  {
    hide Sound, PermissionNames, FlattenRoleNames, LinkUser, RolesOfUser, RolesNamed, LoadRows;
    NewUserRoles(w.graph, w.next, w.next);
  }

  lemma LoginNames(c: Config, w: World, user: User, meta: RequestMeta)
    ensures NamesOf(Login(c, w, Load(w, user), meta).1.pair.accessToken, Login(c, w, Load(w, user), meta).0.graph)
  {
  }

  lemma RefreshNames(c: Config, w: World, raw: Id, meta: RequestMeta)
    requires Refresh(c, w, raw, meta).1.Pair?
    ensures NamesOf(Refresh(c, w, raw, meta).1.pair.accessToken, Refresh(c, w, raw, meta).0.graph)
  {
  }

  lemma SignedNames(c: Config, w: World, e: Event)
    requires Sound(w.graph, w.next) && Step(c, w, e).1.Pair?
    ensures NamesOf(Step(c, w, e).1.pair.accessToken, Step(c, w, e).0.graph)
  {
    hide Register, Login, Refresh, NamesOf, Sound, Load;
    match e
    case RegisterReq(email, password, meta) => RegisterNames(c, w, email, password, meta);
    case LoginReq(email, password, meta) => LoginNames(c, w, w.users[FindByEmail(w.users, email)], meta);
    case RefreshReq(raw, meta) => RefreshNames(c, w, raw, meta);
    case _ => StepIssues(c, w, e);
  }

  /** The token names an account by its id and e-mail. */
  lemma SignedForAccount(c: Config, w: World, e: Event)
    requires Step(c, w, e).1.Pair?
    ensures var a := Step(c, w, e).1.pair.accessToken;
            exists u :: u in Step(c, w, e).0.users && u.id == a.sub && u.email == a.email
  {
    hide PermissionNames, FlattenRoleNames, RevokeWhere, FindHash, Accepts;
    var users := Step(c, w, e).0.users;
    match e
    case RegisterReq(_, _, _) => assert users[|w.users|] in users;
    case LoginReq(email, _, _) => assert users[FindByEmail(w.users, email)] in users;
    case RefreshReq(raw, _) =>
      var row := Judge(w.refreshTokens, raw, w.now).row;
      assert users[FindUser(w.users, row.userId)] in users;
    case _ =>
  }

  /** On a token just signed, the permission guard decides exactly as a search of the role graph
      for every required permission would. */
  lemma GuardAgreesWithGraph(c: Config, w: World, e: Event, required: seq<string>)
    requires WorldInv(c, w) && Step(c, w, e).1.Pair?
    requires Authenticate(Step(c, w, e).0, Step(c, w, e).1.pair.accessToken).Some?
    ensures var (w', a) := (Step(c, w, e).0, Step(c, w, e).1.pair.accessToken);
            PermissionsGuard(required, Authenticate(w', a).value) <==> forall p :: p in required ==> Holds(w'.graph, a.sub, p)
  {
    SignedIsTrue(c, w, e);
  }

  /** And the role guard as a search for membership of one of the required roles would, if any is required. */
  lemma RolesGuardAgreesWithGraph(c: Config, w: World, e: Event, required: seq<string>)
    requires WorldInv(c, w) && Step(c, w, e).1.Pair?
    requires Authenticate(Step(c, w, e).0, Step(c, w, e).1.pair.accessToken).Some?
    ensures var (w', a) := (Step(c, w, e).0, Step(c, w, e).1.pair.accessToken);
            RolesGuard(required, Authenticate(w', a).value) <==>
              required == [] || exists n :: n in required && Member(w'.graph, a.sub, n)
  {
    hide Step;
    SignedIsTrue(c, w, e);
  }

  /** Every signed token was true of the role graph at its moment of signing, some moment `j` of the run. */
  lemma {:induction false} SignedWasTrue(r: Run, k: nat, i: nat) returns (j: nat)
    requires Proper(r) && k <= |r.events| && i < |r.At(k).issued|
    ensures j <= k && r.At(j).now == r.At(k).issued[i].at && TrueOf(r.At(k).issued[i].token, r.At(j).graph)
  {
    hide Step;
    var w, e := r.At(k - 1), r.events[k - 1];
    StepIssues(r.c, w, e);
    if i < |w.issued| {
      j := SignedWasTrue(r, k - 1, i);
    } else {
      Reachable(r, k - 1);
      SignedIsTrue(r.c, w, e);
      StepClock(r.c, w, e);
      j := k;
    }
  }

  /** Bounded staleness: whenever the permission guard lets a request through, the user really held
      every required permission through the role graph at some moment less than one access-token
      lifetime earlier, floor-of-seconds arithmetic included. */
  lemma BoundedStaleness(r: Run, k: nat, a: AccessToken, required: seq<string>) returns (j: nat)
    requires Proper(r) && k <= |r.events|
    requires Authenticate(r.At(k), a).Some? && PermissionsGuard(required, Authenticate(r.At(k), a).value)
    ensures j <= k && r.At(k).now - r.c.accessTokenTtl * 1000 < r.At(j).now <= r.At(k).now
    ensures forall p :: p in required ==> Holds(r.At(j).graph, a.sub, p)
  {
    hide Step;
    Reachable(r, k);
    var i :| 0 <= i < |r.At(k).issued| && r.At(k).issued[i].token == a;
    j := SignedWasTrue(r, k, i);
  }

  /** The role guard likewise: the user really was a member of a required role within the lifetime. */
  lemma BoundedRoleStaleness(r: Run, k: nat, a: AccessToken, required: seq<string>) returns (j: nat)
    requires Proper(r) && k <= |r.events| && required != []
    requires Authenticate(r.At(k), a).Some? && RolesGuard(required, Authenticate(r.At(k), a).value)
    ensures j <= k && r.At(k).now - r.c.accessTokenTtl * 1000 < r.At(j).now <= r.At(k).now
    ensures exists n :: n in required && Member(r.At(j).graph, a.sub, n)
  {
    hide Step;
    Reachable(r, k);
    var i :| 0 <= i < |r.At(k).issued| && r.At(k).issued[i].token == a;
    j := SignedWasTrue(r, k, i);
    var n :| n in a.roles && n in required;
    assert Member(r.At(j).graph, a.sub, n);
  }

  /** A permission taken away and not given back is denied from one access-token lifetime later on. */
  lemma TakenAwayIsDenied(r: Run, k: nat, m: nat, a: AccessToken, p: string)
    requires Proper(r) && k <= m <= |r.events|
    requires forall j :: k <= j <= m ==> !Holds(r.At(j).graph, a.sub, p)
    requires r.At(m).now >= r.At(k).now + r.c.accessTokenTtl * 1000
    ensures Authenticate(r.At(m), a).Some? ==> !PermissionsGuard([p], Authenticate(r.At(m), a).value)
  {
    hide Step;
    if Authenticate(r.At(m), a).Some? && PermissionsGuard([p], Authenticate(r.At(m), a).value) {
      var j := BoundedStaleness(r, m, a, [p]);
      assert p in [p];
      if j < k { Later(r, j, k); }
    }
  }

  /** Provenance: roles and permissions are only ever changed for someone who really held the
      permission that the route demands, less than one access-token lifetime earlier. */
  lemma GraphChangedByHolder(r: Run, k: nat) returns (j: nat)
    requires Proper(r) && k < |r.events| && ChangesGraph(r.events[k]) && !r.events[k].RegisterReq?
    requires r.At(k + 1).graph != r.At(k).graph
    ensures j <= k && r.At(k).now - r.c.accessTokenTtl * 1000 < r.At(j).now <= r.At(k).now
    ensures var name := if r.events[k].AssignRolesReq? then "users:manage-roles" else "roles:manage";
            name in r.events[k].bearer.permissions && Holds(r.At(j).graph, r.events[k].bearer.sub, name)
  {
    hide Step;
    var w, e := r.At(k), r.events[k];
    var name := if e.AssignRolesReq? then "users:manage-roles" else "roles:manage";
    StepGraph(r.c, w, e);
    j := BoundedStaleness(r, k, e.bearer, [name]);
    assert name in [name];
  }

  // ---------- the bound is tight ----------

  function AdminWorld(): World {
    World(0, 10,
          [User(1, Normalise("a@b.c"), Argon2("pw"), true)],
          Graph([RoleRow(2, "admin")], [Permission(3, "roles:manage")], {(2, 3)}, {(1, 2)}),
          [], [], map[], [])
  }

  lemma AdminRoles()
    ensures RolesOfUser(AdminWorld().graph, 1) == [Role(2, "admin", Some([Permission(3, "roles:manage")]))]
  {
    var g := AdminWorld().graph;
    assert RowsOfUser(g.roles, 1, g.userRoles) == [RoleRow(2, "admin")];
    assert LoadPermissions(g.permissions, 2, g.rolePermissions) == [Permission(3, "roles:manage")];
  }

  lemma AdminNames()
    ensures PermissionNames([Role(2, "admin", Some([Permission(3, "roles:manage")]))]) == ["roles:manage"]
  {
    var roles, ps := [Role(2, "admin", Some([Permission(3, "roles:manage")]))], [Permission(3, "roles:manage")];
    assert PermissionNames(roles[..0]) == [] && AddAll([], ps[..0]) == [];
    assert PermissionNames(roles) == AddAll([], ps);
  }

  lemma AdminInitial()
    ensures Initial(AdminWorld())
  {
    hide Normalise;
    NormaliseIdempotent("a@b.c");
  }

  lemma AdminCanLogIn()
    ensures Initial(AdminWorld())
    ensures ValidateCredentials(AdminWorld(), "a@b.c", "pw").Some?
    ensures PermissionNames(ValidateCredentials(AdminWorld(), "a@b.c", "pw").value.roles) == ["roles:manage"]
  {
    hide Normalise, RolesOfUser, PermissionNames, Initial;
    AdminInitial();
    AdminRoles();
    AdminNames();
  }

  /** An administrator logs in and deletes the role it lives by; a millisecond before the lifetime is
      over its token still passes the guard, so the bound cannot be lowered. */
  lemma StalenessIsTight(c: Config) returns (r: Run, a: AccessToken)
    requires c.accessTokenTtl >= 1
    ensures r.c == c && Proper(r) && |r.events| == 3
    ensures r.At(3).now == r.At(2).now + c.accessTokenTtl * 1000 - 1
    ensures !Holds(r.At(2).graph, a.sub, "roles:manage") && !Holds(r.At(3).graph, a.sub, "roles:manage")
    ensures Authenticate(r.At(3), a).Some? && PermissionsGuard(["roles:manage"], Authenticate(r.At(3), a).value)
  {
    hide Step, Initial, ValidateCredentials, PermissionNames, Holds, Authenticate;
    AdminCanLogIn();
    r, a := StalenessIsTightFrom(c, AdminWorld(), "a@b.c", "pw", RequestMeta(None, None));
  }

  lemma StalenessIsTightFrom(c: Config, w: World, email: string, password: string, meta: RequestMeta)
    returns (r: Run, a: AccessToken)
    requires c.accessTokenTtl >= 1 && Initial(w) && w.now == 0 && w.graph == AdminWorld().graph
    requires ValidateCredentials(w, email, password).Some?
    requires PermissionNames(ValidateCredentials(w, email, password).value.roles) == ["roles:manage"]
    ensures r.c == c && Proper(r) && |r.events| == 3
    ensures r.At(3).now == r.At(2).now + c.accessTokenTtl * 1000 - 1
    ensures !Holds(r.At(2).graph, a.sub, "roles:manage") && !Holds(r.At(3).graph, a.sub, "roles:manage")
    ensures Authenticate(r.At(3), a).Some? && PermissionsGuard(["roles:manage"], Authenticate(r.At(3), a).value)
  {
    var login := LoginReq(email, password, meta);
    var (w1, out) := Step(c, w, login);
    a := out.pair.accessToken;
    StepIssues(c, w, login);
    StepGraph(c, w, login);
    RemovalEffect(c, w1, a);
    r := ThreeEvents(c, w, login, RemoveRoleReq(a, 2), c.accessTokenTtl * 1000 - 1);
  }

  lemma RemovalEffect(c: Config, w: World, a: AccessToken)
    requires c.accessTokenTtl >= 1 && w.now == 0 && w.store == map[] && w.issued == [Issue(a, 0)]
    requires a.exp == c.accessTokenTtl && a.permissions == ["roles:manage"] && w.graph == AdminWorld().graph
    ensures var w' := Step(c, w, RemoveRoleReq(a, 2)).0;
            && w'.now == 0 && w'.graph.roles == []
            && Accepts(w'.(now := c.accessTokenTtl * 1000 - 1), a)
  {
    assert w.issued[0].token == a;
    assert FindRole(w.graph.roles, 2) == 0;
    var w' := Step(c, w, RemoveRoleReq(a, 2)).0;
    assert w'.(now := c.accessTokenTtl * 1000 - 1).issued[0].token == a;
  }
}
