/** What each route answers and does, from the bearer check to the last column shown. Everything about
    tokens is told by the history of the run; the role graph is told by who holds what. */
module Routes {
  import opened Basics
  import opened RefreshTable
  import opened Rbac
  import opened World
  import opened Invariants
  import opened Runs
  import opened SessionList
  import opened ResetTokens
  import opened History
  import O = Operations

  // ---------- who is let in ----------

  /** Every route but registration, login, refresh and the two of a forgotten password takes a bearer token. */
  predicate Guarded(e: Event) {
    !(e.Tick? || e.RegisterReq? || e.LoginReq? || e.RefreshReq? || e.ForgotReq? || e.ResetReq? || e.SetActiveByHand?)
  }

  /** The names that the route's decorator demands and the token does not carry. */
  predicate Lacks(e: Event)
    requires Guarded(e)
  {
    match e
    case AssignRolesReq(bearer, _, _) => "users:manage-roles" !in bearer.permissions
    case CreateRoleReq(bearer, _) => "roles:manage" !in bearer.permissions
    case RemoveRoleReq(bearer, _) => "roles:manage" !in bearer.permissions
    case SetPermissionsReq(bearer, _, _) => "roles:manage" !in bearer.permissions
    case CreatePermissionReq(bearer, _) => "roles:manage" !in bearer.permissions
    case _ => false
  }

  /** The request gets past both guards. */
  ghost predicate LetIn(r: Run, j: nat)
    requires j < |r.events|
  {
    Guarded(r.events[j]) && Honoured(r, j, r.events[j].bearer) && !Lacks(r.events[j])
  }

  lemma GuardStep(c: Config, w: World, e: Event)
    requires Guarded(e)
    ensures var user := Authenticate(w, e.bearer);
            if user.None? then Step(c, w, e) == (w, Failed(Unauthenticated))
            else if user.value.permissions == e.bearer.permissions && Lacks(e) then Step(c, w, e) == (w, Failed(Forbidden))
            else user.value.permissions == e.bearer.permissions ==> Step(c, w, e) == Serve(w, user.value, e)
  {
    hide Serve, Accepts;
  }

  lemma ServedAnswers(w: World, user: AuthenticatedUser, e: Event)
    requires Guarded(e)
    ensures Serve(w, user, e).1 != Failed(Unauthenticated) && Serve(w, user, e).1 != Failed(Forbidden)
  {
  }

  /** A bearer whose token does not stand is told so, one whose token lacks the route's permission is
      forbidden, and nothing changes; nobody else is turned away for either reason. */
  lemma GuardsByHistory(r: Run, j: nat)
    requires Proper(r) && j < |r.events| && Guarded(r.events[j])
    ensures r.Out(j) == Failed(Unauthenticated) <==> !Honoured(r, j, r.events[j].bearer)
    ensures r.Out(j) == Failed(Forbidden) <==> Honoured(r, j, r.events[j].bearer) && Lacks(r.events[j])
    ensures !LetIn(r, j) ==> r.At(j + 1) == r.At(j)
  {
    hide Step, Serve, Authenticate;
    var w, e := r.At(j), r.events[j];
    StepAt(r, j);
    AuthenticatedByHistory(r, j, e.bearer);
    GuardStep(r.c, w, e);
    if LetIn(r, j) { ServedAnswers(w, Authenticate(w, e.bearer).value, e); }
  }

  /** Past the guards the route is served for the user whom the token names. */
  lemma ServedByHistory(r: Run, j: nat) returns (user: AuthenticatedUser)
    requires Proper(r) && j < |r.events| && LetIn(r, j)
    ensures (r.At(j + 1), r.Out(j)) == Serve(r.At(j), user, r.events[j])
    ensures var a := r.events[j].bearer;
            user.id == a.sub && user.jti == a.jti && user.sessionId == a.sessionId
  {
    hide Step, Serve, Authenticate;
    StepAt(r, j);
    AuthenticatedByHistory(r, j, r.events[j].bearer);
    GuardStep(r.c, r.At(j), r.events[j]);
    user := Authenticate(r.At(j), r.events[j].bearer).value;
  }

  // ---------- administration of roles ----------

  /** Assigning roles is answered `Done` exactly when the account and every named role exist; then the
      account is a member of exactly those roles, and no other account and no role has changed. Otherwise
      the missing account or exactly the unknown names are reported and nothing changes. */
  lemma AssignRolesRoute(r: Run, j: nat)
    requires Proper(r) && j < |r.events| && r.events[j].AssignRolesReq? && LetIn(r, j)
    ensures var (g, g', id, names) := (r.At(j).graph, r.At(j + 1).graph, r.events[j].userId, r.events[j].names);
            if !HasUser(r.At(j).users, id) then r.Out(j) == Failed(UserNotFound) && g' == g
            else if forall n :: n in names ==> KnownRole(g, n) then
              && r.Out(j) == Done
              && (forall n :: Member(g', id, n) <==> n in names)
              && (forall u: Id, role: Id :: u != id ==> ((u, role) in g'.userRoles <==> (u, role) in g.userRoles))
              && g' == g.(userRoles := g'.userRoles)
            else
              && r.Out(j).Failed? && r.Out(j).error.UnknownNames? && g' == g
              && forall n :: n in r.Out(j).error.names <==> n in names && !KnownRole(g, n)
  {
    hide Step, AssignRoles, Member, KnownRole;
    Reachable(r, j);
    var w, e := r.At(j), r.events[j];
    var user := ServedByHistory(r, j);
    AssignRolesExact(w.graph, w.next, e.userId, e.names);
    FoundUser(w.users, e.userId);
  }

  lemma FoundUser(users: seq<User>, id: Id)
    ensures FindUser(users, id) >= 0 <==> HasUser(users, id)
  {
  }

  /** Likewise for the permissions of a role. */
  lemma SetPermissionsRoute(r: Run, j: nat)
    requires Proper(r) && j < |r.events| && r.events[j].SetPermissionsReq? && LetIn(r, j)
    ensures var (g, g', id, names) := (r.At(j).graph, r.At(j + 1).graph, r.events[j].id, r.events[j].names);
            if !HasRole(g, id) then r.Out(j) == Failed(RoleNotFound) && g' == g
            else if forall n :: n in names ==> KnownPermission(g, n) then
              && r.Out(j) == Done
              && (forall n :: Carries(g', id, n) <==> n in names)
              && (forall role: Id, n :: role != id ==> (Carries(g', role, n) <==> Carries(g, role, n)))
              && g' == g.(rolePermissions := g'.rolePermissions)
            else
              && r.Out(j).Failed? && r.Out(j).error.UnknownNames? && g' == g
              && forall n :: n in r.Out(j).error.names <==> n in names && !KnownPermission(g, n)
  {
    hide Step, SetPermissions, Carries, KnownPermission, HasRole;
    Reachable(r, j);
    var w, e := r.At(j), r.events[j];
    var user := ServedByHistory(r, j);
    SetPermissionsExact(w.graph, w.next, e.id, e.names);
    SetPermissionsOfNone(w.graph, e.id, e.names);
  }

  lemma SetPermissionsOfNone(g: Graph, id: Id, names: seq<string>)
    ensures !HasRole(g, id) ==> SetPermissions(g, id, names) == Err(RoleNotFound)
  {
  }

  /** Removing a role takes its links with it and leaves every other role, link and permission. */
  lemma RemoveRoleRoute(r: Run, j: nat)
    requires Proper(r) && j < |r.events| && r.events[j].RemoveRoleReq? && LetIn(r, j)
    ensures var (g, g', id) := (r.At(j).graph, r.At(j + 1).graph, r.events[j].id);
            if !HasRole(g, id) then r.Out(j) == Failed(RoleNotFound) && g' == g
            else
              && r.Out(j) == Done
              && (forall x :: x in g'.roles <==> x in g.roles && x.id != id)
              && (forall u: Id, role: Id :: (u, role) in g'.userRoles <==> (u, role) in g.userRoles && role != id)
              && (forall role: Id, p: Id :: (role, p) in g'.rolePermissions <==> (role, p) in g.rolePermissions && role != id)
              && g'.permissions == g.permissions
  {
    hide Step, RemoveRole;
    Reachable(r, j);
    var w, e := r.At(j), r.events[j];
    var user := ServedByHistory(r, j);
    RemoveRoleExact(w.graph, w.next, e.id, 0, "");
    RemoveRoleElsewhere(w.graph, w.next, e.id);
  }

  /** Creating a role succeeds exactly on a free name; the new role carries nothing and nobody has it. */
  lemma CreateRoleRoute(r: Run, j: nat)
    requires Proper(r) && j < |r.events| && r.events[j].CreateRoleReq? && LetIn(r, j)
    ensures var (g, g', name) := (r.At(j).graph, r.At(j + 1).graph, r.events[j].name);
            if KnownRole(g, name) then r.Out(j) == Failed(NameTaken) && g' == g
            else
              && r.Out(j) == Done && g' == g.(roles := g'.roles)
              && exists id: Id ::
                   && !HasRole(g, id)
                   && (forall x :: x in g'.roles <==> x in g.roles || x == RoleRow(id, name))
                   && (forall n :: !Carries(g', id, n)) && (forall u: Id :: (u, id) !in g'.userRoles)
  {
    hide Step, CreateRole;
    Reachable(r, j);
    var w, e := r.At(j), r.events[j];
    var user := ServedByHistory(r, j);
    CreateRoleExact(w.graph, w.next, w.next, e.name);
  }

  /** And for a permission. */
  lemma CreatePermissionRoute(r: Run, j: nat)
    requires Proper(r) && j < |r.events| && r.events[j].CreatePermissionReq? && LetIn(r, j)
    ensures var (g, g', name) := (r.At(j).graph, r.At(j + 1).graph, r.events[j].name);
            if KnownPermission(g, name) then r.Out(j) == Failed(NameTaken) && g' == g
            else
              && r.Out(j) == Done && g' == g.(permissions := g'.permissions)
              && (forall n :: KnownPermission(g', n) <==> KnownPermission(g, n) || n == name)
              && (forall role: Id, n :: Carries(g', role, n) <==> Carries(g, role, n))
  {
    hide Step, CreatePermission;
    Reachable(r, j);
    var w, e := r.At(j), r.events[j];
    var user := ServedByHistory(r, j);
    CreatePermissionExact(w.graph, w.next, w.next, e.name);
  }

  /** The five routes touch nothing but the role graph. */
  lemma AdministrationElsewhere(r: Run, j: nat)
    requires Proper(r) && j < |r.events|
    requires var e := r.events[j];
             e.AssignRolesReq? || e.SetPermissionsReq? || e.RemoveRoleReq? || e.CreateRoleReq? || e.CreatePermissionReq?
    ensures r.At(j + 1) == r.At(j).(graph := r.At(j + 1).graph, next := r.At(j + 1).next)
  {
    hide AssignRoles, SetPermissions, RemoveRole, CreateRole, CreatePermission, Accepts;
    StepAt(r, j);
  }

  // ---------- sessions ----------

  /** The refresh token answered to request `k` is one of this user's, not ended, and outlasts moment `j`. */
  ghost predicate Open(r: Run, k: nat, j: nat, user: Id)
    requires k < j <= |r.events|
  {
    r.Out(k).Pair? && UserOf(r, k) == user && !Ended(r, k, j) && r.At(j).now < r.At(k).now + r.c.refreshTtlDays * 86400000
  }

  /** The entry shows the pair answered to request `k`: where it came from, when it was issued and until when
      it is good, marked if it belongs to the caller's own session. */
  ghost predicate ShowsPair(r: Run, v: SessionView, k: nat, session: Id)
    requires k < |r.events|
  {
    && r.Out(k).Pair? && v.id == RowId(r, k)
    && (r.events[k].RegisterReq? || r.events[k].LoginReq? || r.events[k].RefreshReq?)
    && v.meta.userAgent == r.events[k].meta.userAgent && v.meta.ipAddress == r.events[k].meta.ipAddress
    && v.createdAt == r.At(k).now && v.expiresAt == r.At(k).now + r.c.refreshTtlDays * 86400000
    && (v.current <==> SessionOf(r, k) == session)
  }

  lemma ListExact(c: Config, w: World, userId: Id, current: Option<Id>)
    requires WorldInv(c, w)
    ensures var views := ListSessions(w, userId, current);
            && (forall v :: v in views ==> exists i :: 0 <= i < |w.refreshTokens| && ActiveAt(w, userId, i) && O.Shows(v, w.refreshTokens[i], current))
            && (forall i :: ActiveAt(w, userId, i) ==> exists v :: v in views && O.Shows(v, w.refreshTokens[i], current))
  {
    var rows, views := ActiveRows(w.refreshTokens, userId, w.now), ListSessions(w, userId, current);
    hide UsersInv, Owned, IssuedInv, ResetsInv;
    ActiveRowsExact(w.refreshTokens, userId, w.now);
    hide ActiveRows;
    forall v | v in views ensures exists i :: 0 <= i < |w.refreshTokens| && ActiveAt(w, userId, i) && O.Shows(v, w.refreshTokens[i], current) {
      var k :| 0 <= k < |views| && views[k] == v;
      assert rows[k] in w.refreshTokens;
      var i :| 0 <= i < |w.refreshTokens| && w.refreshTokens[i] == rows[k];
      assert ActiveAt(w, userId, i);
    }
    forall i | ActiveAt(w, userId, i) ensures exists v :: v in views && O.Shows(v, w.refreshTokens[i], current) {
      assert w.refreshTokens[i] in rows;
      var k :| 0 <= k < |rows| && rows[k] == w.refreshTokens[i];
      assert views[k] in views && O.Shows(views[k], rows[k], current);
    }
  }

  ghost predicate ActiveAt(w: World, userId: Id, i: int) {
    0 <= i < |w.refreshTokens| && Active(w.refreshTokens[i], userId, w.now)
  }

  lemma OpenIsActive(r: Run, k: nat, j: nat, user: Id)
    requires Proper(r) && k < j <= |r.events| && r.Out(k).Pair?
    ensures Open(r, k, j, user) <==> ActiveAt(r.At(j), user, Place(r, k))
  {
    hide Step, Ended, Proper;
    RowOfPair(r, k, j);
    RevokedByHistory(r, k, j);
  }

  lemma ShownPair(r: Run, k: nat, j: nat, v: SessionView, session: Id)
    requires Proper(r) && k < j <= |r.events| && r.Out(k).Pair?
    ensures Place(r, k) < |r.Table(j)|
    ensures ShowsPair(r, v, k, session) <==> O.Shows(v, r.Table(j)[Place(r, k)], Some(session))
  {
    hide Step, Proper, RowId;
    RowOfPair(r, k, j);
  }

  /** The list of this user's sessions for a caller in this session. */
  function ListAt(r: Run, j: nat, user: Id, session: Id): seq<SessionView>
    requires j <= |r.events|
  {
    ListSessions(r.At(j), user, Some(session))
  }

  lemma EntryHasPair(r: Run, j: nat, user: Id, session: Id, v: SessionView) returns (k: nat)
    requires Proper(r) && j <= |r.events| && v in ListAt(r, j, user, session)
    ensures k < j && Open(r, k, j, user) && ShowsPair(r, v, k, session)
  {
    hide Proper, Open, ShowsPair, ListSessions, WorldInv, ActiveAt, O.Shows;
    var w := r.At(j);
    Reachable(r, j);
    ListExact(r.c, w, user, Some(session));
    var i :| 0 <= i < |w.refreshTokens| && ActiveAt(w, user, i) && O.Shows(v, w.refreshTokens[i], Some(session));
    k := PairOfRow(r, j, i);
    OpenIsActive(r, k, j, user);
    ShownPair(r, k, j, v, session);
  }

  lemma PairHasEntry(r: Run, j: nat, user: Id, session: Id, k: nat) returns (v: SessionView)
    requires Proper(r) && k < j <= |r.events| && Open(r, k, j, user)
    ensures v in ListAt(r, j, user, session) && ShowsPair(r, v, k, session)
  {
    hide Proper, Open, ShowsPair, ListSessions, WorldInv, ActiveAt, O.Shows;
    var w := r.At(j);
    Reachable(r, j);
    OpenIsPair(r, k, j, user);
    OpenIsActive(r, k, j, user);
    ListExact(r.c, w, user, Some(session));
    ActiveIndex(w, user, Place(r, k));
    v :| v in ListAt(r, j, user, session) && O.Shows(v, w.refreshTokens[Place(r, k)], Some(session));
    ShownPair(r, k, j, v, session);
  }

  /** The session list of the caller, told by the history: each entry shows one of its open pairs, each of
      its open pairs has an entry, none twice, newest first. */
  lemma SessionsRoute(r: Run, j: nat)
    requires Proper(r) && j < |r.events| && r.events[j].SessionsReq? && LetIn(r, j)
    ensures r.Out(j).Sessions? && r.At(j + 1) == r.At(j)
    ensures var (a, views) := (r.events[j].bearer, r.Out(j).sessions);
            && (forall v :: v in views ==> exists k :: 0 <= k < j && Open(r, k, j, a.sub) && ShowsPair(r, v, k, a.sessionId))
            && (forall k :: 0 <= k < j && Open(r, k, j, a.sub) ==> exists v :: v in views && ShowsPair(r, v, k, a.sessionId))
            && (forall x, y :: 0 <= x < y < |views| ==> views[x].createdAt >= views[y].createdAt && views[x].id != views[y].id)
  {
    hide Step, Proper, Open, ShowsPair, ListSessions, WorldInv;
    var a := r.events[j].bearer;
    var user := ServedByHistory(r, j);
    Reachable(r, j);
    O.ListValid(r.c, r.At(j), a.sub, Some(a.sessionId));
    var views := ListAt(r, j, a.sub, a.sessionId);
    forall v | v in views ensures exists k :: 0 <= k < j && Open(r, k, j, a.sub) && ShowsPair(r, v, k, a.sessionId) {
      var k := EntryHasPair(r, j, a.sub, a.sessionId, v);
    }
    forall k | 0 <= k < j && Open(r, k, j, a.sub) ensures exists v :: v in views && ShowsPair(r, v, k, a.sessionId) {
      var v := PairHasEntry(r, j, a.sub, a.sessionId, k);
    }
  }

  lemma ActiveIndex(w: World, userId: Id, i: int)
    requires ActiveAt(w, userId, i)
    ensures 0 <= i < |w.refreshTokens|
  {
  }

  lemma OpenIsPair(r: Run, k: nat, j: nat, user: Id)
    requires k < j <= |r.events| && Open(r, k, j, user)
    ensures r.Out(k).Pair?
  {
  }

  /** Revoking a session succeeds exactly for a row that holds the token of one of the caller's pairs. */
  lemma RevokeRoute(r: Run, j: nat)
    requires Proper(r) && j < |r.events| && r.events[j].RevokeReq? && LetIn(r, j)
    ensures r.Out(j) == Done || (r.Out(j) == Failed(SessionNotFound) && r.At(j + 1) == r.At(j))
    ensures r.Out(j) == Done <==>
              exists k :: 0 <= k < j && r.Out(k).Pair? && UserOf(r, k) == r.events[j].bearer.sub && RowId(r, k) == r.events[j].rowId
  {
    hide Step, Proper, RowId;
    var w, e := r.At(j), r.events[j];
    var user := ServedByHistory(r, j);
    var at := FindOwned(w.refreshTokens, e.rowId, e.bearer.sub);
    if at >= 0 {
      var k := PairOfRow(r, j, at);
      RowOfPair(r, k, j);
    }
    if k :| 0 <= k < j && r.Out(k).Pair? && UserOf(r, k) == e.bearer.sub && RowId(r, k) == e.rowId {
      RowOfPair(r, k, j);
    }
  }

  /** Logging out and logging out everywhere are always answered `Done`. */
  lemma LogoutRoutes(r: Run, j: nat)
    requires Proper(r) && j < |r.events| && (r.events[j].LogoutReq? || r.events[j].LogoutAllReq?) && LetIn(r, j)
    ensures r.Out(j) == Done
  {
    hide Step, Proper, RevokeWhere;
    var user := ServedByHistory(r, j);
  }
}
