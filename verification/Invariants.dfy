/** What every atomic request keeps, component by component. */
module Invariants {
  import opened Basics
  import opened RefreshTable
  import opened Rbac
  import opened Email
  import opened World

  // ---------- the effect of a request on the refresh-token table ----------

  /** The bearer token is accepted and carries what the route demands. */
  predicate Permitted(w: World, e: Event)
    requires e.LogoutReq? || e.LogoutAllReq? || e.ChangeReq? || e.RevokeReq?
  {
    Accepts(w, e.bearer)
  }

  function LastRow(w: World): Row
    requires w.refreshTokens != []
  {
    w.refreshTokens[|w.refreshTokens| - 1]
  }

  ghost function ChangeOf(c: Config, w: World, e: Event): Change {
    var (w', out) := Step(c, w, e);
    match e
    case RegisterReq(_, _, _) => if out.Pair? then Open(LastRow(w')) else Keep
    case LoginReq(_, _, _) => if out.Pair? then Open(LastRow(w')) else Keep
    case RefreshReq(raw, _) =>
      if out.Pair? then Rotate(FindHash(w.refreshTokens, Sha256(raw)), LastRow(w'))
      else if Judge(w.refreshTokens, raw, w.now).Reused? then Revoke(ByFamily(Judge(w.refreshTokens, raw, w.now).row.family))
      else Keep
    case ResetReq(raw, _) =>
      if out.Done? then Revoke(LiveOfUser(w.authTokens[FindAuthToken(w.authTokens, Sha256(raw), PasswordReset)].userId)) else Keep
    case LogoutReq(bearer, raw) => if Permitted(w, e) then Revoke(ByHashAndUser(Sha256(raw), bearer.sub)) else Keep
    case LogoutAllReq(bearer) => if Permitted(w, e) then Revoke(LiveOfUser(bearer.sub)) else Keep
    case ChangeReq(bearer, _, _) => if out.Done? then Revoke(LiveOfUser(bearer.sub)) else Keep
    case RevokeReq(bearer, rowId) => if out.Done? then Revoke(ById(rowId)) else Keep
    case _ => Keep
  }

  /** Every request does to the table one of the four things `Legal` allows: nothing, revoking,
      opening a family with a fresh identifier, or replacing an unexpired live row of a family. */
  lemma StepTable(c: Config, w: World, e: Event)
    ensures var ch := ChangeOf(c, w, e);
            && Legal(c, w.refreshTokens, w.now, w.next, ch)
            && Step(c, w, e).0.refreshTokens == Apply(w.refreshTokens, ch)
    ensures ChangeOf(c, w, e).Rotate? <==> e.RefreshReq? && Step(c, w, e).1.Pair?
    ensures ChangeOf(c, w, e).Open? <==> (e.RegisterReq? || e.LoginReq?) && Step(c, w, e).1.Pair?
  {
    if e.RefreshReq? {
      RotatingTable(c, w, e.raw, e.meta);
    } else if e.RegisterReq? || e.LoginReq? {
      OpeningTable(c, w, e);
    } else {
      RevokingTable(c, w, e);
    }
  }

  lemma RotatingTable(c: Config, w: World, raw: Id, meta: RequestMeta)
    ensures var ch := ChangeOf(c, w, RefreshReq(raw, meta));
            && Legal(c, w.refreshTokens, w.now, w.next, ch) && !ch.Open?
            && (ch.Rotate? <==> Refresh(c, w, raw, meta).1.Pair?)
            && Refresh(c, w, raw, meta).0.refreshTokens == Apply(w.refreshTokens, ch)
  {
  }

  lemma OpeningTable(c: Config, w: World, e: Event)
    requires e.RegisterReq? || e.LoginReq?
    ensures var (ch, out) := (ChangeOf(c, w, e), Step(c, w, e).1);
            && Legal(c, w.refreshTokens, w.now, w.next, ch)
            && (if out.Pair? then ch.Open? else ch.Keep?)
            && Step(c, w, e).0.refreshTokens == Apply(w.refreshTokens, ch)
  {
  }

  lemma RevokingTable(c: Config, w: World, e: Event)
    requires !(e.RegisterReq? || e.LoginReq? || e.RefreshReq?)
    ensures var ch := ChangeOf(c, w, e);
            (ch.Keep? || ch.Revoke?) && Step(c, w, e).0.refreshTokens == Apply(w.refreshTokens, ch)
  {
  }

  /** What a token pair answered to a request leaves behind: the access token signed now for the
      configured lifetime, and as last row the refresh token that comes with it, in the family that
      the access token names as its session. */
  ghost predicate PairLeaves(c: Config, w: World, w': World, pair: TokenPair, meta: RequestMeta) {
    var a := pair.accessToken;
    && w'.issued == w.issued + [Issue(a, w.now)]
    && a.iat == Seconds(w.now) && a.exp == a.iat + c.accessTokenTtl && pair.expiresIn == c.accessTokenTtl
    && w.next <= a.jti < w'.next
    && w'.refreshTokens != []
    && LastRow(w').family == a.sessionId && LastRow(w').userId == a.sub && LastRow(w').meta == meta
    && LastRow(w').tokenHash == Sha256(pair.refreshToken)
  }

  lemma LoginLeaves(c: Config, w: World, user: UserEntity, meta: RequestMeta)
    ensures Login(c, w, user, meta).1.Pair? && PairLeaves(c, w, Login(c, w, user, meta).0, Login(c, w, user, meta).1.pair, meta)
  {
  }

  lemma RefreshLeaves(c: Config, w: World, raw: Id, meta: RequestMeta)
    ensures var (w', out) := Refresh(c, w, raw, meta);
            if out.Pair? then PairLeaves(c, w, w', out.pair, meta) else w'.issued == w.issued
  {
  }

  lemma RegisterLeaves(c: Config, w: World, email: string, password: string, meta: RequestMeta)
    ensures var (w', out) := Register(c, w, email, password, meta);
            if out.Pair? then PairLeaves(c, w, w', out.pair, meta) else w'.issued == w.issued
  {
  }

  /** A request signs an access token exactly when it answers with a token pair. */
  lemma StepIssues(c: Config, w: World, e: Event)
    ensures var (w', out) := Step(c, w, e);
            if out.Pair? then
              (e.RegisterReq? || e.LoginReq? || e.RefreshReq?) && PairLeaves(c, w, w', out.pair, e.meta)
            else w'.issued == w.issued
    ensures Step(c, w, e).1.Pair? <==> (ChangeOf(c, w, e).Open? || ChangeOf(c, w, e).Rotate?)
  {
    hide Register, Login, Refresh, PairLeaves, Legal, Apply;
    StepTable(c, w, e);
    match e
    case RegisterReq(email, password, meta) => RegisterLeaves(c, w, email, password, meta);
    case RefreshReq(raw, meta) => RefreshLeaves(c, w, raw, meta);
    case LoginReq(email, password, meta) =>
      var user := ValidateCredentials(w, email, password);
      if user.Some? { LoginLeaves(c, w, user.value, meta); }
    case _ =>
  }

  /** A request that is refused changes no account, no token and no role; the one exception is a
      replay, which revokes. */
  lemma RefusalsChangeNothing(c: Config, w: World, e: Event)
    ensures Step(c, w, e).1.Failed? && Step(c, w, e).1.error != RefreshTokenReused ==>
              Step(c, w, e).0 == w.(next := Step(c, w, e).0.next)
  {
  }

  lemma StepClock(c: Config, w: World, e: Event)
    ensures w.now <= Step(c, w, e).0.now && w.next <= Step(c, w, e).0.next
    ensures !e.Tick? ==> Step(c, w, e).0.now == w.now
  {
  }

  // ---------- the invariant ----------

  ghost predicate UsersInv(users: seq<User>, next: nat) {
    && (forall i :: 0 <= i < |users| ==> users[i].id < next && Normalise(users[i].email) == users[i].email)
    && (forall i, j :: 0 <= i < j < |users| ==> users[i].id != users[j].id && users[i].email != users[j].email)
  }

  ghost predicate HasUser(users: seq<User>, id: Id) {
    exists i :: 0 <= i < |users| && users[i].id == id
  }

  ghost predicate Owned(w: World) {
    && (forall i :: 0 <= i < |w.refreshTokens| ==> HasUser(w.users, w.refreshTokens[i].userId))
    && (forall i :: 0 <= i < |w.authTokens| ==> HasUser(w.users, w.authTokens[i].userId))
  }

  ghost predicate IssuedInv(c: Config, w: World) {
    && (forall i :: 0 <= i < |w.issued| ==>
          && w.issued[i].at <= w.now
          && w.issued[i].token.iat == Seconds(w.issued[i].at)
          && w.issued[i].token.exp == w.issued[i].token.iat + c.accessTokenTtl
          && w.issued[i].token.jti < w.next && w.issued[i].token.sessionId < w.next)
    && (forall i, j :: 0 <= i < j < |w.issued| ==> w.issued[i].token.jti != w.issued[j].token.jti)
  }

  ghost predicate ResetsInv(tokens: seq<AuthToken>, now: Millis, next: nat) {
    && (forall i :: 0 <= i < |tokens| ==>
          && tokens[i].id < next && tokens[i].tokenHash.raw < next && tokens[i].kind == PasswordReset
          && tokens[i].createdAt <= now && tokens[i].expiresAt == tokens[i].createdAt + 30 * 60 * 1000)
    && (forall i, j :: 0 <= i < j < |tokens| ==> tokens[i].id != tokens[j].id && tokens[i].tokenHash != tokens[j].tokenHash)
  }

  ghost predicate WorldInv(c: Config, w: World) {
    && Inv(c, w.refreshTokens, w.now, w.next)
    && UsersInv(w.users, w.next)
    && Owned(w)
    && IssuedInv(c, w)
    && ResetsInv(w.authTokens, w.now, w.next)
    && Sound(w.graph, w.next)
  }

  lemma InvLater(c: Config, t: Table, now: Millis, next: nat, now': Millis, next': nat)
    requires Inv(c, t, now, next) && now <= now' && next <= next'
    ensures Inv(c, t, now', next')
  {
  }

  lemma TableInvStep(c: Config, w: World, e: Event)
    requires Inv(c, w.refreshTokens, w.now, w.next)
    ensures Inv(c, Step(c, w, e).0.refreshTokens, Step(c, w, e).0.now, Step(c, w, e).0.next)
  {
    hide Step;
    var w' := Step(c, w, e).0;
    var ch := ChangeOf(c, w, e);
    StepTable(c, w, e);
    StepClock(c, w, e);
    if ch.Open? || ch.Rotate? {
      FreshRow(c, w, e);
    }
    ChangeKeepsInv(c, w.refreshTokens, w.now, w.next, ch, w'.next);
    InvLater(c, w'.refreshTokens, w.now, w'.next, w'.now, w'.next);
  }

  lemma FreshRow(c: Config, w: World, e: Event)
    requires Below(w.refreshTokens, w.next)
    requires ChangeOf(c, w, e).Open? || ChangeOf(c, w, e).Rotate?
    ensures var row, next := ChangeOf(c, w, e).row, Step(c, w, e).0.next;
            row.id < next && row.tokenHash.raw < next && row.family < next
  {
    if e.RefreshReq? {
      var at := FindHash(w.refreshTokens, Sha256(e.raw));
      assert Judge(w.refreshTokens, e.raw, w.now).row == w.refreshTokens[at];
    }
  }

  /** Accounts are never removed and keep their id and e-mail; at most one is added, at the end. */
  ghost predicate UsersExtend(users: seq<User>, users': seq<User>) {
    && |users| <= |users'|
    && forall i {:trigger users'[i]} {:trigger users[i]} :: 0 <= i < |users| ==>
         users'[i].id == users[i].id && users'[i].email == users[i].email
  }

  lemma StepUsers(c: Config, w: World, e: Event)
    ensures UsersExtend(w.users, Step(c, w, e).0.users)
    ensures !e.RegisterReq? ==> |Step(c, w, e).0.users| == |w.users|
    ensures e.RegisterReq? ==>
              var (w', out) := Step(c, w, e);
              (out.Pair? <==> FindByEmail(w.users, e.email) < 0)
              && w'.users == if out.Pair? then w.users + [User(w.next, Normalise(e.email), Argon2(e.password), true)] else w.users
  {
    if e.RegisterReq? { RegisterUsers(c, w, e.email, e.password, e.meta); } else { OtherUsers(c, w, e); }
  }

  lemma RegisterUsers(c: Config, w: World, email: string, password: string, meta: RequestMeta)
    ensures var (w', out) := Register(c, w, email, password, meta);
            (out.Pair? <==> FindByEmail(w.users, email) < 0)
            && w'.users == if out.Pair? then w.users + [User(w.next, Normalise(email), Argon2(password), true)] else w.users
  {
  }

  /** No request but a registration adds an account. */
  lemma OtherUsers(c: Config, w: World, e: Event)
    requires !e.RegisterReq?
    ensures UsersExtend(w.users, Step(c, w, e).0.users) && |Step(c, w, e).0.users| == |w.users|
  {
    hide RevokeWhere, FindUser, FindHash, FindOwned, ResetPassword, ChangePassword, SetActive, Accepts, ValidateCredentials, Judge;
    match e
    case ResetReq(raw, newPassword) => ResetUsers(w, raw, newPassword);
    case ChangeReq(bearer, current, newPassword) => ChangeUsers(w, bearer.sub, current, newPassword);
    case SetActiveByHand(userId, active) => SwitchUsers(w.users, userId, active);
    case _ =>
  }

  lemma ResetUsers(w: World, raw: Id, newPassword: string)
    ensures UsersExtend(w.users, ResetPassword(w, raw, newPassword).0.users)
    ensures |ResetPassword(w, raw, newPassword).0.users| == |w.users|
  {
  }

  lemma ChangeUsers(w: World, userId: Id, current: string, newPassword: string)
    ensures UsersExtend(w.users, ChangePassword(w, userId, current, newPassword).0.users)
    ensures |ChangePassword(w, userId, current, newPassword).0.users| == |w.users|
  {
  }

  lemma SwitchUsers(users: seq<User>, userId: Id, active: bool)
    ensures UsersExtend(users, SetActive(users, userId, active))
  {
  }

  lemma UsersInvStep(c: Config, w: World, e: Event)
    requires UsersInv(w.users, w.next)
    ensures UsersInv(Step(c, w, e).0.users, Step(c, w, e).0.next)
  {
    StepUsers(c, w, e);
    StepClock(c, w, e);
    var w' := Step(c, w, e).0;
    if e.RegisterReq? && Step(c, w, e).1.Pair? {
      NormaliseIdempotent(e.email);
      assert w.next < w'.next;
    } else {
      assert |w'.users| == |w.users|;
    }
  }

  lemma HasUserLater(users: seq<User>, users': seq<User>, id: Id)
    requires UsersExtend(users, users') && HasUser(users, id)
    ensures HasUser(users', id)
  {
  }

  lemma StepAuthTokens(c: Config, w: World, e: Event)
    ensures var (w', out) := Step(c, w, e);
            if e.ForgotReq? && FindByEmail(w.users, e.email) >= 0 then
              && out == ResetToken(Some(w.next)) && w'.next == w.next + 2
              && w'.authTokens == w.authTokens +
                   [AuthToken(w.next + 1, w.users[FindByEmail(w.users, e.email)].id, Sha256(w.next), PasswordReset, false,
                              w.now + 30 * 60 * 1000, w.now)]
            else if e.ResetReq? && out.Done? then
              var at := FindAuthToken(w.authTokens, Sha256(e.raw), PasswordReset);
              && at >= 0 && !w.authTokens[at].used && w.now <= w.authTokens[at].expiresAt
              && w'.authTokens == MarkUsed(w.authTokens, w.authTokens[at].id)
            else w'.authTokens == w.authTokens && (e.ForgotReq? ==> out == ResetToken(None) && w' == w)
  {
  }

  lemma ResetsInvStep(c: Config, w: World, e: Event)
    requires ResetsInv(w.authTokens, w.now, w.next)
    ensures ResetsInv(Step(c, w, e).0.authTokens, Step(c, w, e).0.now, Step(c, w, e).0.next)
  {
    hide Step;
    StepAuthTokens(c, w, e);
    StepClock(c, w, e);
  }

  lemma OwnedStep(c: Config, w: World, e: Event)
    requires Owned(w)
    ensures Owned(Step(c, w, e).0)
  {
    hide Step;
    var w' := Step(c, w, e).0;
    StepUsers(c, w, e);
    StepTable(c, w, e);
    StepAuthTokens(c, w, e);
    forall id: Id | HasUser(w.users, id) ensures HasUser(w'.users, id) {
      HasUserLater(w.users, w'.users, id);
    }
    if ChangeOf(c, w, e).Open? { OpenedOwner(c, w, e); }
  }

  lemma OpenedOwner(c: Config, w: World, e: Event)
    requires ChangeOf(c, w, e).Open?
    ensures HasUser(Step(c, w, e).0.users, ChangeOf(c, w, e).row.userId)
  {
    var w' := Step(c, w, e).0;
    if e.RegisterReq? {
      assert w'.users[|w.users|].id == ChangeOf(c, w, e).row.userId;
    } else {
      assert w.users[FindByEmail(w.users, e.email)].id == ChangeOf(c, w, e).row.userId;
    }
  }

  lemma IssuedInvStep(c: Config, w: World, e: Event)
    requires IssuedInv(c, w) && Below(w.refreshTokens, w.next)
    ensures IssuedInv(c, Step(c, w, e).0)
  {
    hide Step;
    StepTable(c, w, e);
    StepIssues(c, w, e);
    StepClock(c, w, e);
    if Step(c, w, e).1.Pair? { FreshRow(c, w, e); }
  }

  predicate ChangesGraph(e: Event) {
    e.RegisterReq? || e.AssignRolesReq? || e.CreateRoleReq? || e.RemoveRoleReq? || e.SetPermissionsReq? || e.CreatePermissionReq?
  }

  /** The operation behind each route that touches the role graph, and what it installs. */
  ghost predicate GraphMutation(w: World, e: Event, g': Graph, next': nat) {
    match e
    case RegisterReq(_, _, _) => g' == LinkUser(w.graph, w.next, RolesNamed(w.graph.roles, ["user"])) && w.next < next'
    case AssignRolesReq(_, userId, names) => FindUser(w.users, userId) >= 0 && AssignRoles(w.graph, userId, names) == Ok(g')
    case CreateRoleReq(_, name) => CreateRole(w.graph, w.next, name) == Ok(g') && w.next < next'
    case RemoveRoleReq(_, id) => RemoveRole(w.graph, id) == Ok(g')
    case SetPermissionsReq(_, id, names) => SetPermissions(w.graph, id, names) == Ok(g')
    case CreatePermissionReq(_, name) => CreatePermission(w.graph, w.next, name) == Ok(g') && w.next < next'
    case _ => false
  }

  /** Only registration and the administration routes touch the role graph, each with its one
      operation, and the administration routes only for a bearer whose token carries the permission;
      a refused request leaves the graph as it was. */
  lemma StepGraph(c: Config, w: World, e: Event)
    ensures var (w', out) := Step(c, w, e);
            if ChangesGraph(e) && !out.Failed? then
              && GraphMutation(w, e, w'.graph, w'.next)
              && (!e.RegisterReq? ==> Accepts(w, e.bearer))
              && (e.AssignRolesReq? ==> "users:manage-roles" in e.bearer.permissions)
              && (e.CreateRoleReq? || e.RemoveRoleReq? || e.SetPermissionsReq? || e.CreatePermissionReq? ==>
                    "roles:manage" in e.bearer.permissions)
            else w'.graph == w.graph
  {
    hide AssignRoles, SetPermissions, RemoveRole, CreateRole, CreatePermission, LinkUser, RevokeWhere, FindEmail, Accepts;
    assert "users:manage-roles" in ["users:manage-roles"] && "roles:manage" in ["roles:manage"];
  }

  lemma GraphInvStep(c: Config, w: World, e: Event)
    requires Sound(w.graph, w.next) && UsersInv(w.users, w.next)
    ensures Sound(Step(c, w, e).0.graph, Step(c, w, e).0.next)
  {
    hide Step;
    StepClock(c, w, e);
    StepGraph(c, w, e);
    SoundLater(w.graph, w.next, Step(c, w, e).0.next);
    if ChangesGraph(e) && !Step(c, w, e).1.Failed? {
      GraphMutationSound(w, e, Step(c, w, e).0.graph, Step(c, w, e).0.next);
    }
  }

  lemma GraphMutationSound(w: World, e: Event, g': Graph, next: nat)
    requires Sound(w.graph, w.next) && UsersInv(w.users, w.next) && Sound(w.graph, next) && w.next <= next
    requires GraphMutation(w, e, g', next)
    ensures Sound(g', next)
  {
    match e
    case RegisterReq(_, _, _) => LinkUserSound(w.graph, next, w.next, RolesNamed(w.graph.roles, ["user"]));
    case AssignRolesReq(_, userId, names) => LinkUserSound(w.graph, next, userId, RolesNamed(w.graph.roles, names));
    case CreateRoleReq(_, name) =>
      CreateRoleSound(w.graph, w.next, w.next, name);
      SoundLater(g', w.next + 1, next);
    case RemoveRoleReq(_, id) => RemoveRoleSound(w.graph, next, id);
    case SetPermissionsReq(_, id, names) => SetPermissionsSound(w.graph, next, id, names);
    case CreatePermissionReq(_, name) =>
      CreatePermissionSound(w.graph, w.next, w.next, name);
      SoundLater(g', w.next + 1, next);
  }

  /** One atomic request keeps everything: the linear families, unique e-mails, one jti per token,
      reset tokens, ownership of rows, and a role graph without dangling links. */
  lemma WorldInvStep(c: Config, w: World, e: Event)
    requires WorldInv(c, w)
    ensures WorldInv(c, Step(c, w, e).0)
  {
    hide Step;
    TableInvStep(c, w, e);
    UsersInvStep(c, w, e);
    OwnedStep(c, w, e);
    IssuedInvStep(c, w, e);
    ResetsInvStep(c, w, e);
    GraphInvStep(c, w, e);
  }
}
