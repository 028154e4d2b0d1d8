/** The whole service as a state and a deterministic step function: one atomic request at a time. */
module World {
  import opened Basics
  import opened RefreshTable
  import opened Rbac
  import opened Email

  datatype User = User(id: Id, email: string, passwordHash: PasswordHash, isActive: bool)

  /** A user as the ORM hands it out, with its roles. */
  datatype UserEntity = UserEntity(id: Id, email: string, passwordHash: PasswordHash, isActive: bool, roles: seq<Role>)

  datatype AuthTokenType = PasswordReset | EmailVerification

  datatype AuthToken = AuthToken(
    id: Id, userId: Id, tokenHash: TokenHash, kind: AuthTokenType, used: bool,
    expiresAt: Millis, createdAt: Millis)

  datatype AccessToken = AccessToken(
    sub: Id, email: string, roles: seq<string>, permissions: seq<string>,
    jti: Id, sessionId: Id, iat: int, exp: int)

  datatype AuthenticatedUser = AuthenticatedUser(
    id: Id, email: string, roles: seq<string>, permissions: seq<string>, jti: Id, sessionId: Id)

  datatype TokenPair = TokenPair(accessToken: AccessToken, refreshToken: Id, expiresIn: int)

  /** A token that has been signed, with the exact moment of signing. */
  datatype Issue = Issue(token: AccessToken, at: Millis)

  datatype Key = BlacklistKey(jti: Id) | UserKey(id: Id)

  datatype SessionView = SessionView(id: Id, meta: RequestMeta, createdAt: Millis, expiresAt: Millis, current: bool)

  datatype World = World(
    now: Millis,                // the clock
    next: nat,                  // the supply of fresh identifiers
    users: seq<User>,
    graph: Graph,
    refreshTokens: Table,
    authTokens: seq<AuthToken>,
    store: map<Key, Millis>,    // Redis keys and when they expire
    issued: seq<Issue>)         // every access token signed so far

  datatype Outcome =
    | Pair(pair: TokenPair)
    | Done
    | ResetToken(token: Option<Id>)
    | Sessions(sessions: seq<SessionView>)
    | Failed(error: Error)

  // ---------- users ----------

  function FindUser(users: seq<User>, id: Id): (at: int)
    ensures -1 <= at < |users|
    ensures at >= 0 ==> users[at].id == id
    ensures at < 0 ==> forall i :: 0 <= i < |users| ==> users[i].id != id
  {
    if users == [] then -1
    else
      var at := FindUser(users[..|users| - 1], id);
      if at >= 0 then at else if users[|users| - 1].id == id then |users| - 1 else -1
  }

  function FindEmail(users: seq<User>, email: string): (at: int)
    ensures -1 <= at < |users|
    ensures at >= 0 ==> users[at].email == email
    ensures at < 0 ==> forall i :: 0 <= i < |users| ==> users[i].email != email
  {
    if users == [] then -1
    else
      var at := FindEmail(users[..|users| - 1], email);
      if at >= 0 then at else if users[|users| - 1].email == email then |users| - 1 else -1
  }

  /** `findByEmail` normalises before it looks up. */
  function FindByEmail(users: seq<User>, email: string): int {
    FindEmail(users, Normalise(email))
  }

  function Load(w: World, user: User): UserEntity {
    UserEntity(user.id, user.email, user.passwordHash, user.isActive, RolesOfUser(w.graph, user.id))
  }

  /** `usersRepository.update(id, { passwordHash })` */
  function SetPassword(users: seq<User>, id: Id, hash: PasswordHash): (r: seq<User>)
    ensures |r| == |users|
    ensures forall i {:trigger r[i]} :: 0 <= i < |users| ==>
              r[i] == if users[i].id == id then users[i].(passwordHash := hash) else users[i]
  {
    seq(|users|, i requires 0 <= i < |users| => if users[i].id == id then users[i].(passwordHash := hash) else users[i])
  }

  function SetActive(users: seq<User>, id: Id, active: bool): (r: seq<User>)
    ensures |r| == |users|
    ensures forall i {:trigger r[i]} :: 0 <= i < |users| ==>
              r[i] == if users[i].id == id then users[i].(isActive := active) else users[i]
  {
    seq(|users|, i requires 0 <= i < |users| => if users[i].id == id then users[i].(isActive := active) else users[i])
  }

  lemma {:induction false} SameFind(users: seq<User>, users': seq<User>, u: Id)
    requires |users| == |users'| && forall i :: 0 <= i < |users| ==> users[i].id == users'[i].id
    ensures FindUser(users', u) == FindUser(users, u)
  {
    if users != [] { SameFind(users[..|users| - 1], users'[..|users| - 1], u); }
  }

  function ValidateCredentials(w: World, email: string, password: string): Option<UserEntity> {
    var at := FindByEmail(w.users, email);
    if at < 0 || !w.users[at].isActive then None
    else if !Verify(w.users[at].passwordHash, password) then None
    else Some(Load(w, w.users[at]))
  }

  // ---------- access tokens ----------

  /** `set` with `EX`: an existing entry is overwritten; a non-positive lifetime is ignored. */
  function Blacklist(store: map<Key, Millis>, now: Millis, jti: Id, ttlSeconds: int): map<Key, Millis> {
    if ttlSeconds <= 0 then store else store[BlacklistKey(jti) := now + ttlSeconds * MILLIS_PER_SECOND]
  }

  /** `get` still answers at the very millisecond of expiry. */
  predicate IsBlacklisted(store: map<Key, Millis>, now: Millis, jti: Id) {
    BlacklistKey(jti) in store && now <= store[BlacklistKey(jti)]
  }

  /** The signature verifies exactly when the service signed the token. */
  predicate Signed(w: World, a: AccessToken) {
    exists i :: 0 <= i < |w.issued| && w.issued[i].token == a
  }

  /** Signature, then expiry in whole seconds, then the blacklist. */
  predicate Accepts(w: World, a: AccessToken) {
    Signed(w, a) && Seconds(w.now) < a.exp && !IsBlacklisted(w.store, w.now, a.jti)
  }

  function Authenticate(w: World, a: AccessToken): Option<AuthenticatedUser> {
    if Accepts(w, a) then Some(AuthenticatedUser(a.sub, a.email, a.roles, a.permissions, a.jti, a.sessionId)) else None
  }

  /** `PermissionsGuard.canActivate`: every required name is in the payload. */
  predicate PermissionsGuard(required: seq<string>, user: AuthenticatedUser) {
    forall p :: p in required ==> p in user.permissions
  }

  /** `RolesGuard.canActivate`: no requirement, or some role of the payload is required. */
  predicate RolesGuard(required: seq<string>, user: AuthenticatedUser) {
    required == [] || exists r :: r in user.roles && r in required
  }

  // ---------- the service ----------

  function SignAccessToken(c: Config, w: World, user: UserEntity, sessionId: Id): AccessToken {
    AccessToken(user.id, user.email, FlattenRoleNames(user.roles), PermissionNames(user.roles),
                w.next, sessionId, Seconds(w.now), Seconds(w.now) + c.accessTokenTtl)
  }

  function IssueTokenPair(c: Config, w: World, user: UserEntity, family: Id, meta: RequestMeta): (World, Outcome) {
    var a := SignAccessToken(c, w, user, family);
    var raw := w.next + 1;
    var row := Mint(c, w.next + 2, user.id, raw, family, meta, w.now);
    (w.(next := w.next + 3, refreshTokens := w.refreshTokens + [row], issued := w.issued + [Issue(a, w.now)]),
     Pair(TokenPair(a, raw, c.accessTokenTtl)))
  }

  /** `UsersService.create`: the new user and the world that contains it. */
  function CreateUser(w: World, email: string, hash: PasswordHash): Result<(World, UserEntity)> {
    if FindByEmail(w.users, email) >= 0 then Err(EmailTaken)
    else
      var rows := RolesNamed(w.graph.roles, ["user"]);
      var user := User(w.next, Normalise(email), hash, true);
      var w' := w.(next := w.next + 1, users := w.users + [user], graph := LinkUser(w.graph, user.id, rows));
      Ok((w', UserEntity(user.id, user.email, hash, true, LoadRows(w.graph, rows))))
  }

  function Register(c: Config, w: World, email: string, password: string, meta: RequestMeta): (World, Outcome) {
    match CreateUser(w, email, Argon2(password))
    case Err(e) => (w, Failed(e))
    case Ok((w', user)) => Login(c, w', user, meta)
  }

  /** A login opens a family of its own. */
  function Login(c: Config, w: World, user: UserEntity, meta: RequestMeta): (World, Outcome) {
    IssueTokenPair(c, w.(next := w.next + 1), user, w.next, meta)
  }

  function Refresh(c: Config, w: World, raw: Id, meta: RequestMeta): (World, Outcome) {
    match Judge(w.refreshTokens, raw, w.now)
    case Unknown => (w, Failed(InvalidRefreshToken))
    case Reused(row) =>
      (w.(refreshTokens := RevokeWhere(w.refreshTokens, ByFamily(row.family))), Failed(RefreshTokenReused))
    case Expired => (w, Failed(RefreshTokenExpired))
    case Accepted(row) =>
      var at := FindUser(w.users, row.userId);
      if at < 0 then (w, Failed(UserNotFound))
      else
        var w' := w.(refreshTokens := RevokeWhere(w.refreshTokens, ById(row.id)));
        IssueTokenPair(c, w', Load(w, w.users[at]), row.family, meta)
  }

  function Logout(w: World, userId: Id, raw: Id, jti: Option<Id>, expSeconds: Option<int>): (World, Outcome) {
    var w' := w.(refreshTokens := RevokeWhere(w.refreshTokens, ByHashAndUser(Sha256(raw), userId)));
    if jti.Some? && expSeconds.Some? && expSeconds.value != 0 then
      (w'.(store := Blacklist(w.store, w.now, jti.value, expSeconds.value)), Done)
    else (w', Done)
  }

  function LogoutAll(w: World, userId: Id): (World, Outcome) {
    (w.(refreshTokens := RevokeWhere(w.refreshTokens, LiveOfUser(userId)), store := w.store - {UserKey(userId)}), Done)
  }

  function ForgotPassword(w: World, email: string): (World, Outcome) {
    var at := FindByEmail(w.users, email);
    if at < 0 then (w, ResetToken(None))
    else
      var raw := w.next;
      var record := AuthToken(w.next + 1, w.users[at].id, Sha256(raw), PasswordReset, false, w.now + RESET_TTL_MILLIS, w.now);
      (w.(next := w.next + 2, authTokens := w.authTokens + [record]), ResetToken(Some(raw)))
  }

  /** `findOne({ where: { tokenHash, type } })`: the first match, or -1. */
  function FindAuthToken(tokens: seq<AuthToken>, h: TokenHash, kind: AuthTokenType): (at: int)
    ensures -1 <= at < |tokens|
    ensures at >= 0 ==> tokens[at].tokenHash == h && tokens[at].kind == kind
    ensures forall i :: 0 <= i < (if at >= 0 then at else |tokens|) ==> !(tokens[i].tokenHash == h && tokens[i].kind == kind)
  {
    if tokens == [] then -1
    else
      var at := FindAuthToken(tokens[..|tokens| - 1], h, kind);
      if at >= 0 then at
      else if tokens[|tokens| - 1].tokenHash == h && tokens[|tokens| - 1].kind == kind then |tokens| - 1 else -1
  }

  /** `authTokenRepo.update(id, { used: true })` */
  function MarkUsed(tokens: seq<AuthToken>, id: Id): (r: seq<AuthToken>)
    ensures |r| == |tokens|
    ensures forall i {:trigger r[i]} :: 0 <= i < |tokens| ==> r[i] == tokens[i].(used := tokens[i].used || tokens[i].id == id)
  {
    seq(|tokens|, i requires 0 <= i < |tokens| => tokens[i].(used := tokens[i].used || tokens[i].id == id))
  }

  function ResetPassword(w: World, raw: Id, newPassword: string): (World, Outcome) {
    var at := FindAuthToken(w.authTokens, Sha256(raw), PasswordReset);
    if at < 0 || w.authTokens[at].used || w.authTokens[at].expiresAt < w.now then (w, Failed(InvalidResetToken))
    else
      var record := w.authTokens[at];
      var w' := w.(users := SetPassword(w.users, record.userId, Argon2(newPassword)),
                   authTokens := MarkUsed(w.authTokens, record.id));
      LogoutAll(w', record.userId)
  }

  function ChangePassword(w: World, userId: Id, current: string, newPassword: string): (World, Outcome) {
    var at := FindUser(w.users, userId);
    if at < 0 then (w, Failed(UserNotFound))
    else if !Verify(w.users[at].passwordHash, current) then (w, Failed(WrongPassword))
    else LogoutAll(w.(users := SetPassword(w.users, userId, Argon2(newPassword))), userId)
  }

  function RevokeSession(w: World, userId: Id, rowId: Id): (World, Outcome) {
    var at := FindOwned(w.refreshTokens, rowId, userId);
    if at < 0 then (w, Failed(SessionNotFound))
    else (w.(refreshTokens := RevokeWhere(w.refreshTokens, ById(w.refreshTokens[at].id))), Done)
  }

  /** Insertion into a list kept in descending order of creation. */
  function InsertNewestFirst(rows: Table, row: Row): Table {
    if rows == [] || rows[0].createdAt <= row.createdAt then [row] + rows
    else [rows[0]] + InsertNewestFirst(rows[1..], row)
  }

  /** `find({ where: { userId, revoked: false, expiresAt: MoreThan(now) }, order: { createdAt: 'DESC' } })` */
  function ActiveRows(t: Table, userId: Id, now: Millis): Table {
    if t == [] then []
    else
      var front, last := ActiveRows(t[..|t| - 1], userId, now), t[|t| - 1];
      if last.userId == userId && !last.revoked && last.expiresAt > now then InsertNewestFirst(front, last) else front
  }

  function View(row: Row, current: Option<Id>): SessionView {
    SessionView(row.id, row.meta, row.createdAt, row.expiresAt, current == Some(row.family))
  }

  function ListSessions(w: World, userId: Id, current: Option<Id>): seq<SessionView> {
    var rows := ActiveRows(w.refreshTokens, userId, w.now);
    seq(|rows|, i requires 0 <= i < |rows| => View(rows[i], current))
  }

  /** `UsersService.assignRoles` */
  function AssignUserRoles(w: World, userId: Id, names: seq<string>): (World, Outcome) {
    if FindUser(w.users, userId) < 0 then (w, Failed(UserNotFound))
    else WithGraph(w, AssignRoles(w.graph, userId, names))
  }

  function WithGraph(w: World, g: Result<Graph>): (World, Outcome) {
    match g
    case Ok(graph) => (w.(graph := graph), Done)
    case Err(e) => (w, Failed(e))
  }

  // ---------- requests as they reach the controllers ----------

  datatype Event =
    | Tick(ms: nat)
    | RegisterReq(email: string, password: string, meta: RequestMeta)
    | LoginReq(email: string, password: string, meta: RequestMeta)
    | RefreshReq(raw: Id, meta: RequestMeta)
    | LogoutReq(bearer: AccessToken, raw: Id)
    | LogoutAllReq(bearer: AccessToken)
    | ForgotReq(email: string)
    | ResetReq(raw: Id, newPassword: string)
    | ChangeReq(bearer: AccessToken, current: string, newPassword: string)
    | SessionsReq(bearer: AccessToken)
    | RevokeReq(bearer: AccessToken, rowId: Id)
    | AssignRolesReq(bearer: AccessToken, userId: Id, names: seq<string>)
    | CreateRoleReq(bearer: AccessToken, name: string)
    | RemoveRoleReq(bearer: AccessToken, id: Id)
    | SetPermissionsReq(bearer: AccessToken, id: Id, names: seq<string>)
    | CreatePermissionReq(bearer: AccessToken, name: string)
    | SetActiveByHand(userId: Id, active: bool)   // no code writes `isActive`; an operator may

  /** The controller blacklists for a fixed quarter of an hour, whatever the configured lifetime. */
  const LOGOUT_BLACKLIST_SECONDS: int := 15 * 60

  /** The permission a route demands, for the routes that demand one. */
  function Required(e: Event): seq<string> {
    match e
    case AssignRolesReq(_, _, _) => ["users:manage-roles"]
    case CreateRoleReq(_, _) => ["roles:manage"]
    case RemoveRoleReq(_, _) => ["roles:manage"]
    case SetPermissionsReq(_, _, _) => ["roles:manage"]
    case CreatePermissionReq(_, _) => ["roles:manage"]
    case _ => []
  }

  function Step(c: Config, w: World, e: Event): (World, Outcome) {
    match e
    case Tick(ms) => (w.(now := w.now + ms), Done)
    case RegisterReq(email, password, meta) => Register(c, w, email, password, meta)
    case LoginReq(email, password, meta) =>
      var user := ValidateCredentials(w, email, password);
      if user.None? then (w, Failed(InvalidCredentials)) else Login(c, w, user.value, meta)
    case RefreshReq(raw, meta) => Refresh(c, w, raw, meta)
    case ForgotReq(email) => ForgotPassword(w, email)
    case ResetReq(raw, newPassword) => ResetPassword(w, raw, newPassword)
    case SetActiveByHand(userId, active) => (w.(users := SetActive(w.users, userId, active)), Done)
    case _ =>
      var user := Authenticate(w, e.bearer);
      if user.None? then (w, Failed(Unauthenticated))
      else if !PermissionsGuard(Required(e), user.value) then (w, Failed(Forbidden))
      else Serve(w, user.value, e)
  }

  /** The routes behind the bearer token; `user` is what the strategy returned. */
  function Serve(w: World, user: AuthenticatedUser, e: Event): (World, Outcome) {
    match e
    case LogoutReq(_, raw) => Logout(w, user.id, raw, Some(user.jti), Some(LOGOUT_BLACKLIST_SECONDS))
    case LogoutAllReq(_) => LogoutAll(w, user.id)
    case ChangeReq(_, current, newPassword) => ChangePassword(w, user.id, current, newPassword)
    case SessionsReq(_) => (w, Sessions(ListSessions(w, user.id, Some(user.sessionId))))
    case RevokeReq(_, rowId) => RevokeSession(w, user.id, rowId)
    case AssignRolesReq(_, userId, names) => AssignUserRoles(w, userId, names)
    case CreateRoleReq(_, name) => WithGraph(w.(next := w.next + 1), CreateRole(w.graph, w.next, name))
    case RemoveRoleReq(_, id) => WithGraph(w, RemoveRole(w.graph, id))
    case SetPermissionsReq(_, id, names) => WithGraph(w, SetPermissions(w.graph, id, names))
    case CreatePermissionReq(_, name) => WithGraph(w.(next := w.next + 1), CreatePermission(w.graph, w.next, name))
    case _ => (w, Done)
  }
}
