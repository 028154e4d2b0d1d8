/** The services as objects that update the shared tables statement by statement. Every method is
    tied to the step function of module World, about which everything else is proved, and says what its
    caller can rely on when the tables are in order. */
module Services {
  import opened Basics
  import T = RefreshTable
  import R = Rbac
  import E = Email
  import W = World
  import I = Invariants
  import O = Operations
  import P = Replay

  /** Clock and randomness. */
  class Runtime {
    var now: Millis
    var next: nat

    constructor (now: Millis, next: nat)
      ensures this.now == now && this.next == next
    {
      this.now, this.next := now, next;
    }

    /** `randomUUID()` and `randomBytes`: never the same twice. */
    method Fresh() returns (id: Id)
      modifies this`next
      ensures id == old(next) && next == id + 1
    {
      id := next;
      next := next + 1;
    }
  }

  /** The Postgres tables behind the repositories. */
  class Database {
    var users: seq<W.User>
    var graph: R.Graph
    var refreshTokens: T.Table
    var authTokens: seq<W.AuthToken>

    constructor (users: seq<W.User>, graph: R.Graph)
      ensures this.users == users && this.graph == graph && refreshTokens == [] && authTokens == []
    {
      this.users, this.graph := users, graph;
      refreshTokens, authTokens := [], [];
    }
  }

  class RedisService {
    var store: map<W.Key, Millis>

    constructor ()
      ensures store == map[]
    {
      store := map[];
    }

    method BlacklistToken(now: Millis, jti: Id, ttlSeconds: int)
      modifies this
      ensures store == W.Blacklist(old(store), now, jti, ttlSeconds)
      ensures store == if ttlSeconds <= 0 then old(store) else old(store)[W.BlacklistKey(jti) := now + ttlSeconds * 1000]
    {
      if ttlSeconds <= 0 { return; }
      store := store[W.BlacklistKey(jti) := now + ttlSeconds * MILLIS_PER_SECOND];
    }

    method IsTokenBlacklisted(now: Millis, jti: Id) returns (listed: bool)
      ensures listed <==> W.BlacklistKey(jti) in store && now <= store[W.BlacklistKey(jti)]
    {
      listed := W.BlacklistKey(jti) in store && now <= store[W.BlacklistKey(jti)];
    }

    method InvalidateUserCache(userId: Id)
      modifies this
      ensures store == old(store) - {W.UserKey(userId)}
    {
      store := store - {W.UserKey(userId)};
    }
  }

  /** Runs once signature and expiry have been verified. */
  class JwtStrategy {
    const redis: RedisService

    constructor (redis: RedisService)
      ensures this.redis == redis
    {
      this.redis := redis;
    }

    method Validate(now: Millis, payload: W.AccessToken) returns (user: Result<W.AuthenticatedUser>)
      // refused exactly while the token's own jti is listed
      ensures user.Err? <==> W.BlacklistKey(payload.jti) in redis.store && now <= redis.store[W.BlacklistKey(payload.jti)]
      ensures user.Err? ==> user.error == Unauthenticated
      ensures user.Ok? ==>
                && user.value.id == payload.sub && user.value.email == payload.email
                && user.value.roles == payload.roles && user.value.permissions == payload.permissions
                && user.value.jti == payload.jti && user.value.sessionId == payload.sessionId
      // together with the verification before it, this is the authentication of the step function
      ensures forall w: W.World :: w.now == now && w.store == redis.store && W.Signed(w, payload) && Seconds(now) < payload.exp ==>
                W.Authenticate(w, payload) == if user.Ok? then Some(user.value) else None
    {
      var blacklisted := redis.IsTokenBlacklisted(now, payload.jti);
      if blacklisted { return Err(Unauthenticated); }
      user := Ok(W.AuthenticatedUser(payload.sub, payload.email, payload.roles, payload.permissions,
                                     payload.jti, payload.sessionId));
    }
  }

  class RolesService {
    const db: Database
    const runtime: Runtime

    constructor (db: Database, runtime: Runtime)
      ensures this.db == db && this.runtime == runtime
    {
      this.db, this.runtime := db, runtime;
    }

    method Create(name: string) returns (out: Result<R.Graph>)
      modifies db`graph, runtime`next
      ensures out == R.CreateRole(old(db.graph), old(runtime.next), name)
      ensures db.graph == if out.Ok? then out.value else old(db.graph)
      ensures R.Sound(old(db.graph), old(runtime.next)) ==> R.Sound(db.graph, runtime.next)
    {
      ghost var g := db.graph;
      if R.Sound(g, runtime.next) {
        R.SoundLater(g, runtime.next, runtime.next + 1);
        R.CreateRoleSound(g, runtime.next, runtime.next, name);
      }
      var id := runtime.Fresh();
      if exists r :: r in db.graph.roles && r.name == name {
        return Err(NameTaken);
      }
      db.graph := db.graph.(roles := db.graph.roles + [R.RoleRow(id, name)]);
      out := Ok(db.graph);
    }

    method Remove(id: Id) returns (out: Result<R.Graph>)
      modifies db`graph
      ensures out == R.RemoveRole(old(db.graph), id)
      ensures db.graph == if out.Ok? then out.value else old(db.graph)
      ensures R.Sound(old(db.graph), runtime.next) ==> R.Sound(db.graph, runtime.next)
    {
      if R.Sound(db.graph, runtime.next) { R.RemoveRoleSound(db.graph, runtime.next, id); }
      var at := R.FindRole(db.graph.roles, id);
      if at < 0 { return Err(RoleNotFound); }
      var g := db.graph;
      db.graph := g.(roles := g.roles[..at] + g.roles[at + 1..]);
      // ON DELETE CASCADE of both join tables
      db.graph := db.graph.(rolePermissions := set l | l in g.rolePermissions && l.0 != id);
      db.graph := db.graph.(userRoles := set l | l in g.userRoles && l.1 != id);
      out := Ok(db.graph);
    }

    method SetPermissions(id: Id, names: seq<string>) returns (out: Result<R.Graph>)
      modifies db`graph
      ensures out == R.SetPermissions(old(db.graph), id, names)
      ensures db.graph == if out.Ok? then out.value else old(db.graph)
      ensures R.Sound(old(db.graph), runtime.next) ==> R.Sound(db.graph, runtime.next)
    {
      if R.Sound(db.graph, runtime.next) { R.SetPermissionsSound(db.graph, runtime.next, id, names); }
      var at := R.FindRole(db.graph.roles, id);
      if at < 0 { return Err(RoleNotFound); }
      var permissions := R.PermissionsNamed(db.graph.permissions, names);
      var missing := R.Missing(names, set p | p in permissions :: p.name);
      if |missing| > 0 { return Err(UnknownNames(missing)); }
      db.graph := db.graph.(rolePermissions :=
        (set l | l in db.graph.rolePermissions && l.0 != id) + (set p | p in permissions :: (id, p.id)));
      out := Ok(db.graph);
    }
  }

  class UsersService {
    const db: Database
    const runtime: Runtime

    constructor (db: Database, runtime: Runtime)
      ensures this.db == db && this.runtime == runtime
    {
      this.db, this.runtime := db, runtime;
    }

    method Create(email: string, hash: PasswordHash) returns (out: Result<W.UserEntity>)
      modifies db`users, db`graph, runtime`next
      ensures out.Err? <==> W.FindByEmail(old(db.users), email) >= 0
      ensures out.Err? ==> out.error == EmailTaken && unchanged(db) && unchanged(runtime)
      ensures out.Ok? ==>
                && out.value == W.UserEntity(old(runtime.next), E.Normalise(email), hash, true,
                                             R.LoadRows(old(db.graph), R.RolesNamed(old(db.graph.roles), ["user"])))
                && db.users == old(db.users) + [W.User(old(runtime.next), E.Normalise(email), hash, true)]
                && db.graph == R.LinkUser(old(db.graph), old(runtime.next), R.RolesNamed(old(db.graph.roles), ["user"]))
                && runtime.next == old(runtime.next) + 1
    {
      var existing := W.FindByEmail(db.users, email);
      if existing >= 0 { return Err(EmailTaken); }
      var defaultRoles := R.RolesNamed(db.graph.roles, ["user"]);
      var roles := R.LoadRows(db.graph, defaultRoles);
      var id := runtime.Fresh();
      var user := W.User(id, E.Normalise(email), hash, true);
      db.users := db.users + [user];
      db.graph := R.LinkUser(db.graph, id, defaultRoles);
      out := Ok(W.UserEntity(id, user.email, hash, true, roles));
    }

    method AssignRoles(id: Id, names: seq<string>) returns (out: Result<R.Graph>)
      modifies db`graph
      ensures W.FindUser(db.users, id) < 0 ==> out == Err(UserNotFound)
      ensures W.FindUser(db.users, id) >= 0 ==> out == R.AssignRoles(old(db.graph), id, names)
      ensures db.graph == if out.Ok? then out.value else old(db.graph)
    {
      var user := W.FindUser(db.users, id);
      if user < 0 { return Err(UserNotFound); }
      var roles := R.RolesNamed(db.graph.roles, names);
      var missing := R.Missing(names, set r | r in roles :: r.name);
      if |missing| > 0 { return Err(UnknownNames(missing)); }
      db.graph := R.LinkUser(db.graph, id, roles);
      out := Ok(db.graph);
    }

    method UpdatePassword(id: Id, hash: PasswordHash)
      modifies db`users
      ensures db.users == W.SetPassword(old(db.users), id, hash)
    {
      db.users := W.SetPassword(db.users, id, hash);
    }
  }

  class AuthService {
    const config: Config
    const db: Database
    const redis: RedisService
    const runtime: Runtime
    const users: UsersService
    ghost var issued: seq<W.Issue>

    constructor (config: Config, db: Database, redis: RedisService, runtime: Runtime, users: UsersService)
      requires users.db == db && users.runtime == runtime
      ensures this.config == config && this.db == db && this.redis == redis && this.runtime == runtime && this.users == users
      ensures issued == [] && Wired()
    {
      this.config, this.db, this.redis, this.runtime, this.users := config, db, redis, runtime, users;
      issued := [];
    }

    ghost predicate Wired() {
      users.db == db && users.runtime == runtime
    }

    ghost function State(): W.World
      reads this, db, redis, runtime
    {
      W.World(runtime.now, runtime.next, db.users, db.graph, db.refreshTokens, db.authTokens, redis.store, issued)
    }

    /** The tables are in order: everything every request keeps. */
    ghost predicate Valid()
      reads this, db, redis, runtime
    {
      I.WorldInv(config, State())
    }

    method Register(email: string, password: string, meta: RequestMeta) returns (out: W.Outcome)
      requires Wired()
      modifies this`issued, db, runtime`next
      ensures (State(), out) == W.Register(config, old(State()), email, password, meta)
      ensures old(Valid()) ==> Valid()
    {
      hide I.WorldInv, W.Login, W.FindByEmail, E.Normalise, R.LoadRows, R.RolesNamed, R.LinkUser;
      if Valid() { O.RegisterValid(config, State(), email, password, meta); }
      var passwordHash := Argon2(password);
      var user := users.Create(email, passwordHash);
      if user.Err? { return W.Failed(user.error); }
      out := Login(user.value, meta);
    }

    method ValidateCredentials(email: string, password: string) returns (user: Option<W.UserEntity>)
      ensures user == W.ValidateCredentials(State(), email, password)
    {
      var at := W.FindByEmail(db.users, email);
      if at < 0 || !db.users[at].isActive { return None; }
      var row := db.users[at];
      if !Verify(row.passwordHash, password) { return None; }
      user := Some(W.UserEntity(row.id, row.email, row.passwordHash, row.isActive, R.RolesOfUser(db.graph, row.id)));
    }

    method Login(user: W.UserEntity, meta: RequestMeta) returns (out: W.Outcome)
      modifies this`issued, db`refreshTokens, runtime`next
      ensures (State(), out) == W.Login(config, old(State()), user, meta)
      ensures old(Valid()) && I.HasUser(db.users, user.id) ==> Valid()
    {
      if Valid() && I.HasUser(db.users, user.id) { O.LoginValid(config, State(), user, meta); }
      var family := runtime.Fresh();
      out := IssueTokenPair(user, family, meta);
    }

    method Refresh(raw: Id, meta: RequestMeta) returns (out: W.Outcome)
      modifies this`issued, db`refreshTokens, runtime`next
      ensures (State(), out) == W.Refresh(config, old(State()), raw, meta)
      ensures old(Valid()) ==> Valid()
      ensures old(Valid()) ==>
                forall i :: 0 <= i < |old(db.refreshTokens)| && old(db.refreshTokens)[i].tokenHash == Sha256(raw) ==>
                  O.RefreshMeans(old(db.refreshTokens), i, runtime.now, db.refreshTokens, out)
    {
      hide I.WorldInv;
      if Valid() { O.RefreshValid(config, State(), raw, meta); }
      var at := T.FindHash(db.refreshTokens, Sha256(raw));
      if at < 0 { return W.Failed(InvalidRefreshToken); }
      var existing := db.refreshTokens[at];
      if existing.revoked {
        db.refreshTokens := T.RevokeWhere(db.refreshTokens, T.ByFamily(existing.family));
        return W.Failed(RefreshTokenReused);
      }
      if existing.expiresAt < runtime.now { return W.Failed(RefreshTokenExpired); }
      var owner := W.FindUser(db.users, existing.userId);
      if owner < 0 { return W.Failed(UserNotFound); }
      var row := db.users[owner];
      var user := W.UserEntity(row.id, row.email, row.passwordHash, row.isActive, R.RolesOfUser(db.graph, row.id));
      db.refreshTokens := T.RevokeWhere(db.refreshTokens, T.ById(existing.id));
      out := IssueTokenPair(user, existing.family, meta);
    }

    method Logout(userId: Id, raw: Id, jti: Option<Id>, expSeconds: Option<int>) returns (out: W.Outcome)
      modifies db`refreshTokens, redis
      ensures (State(), out) == W.Logout(old(State()), userId, raw, jti, expSeconds)
      ensures old(Valid()) ==> Valid()
    {
      hide I.WorldInv;
      if Valid() { O.LogoutValid(config, State(), userId, raw, jti, expSeconds); }
      db.refreshTokens := T.RevokeWhere(db.refreshTokens, T.ByHashAndUser(Sha256(raw), userId));
      if jti.Some? && expSeconds.Some? && expSeconds.value != 0 {
        redis.BlacklistToken(runtime.now, jti.value, expSeconds.value);
      }
      out := W.Done;
    }

    method LogoutAll(userId: Id) returns (out: W.Outcome)
      modifies db`refreshTokens, redis
      ensures (State(), out) == W.LogoutAll(old(State()), userId)
      ensures old(Valid()) ==> Valid()
      ensures old(Valid()) ==> P.NothingLive(db.refreshTokens, userId)
    {
      hide I.WorldInv;
      if Valid() { O.LogoutAllValid(config, State(), userId); }
      db.refreshTokens := T.RevokeWhere(db.refreshTokens, T.LiveOfUser(userId));
      redis.InvalidateUserCache(userId);
      out := W.Done;
    }

    method ForgotPassword(email: string) returns (out: W.Outcome)
      modifies db`authTokens, runtime`next
      ensures (State(), out) == W.ForgotPassword(old(State()), email)
      ensures out.ResetToken? && (out.token.None? ==> db.authTokens == old(db.authTokens))
      ensures out.token.Some? ==>
                && |db.authTokens| == |old(db.authTokens)| + 1 && db.authTokens[..|old(db.authTokens)|] == old(db.authTokens)
                && db.authTokens[|old(db.authTokens)|].tokenHash == Sha256(out.token.value)
                && !db.authTokens[|old(db.authTokens)|].used
                && db.authTokens[|old(db.authTokens)|].expiresAt == runtime.now + 30 * 60 * 1000
      ensures old(Valid()) ==> Valid()
    {
      hide I.WorldInv;
      if Valid() { O.ForgotValid(config, State(), email); }
      var at := W.FindByEmail(db.users, email);
      if at < 0 { return W.ResetToken(None); }
      var raw := runtime.Fresh();
      var expiresAt := runtime.now + 30 * 60 * 1000;
      var id := runtime.Fresh();
      db.authTokens := db.authTokens +
        [W.AuthToken(id, db.users[at].id, Sha256(raw), W.PasswordReset, false, expiresAt, runtime.now)];
      out := W.ResetToken(Some(raw));
    }

    method ResetPassword(raw: Id, newPassword: string) returns (out: W.Outcome)
      requires Wired()
      modifies db, redis
      ensures (State(), out) == W.ResetPassword(old(State()), raw, newPassword)
      ensures old(Valid()) ==> Valid()
      ensures old(Valid()) ==> (out == W.Done <==> exists i :: O.Redeemable(old(State()), i, raw))
      ensures old(Valid()) ==>
                forall i :: O.Redeemable(old(State()), i, raw) ==>
                  && i < |db.authTokens| && db.authTokens[i].used
                  && O.PasswordIs(db.users, old(db.authTokens)[i].userId, newPassword)
                  && P.NothingLive(db.refreshTokens, old(db.authTokens)[i].userId)
    {
      hide I.WorldInv, O.PasswordIs, O.Redeemable, P.NothingLive;
      if Valid() { O.ResetValid(config, State(), raw, newPassword); }
      var at := W.FindAuthToken(db.authTokens, Sha256(raw), W.PasswordReset);
      if at < 0 { return W.Failed(InvalidResetToken); }
      var record := db.authTokens[at];
      if record.used || record.expiresAt < runtime.now { return W.Failed(InvalidResetToken); }
      users.UpdatePassword(record.userId, Argon2(newPassword));
      db.authTokens := W.MarkUsed(db.authTokens, record.id);
      out := LogoutAll(record.userId);
    }

    method ChangePassword(userId: Id, current: string, newPassword: string) returns (out: W.Outcome)
      requires Wired()
      modifies db, redis
      ensures (State(), out) == W.ChangePassword(old(State()), userId, current, newPassword)
      ensures old(Valid()) ==> Valid()
      ensures old(Valid()) ==> (out == W.Done <==> O.PasswordIs(old(db.users), userId, current))
      ensures old(Valid()) && out == W.Done ==>
                O.PasswordIs(db.users, userId, newPassword) && P.NothingLive(db.refreshTokens, userId)
    {
      hide I.WorldInv, O.PasswordIs, P.NothingLive;
      if Valid() { O.ChangeValid(config, State(), userId, current, newPassword); }
      var at := W.FindUser(db.users, userId);
      if at < 0 { return W.Failed(UserNotFound); }
      if !Verify(db.users[at].passwordHash, current) { return W.Failed(WrongPassword); }
      users.UpdatePassword(userId, Argon2(newPassword));
      out := LogoutAll(userId);
    }

    method ListSessions(userId: Id, current: Option<Id>) returns (sessions: seq<W.SessionView>)
      ensures sessions == W.ListSessions(State(), userId, current)
      ensures Valid() ==> O.ListMeans(config, State(), userId, current, sessions)
    {
      hide I.WorldInv;
      if Valid() { O.ListValid(config, State(), userId, current); }
      var rows := W.ActiveRows(db.refreshTokens, userId, runtime.now);
      sessions := seq(|rows|, i requires 0 <= i < |rows| => W.View(rows[i], current));
    }

    method RevokeSession(userId: Id, rowId: Id) returns (out: W.Outcome)
      modifies db`refreshTokens
      ensures (State(), out) == W.RevokeSession(old(State()), userId, rowId)
      ensures old(Valid()) ==> Valid()
      ensures old(Valid()) ==>
                (out == W.Done <==> exists i :: 0 <= i < |old(db.refreshTokens)|
                                                && old(db.refreshTokens)[i].id == rowId && old(db.refreshTokens)[i].userId == userId)
      ensures out == W.Done ==>
                forall i :: 0 <= i < |db.refreshTokens| && db.refreshTokens[i].id == rowId ==> db.refreshTokens[i].revoked
    {
      hide I.WorldInv;
      if Valid() { O.RevokeSessionValid(config, State(), userId, rowId); }
      var at := T.FindOwned(db.refreshTokens, rowId, userId);
      if at < 0 { return W.Failed(SessionNotFound); }
      db.refreshTokens := T.RevokeWhere(db.refreshTokens, T.ById(db.refreshTokens[at].id));
      out := W.Done;
    }

    method IssueTokenPair(user: W.UserEntity, family: Id, meta: RequestMeta) returns (out: W.Outcome)
      modifies this`issued, db`refreshTokens, runtime`next
      ensures (State(), out) == W.IssueTokenPair(config, old(State()), user, family, meta)
      ensures out.Pair? && |db.refreshTokens| == |old(db.refreshTokens)| + 1
      ensures var (a, row) := (out.pair.accessToken, db.refreshTokens[|old(db.refreshTokens)|]);
              && a.sub == user.id && a.email == user.email && a.sessionId == family
              && a.iat == runtime.now / 1000 && a.exp == runtime.now / 1000 + config.accessTokenTtl
              && row.userId == user.id && row.family == family && !row.revoked && row.meta == meta
              && row.tokenHash == Sha256(out.pair.refreshToken)
              && row.createdAt == runtime.now && row.expiresAt == runtime.now + config.refreshTtlDays * 86400000
    {
      var permissions := R.FlattenPermissionNames(user.roles);
      var jti := runtime.Fresh();
      var iat := Seconds(runtime.now);
      var accessToken := W.AccessToken(user.id, user.email, R.FlattenRoleNames(user.roles), permissions,
                                       jti, family, iat, iat + config.accessTokenTtl);
      issued := issued + [W.Issue(accessToken, runtime.now)];
      var raw := runtime.Fresh();
      var id := runtime.Fresh();
      var row := T.Row(id, user.id, Sha256(raw), family, false, meta,
                       runtime.now + config.refreshTtlDays * 24 * 60 * 60 * 1000, runtime.now);
      db.refreshTokens := db.refreshTokens + [row];
      out := W.Pair(W.TokenPair(accessToken, raw, config.accessTokenTtl));
    }
  }
}
