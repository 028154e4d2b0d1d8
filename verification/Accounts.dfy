/** What registration, login, a forgotten password and a change of it answer and do, told by the history. */
module Accounts {
  import opened Basics
  import opened RefreshTable
  import opened Rbac
  import opened Email
  import opened World
  import opened Invariants
  import opened Runs
  import opened Replay
  import opened Authority
  import opened Credentials
  import opened ResetTokens
  import opened History
  import opened Routes

  // ---------- whose account ----------

  lemma EmailOfAccount(users: seq<User>, next: nat, w: World, i: nat)
    requires UsersInv(users, next) && w.users == users && i < |users|
    ensures EmailOf(w, users[i].id) == users[i].email && FindUser(users, users[i].id) == i
  {
  }

  /** An account keeps its e-mail. */
  lemma EmailLater(r: Run, k: nat, j: nat, i: nat)
    requires Proper(r) && k <= j <= |r.events| && i < |r.At(k).users|
    ensures EmailOf(r.At(j), r.At(k).users[i].id) == r.At(k).users[i].email
  {
    hide Step;
    Later(r, k, j);
    Reachable(r, j);
    assert r.At(j).users[i].id == r.At(k).users[i].id && r.At(j).users[i].email == r.At(k).users[i].email;
    EmailOfAccount(r.At(j).users, r.At(j).next, r.At(j), i);
  }

  /** The e-mail in a token is that of its subject's account, now as when it was signed. */
  lemma BearerEmail(r: Run, j: nat, a: AccessToken)
    requires Proper(r) && j <= |r.events| && Honoured(r, j, a)
    ensures EmailOf(r.At(j), a.sub) == a.email
  {
    hide Step, EmailOf;
    var k: nat :| k < j && SignedBy(r, k, a);
    StepAt(r, k);
    SignedForAccount(r.c, r.At(k), r.events[k]);
    var u :| u in r.At(k + 1).users && u.id == a.sub && u.email == a.email;
    var i :| 0 <= i < |r.At(k + 1).users| && r.At(k + 1).users[i] == u;
    EmailLater(r, k + 1, j, i);
  }

  // ---------- what a pair says ----------

  /** Whatever request it answers, a pair is signed for the floored second of that moment and the configured
      lifetime, names what its subject holds then, and brings an access token and a refresh token that
      no earlier pair had. A login or registration brings a session that no earlier pair had. */
  lemma PairByHistory(r: Run, j: nat)
    requires Proper(r) && j < |r.events| && r.Out(j).Pair?
    ensures var a := r.Out(j).pair.accessToken;
            && a.iat == r.At(j).now / 1000 && a.exp == r.At(j).now / 1000 + r.c.accessTokenTtl
            && r.Out(j).pair.expiresIn == r.c.accessTokenTtl
            && (forall p :: p in a.permissions <==> Holds(r.At(j + 1).graph, a.sub, p))
            && (forall n :: n in a.roles <==> Member(r.At(j + 1).graph, a.sub, n))
    ensures forall k :: 0 <= k < j && r.Out(k).Pair? ==>
              && r.Out(k).pair.accessToken.jti != r.Out(j).pair.accessToken.jti
              && r.Out(k).pair.refreshToken != r.Out(j).pair.refreshToken
              && (SessionOf(r, k) == SessionOf(r, j) ==> r.events[j].RefreshReq?)
  {
    hide Step;
    StepAt(r, j);
    Reachable(r, j);
    StepIssues(r.c, r.At(j), r.events[j]);
    SignedIsTrue(r.c, r.At(j), r.events[j]);
    forall k | 0 <= k < j && r.Out(k).Pair?
      ensures r.Out(k).pair.accessToken.jti != r.Out(j).pair.accessToken.jti
      ensures r.Out(k).pair.refreshToken != r.Out(j).pair.refreshToken
      ensures SessionOf(r, k) == SessionOf(r, j) ==> r.events[j].RefreshReq?
    {
      PairIsNew(r, k, j);
    }
  }

  lemma PairIsNew(r: Run, k: nat, j: nat)
    requires Proper(r) && k < j < |r.events| && r.Out(k).Pair? && r.Out(j).Pair?
    ensures r.Out(k).pair.accessToken.jti != r.Out(j).pair.accessToken.jti
    ensures r.Out(k).pair.refreshToken != r.Out(j).pair.refreshToken
    ensures SessionOf(r, k) == SessionOf(r, j) ==> r.events[j].RefreshReq?
  {
    hide Step;
    StepIssues(r.c, r.At(k), r.events[k]);
    StepIssues(r.c, r.At(j), r.events[j]);
    Later(r, k + 1, j);
    RowOfPair(r, k, j + 1);
    RowOfPair(r, j, j + 1);
    RowOfPair(r, k, j);
    Reachable(r, j);
    Reachable(r, j + 1);
    StepTable(r.c, r.At(j), r.events[j]);
  }

  // ---------- registration and login ----------

  /** Registering a free e-mail creates an active account of its normal form with the role `user`, if there
      is one, and logs it in; any variant of a registered e-mail is refused and nothing changes. */
  lemma RegisterRoute(r: Run, j: nat)
    requires Proper(r) && j < |r.events| && r.events[j].RegisterReq?
    ensures var (e, w, w', m) := (r.events[j], r.At(j), r.At(j + 1), Passwords(r, j));
            if Normalise(e.email) in m then r.Out(j) == Failed(EmailTaken) && w' == w
            else
              && r.Out(j).Pair? && r.Out(j).pair.accessToken.email == Normalise(e.email)
              && FindUser(w.users, UserOf(r, j)) < 0
              && w'.users == w.users + [User(UserOf(r, j), Normalise(e.email), Argon2(e.password), true)]
              && (forall n :: Member(w'.graph, UserOf(r, j), n) <==> n == "user" && KnownRole(w.graph, n))
              && (forall u: Id, role: Id :: u != UserOf(r, j) ==> ((u, role) in w'.graph.userRoles <==> (u, role) in w.graph.userRoles))
              && w'.graph == w.graph.(userRoles := w'.graph.userRoles)
  {
    hide Step, Passwords, Register;
    var e, w := r.events[j], r.At(j);
    StepAt(r, j);
    RegisterStep(r.c, w, e);
    CredentialsRefineMap(r, j, e.email, "");
    Reachable(r, j);
    RegisterEffect(r.c, w, e.email, e.password, e.meta);
  }

  lemma RegisterStep(c: Config, w: World, e: Event)
    requires e.RegisterReq?
    ensures Step(c, w, e) == Register(c, w, e.email, e.password, e.meta)
  {
    hide Register;
  }

  lemma RegisterEffect(c: Config, w: World, email: string, password: string, meta: RequestMeta)
    requires WorldInv(c, w)
    ensures var (w', out) := Register(c, w, email, password, meta);
            if FindByEmail(w.users, email) >= 0 then out == Failed(EmailTaken) && w' == w
            else
              && out.Pair? && out.pair.accessToken.email == Normalise(email)
              && FindUser(w.users, out.pair.accessToken.sub) < 0
              && w'.users == w.users + [User(out.pair.accessToken.sub, Normalise(email), Argon2(password), true)]
              && (forall n :: Member(w'.graph, out.pair.accessToken.sub, n) <==> n == "user" && KnownRole(w.graph, n))
              && (forall u: Id, role: Id :: u != out.pair.accessToken.sub ==>
                    ((u, role) in w'.graph.userRoles <==> (u, role) in w.graph.userRoles))
              && w'.graph == w.graph.(userRoles := w'.graph.userRoles)
  {
    hide FlattenRoleNames, PermissionNames, Inv, Owned, IssuedInv, ResetsInv, Member, KnownRole, FindEmail, Normalise;
    if FindByEmail(w.users, email) < 0 { LinkedMembership(w.graph, w.next, w.next, ["user"]); }
  }

  /** A login is answered with a pair for the account of the normalised e-mail exactly when the password is
      the latest one and the account is active; otherwise it is refused and nothing changes. */
  lemma LoginRoute(r: Run, j: nat)
    requires Proper(r) && j < |r.events| && r.events[j].LoginReq?
    ensures var (e, w, m) := (r.events[j], r.At(j), Passwords(r, j));
            var at := FindByEmail(w.users, e.email);
            if at >= 0 && Normalise(e.email) in m && m[Normalise(e.email)] == e.password && w.users[at].isActive then
              && r.Out(j).Pair? && UserOf(r, j) == w.users[at].id && r.Out(j).pair.accessToken.email == Normalise(e.email)
            else r.Out(j) == Failed(InvalidCredentials) && r.At(j + 1) == w
  {
    hide Step, Passwords, Login;
    var e, w := r.events[j], r.At(j);
    StepAt(r, j);
    LoginStep(r.c, w, e);
    CredentialsRefineMap(r, j, e.email, e.password);
  }

  lemma LoginStep(c: Config, w: World, e: Event)
    requires e.LoginReq?
    ensures var (at, out) := (FindByEmail(w.users, e.email), Step(c, w, e).1);
            if ValidateCredentials(w, e.email, e.password).Some? then
              out.Pair? && at >= 0 && out.pair.accessToken.sub == w.users[at].id && out.pair.accessToken.email == Normalise(e.email)
            else Step(c, w, e) == (w, Failed(InvalidCredentials))
  {
    hide FlattenRoleNames, PermissionNames, Normalise;
  }

  // ---------- forgotten and changed passwords ----------

  /** A forgotten password is answered with a reset token that no earlier request gave out exactly when the
      e-mail has an account, and otherwise silently, with nothing changed. */
  lemma ForgotRoute(r: Run, j: nat)
    requires Proper(r) && j < |r.events| && r.events[j].ForgotReq?
    ensures r.Out(j).ResetToken?
    ensures r.Out(j).token.Some? <==> Normalise(r.events[j].email) in Passwords(r, j)
    ensures r.Out(j).token.None? ==> r.At(j + 1) == r.At(j)
    ensures forall k :: 0 <= k < j && r.Out(j).token.Some? ==> !GaveOut(r, k, r.Out(j).token.value)
  {
    hide Step, Passwords;
    StepAt(r, j);
    StepAuthTokens(r.c, r.At(j), r.events[j]);
    CredentialsRefineMap(r, j, r.events[j].email, "");
    forall k | 0 <= k < j && r.Out(j).token.Some? ensures !GaveOut(r, k, r.Out(j).token.value) {
      if GaveOut(r, k, r.Out(j).token.value) { OlderToken(r, k, j, r.Out(j).token.value); }
    }
  }

  lemma OlderToken(r: Run, k: nat, j: nat, raw: Id)
    requires Proper(r) && k < j <= |r.events| && GaveOut(r, k, raw)
    ensures raw < r.At(j).next
  {
    hide Step;
    StepAuthTokens(r.c, r.At(k), r.events[k]);
    Later(r, k + 1, j);
  }

  /** A reset is answered `Done` or refused with nothing changed; `ResetTokens.ResetIff` says which. */
  lemma ResetRoute(r: Run, j: nat)
    requires Proper(r) && j < |r.events| && r.events[j].ResetReq?
    ensures r.Out(j) == Done || (r.Out(j) == Failed(InvalidResetToken) && r.At(j + 1) == r.At(j))
  {
    StepAt(r, j);
  }

  /** A password change is answered `Done` exactly when the current password is the latest one set for the
      e-mail in the bearer's token. */
  lemma ChangeRoute(r: Run, j: nat)
    requires Proper(r) && j < |r.events| && r.events[j].ChangeReq? && LetIn(r, j)
    ensures var (e, m) := (r.events[j], Passwords(r, j));
            if e.bearer.email in m && m[e.bearer.email] == e.current then r.Out(j) == Done
            else r.Out(j) == Failed(WrongPassword) && r.At(j + 1) == r.At(j)
  {
    hide Step, Passwords, EmailOf, Honoured;
    var w, e := r.At(j), r.events[j];
    ChangeIff(r, j);
    BearerEmail(r, j, e.bearer);
    AuthenticatedByHistory(r, j, e.bearer);
    BearerHasAccount(r, j, e.bearer);
    var user := ServedByHistory(r, j);
    HasUserFound(w.users, e.bearer.sub);
  }

  /** How each request changes the map from e-mail to password: registration sets it for its own e-mail, a
      change for the e-mail in the bearer's token, a reset for the e-mail that asked for the token, and
      nothing else sets it for anyone. */
  lemma PasswordsByHistory(r: Run, j: nat)
    requires Proper(r) && j < |r.events|
    ensures var (e, m, m') := (r.events[j], Passwords(r, j), Passwords(r, j + 1));
            match e
            case RegisterReq(email, password, _) => m' == if r.Out(j).Pair? then m[Normalise(email) := password] else m
            case ChangeReq(bearer, _, password) => m' == if r.Out(j) == Done then m[bearer.email := password] else m
            case ResetReq(raw, password) =>
              && (r.Out(j) != Done ==> m' == m)
              && (forall k :: 0 <= k < j && GaveOut(r, k, raw) && r.Out(j) == Done ==> m' == m[Normalise(r.events[k].email) := password])
            case _ => m' == m
  {
    hide Step, EmailOf, Honoured;
    StepAt(r, j);
    match r.events[j]
    case ChangeReq(bearer, _, _) =>
      if r.Out(j) == Done {
        GuardsByHistory(r, j);
        BearerEmail(r, j, bearer);
      }
    case ResetReq(raw, _) =>
      forall k | 0 <= k < j && GaveOut(r, k, raw) && r.Out(j) == Done
        ensures var at := FindAuthToken(r.At(j).authTokens, Sha256(raw), PasswordReset);
                at >= 0 && EmailOf(r.At(j), r.At(j).authTokens[at].userId) == Normalise(r.events[k].email)
      {
        AskedFor(r, k, j, raw);
      }
    case _ =>
  }

  /** The record of a reset token belongs to the account whose e-mail asked for it. */
  lemma AskedFor(r: Run, k: nat, j: nat, raw: Id)
    requires Proper(r) && k < j <= |r.events| && GaveOut(r, k, raw)
    ensures var at := FindAuthToken(r.At(j).authTokens, Sha256(raw), PasswordReset);
            at >= 0 && EmailOf(r.At(j), r.At(j).authTokens[at].userId) == Normalise(r.events[k].email)
  {
    hide Step, EmailOf;
    var i := GivenOutIsStored(r, k, raw);
    TokensLater(r, k + 1, j);
    var record := r.At(k + 1).authTokens[i];
    assert r.At(j).authTokens[i].(used := record.used) == record;
    Reachable(r, j);
    assert FindAuthToken(r.At(j).authTokens, Sha256(raw), PasswordReset) == i;
    EmailLater(r, k, j, FindByEmail(r.At(k).users, r.events[k].email));
  }
}
