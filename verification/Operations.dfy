/** What each operation of the service keeps and what its caller can rely on afterwards, in whatever
    valid state it is called. */
module Operations {
  import opened Basics
  import opened RefreshTable
  import R = Rbac
  import opened World
  import opened Invariants
  import opened SessionList
  import opened Replay

  // ---------- operations that open or continue a family ----------

  lemma RegisterValid(c: Config, w: World, email: string, password: string, meta: RequestMeta)
    requires WorldInv(c, w)
    ensures WorldInv(c, Register(c, w, email, password, meta).0)
  {
    hide WorldInv;
    WorldInvStep(c, w, RegisterReq(email, password, meta));
  }

  /** A login by any account of the table. */
  lemma LoginValid(c: Config, w: World, user: UserEntity, meta: RequestMeta)
    requires WorldInv(c, w) && HasUser(w.users, user.id)
    ensures WorldInv(c, Login(c, w, user, meta).0)
  {
    hide Timed, Distinct, OneOwner, Chain;
    var w' := Login(c, w, user, meta).0;
    var row := w'.refreshTokens[|w.refreshTokens|];
    AppendKeepsInv(c, w.refreshTokens, w.now, w.next, row, w'.next);
    UsersLater(w.users, w.next, w'.next);
    SoundGraphLater(w, w'.next);
  }

  lemma UsersLater(users: seq<User>, next: nat, next': nat)
    requires UsersInv(users, next) && next <= next'
    ensures UsersInv(users, next')
  {
  }

  lemma SoundGraphLater(w: World, next': nat)
    requires R.Sound(w.graph, w.next) && w.next <= next'
    ensures R.Sound(w.graph, next')
  {
    R.SoundLater(w.graph, w.next, next');
  }

  /** Row `i` is the only live row of its family. */
  ghost predicate SoleLiveRow(t: Table, i: nat) {
    i < |t| && !t[i].revoked && forall k :: 0 <= k < |t| && t[k].family == t[i].family && !t[k].revoked ==> k == i
  }

  /** What a refresh means for the family of the token presented, which row `i` carries: revoked, it
      kills the family; live and unexpired, it hands the family over to the token answered. */
  ghost predicate RefreshMeans(t: Table, i: nat, now: Millis, t': Table, out: Outcome)
    requires i < |t|
  {
    && (out == Failed(RefreshTokenReused) <==> t[i].revoked)
    && (t[i].revoked ==> Dead(t', t[i].family))
    && (out.Pair? <==> !t[i].revoked && now <= t[i].expiresAt)
    && (out.Pair? ==>
          && |t'| == |t| + 1 && SoleLiveRow(t', |t|) && t'[|t|].family == t[i].family
          && t'[|t|].tokenHash == Sha256(out.pair.refreshToken))
  }

  lemma RefreshValid(c: Config, w: World, raw: Id, meta: RequestMeta)
    requires WorldInv(c, w)
    ensures WorldInv(c, Refresh(c, w, raw, meta).0)
    ensures var (w', out) := Refresh(c, w, raw, meta);
            if exists i :: 0 <= i < |w.refreshTokens| && w.refreshTokens[i].tokenHash == Sha256(raw) then
              forall i :: 0 <= i < |w.refreshTokens| && w.refreshTokens[i].tokenHash == Sha256(raw) ==>
                RefreshMeans(w.refreshTokens, i, w.now, w'.refreshTokens, out)
            else out == Failed(InvalidRefreshToken) && w' == w
  {
    WorldInvStep(c, w, RefreshReq(raw, meta)) by { hide WorldInv; }
    forall i | 0 <= i < |w.refreshTokens| && w.refreshTokens[i].tokenHash == Sha256(raw)
      ensures RefreshMeans(w.refreshTokens, i, w.now, Refresh(c, w, raw, meta).0.refreshTokens, Refresh(c, w, raw, meta).1)
    {
      RefreshMeansAt(c, w, raw, meta, i);
    }
  }

  lemma RefreshMeansAt(c: Config, w: World, raw: Id, meta: RequestMeta, i: nat)
    requires WorldInv(c, w) && i < |w.refreshTokens| && w.refreshTokens[i].tokenHash == Sha256(raw)
    ensures RefreshMeans(w.refreshTokens, i, w.now, Refresh(c, w, raw, meta).0.refreshTokens, Refresh(c, w, raw, meta).1)
  {
    hide UsersInv, IssuedInv, ResetsInv, Timed, Below, OneOwner;
    RowVerdict(c, w, i);
    FindsItself(w.refreshTokens, i);
    if !w.refreshTokens[i].revoked { RotatedFamilyIsDead(w.refreshTokens, i); }
  }

  /** A good token whose user has gone is answered with the missing user, and is not rotated. */
  lemma RefreshOfNobody(c: Config, w: World, raw: Id, meta: RequestMeta, i: nat)
    requires Distinct(w.refreshTokens) && i < |w.refreshTokens| && w.refreshTokens[i].tokenHash == Sha256(raw)
    requires !w.refreshTokens[i].revoked && w.now <= w.refreshTokens[i].expiresAt && !HasUser(w.users, w.refreshTokens[i].userId)
    ensures Refresh(c, w, raw, meta) == (w, Failed(UserNotFound))
  {
    FindsItself(w.refreshTokens, i);
  }

  // ---------- operations that revoke ----------

  /** Revoking any rows and writing anything to Redis. */
  lemma RevokedValid(c: Config, w: World, where: Where, store: map<Key, Millis>)
    requires WorldInv(c, w)
    ensures WorldInv(c, w.(refreshTokens := RevokeWhere(w.refreshTokens, where), store := store))
  {
    RevokeKeepsInv(c, w.refreshTokens, w.now, w.next, where);
  }

  lemma LogoutValid(c: Config, w: World, userId: Id, raw: Id, jti: Option<Id>, expSeconds: Option<int>)
    requires WorldInv(c, w)
    ensures WorldInv(c, Logout(w, userId, raw, jti, expSeconds).0)
    // the blacklist is written exactly for a given jti and a positive number of seconds
    ensures Logout(w, userId, raw, jti, expSeconds).0.store ==
              if jti.Some? && expSeconds.Some? && expSeconds.value > 0 then
                w.store[BlacklistKey(jti.value) := w.now + expSeconds.value * 1000]
              else w.store
  {
    hide WorldInv;
    RevokedValid(c, w, ByHashAndUser(Sha256(raw), userId), Logout(w, userId, raw, jti, expSeconds).0.store);
  }

  /** After logging out everywhere nothing of the user is live, and nothing of anyone else has changed. */
  lemma LogoutAllValid(c: Config, w: World, userId: Id)
    requires WorldInv(c, w)
    ensures WorldInv(c, LogoutAll(w, userId).0)
    ensures var t, t' := w.refreshTokens, LogoutAll(w, userId).0.refreshTokens;
            && NothingLive(t', userId) && |t'| == |t|
            && forall i :: 0 <= i < |t| && t[i].userId != userId ==> t'[i] == t[i]
    // the user's cached entry goes, and no other: the blacklist stays as it is
    ensures var store, store' := w.store, LogoutAll(w, userId).0.store;
            forall k :: if k == UserKey(userId) then k !in store'
                        else (k in store' <==> k in store) && (k in store ==> store'[k] == store[k])
  {
    RevokedValid(c, w, LiveOfUser(userId), LogoutAll(w, userId).0.store) by { hide WorldInv; }
  }

  /** Revocation succeeds exactly when the row is the user's; it revokes that row and changes no other. */
  lemma RevokeSessionValid(c: Config, w: World, userId: Id, rowId: Id)
    requires WorldInv(c, w)
    ensures WorldInv(c, RevokeSession(w, userId, rowId).0)
    ensures var (t, t', out) := (w.refreshTokens, RevokeSession(w, userId, rowId).0.refreshTokens, RevokeSession(w, userId, rowId).1);
            && (out == Done <==> exists i :: 0 <= i < |t| && t[i].id == rowId && t[i].userId == userId)
            && (out == Done ==> |t'| == |t| && forall i :: 0 <= i < |t| ==> t'[i] == t[i].(revoked := t[i].revoked || t[i].id == rowId))
            && (out != Done ==> out == Failed(SessionNotFound) && t' == t)
  {
    var at := FindOwned(w.refreshTokens, rowId, userId);
    if at >= 0 { RevokedValid(c, w, ById(w.refreshTokens[at].id), w.store) by { hide WorldInv; } }
  }

  // ---------- passwords ----------

  lemma ForgotValid(c: Config, w: World, email: string)
    requires WorldInv(c, w)
    ensures WorldInv(c, ForgotPassword(w, email).0)
  {
    hide WorldInv;
    WorldInvStep(c, w, ForgotReq(email));
  }

  /** The account exists and has this password. */
  predicate PasswordIs(users: seq<User>, id: Id, password: string) {
    FindUser(users, id) >= 0 && Verify(users[FindUser(users, id)].passwordHash, password)
  }

  lemma PasswordIsSet(users: seq<User>, id: Id, password: string)
    requires FindUser(users, id) >= 0
    ensures PasswordIs(SetPassword(users, id, Argon2(password)), id, password)
  {
    SameFind(users, SetPassword(users, id, Argon2(password)), id);
  }

  lemma PasswordValid(c: Config, w: World, userId: Id, password: string)
    requires WorldInv(c, w)
    ensures WorldInv(c, w.(users := SetPassword(w.users, userId, Argon2(password))))
  {
    hide Inv, ResetsInv, SetPassword, UsersInv, R.Sound;
    var users' := SetPassword(w.users, userId, Argon2(password));
    PasswordKeepsUsers(w.users, w.next, userId, password);
    forall i | 0 <= i < |w.refreshTokens| ensures HasUser(users', w.refreshTokens[i].userId) {
      HasUserLater(w.users, users', w.refreshTokens[i].userId);
    }
    forall i | 0 <= i < |w.authTokens| ensures HasUser(users', w.authTokens[i].userId) {
      HasUserLater(w.users, users', w.authTokens[i].userId);
    }
  }

  lemma PasswordKeepsUsers(users: seq<User>, next: nat, userId: Id, password: string)
    requires UsersInv(users, next)
    ensures UsersInv(SetPassword(users, userId, Argon2(password)), next)
    ensures UsersExtend(users, SetPassword(users, userId, Argon2(password)))
  {
  }

  /** A password change succeeds exactly for an account whose current password is given; then the new
      password is the account's and nothing of the user is live. */
  lemma ChangeValid(c: Config, w: World, userId: Id, current: string, newPassword: string)
    requires WorldInv(c, w)
    ensures var (w', out) := ChangePassword(w, userId, current, newPassword);
            && WorldInv(c, w')
            && (out == Done <==> PasswordIs(w.users, userId, current))
            && (out == Done ==> PasswordIs(w'.users, userId, newPassword) && NothingLive(w'.refreshTokens, userId))
            && (out != Done ==> w' == w && out == Failed(if FindUser(w.users, userId) < 0 then UserNotFound else WrongPassword))
  {
    hide WorldInv, SetPassword, NothingLive;
    var at := FindUser(w.users, userId);
    if at >= 0 && Verify(w.users[at].passwordHash, current) {
      PasswordValid(c, w, userId, newPassword);
      PasswordIsSet(w.users, userId, newPassword);
      LogoutAllValid(c, w.(users := SetPassword(w.users, userId, Argon2(newPassword))), userId);
    }
  }

  /** A reset succeeds exactly for an unused unexpired record of the token; then that record is used,
      the new password is its owner's and nothing of the owner is live. */
  lemma ResetValid(c: Config, w: World, raw: Id, newPassword: string)
    requires WorldInv(c, w)
    ensures var (w', out) := ResetPassword(w, raw, newPassword);
            && WorldInv(c, w')
            && (out == Done <==> exists i :: Redeemable(w, i, raw))
            && (forall i :: Redeemable(w, i, raw) ==>
                  && i < |w'.authTokens| && w'.authTokens[i].used
                  && PasswordIs(w'.users, w.authTokens[i].userId, newPassword)
                  && NothingLive(w'.refreshTokens, w.authTokens[i].userId))
            && (out != Done ==> out == Failed(InvalidResetToken) && w' == w)
  {
    hide WorldInv, NothingLive, PasswordIs;
    WorldInvStep(c, w, ResetReq(raw, newPassword));
    ResetIsRedeemed(w, raw, newPassword);
    forall i | Redeemable(w, i, raw)
      ensures ResetPassword(w, raw, newPassword).1 == Done && i < |ResetPassword(w, raw, newPassword).0.authTokens|
      ensures ResetPassword(w, raw, newPassword).0.authTokens[i].used
      ensures PasswordIs(ResetPassword(w, raw, newPassword).0.users, w.authTokens[i].userId, newPassword)
      ensures NothingLive(ResetPassword(w, raw, newPassword).0.refreshTokens, w.authTokens[i].userId)
    {
      RedeemableFound(c, w, raw, i);
      ResetMeans(w, raw, newPassword, i);
    }
  }

  lemma ResetIsRedeemed(w: World, raw: Id, newPassword: string)
    ensures var (w', out) := ResetPassword(w, raw, newPassword);
            if out == Done then Redeemable(w, FindAuthToken(w.authTokens, Sha256(raw), PasswordReset), raw)
            else out == Failed(InvalidResetToken) && w' == w
  {
  }

  lemma RedeemableFound(c: Config, w: World, raw: Id, i: nat)
    requires WorldInv(c, w) && Redeemable(w, i, raw)
    ensures FindAuthToken(w.authTokens, Sha256(raw), PasswordReset) == i && HasUser(w.users, w.authTokens[i].userId)
  {
  }

  /** Record `i` carries the token, unused and not past its expiry. */
  predicate Redeemable(w: World, i: int, raw: Id) {
    && 0 <= i < |w.authTokens| && w.authTokens[i].tokenHash == Sha256(raw)
    && !w.authTokens[i].used && w.now <= w.authTokens[i].expiresAt
  }

  lemma ResetMeans(w: World, raw: Id, newPassword: string, at: nat)
    requires Redeemable(w, at, raw) && FindAuthToken(w.authTokens, Sha256(raw), PasswordReset) == at
    requires HasUser(w.users, w.authTokens[at].userId)
    ensures var (w', out) := ResetPassword(w, raw, newPassword);
            && out == Done && at < |w'.authTokens| && w'.authTokens[at].used
            && PasswordIs(w'.users, w.authTokens[at].userId, newPassword)
            && NothingLive(w'.refreshTokens, w.authTokens[at].userId)
  {
    hide SetPassword;
    PasswordIsSet(w.users, w.authTokens[at].userId, newPassword);
  }

  // ---------- the session list ----------

  /** The entry shows these columns of the row, and marks the caller's own family. */
  ghost predicate Shows(v: SessionView, row: Row, current: Option<Id>) {
    && v.id == row.id
    && v.meta.userAgent == row.meta.userAgent && v.meta.ipAddress == row.meta.ipAddress
    && v.createdAt == row.createdAt && v.expiresAt == row.expiresAt
    && (v.current <==> current == Some(row.family))
  }

  /** The list of a user's sessions read without knowing how it was made: each entry shows a row of the
      user whose token would refresh now, and each such row that outlasts this millisecond is shown; no
      row is shown twice, and the newest come first. */
  ghost predicate ListMeans(c: Config, w: World, userId: Id, current: Option<Id>, views: seq<SessionView>) {
    && (forall v :: v in views ==> exists row :: Listed(c, w, userId, row) && Shows(v, row, current))
    && (forall row :: Listed(c, w, userId, row) && row.expiresAt != w.now ==> exists v :: v in views && Shows(v, row, current))
    && OnceNewestFirst(views)
  }

  ghost predicate OnceNewestFirst(views: seq<SessionView>) {
    forall i, j :: 0 <= i < j < |views| ==> views[i].createdAt >= views[j].createdAt && views[i].id != views[j].id
  }

  ghost predicate Listed(c: Config, w: World, userId: Id, row: Row) {
    row in w.refreshTokens && row.userId == userId && RefreshesNow(c, w, row)
  }

  ghost predicate RefreshesNow(c: Config, w: World, row: Row) {
    WouldRefresh(c, w, row, RequestMeta(None, None)).Pair?
  }

  lemma ListValid(c: Config, w: World, userId: Id, current: Option<Id>)
    requires WorldInv(c, w)
    ensures ListMeans(c, w, userId, current, ListSessions(w, userId, current))
  {
    hide WorldInv, Listed, Shows, ListSessions, OnceNewestFirst;
    var views := ListSessions(w, userId, current);
    forall v | v in views ensures exists row :: Listed(c, w, userId, row) && Shows(v, row, current) {
      var row := RowOfEntry(c, w, userId, current, v);
    }
    forall row | Listed(c, w, userId, row) && row.expiresAt != w.now ensures exists v :: v in views && Shows(v, row, current) {
      var v := EntryOfRow(c, w, userId, current, row);
    }
    ListOrder(c, w, userId, current);
  }

  lemma RowOfEntry(c: Config, w: World, userId: Id, current: Option<Id>, v: SessionView) returns (row: Row)
    requires WorldInv(c, w) && v in ListSessions(w, userId, current)
    ensures Listed(c, w, userId, row) && Shows(v, row, current)
  {
    hide WorldInv, WouldRefresh, ActiveRows;
    var rows, views := ActiveRows(w.refreshTokens, userId, w.now), ListSessions(w, userId, current);
    ListAgreesWithRefresh(c, w, userId, RequestMeta(None, None));
    var k :| 0 <= k < |views| && views[k] == v;
    row := rows[k];
    assert row in rows;
  }

  lemma EntryOfRow(c: Config, w: World, userId: Id, current: Option<Id>, row: Row) returns (v: SessionView)
    requires WorldInv(c, w) && Listed(c, w, userId, row) && row.expiresAt != w.now
    ensures v in ListSessions(w, userId, current) && Shows(v, row, current)
  {
    hide WorldInv, WouldRefresh, ActiveRows;
    var rows, views := ActiveRows(w.refreshTokens, userId, w.now), ListSessions(w, userId, current);
    ListAgreesWithRefresh(c, w, userId, RequestMeta(None, None));
    var k :| 0 <= k < |rows| && rows[k] == row;
    v := views[k];
    assert v in views;
  }

  lemma ListOrder(c: Config, w: World, userId: Id, current: Option<Id>)
    requires WorldInv(c, w)
    ensures OnceNewestFirst(ListSessions(w, userId, current))
  {
    hide WorldInv, WouldRefresh, ActiveRows;
    var rows, views := ActiveRows(w.refreshTokens, userId, w.now), ListSessions(w, userId, current);
    ListAgreesWithRefresh(c, w, userId, RequestMeta(None, None));
    ListShape(c, w, userId, current);
    forall i, j | 0 <= i < j < |views| ensures views[i].id != views[j].id {
      assert rows[i] in rows && rows[j] in rows;
      RowsDiffer(c, w, rows, i, j);
    }
  }

  lemma RowsDiffer(c: Config, w: World, rows: Table, i: nat, j: nat)
    requires WorldInv(c, w) && i < j < |rows| && rows[i].family != rows[j].family
    requires rows[i] in w.refreshTokens && rows[j] in w.refreshTokens
    ensures rows[i].id != rows[j].id
  {
    var a :| 0 <= a < |w.refreshTokens| && w.refreshTokens[a] == rows[i];
    var b :| 0 <= b < |w.refreshTokens| && w.refreshTokens[b] == rows[j];
  }
}
