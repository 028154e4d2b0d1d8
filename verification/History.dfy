/** What a request is answered, as a function of the requests and answers before it: nothing of the tables,
    of Redis or of how a step is made is mentioned. */
module History {
  import opened Basics
  import opened RefreshTable
  import opened World
  import opened Invariants
  import opened Runs
  import opened Families
  import opened LogoutFinality
  import opened Replay
  import opened ResetTokens

  // ---------- access tokens ----------

  /** Request `k` was answered with a pair that has this access token. */
  ghost predicate SignedBy(r: Run, k: nat, a: AccessToken)
    requires k < |r.events|
  {
    r.Out(k).Pair? && r.Out(k).pair.accessToken == a
  }

  /** Request `k` was a logout with an access token of this jti, and was served. */
  ghost predicate LogsOut(r: Run, k: nat, jti: Id)
    requires k < |r.events|
  {
    LoggedOut(r, k) && r.events[k].bearer.jti == jti
  }

  /** At moment `j` the access token stands: an earlier request was answered with it, its second of expiry
      has not come, and no logout with its jti was served in the last quarter of an hour. */
  ghost predicate Honoured(r: Run, j: nat, a: AccessToken)
    requires j <= |r.events|
  {
    && (exists k :: 0 <= k < j && SignedBy(r, k, a))
    && r.At(j).now / 1000 < a.exp
    && forall k :: 0 <= k < j && LogsOut(r, k, a.jti) ==> r.At(k).now + 900 * 1000 < r.At(j).now
  }

  lemma {:induction false} SignedByHistory(r: Run, j: nat, a: AccessToken)
    requires Proper(r) && j <= |r.events|
    ensures Signed(r.At(j), a) <==> exists k :: 0 <= k < j && SignedBy(r, k, a)
  {
    hide Step;
    if j > 0 {
      SignedByHistory(r, j - 1, a);
      SignedStep(r.c, r.At(j - 1), r.events[j - 1], a);
      assert SignedBy(r, j - 1, a) <==> r.Out(j - 1).Pair? && r.Out(j - 1).pair.accessToken == a;
    }
  }

  lemma SignedStep(c: Config, w: World, e: Event, a: AccessToken)
    ensures var (w', out) := Step(c, w, e);
            Signed(w', a) <==> Signed(w, a) || (out.Pair? && out.pair.accessToken == a)
  {
    hide Step;
    StepIssues(c, w, e);
    var (w', out) := Step(c, w, e);
    if out.Pair? {
      assert w'.issued[|w.issued|].token == out.pair.accessToken;
      forall i | 0 <= i < |w.issued| ensures w'.issued[i] == w.issued[i] {}
    }
  }

  lemma EntryStep(c: Config, w: World, e: Event, jti: Id, t: Millis)
    requires BlacklistKey(jti) in w.store ==> w.store[BlacklistKey(jti)] <= w.now + 900 * 1000
    ensures var (w', out) := Step(c, w, e);
            && (ListedUntil(w', jti, t) <==>
                  ListedUntil(w, jti, t) || (e.LogoutReq? && e.bearer.jti == jti && out == Done && t <= w.now + 900 * 1000))
            && (BlacklistKey(jti) in w'.store ==> w'.store[BlacklistKey(jti)] <= w'.now + 900 * 1000)
  {
    hide RevokeWhere, FindUser, FindEmail, FindHash, FindOwned, FindAuthToken, Accepts, ValidateCredentials;
  }

  /** A jti is listed until the end of the quarter of an hour after its latest logout. */
  lemma {:induction false} ListedByHistory(r: Run, j: nat, jti: Id, t: Millis)
    requires Proper(r) && j <= |r.events|
    ensures ListedUntil(r.At(j), jti, t) <==> exists k :: 0 <= k < j && LogsOut(r, k, jti) && t <= r.At(k).now + 900 * 1000
    ensures BlacklistKey(jti) in r.At(j).store ==> r.At(j).store[BlacklistKey(jti)] <= r.At(j).now + 900 * 1000
  {
    hide Step;
    if j > 0 {
      ListedByHistory(r, j - 1, jti, t);
      EntryStep(r.c, r.At(j - 1), r.events[j - 1], jti, t);
      assert LogsOut(r, j - 1, jti) <==> r.events[j - 1].LogoutReq? && r.events[j - 1].bearer.jti == jti && r.Out(j - 1) == Done;
    }
  }

  /** A bearer is authenticated exactly while its token stands, as the user that the token names. */
  lemma AuthenticatedByHistory(r: Run, j: nat, a: AccessToken)
    requires Proper(r) && j <= |r.events|
    ensures Authenticate(r.At(j), a).Some? <==> Honoured(r, j, a)
    ensures Honoured(r, j, a) ==>
              var user := Authenticate(r.At(j), a).value;
              && user.id == a.sub && user.email == a.email && user.roles == a.roles && user.permissions == a.permissions
              && user.jti == a.jti && user.sessionId == a.sessionId
  {
    hide Step;
    SignedByHistory(r, j, a);
    ListedByHistory(r, j, a.jti, r.At(j).now);
  }

  // ---------- refresh tokens ----------

  /** Request `k` was answered with a pair that has this refresh token. */
  ghost predicate HandedOut(r: Run, k: nat, raw: Id)
    requires k < |r.events|
  {
    r.Out(k).Pair? && r.Out(k).pair.refreshToken == raw
  }

  /** User and session of the pair that answered request `k`. */
  ghost function UserOf(r: Run, k: nat): Id
    requires k < |r.events| && r.Out(k).Pair?
  {
    r.Out(k).pair.accessToken.sub
  }

  ghost function SessionOf(r: Run, k: nat): Id
    requires k < |r.events| && r.Out(k).Pair?
  {
    r.Out(k).pair.accessToken.sessionId
  }

  /** Request `m` gave out this reset token for the account of this user. */
  ghost predicate ResetTokenOf(r: Run, m: nat, raw: Id, user: Id)
    requires m < |r.events|
  {
    GaveOut(r, m, raw) && ForgotFor(r.At(m), r.events[m], user)
  }

  /** The row that holds the refresh token answered to request `k`, by its place in the table. */
  ghost function Place(r: Run, k: nat): nat
    requires k < |r.events|
  {
    |r.Table(k)|
  }

  /** The id of the row it was stored in, under which the session list shows it. */
  ghost function RowId(r: Run, k: nat): Id
    requires k < |r.events|
  {
    if r.Table(k + 1) == [] then 0 else LastRow(r.At(k + 1)).id
  }

  /** The columns of that row at a later moment. */
  lemma RowOfPair(r: Run, k: nat, j: nat)
    requires Proper(r) && k < j <= |r.events| && r.Out(k).Pair?
    ensures r.events[k].RegisterReq? || r.events[k].LoginReq? || r.events[k].RefreshReq?
    ensures Place(r, k) < |r.Table(k + 1)| && Place(r, k) < |r.Table(j)|
    ensures var row := r.Table(j)[Place(r, k)];
            && row.id == RowId(r, k) && row.tokenHash == Sha256(r.Out(k).pair.refreshToken)
            && row.userId == UserOf(r, k) && row.family == SessionOf(r, k) && row.meta == r.events[k].meta
            && row.createdAt == r.At(k).now && row.expiresAt == r.At(k).now + r.c.refreshTtlDays * 86400000
    ensures !r.Table(k + 1)[Place(r, k)].revoked
  {
    hide Step;
    StepTable(r.c, r.At(k), r.events[k]);
    StepIssues(r.c, r.At(k), r.events[k]);
    Later(r, k + 1, j);
    var i := Place(r, k);
    assert r.Table(j)[i].(revoked := r.Table(k + 1)[i].revoked) == r.Table(k + 1)[i];
  }

  /** Every row holds the refresh token of some pair. */
  lemma {:induction false} PairOfRow(r: Run, j: nat, i: nat) returns (k: nat)
    requires Proper(r) && j <= |r.events| && i < |r.Table(j)|
    ensures k < j && r.Out(k).Pair? && Place(r, k) == i
  {
    hide Step;
    StepTable(r.c, r.At(j - 1), r.events[j - 1]);
    StepIssues(r.c, r.At(j - 1), r.events[j - 1]);
    if i < |r.Table(j - 1)| { k := PairOfRow(r, j - 1, i); } else { k := j - 1; }
  }

  /** Request `m` ends the refresh token answered to request `k`: it was rotated, or its session was ended
      by a replay, or its user logged it out, logged out everywhere, changed or reset the password, or
      revoked its row. */
  ghost predicate Ends(r: Run, m: nat, k: nat)
    requires k < m < |r.events| && r.Out(k).Pair?
  {
    match r.events[m]
    case RefreshReq(raw, _) =>
      || (raw == r.Out(k).pair.refreshToken && r.Out(m).Pair?)
      || (r.Out(m) == Failed(RefreshTokenReused) && exists n :: 0 <= n < m && HandedOut(r, n, raw) && SessionOf(r, n) == SessionOf(r, k))
    case LogoutReq(bearer, raw) => r.Out(m) == Done && raw == r.Out(k).pair.refreshToken && bearer.sub == UserOf(r, k)
    case LogoutAllReq(bearer) => r.Out(m) == Done && bearer.sub == UserOf(r, k)
    case ChangeReq(bearer, _, _) => r.Out(m) == Done && bearer.sub == UserOf(r, k)
    case ResetReq(raw, _) => r.Out(m) == Done && exists n :: 0 <= n < m && ResetTokenOf(r, n, raw, UserOf(r, k))
    case RevokeReq(bearer, rowId) => r.Out(m) == Done && bearer.sub == UserOf(r, k) && rowId == RowId(r, k)
    case _ => false
  }

  /** What revokes a row, in terms of the tables. */
  ghost predicate Hits(c: Config, w: World, e: Event, row: Row) {
    var out := Step(c, w, e).1;
    match e
    case RefreshReq(raw, _) =>
      || (row.tokenHash == Sha256(raw) && out.Pair?)
      || (out == Failed(RefreshTokenReused)
          && exists n :: 0 <= n < |w.refreshTokens| && w.refreshTokens[n].tokenHash == Sha256(raw) && w.refreshTokens[n].family == row.family)
    case LogoutReq(bearer, raw) => out == Done && row.tokenHash == Sha256(raw) && bearer.sub == row.userId
    case LogoutAllReq(bearer) => out == Done && bearer.sub == row.userId
    case ChangeReq(bearer, _, _) => out == Done && bearer.sub == row.userId
    case ResetReq(raw, _) => out == Done && ResetsFor(c, w, e, row.userId)
    case RevokeReq(bearer, rowId) => out == Done && bearer.sub == row.userId && rowId == row.id
    case _ => false
  }

  lemma HitsRevoke(c: Config, w: World, e: Event, i: nat)
    requires WorldInv(c, w) && i < |w.refreshTokens|
    ensures i < |Step(c, w, e).0.refreshTokens|
    ensures Step(c, w, e).0.refreshTokens[i].revoked <==> w.refreshTokens[i].revoked || Hits(c, w, e, w.refreshTokens[i])
  {
    if e.RefreshReq? {
      HitsRefresh(c, w, e.raw, e.meta, i);
    } else if e.RegisterReq? || e.LoginReq? {
      OpeningTable(c, w, e);
    } else {
      HitsOther(c, w, e, i);
    }
  }

  lemma HitsOther(c: Config, w: World, e: Event, i: nat)
    requires Distinct(w.refreshTokens) && i < |w.refreshTokens| && !(e.RefreshReq? || e.RegisterReq? || e.LoginReq?)
    ensures i < |Step(c, w, e).0.refreshTokens|
    ensures Step(c, w, e).0.refreshTokens[i].revoked <==> w.refreshTokens[i].revoked || Hits(c, w, e, w.refreshTokens[i])
  {
    hide FindHash, FindUser, FindEmail, FindOwned, FindAuthToken, Accepts;
    RevokingTable(c, w, e);
  }

  lemma HitsRefresh(c: Config, w: World, raw: Id, meta: RequestMeta, i: nat)
    requires WorldInv(c, w) && i < |w.refreshTokens|
    ensures var (w', out) := Refresh(c, w, raw, meta);
            i < |w'.refreshTokens| && (w'.refreshTokens[i].revoked <==>
              w.refreshTokens[i].revoked || Hits(c, w, RefreshReq(raw, meta), w.refreshTokens[i]))
  {
    hide UsersInv, IssuedInv, ResetsInv, Owned;
    var at := FindHash(w.refreshTokens, Sha256(raw));
    if at >= 0 {
      forall n | 0 <= n < |w.refreshTokens| && w.refreshTokens[n].tokenHash == Sha256(raw) ensures n == at {
        FindsItself(w.refreshTokens, n);
      }
    }
  }

  /** A reset token is a user's exactly when an earlier request gave it out for the user's account. */
  lemma ResetTokenByHistory(r: Run, m: nat, raw: Id, user: Id)
    requires Proper(r) && m <= |r.events|
    ensures ResetTokens.Record(r.At(m), raw).Some? && ResetTokens.Record(r.At(m), raw).value.userId == user <==>
              exists n :: 0 <= n < m && ResetTokenOf(r, n, raw, user)
  {
    hide Step;
    Reachable(r, m);
    var w := r.At(m);
    var at := FindAuthToken(w.authTokens, Sha256(raw), PasswordReset);
    if at >= 0 && w.authTokens[at].userId == user {
      var n := TokenOrigin(r, m, at);
      assert ResetTokenOf(r, n, raw, user);
    }
    if n :| 0 <= n < m && ResetTokenOf(r, n, raw, user) {
      var i := GivenOutIsStored(r, n, raw);
      TokensLater(r, n + 1, m);
      var record := r.At(n + 1).authTokens[i];
      assert w.authTokens[i].(used := record.used) == record;
      assert at == i;
    }
  }

  lemma SessionByHistory(r: Run, m: nat, raw: Id, family: Id)
    requires Proper(r) && m <= |r.events|
    ensures (exists n :: 0 <= n < |r.Table(m)| && r.Table(m)[n].tokenHash == Sha256(raw) && r.Table(m)[n].family == family) <==>
            exists k :: 0 <= k < m && HandedOut(r, k, raw) && SessionOf(r, k) == family
  {
    hide Step;
    if n: nat :| n < |r.Table(m)| && r.Table(m)[n].tokenHash == Sha256(raw) && r.Table(m)[n].family == family {
      var k := PairOfRow(r, m, n);
      RowOfPair(r, k, m);
      assert HandedOut(r, k, raw);
    }
    if k :| 0 <= k < m && HandedOut(r, k, raw) && SessionOf(r, k) == family {
      RowOfPair(r, k, m);
      assert r.Table(m)[Place(r, k)].tokenHash == Sha256(raw);
    }
  }

  lemma EndsIsHit(r: Run, m: nat, k: nat)
    requires Proper(r) && k < m < |r.events| && r.Out(k).Pair?
    ensures Place(r, k) < |r.Table(m)|
    ensures Ends(r, m, k) <==> Hits(r.c, r.At(m), r.events[m], r.Table(m)[Place(r, k)])
  {
    hide Step, RowId;
    RowOfPair(r, k, m);
    match r.events[m]
    case RefreshReq(raw, _) => SessionByHistory(r, m, raw, SessionOf(r, k));
    case ResetReq(raw, _) =>
      ResetTokenByHistory(r, m, raw, UserOf(r, k));
      if r.Out(m) == Done { ResetHasRecord(r, m); }
    case _ =>
  }

  lemma ResetHasRecord(r: Run, m: nat)
    requires Proper(r) && m < |r.events| && r.events[m].ResetReq? && r.Out(m).Done?
    ensures ResetTokens.Record(r.At(m), r.events[m].raw).Some?
  {
    hide Step;
    StepAuthTokens(r.c, r.At(m), r.events[m]);
  }

  /** Some request between the two ends the refresh token answered to request `k`. */
  ghost predicate Ended(r: Run, k: nat, j: nat)
    requires k < j <= |r.events| && r.Out(k).Pair?
  {
    exists m :: k < m < j && Ends(r, m, k)
  }

  lemma {:induction false} RevokedByHistory(r: Run, k: nat, j: nat)
    requires Proper(r) && k < j <= |r.events| && r.Out(k).Pair?
    ensures Place(r, k) < |r.Table(j)|
    ensures r.Table(j)[Place(r, k)].revoked <==> Ended(r, k, j)
  {
    hide Step, Hits, Ends;
    RowOfPair(r, k, j);
    if k + 1 < j {
      RevokedByHistory(r, k, j - 1);
      Reachable(r, j - 1);
      EndsIsHit(r, j - 1, k);
      HitsRevoke(r.c, r.At(j - 1), r.events[j - 1], Place(r, k));
      assert Ended(r, k, j) <==> Ended(r, k, j - 1) || Ends(r, j - 1, k);
    }
  }

  // ---------- refresh ----------

  lemma RefreshVerdict(c: Config, w: World, raw: Id, meta: RequestMeta, i: nat)
    requires WorldInv(c, w) && i < |w.refreshTokens| && w.refreshTokens[i].tokenHash == Sha256(raw)
    ensures var (out, row) := (Refresh(c, w, raw, meta).1, w.refreshTokens[i]);
            if row.revoked then out == Failed(RefreshTokenReused)
            else if row.expiresAt < w.now then out == Failed(RefreshTokenExpired)
            else out.Pair? && out.pair.accessToken.sub == row.userId && out.pair.accessToken.sessionId == row.family
  {
    hide UsersInv, IssuedInv, ResetsInv;
    FindsItself(w.refreshTokens, i);
    assert HasUser(w.users, w.refreshTokens[i].userId);
  }

  /** The answer to a refresh is a function of the history. A token that no pair had is unknown. The token
      of pair `k` is answered as a replay if some request has ended it since, as expired if it has been
      stored for longer than the configured days, and otherwise with a new pair for the same user and
      session. */
  lemma RefreshByHistory(r: Run, j: nat)
    requires Proper(r) && j < |r.events| && r.events[j].RefreshReq?
    ensures r.Out(j) == Failed(InvalidRefreshToken) <==> forall k :: 0 <= k < j ==> !HandedOut(r, k, r.events[j].raw)
    ensures forall k :: 0 <= k < j && HandedOut(r, k, r.events[j].raw) ==> AnswersPair(r, j, k)
  {
    hide Step, AnswersPair;
    var raw := r.events[j].raw;
    forall k | 0 <= k < j && HandedOut(r, k, raw) ensures AnswersPair(r, j, k) { PairAnswered(r, j, k); }
    if k :| 0 <= k < j && HandedOut(r, k, raw) {
      PairAnswered(r, j, k);
      KnownToken(r, j, k);
    } else {
      UnknownToken(r, j);
    }
  }

  /** What a refresh with the token of pair `k` is answered. */
  ghost predicate AnswersPair(r: Run, j: nat, k: nat)
    requires k < j < |r.events| && r.Out(k).Pair?
  {
    if Ended(r, k, j) then r.Out(j) == Failed(RefreshTokenReused)
    else if r.At(k).now + r.c.refreshTtlDays * 86400000 < r.At(j).now then r.Out(j) == Failed(RefreshTokenExpired)
    else r.Out(j).Pair? && UserOf(r, j) == UserOf(r, k) && SessionOf(r, j) == SessionOf(r, k)
  }

  lemma PairAnswered(r: Run, j: nat, k: nat)
    requires Proper(r) && k < j < |r.events| && r.events[j].RefreshReq? && HandedOut(r, k, r.events[j].raw)
    ensures AnswersPair(r, j, k)
  {
    hide Step, Ended, Proper;
    RowOfPair(r, k, j);
    RevokedByHistory(r, k, j);
    Reachable(r, j);
    RefreshOut(r, j);
    RefreshVerdict(r.c, r.At(j), r.events[j].raw, r.events[j].meta, Place(r, k));
  }

  lemma KnownToken(r: Run, j: nat, k: nat)
    requires k < j < |r.events| && r.Out(k).Pair? && AnswersPair(r, j, k)
    ensures r.Out(j) != Failed(InvalidRefreshToken)
  {
  }

  lemma UnknownToken(r: Run, j: nat)
    requires Proper(r) && j < |r.events| && r.events[j].RefreshReq?
    requires forall k :: 0 <= k < j ==> !HandedOut(r, k, r.events[j].raw)
    ensures r.Out(j) == Failed(InvalidRefreshToken)
  {
    hide Step;
    RefreshOut(r, j);
    var raw := r.events[j].raw;
    var at := FindHash(r.Table(j), Sha256(raw));
    if at >= 0 { var k := HandedOutFor(r, j, at); }
  }

  lemma HandedOutFor(r: Run, j: nat, i: nat) returns (k: nat)
    requires Proper(r) && j <= |r.events| && i < |r.Table(j)|
    ensures k < j && HandedOut(r, k, r.Table(j)[i].tokenHash.raw) && Place(r, k) == i
  {
    hide Step;
    k := PairOfRow(r, j, i);
    RowOfPair(r, k, j);
  }

  lemma RefreshOut(r: Run, j: nat)
    requires Proper(r) && j < |r.events| && r.events[j].RefreshReq?
    ensures r.Out(j) == Refresh(r.c, r.At(j), r.events[j].raw, r.events[j].meta).1
  {
    hide Refresh;
    StepAt(r, j);
  }
}
