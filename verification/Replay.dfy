/** What ends a session, and that it stays ended: replay, revocation, logout and password change. */
module Replay {
  import opened Basics
  import opened RefreshTable
  import opened World
  import opened Invariants
  import opened Runs
  import opened Families

  /** No row of the family will be live again, and no token naming it has been or will be added. */
  lemma DeadStep(c: Config, w: World, e: Event, family: Id)
    requires WorldInv(c, w) && Dead(w.refreshTokens, family) && family < w.next
    ensures Dead(Step(c, w, e).0.refreshTokens, family)
    ensures Step(c, w, e).1.Pair? ==> Step(c, w, e).1.pair.accessToken.sessionId != family
  {
    StepTable(c, w, e);
    StepIssues(c, w, e);
  }

  /** A dead family stays dead in every continuation, and no access token names it again. */
  lemma {:induction false} DeadForever(r: Run, k: nat, j: nat, family: Id)
    requires Proper(r) && k <= j <= |r.events|
    requires Dead(r.Table(k), family) && family < r.At(k).next
    ensures Dead(r.Table(j), family)
    ensures forall i :: |r.At(k).issued| <= i < |r.At(j).issued| ==> r.At(j).issued[i].token.sessionId != family
  {
    hide Step;
    if k < j {
      DeadForever(r, k, j - 1, family);
      Reachable(r, j - 1);
      Later(r, k, j - 1);
      DeadStep(r.c, r.At(j - 1), r.events[j - 1], family);
      StepIssues(r.c, r.At(j - 1), r.events[j - 1]);
    }
  }

  /** A token signed at or before `t` is past its expiry from `t` plus the configured lifetime on. */
  lemma ExpiredByThen(c: Config, w: World, a: AccessToken, at: Millis, t: Millis)
    requires a.exp == Seconds(at) + c.accessTokenTtl && at <= t
    requires w.now >= t + c.accessTokenTtl * 1000
    ensures !Accepts(w, a)
  {
  }

  /** What being ended means at moment `j` for a family that ended at moment `k`. */
  ghost predicate EndedSince(r: Run, k: nat, j: nat, family: Id)
    requires k <= j <= |r.events|
  {
    && Dead(r.Table(j), family)
    // every token of the family that is presented is answered as a replay
    && (forall i, meta {:trigger r.Table(j)[i], Refresh(r.c, r.At(j), r.Table(j)[i].tokenHash.raw, meta)} ::
          0 <= i < |r.Table(j)| && r.Table(j)[i].family == family ==>
            Refresh(r.c, r.At(j), r.Table(j)[i].tokenHash.raw, meta).1 == Failed(RefreshTokenReused))
    // no access token naming the family has been signed since
    && (forall i :: |r.At(k).issued| <= i < |r.At(j).issued| ==> r.At(j).issued[i].token.sessionId != family)
    // and one access-token lifetime later none that names it is accepted
    && (r.At(j).now >= r.At(k).now + r.c.accessTokenTtl * 1000 ==>
          forall a: AccessToken :: a.sessionId == family ==> !Accepts(r.At(j), a))
  }

  lemma DeadRefused(c: Config, w: World, i: nat, meta: RequestMeta)
    requires Distinct(w.refreshTokens) && i < |w.refreshTokens| && w.refreshTokens[i].revoked
    ensures Refresh(c, w, w.refreshTokens[i].tokenHash.raw, meta).1 == Failed(RefreshTokenReused)
  {
  }

  lemma DeadIsEnded(r: Run, k: nat, j: nat, family: Id)
    requires Proper(r) && k <= j <= |r.events|
    requires Dead(r.Table(k), family) && family < r.At(k).next
    ensures EndedSince(r, k, j, family)
  {
    hide Step;
    DeadForever(r, k, j, family);
    Reachable(r, j);
    Reachable(r, k);
    Later(r, k, j);
    var w := r.At(j);
    forall i, meta | 0 <= i < |w.refreshTokens| && w.refreshTokens[i].family == family
      ensures Refresh(r.c, w, w.refreshTokens[i].tokenHash.raw, meta).1 == Failed(RefreshTokenReused)
    {
      DeadRefused(r.c, w, i, meta);
    }
    if w.now >= r.At(k).now + r.c.accessTokenTtl * 1000 {
      forall a: AccessToken | a.sessionId == family && Signed(w, a) ensures !Accepts(w, a) {
        var i :| 0 <= i < |w.issued| && w.issued[i].token == a;
        assert i < |r.At(k).issued| && w.issued[i] == r.At(k).issued[i];
        ExpiredByThen(r.c, w, a, w.issued[i].at, r.At(k).now);
      }
    }
  }

  /** Replay detection: once a revoked token is presented, its whole family is over, for ever. */
  lemma ReplayKillsFamily(r: Run, k: nat, j: nat)
    requires Proper(r) && k < j <= |r.events|
    requires r.events[k].RefreshReq? && r.Out(k) == Failed(RefreshTokenReused)
    ensures var at := FindHash(r.Table(k), Sha256(r.events[k].raw));
            at >= 0 && r.Table(k)[at].revoked && EndedSince(r, k + 1, j, r.Table(k)[at].family)
  {
    hide Step;
    Reachable(r, k);
    Later(r, k, k + 1);
    var at := ReplayRevokesFamily(r.c, r.At(k), r.events[k]);
    DeadIsEnded(r, k + 1, j, r.Table(k)[at].family);
  }

  lemma ReplayRevokesFamily(c: Config, w: World, e: Event) returns (at: nat)
    requires e.RefreshReq? && Step(c, w, e).1 == Failed(RefreshTokenReused)
    ensures at < |w.refreshTokens| && at == FindHash(w.refreshTokens, Sha256(e.raw)) && w.refreshTokens[at].revoked
    ensures Dead(Step(c, w, e).0.refreshTokens, w.refreshTokens[at].family)
  {
    at := FindHash(w.refreshTokens, Sha256(e.raw));
    StepTable(c, w, e);
  }

  // ---------- ending one session ----------

  /** `revokeSession` or `logout` hit the row at index `i`: it belongs to the caller, who is accepted. */
  ghost predicate Targets(w: World, e: Event, i: nat) {
    && i < |w.refreshTokens|
    && match e
       case RevokeReq(bearer, rowId) =>
         Accepts(w, bearer) && w.refreshTokens[i].id == rowId && w.refreshTokens[i].userId == bearer.sub
       case LogoutReq(bearer, raw) =>
         Accepts(w, bearer) && w.refreshTokens[i].tokenHash == Sha256(raw) && w.refreshTokens[i].userId == bearer.sub
       case _ => false
  }

  lemma TargetStep(c: Config, w: World, e: Event, i: nat)
    requires WorldInv(c, w) && Targets(w, e, i)
    ensures var w' := Step(c, w, e).0;
            w'.refreshTokens == w.refreshTokens[i := w.refreshTokens[i].(revoked := true)]
            && w' == w.(refreshTokens := w'.refreshTokens, store := w'.store)
  {
    if e.RevokeReq? {
      RevokeHits(w, e.bearer.sub, e.rowId, i);
    } else {
      LogoutHits(w, e.bearer.sub, e.raw, Some(e.bearer.jti), Some(LOGOUT_BLACKLIST_SECONDS), i);
    }
  }

  lemma RevokeHits(w: World, userId: Id, rowId: Id, i: nat)
    requires Distinct(w.refreshTokens) && i < |w.refreshTokens|
    requires w.refreshTokens[i].id == rowId && w.refreshTokens[i].userId == userId
    ensures RevokeSession(w, userId, rowId).0 == w.(refreshTokens := w.refreshTokens[i := w.refreshTokens[i].(revoked := true)])
  {
  }

  lemma LogoutHits(w: World, userId: Id, raw: Id, jti: Option<Id>, expSeconds: Option<int>, i: nat)
    requires Distinct(w.refreshTokens) && i < |w.refreshTokens|
    requires w.refreshTokens[i].tokenHash == Sha256(raw) && w.refreshTokens[i].userId == userId
    ensures var w' := Logout(w, userId, raw, jti, expSeconds).0;
            w' == w.(refreshTokens := w.refreshTokens[i := w.refreshTokens[i].(revoked := true)], store := w'.store)
  {
  }

  /** Revoking a row ends its family exactly when the row is the newest of the family or the family
      was over already: revoking a token that has been rotated leaves the session alive. */
  lemma EndsSessionIffNewest(c: Config, w: World, e: Event, i: nat)
    requires WorldInv(c, w) && Targets(w, e, i)
    ensures Dead(Step(c, w, e).0.refreshTokens, w.refreshTokens[i].family) <==>
              Leaf(w.refreshTokens, i) || Dead(w.refreshTokens, w.refreshTokens[i].family)
  {
    var t, t' := w.refreshTokens, Step(c, w, e).0.refreshTokens;
    TargetStep(c, w, e, i);
    if Dead(t', t[i].family) && !Leaf(t, i) {
      var j :| i < j < |t| && t[j].family == t[i].family;
      assert t[i].revoked && t' == t;
    }
  }

  /** A listed session, or the live token handed to logout, is the newest of its family. */
  lemma LiveIsNewest(c: Config, w: World, i: nat)
    requires WorldInv(c, w) && i < |w.refreshTokens| && !w.refreshTokens[i].revoked
    ensures Leaf(w.refreshTokens, i)
  {
  }

  /** Revoking one live session ends that session for ever and leaves the token of every other family
      to be answered exactly as before. */
  lemma RevokingEndsOneSession(r: Run, k: nat, j: nat, i: nat)
    requires Proper(r) && k < j <= |r.events|
    requires Targets(r.At(k), r.events[k], i) && !r.Table(k)[i].revoked
    ensures EndedSince(r, k + 1, j, r.Table(k)[i].family)
    ensures forall n, meta {:trigger r.Table(k)[n], Refresh(r.c, r.At(k), r.Table(k)[n].tokenHash.raw, meta)} ::
              0 <= n < |r.Table(k)| && r.Table(k)[n].family != r.Table(k)[i].family ==>
                Refresh(r.c, r.At(k + 1), r.Table(k)[n].tokenHash.raw, meta).1
                  == Refresh(r.c, r.At(k), r.Table(k)[n].tokenHash.raw, meta).1
  {
    hide Step;
    Reachable(r, k);
    Reachable(r, k + 1);
    Later(r, k, k + 1);
    var w, w', e := r.At(k), r.At(k + 1), r.events[k];
    LiveIsNewest(r.c, w, i);
    EndsSessionIffNewest(r.c, w, e, i);
    DeadIsEnded(r, k + 1, j, w.refreshTokens[i].family);
    forall n, meta | 0 <= n < |w.refreshTokens| && w.refreshTokens[n].family != w.refreshTokens[i].family
      ensures Refresh(r.c, w', w.refreshTokens[n].tokenHash.raw, meta).1 == Refresh(r.c, w, w.refreshTokens[n].tokenHash.raw, meta).1
    {
      OtherFamilyUnmoved(r.c, w, e, i, n, meta);
    }
  }

  lemma OtherFamilyUnmoved(c: Config, w: World, e: Event, i: nat, n: nat, meta: RequestMeta)
    requires WorldInv(c, w) && WorldInv(c, Step(c, w, e).0) && Targets(w, e, i)
    requires n < |w.refreshTokens| && w.refreshTokens[n].family != w.refreshTokens[i].family
    ensures Refresh(c, Step(c, w, e).0, w.refreshTokens[n].tokenHash.raw, meta).1
              == Refresh(c, w, w.refreshTokens[n].tokenHash.raw, meta).1
  {
    TargetStep(c, w, e, i);
    SameVerdict(w.refreshTokens, Step(c, w, e).0.refreshTokens, n, w.now);
    SameOutcome(c, w, Step(c, w, e).0, w.refreshTokens[n].tokenHash.raw, meta);
  }

  lemma SameVerdict(t: Table, t': Table, n: nat, now: Millis)
    requires Distinct(t) && Distinct(t') && n < |t| && n < |t'| && t[n] == t'[n]
    ensures Judge(t', t[n].tokenHash.raw, now) == Judge(t, t[n].tokenHash.raw, now)
  {
  }

  /** What `refresh` answers depends on the table only through the verdict on the token presented. */
  lemma SameOutcome(c: Config, w: World, w': World, raw: Id, meta: RequestMeta)
    requires w' == w.(refreshTokens := w'.refreshTokens, store := w'.store)
    requires Judge(w'.refreshTokens, raw, w.now) == Judge(w.refreshTokens, raw, w.now)
    ensures Refresh(c, w', raw, meta).1 == Refresh(c, w, raw, meta).1
  {
  }

  // ---------- the cut-off after a password change ----------

  /** Request `k` succeeded in changing the password of `user` or in logging it out everywhere. */
  ghost predicate CutsOff(r: Run, k: nat, user: Id)
    requires k < |r.events|
  {
    && r.Out(k).Done?
    && match r.events[k]
       case LogoutAllReq(bearer) => bearer.sub == user
       case ChangeReq(bearer, _, _) => bearer.sub == user
       case ResetReq(raw, _) =>
         var at := FindAuthToken(r.At(k).authTokens, Sha256(raw), PasswordReset);
         at >= 0 && r.At(k).authTokens[at].userId == user
       case _ => false
  }

  /** A registration or login whose token pair opened this family. */
  ghost predicate OpensFamily(r: Run, m: nat, family: Id)
    requires m < |r.events|
  {
    (r.events[m].RegisterReq? || r.events[m].LoginReq?) && r.Out(m).Pair? && r.Out(m).pair.accessToken.sessionId == family
  }

  ghost predicate NothingLive(t: Table, user: Id) {
    forall i :: 0 <= i < |t| && t[i].userId == user ==> t[i].revoked
  }

  lemma CutOffKillsAll(r: Run, k: nat, user: Id)
    requires Proper(r) && k < |r.events| && CutsOff(r, k, user)
    ensures NothingLive(r.Table(k + 1), user)
  {
    StepTable(r.c, r.At(k), r.events[k]);
    StepAuthTokens(r.c, r.At(k), r.events[k]);
  }

  /** A family absent at moment `k` and present at moment `j` was opened by a login between them. */
  lemma {:induction false} BornOf(r: Run, k: nat, j: nat, family: Id) returns (m: nat)
    requires Proper(r) && k <= j <= |r.events|
    requires !Known(r.Table(k), family) && Known(r.Table(j), family)
    ensures k <= m < j && OpensFamily(r, m, family)
  {
    hide Step, Known;
    if Known(r.Table(j - 1), family) {
      m := BornOf(r, k, j - 1, family);
    } else {
      m := j - 1;
      BornStep(r.c, r.At(m), r.events[m], family);
    }
  }

  lemma BornStep(c: Config, w: World, e: Event, family: Id)
    requires !Known(w.refreshTokens, family) && Known(Step(c, w, e).0.refreshTokens, family)
    ensures (e.RegisterReq? || e.LoginReq?) && Step(c, w, e).1.Pair? && Step(c, w, e).1.pair.accessToken.sessionId == family
  {
    hide Step;
    StepTable(c, w, e);
    StepIssues(c, w, e);
  }

  /** Every signed token names a family that has a row of the same user. */
  lemma {:induction false} TokensNameFamilies(r: Run, k: nat, i: nat)
    requires Proper(r) && k <= |r.events| && i < |r.At(k).issued|
    ensures exists n :: 0 <= n < |r.Table(k)| && r.Table(k)[n].family == r.At(k).issued[i].token.sessionId
                        && r.Table(k)[n].userId == r.At(k).issued[i].token.sub
  {
    hide Step;
    StepIssues(r.c, r.At(k - 1), r.events[k - 1]);
    Later(r, k - 1, k);
    if i < |r.At(k - 1).issued| {
      TokensNameFamilies(r, k - 1, i);
      var n :| 0 <= n < |r.Table(k - 1)| && r.Table(k - 1)[n].family == r.At(k - 1).issued[i].token.sessionId
               && r.Table(k - 1)[n].userId == r.At(k - 1).issued[i].token.sub;
      assert r.Table(k)[n].family == r.Table(k - 1)[n].family;
    } else {
      assert LastRow(r.At(k)) == r.Table(k)[|r.Table(k)| - 1];
    }
  }

  /** After a password reset, a password change or a logout everywhere, no refresh token the user has
      by then refreshes ever again. */
  lemma CutOffRefresh(r: Run, k: nat, j: nat, user: Id, i: nat, meta: RequestMeta)
    requires Proper(r) && k < j <= |r.events| && CutsOff(r, k, user)
    requires i < |r.Table(k + 1)| && r.Table(k + 1)[i].userId == user
    ensures Refresh(r.c, r.At(j), r.Table(k + 1)[i].tokenHash.raw, meta).1 == Failed(RefreshTokenReused)
  {
    hide Step;
    CutOffKillsAll(r, k, user);
    RowLater(r, k + 1, j, i);
    Reachable(r, j);
    DeadRefused(r.c, r.At(j), i, meta);
  }

  lemma UserFamilyDies(r: Run, k: nat, user: Id, i: nat)
    requires Proper(r) && k < |r.events| && CutsOff(r, k, user)
    requires i < |r.Table(k + 1)| && r.Table(k + 1)[i].userId == user
    ensures Dead(r.Table(k + 1), r.Table(k + 1)[i].family) && r.Table(k + 1)[i].family < r.At(k + 1).next
  {
    hide Step;
    Reachable(r, k + 1);
    CutOffKillsAll(r, k, user);
  }

  lemma BearerHasAccount(r: Run, k: nat, a: AccessToken)
    requires Proper(r) && k <= |r.events| && Accepts(r.At(k), a)
    ensures HasUser(r.At(k).users, a.sub)
  {
    hide Step;
    AcceptedIsKnown(r, k, a);
    var n :| 0 <= n < |r.Table(k)| && r.Table(k)[n].family == a.sessionId && r.Table(k)[n].userId == a.sub;
    Reachable(r, k);
  }

  /** Whoever is cut off has an account by then. */
  lemma CutOffHasAccount(r: Run, k: nat, user: Id)
    requires Proper(r) && k < |r.events| && CutsOff(r, k, user)
    ensures user < r.At(k).next
  {
    hide Step;
    Reachable(r, k);
    match r.events[k]
    case ResetReq(_, _) =>
    case LogoutAllReq(bearer) =>
      DoneIsAccepted(r.c, r.At(k), r.events[k]);
      BearerHasAccount(r, k, bearer);
    case ChangeReq(bearer, _, _) =>
      DoneIsAccepted(r.c, r.At(k), r.events[k]);
      BearerHasAccount(r, k, bearer);
  }

  lemma DoneIsAccepted(c: Config, w: World, e: Event)
    requires (e.LogoutAllReq? || e.ChangeReq?) && Step(c, w, e).1.Done?
    ensures Accepts(w, e.bearer)
  {
  }

  lemma RegisteredIsNew(c: Config, w: World, e: Event)
    requires e.RegisterReq? && Step(c, w, e).1.Pair?
    ensures Step(c, w, e).1.pair.accessToken.sub == w.next
  {
  }

  /** And from one access-token lifetime later, every access token of the user that is accepted comes
      from a login made after the cut-off. */
  lemma CutOffAccess(r: Run, k: nat, j: nat, user: Id, a: AccessToken) returns (m: nat)
    requires Proper(r) && k < j <= |r.events| && CutsOff(r, k, user)
    requires r.At(j).now >= r.At(k).now + r.c.accessTokenTtl * 1000
    requires Accepts(r.At(j), a) && a.sub == user
    ensures k < m < j && r.events[m].LoginReq? && r.Out(m).Pair?
    ensures r.Out(m).pair.accessToken.sessionId == a.sessionId && r.Out(m).pair.accessToken.sub == user
  {
    hide Step;
    StepClock(r.c, r.At(k), r.events[k]);
    if Known(r.Table(k + 1), a.sessionId) {
      OldFamilyRejected(r, k, j, user, a);
      assert false;
    }
    AcceptedIsKnown(r, j, a);
    m := BornOf(r, k + 1, j, a.sessionId);
    OpenedBySubject(r, m, j, a);
    CutOffHasAccount(r, k, user);
    Later(r, k, m);
    if r.events[m].RegisterReq? { RegisteredIsNew(r.c, r.At(m), r.events[m]); }
  }

  lemma OpenedBySubject(r: Run, m: nat, j: nat, a: AccessToken)
    requires Proper(r) && m < j <= |r.events| && Accepts(r.At(j), a) && OpensFamily(r, m, a.sessionId)
    ensures r.Out(m).pair.accessToken.sub == a.sub
  {
    hide Step;
    StepIssues(r.c, r.At(m), r.events[m]);
    SameFamilySameUser(r, m + 1, j, |r.Table(m + 1)| - 1, a);
  }

  lemma AcceptedIsKnown(r: Run, j: nat, a: AccessToken)
    requires Proper(r) && j <= |r.events| && Accepts(r.At(j), a)
    ensures exists n :: 0 <= n < |r.Table(j)| && r.Table(j)[n].family == a.sessionId && r.Table(j)[n].userId == a.sub
    ensures Known(r.Table(j), a.sessionId)
  {
    hide Step;
    var x :| 0 <= x < |r.At(j).issued| && r.At(j).issued[x].token == a;
    TokensNameFamilies(r, j, x);
  }

  lemma OldFamilyRejected(r: Run, k: nat, j: nat, user: Id, a: AccessToken)
    requires Proper(r) && k < j <= |r.events| && CutsOff(r, k, user)
    requires r.At(j).now >= r.At(k + 1).now + r.c.accessTokenTtl * 1000
    requires a.sub == user && Known(r.Table(k + 1), a.sessionId)
    ensures !Accepts(r.At(j), a)
  {
    hide Step;
    if Accepts(r.At(j), a) {
      var n: nat :| n < |r.Table(k + 1)| && r.Table(k + 1)[n].family == a.sessionId;
      SameFamilySameUser(r, k + 1, j, n, a);
      UserFamilyDies(r, k, user, n);
      DeadIsEnded(r, k + 1, j, a.sessionId);
    }
  }

  lemma SameFamilySameUser(r: Run, k: nat, j: nat, n: nat, a: AccessToken)
    requires Proper(r) && k <= j <= |r.events| && Accepts(r.At(j), a)
    requires n < |r.Table(k)| && r.Table(k)[n].family == a.sessionId
    ensures r.Table(k)[n].userId == a.sub
  {
    hide Step;
    AcceptedIsKnown(r, j, a);
    RowLater(r, k, j, n);
    Reachable(r, j);
  }
}
