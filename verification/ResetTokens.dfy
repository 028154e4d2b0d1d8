/** Password-reset tokens over whole runs: single use, thirty minutes, and the books balance. */
module ResetTokens {
  import opened Basics
  import opened RefreshTable
  import opened World
  import opened Invariants
  import opened Runs

  /** The record a raw token points at. */
  ghost function Record(w: World, raw: Id): Option<AuthToken> {
    var at := FindAuthToken(w.authTokens, Sha256(raw), PasswordReset);
    if at >= 0 then Some(w.authTokens[at]) else None
  }

  /** The request resets this user's password and succeeds. */
  ghost predicate ResetsFor(c: Config, w: World, e: Event, user: Id) {
    e.ResetReq? && Step(c, w, e).1.Done? && Record(w, e.raw).Some? && Record(w, e.raw).value.userId == user
  }

  /** The request gives out a reset token for this user. */
  ghost predicate ForgotFor(w: World, e: Event, user: Id) {
    e.ForgotReq? && FindByEmail(w.users, e.email) >= 0 && w.users[FindByEmail(w.users, e.email)].id == user
  }

  ghost function Resets(r: Run, k: nat, user: Id): nat
    requires k <= |r.events|
  {
    if k == 0 then 0 else Resets(r, k - 1, user) + (if ResetsFor(r.c, r.At(k - 1), r.events[k - 1], user) then 1 else 0)
  }

  ghost function Forgots(r: Run, k: nat, user: Id): nat
    requires k <= |r.events|
  {
    if k == 0 then 0 else Forgots(r, k - 1, user) + (if ForgotFor(r.At(k - 1), r.events[k - 1], user) then 1 else 0)
  }

  function CountTokens(tokens: seq<AuthToken>, user: Id, usedOnly: bool): nat {
    if tokens == [] then 0
    else
      var last := tokens[|tokens| - 1];
      CountTokens(tokens[..|tokens| - 1], user, usedOnly) + (if last.userId == user && (usedOnly ==> last.used) then 1 else 0)
  }

  lemma {:induction false} CountSame(a: seq<AuthToken>, b: seq<AuthToken>, user: Id, usedOnly: bool)
    requires |a| == |b| && forall i :: 0 <= i < |a| ==> a[i].userId == b[i].userId && (usedOnly ==> a[i].used == b[i].used)
    ensures CountTokens(a, user, usedOnly) == CountTokens(b, user, usedOnly)
  {
    if a != [] { CountSame(a[..|a| - 1], b[..|b| - 1], user, usedOnly); }
  }

  /** Marking one unused token used adds one to its owner's count and to no other. */
  lemma {:induction false} CountMarked(tokens: seq<AuthToken>, at: nat, user: Id)
    requires at < |tokens| && !tokens[at].used
    requires forall i :: 0 <= i < |tokens| && i != at ==> tokens[i].id != tokens[at].id
    ensures CountTokens(MarkUsed(tokens, tokens[at].id), user, true) ==
              CountTokens(tokens, user, true) + (if tokens[at].userId == user then 1 else 0)
  {
    var marked := MarkUsed(tokens, tokens[at].id);
    var front := tokens[..|tokens| - 1];
    if at == |tokens| - 1 {
      CountSame(marked[..|tokens| - 1], front, user, true);
    } else {
      CountMarked(front, at, user);
      assert marked[..|tokens| - 1] == MarkUsed(front, front[at].id);
    }
  }

  lemma CountUsedStep(c: Config, w: World, e: Event, user: Id)
    requires WorldInv(c, w)
    ensures var tokens, tokens' := w.authTokens, Step(c, w, e).0.authTokens;
            && CountTokens(tokens', user, true) == CountTokens(tokens, user, true) + (if ResetsFor(c, w, e, user) then 1 else 0)
            && CountTokens(tokens', user, false) == CountTokens(tokens, user, false) + (if ForgotFor(w, e, user) then 1 else 0)
  {
    hide Step, Inv, UsersInv, Owned, IssuedInv;
    StepAuthTokens(c, w, e);
    var w' := Step(c, w, e).0;
    if e.ResetReq? && Step(c, w, e).1.Done? {
      var at := FindAuthToken(w.authTokens, Sha256(e.raw), PasswordReset);
      CountMarked(w.authTokens, at, user);
      CountSame(w.authTokens, w'.authTokens, user, false);
    } else if |w'.authTokens| > |w.authTokens| {
      assert w'.authTokens[..|w.authTokens|] == w.authTokens;
    }
  }

  lemma {:induction false} CountAll(tokens: seq<AuthToken>, user: Id)
    ensures CountTokens(tokens, user, true) <= CountTokens(tokens, user, false)
  {
    if tokens != [] { CountAll(tokens[..|tokens| - 1], user); }
  }

  lemma CountNone(user: Id)
    ensures CountTokens([], user, true) == 0 && CountTokens([], user, false) == 0
  {
  }

  /** A user's successful resets are its used tokens, and never more than the tokens issued to it. */
  lemma {:induction false} ResetsBalance(r: Run, k: nat, user: Id)
    requires Proper(r) && k <= |r.events|
    ensures Resets(r, k, user) == CountTokens(r.At(k).authTokens, user, true)
    ensures Forgots(r, k, user) == CountTokens(r.At(k).authTokens, user, false)
    ensures Resets(r, k, user) <= Forgots(r, k, user)
  {
    hide Step, WorldInv, ResetsFor, ForgotFor, CountTokens;
    CountAll(r.At(k).authTokens, user);
    if k == 0 { CountNone(user); }
    if k > 0 {
      ResetsBalance(r, k - 1, user);
      Reachable(r, k - 1);
      CountUsedStep(r.c, r.At(k - 1), r.events[k - 1], user);
    }
  }

  /** Auth-token rows keep their place and are never un-used. */
  ghost predicate TokensExtend(a: seq<AuthToken>, b: seq<AuthToken>) {
    |a| <= |b| && forall i {:trigger b[i]} {:trigger a[i]} :: 0 <= i < |a| ==>
      b[i].(used := a[i].used) == a[i] && (a[i].used ==> b[i].used)
  }

  lemma {:induction false} TokensLater(r: Run, k: nat, j: nat)
    requires Proper(r) && k <= j <= |r.events|
    ensures TokensExtend(r.At(k).authTokens, r.At(j).authTokens)
  {
    hide Step;
    if k < j {
      TokensLater(r, k, j - 1);
      StepAuthTokens(r.c, r.At(j - 1), r.events[j - 1]);
      TokensStep(r.At(k).authTokens, r.At(j - 1).authTokens, r.At(j).authTokens);
    }
  }

  lemma TokensStep(a: seq<AuthToken>, b: seq<AuthToken>, d: seq<AuthToken>)
    requires TokensExtend(a, b) && TokensExtend(b, d)
    ensures TokensExtend(a, d)
  {
  }

  lemma ResetMarks(c: Config, w: World, e: Event) returns (at: nat)
    requires WorldInv(c, w) && e.ResetReq? && Step(c, w, e).1.Done?
    ensures at < |w.authTokens| && w.authTokens[at].tokenHash == Sha256(e.raw) && !w.authTokens[at].used
    ensures w.now <= w.authTokens[at].expiresAt
    ensures at < |Step(c, w, e).0.authTokens| && Step(c, w, e).0.authTokens[at].used
    ensures Step(c, w, e).0.authTokens[at].tokenHash == Sha256(e.raw)
  {
    StepAuthTokens(c, w, e);
    at := FindAuthToken(w.authTokens, Sha256(e.raw), PasswordReset);
  }

  lemma UsedIsRefused(c: Config, w: World, e: Event, at: nat)
    requires WorldInv(c, w) && e.ResetReq?
    requires at < |w.authTokens| && w.authTokens[at].used && w.authTokens[at].tokenHash == Sha256(e.raw)
    ensures Step(c, w, e) == (w, Failed(InvalidResetToken))
  {
  }

  /** A reset token succeeds at most once, whatever happens in between. */
  lemma ResetOnlyOnce(r: Run, k: nat, j: nat)
    requires Proper(r) && k < j < |r.events|
    requires r.events[k].ResetReq? && r.events[j].ResetReq? && r.events[k].raw == r.events[j].raw
    requires r.Out(k).Done?
    ensures r.Out(j) == Failed(InvalidResetToken) && r.At(j + 1) == r.At(j)
  {
    hide Step;
    Reachable(r, k);
    Reachable(r, j);
    var at := ResetMarks(r.c, r.At(k), r.events[k]);
    TokensLater(r, k + 1, j);
    assert r.At(j).authTokens[at].(used := r.At(k + 1).authTokens[at].used) == r.At(k + 1).authTokens[at];
    UsedIsRefused(r.c, r.At(j), r.events[j], at);
  }

  /** Which request issued the token in row `at`. */
  lemma {:induction false} TokenOrigin(r: Run, j: nat, at: nat) returns (k: nat)
    requires Proper(r) && j <= |r.events| && at < |r.At(j).authTokens|
    ensures k < j && r.events[k].ForgotReq? && r.Out(k) == ResetToken(Some(r.At(j).authTokens[at].tokenHash.raw))
    ensures r.At(k).now == r.At(j).authTokens[at].createdAt && ForgotFor(r.At(k), r.events[k], r.At(j).authTokens[at].userId)
  {
    hide Step;
    var w, e := r.At(j - 1), r.events[j - 1];
    StepAuthTokens(r.c, w, e);
    if at < |w.authTokens| {
      k := TokenOrigin(r, j - 1, at);
    } else {
      k := j - 1;
    }
  }

  /** Each successful reset uses a token that `forgotPassword` gave out at most thirty minutes before. */
  lemma ResetWithinThirtyMinutes(r: Run, j: nat) returns (k: nat)
    requires Proper(r) && j < |r.events| && r.events[j].ResetReq? && r.Out(j).Done?
    ensures k < j && r.events[k].ForgotReq? && r.Out(k) == ResetToken(Some(r.events[j].raw))
    ensures r.At(k).now <= r.At(j).now <= r.At(k).now + 30 * 60 * 1000
  {
    hide Step;
    Reachable(r, j);
    var at := ResetMarks(r.c, r.At(j), r.events[j]);
    k := TokenOrigin(r, j, at);
  }

  /** Request `k` gave out this token. */
  ghost predicate GaveOut(r: Run, k: nat, raw: Id)
    requires k < |r.events|
  {
    r.events[k].ForgotReq? && r.Out(k) == ResetToken(Some(raw))
  }

  /** Request `m` has reset a password with this token. */
  ghost predicate Redeemed(r: Run, m: nat, raw: Id)
    requires m < |r.events|
  {
    r.events[m].ResetReq? && r.events[m].raw == raw && r.Out(m).Done?
  }

  /** A record that is used has been redeemed by a request of the run. */
  lemma {:induction false} UsedWasRedeemed(r: Run, k: nat, j: nat, at: nat) returns (m: nat)
    requires Proper(r) && k <= j <= |r.events| && at < |r.At(k).authTokens| && !r.At(k).authTokens[at].used
    requires at < |r.At(j).authTokens| && r.At(j).authTokens[at].used
    ensures k <= m < j && Redeemed(r, m, r.At(k).authTokens[at].tokenHash.raw)
  {
    hide Step;
    TokensLater(r, k, j - 1);
    var w, e := r.At(j - 1), r.events[j - 1];
    assert w.authTokens[at].(used := r.At(k).authTokens[at].used) == r.At(k).authTokens[at];
    if w.authTokens[at].used {
      m := UsedWasRedeemed(r, k, j - 1, at);
    } else {
      m := j - 1;
      Reachable(r, j - 1);
      StepAuthTokens(r.c, w, e);
      var found := FindAuthToken(w.authTokens, Sha256(e.raw), PasswordReset);
      assert w.authTokens[found].id == w.authTokens[at].id;
    }
  }

  /** The record stored for a token that was given out. */
  lemma GivenOutIsStored(r: Run, k: nat, raw: Id) returns (at: nat)
    requires Proper(r) && k < |r.events| && GaveOut(r, k, raw)
    ensures at < |r.At(k + 1).authTokens|
    ensures var record := r.At(k + 1).authTokens[at];
            && record.tokenHash == Sha256(raw) && !record.used && record.expiresAt == r.At(k).now + 30 * 60 * 1000
            && ForgotFor(r.At(k), r.events[k], record.userId)
  {
    hide Step;
    StepAuthTokens(r.c, r.At(k), r.events[k]);
    at := |r.At(k).authTokens|;
  }

  lemma UsableIsRedeemed(c: Config, w: World, raw: Id, newPassword: string, at: nat)
    requires WorldInv(c, w) && at < |w.authTokens| && w.authTokens[at].tokenHash == Sha256(raw)
    requires !w.authTokens[at].used && w.now <= w.authTokens[at].expiresAt
    ensures Step(c, w, ResetReq(raw, newPassword)).1.Done?
  {
    assert FindAuthToken(w.authTokens, Sha256(raw), PasswordReset) == at;
  }

  /** A reset succeeds exactly when some earlier request gave its token out, at most thirty minutes ago,
      and no reset in between has succeeded with it. */
  lemma ResetIff(r: Run, j: nat)
    requires Proper(r) && j < |r.events| && r.events[j].ResetReq?
    ensures var raw := r.events[j].raw;
            r.Out(j).Done? <==>
            exists k: nat :: k < j && GaveOut(r, k, raw) && r.At(j).now <= r.At(k).now + 30 * 60 * 1000
                             && forall m :: k < m < j ==> !Redeemed(r, m, raw)
  {
    hide Step;
    var raw := r.events[j].raw;
    if r.Out(j).Done? {
      var k := ResetWithinThirtyMinutes(r, j);
      assert GaveOut(r, k, raw);
      forall m | k < m < j ensures !Redeemed(r, m, raw) {
        if Redeemed(r, m, raw) { ResetOnlyOnce(r, m, j); }
      }
    }
    if k: nat :| k < j && GaveOut(r, k, raw) && r.At(j).now <= r.At(k).now + 30 * 60 * 1000
                 && forall m :: k < m < j ==> !Redeemed(r, m, raw) {
      StillUsable(r, k, j);
    }
  }

  lemma StillUsable(r: Run, k: nat, j: nat)
    requires Proper(r) && k < j < |r.events| && r.events[j].ResetReq? && GaveOut(r, k, r.events[j].raw)
    requires r.At(j).now <= r.At(k).now + 30 * 60 * 1000
    requires forall m :: k < m < j ==> !Redeemed(r, m, r.events[j].raw)
    ensures r.Out(j).Done?
  {
    hide Step;
    var raw := r.events[j].raw;
    var at := GivenOutIsStored(r, k, raw);
    TokensLater(r, k + 1, j);
    var record := r.At(k + 1).authTokens[at];
    assert r.At(j).authTokens[at].(used := record.used) == record;
    if r.At(j).authTokens[at].used { var m := UsedWasRedeemed(r, k + 1, j, at); }
    Reachable(r, j);
    UsableIsRedeemed(r.c, r.At(j), raw, r.events[j].newPassword, at);
  }
}
