/** Whether a logged-out access token can ever be accepted again. */
module LogoutFinality {
  import opened Basics
  import opened RefreshTable
  import opened Rbac
  import opened Email
  import opened World
  import opened Invariants
  import opened Runs

  /** The blacklist entry of `jti` lasts at least until `t`. */
  ghost predicate ListedUntil(w: World, jti: Id, t: Millis) {
    BlacklistKey(jti) in w.store && t <= w.store[BlacklistKey(jti)]
  }

  /** No request shortens a blacklist entry that was set no later than now. */
  lemma ListedStep(c: Config, w: World, e: Event, jti: Id, t: Millis)
    requires ListedUntil(w, jti, t) && t <= w.now + 900 * 1000
    ensures ListedUntil(Step(c, w, e).0, jti, t)
  {
  }

  lemma {:induction false} ListedLater(r: Run, k: nat, j: nat, jti: Id, t: Millis)
    requires Proper(r) && k <= j <= |r.events|
    requires ListedUntil(r.At(k), jti, t) && t <= r.At(k).now + 900 * 1000
    ensures ListedUntil(r.At(j), jti, t)
  {
    hide Step;
    if k < j {
      ListedLater(r, k, j - 1, jti, t);
      Later(r, k, j - 1);
      ListedStep(r.c, r.At(j - 1), r.events[j - 1], jti, t);
    }
  }

  /** Request `k` is a logout that was served. */
  ghost predicate LoggedOut(r: Run, k: nat)
    requires k < |r.events|
  {
    r.events[k].LogoutReq? && r.Out(k).Done?
  }

  lemma LogoutLists(c: Config, w: World, e: Event)
    requires e.LogoutReq? && Step(c, w, e).1.Done?
    ensures Accepts(w, e.bearer) && ListedUntil(Step(c, w, e).0, e.bearer.jti, w.now + 900 * 1000)
    ensures Step(c, w, e).0.now == w.now
  {
  }

  /** With a lifetime of at most 900 s the access token used to log out is never accepted again. */
  lemma LogoutIsFinal(r: Run, k: nat, j: nat)
    requires Proper(r) && k < j <= |r.events| && LoggedOut(r, k)
    requires r.c.accessTokenTtl <= 900
    ensures !Accepts(r.At(j), r.events[k].bearer)
  {
    hide Step;
    var a := r.events[k].bearer;
    LogoutLists(r.c, r.At(k), r.events[k]);
    ListedLater(r, k + 1, j, a.jti, r.At(k).now + 900 * 1000);
    Reachable(r, k);
    var i :| 0 <= i < |r.At(k).issued| && r.At(k).issued[i].token == a;
    assert a.exp == Seconds(r.At(k).issued[i].at) + r.c.accessTokenTtl;
  }

  /** A run in which a logged-out token comes back. */
  ghost predicate ComesBack(r: Run, k: nat, j: nat) {
    Proper(r) && k < j <= |r.events| && LoggedOut(r, k) && Accepts(r.At(j), r.events[k].bearer)
  }

  /** With any longer lifetime some run accepts the token again: the entry lapses after 900 s. */
  lemma LogoutNotFinal(c: Config) returns (r: Run)
    requires c.accessTokenTtl > 900
    ensures r.c == c && |r.events| == 3 && ComesBack(r, 1, 3)
  {
    var w := EMPTY_WORLD;
    r := LogoutNotFinalFrom(c, w, "a@b.c", "pw", RequestMeta(None, None));
  }

  lemma LogoutNotFinalFrom(c: Config, w: World, email: string, password: string, meta: RequestMeta) returns (r: Run)
    requires c.accessTokenTtl > 900
    requires Initial(w) && w.now == 0 && FindByEmail(w.users, email) < 0
    ensures r.c == c && |r.events| == 3 && ComesBack(r, 1, 3)
  {
    var register := RegisterReq(email, password, meta);
    var (w1, out) := Step(c, w, register);
    var a := out.pair.accessToken;
    StepIssues(c, w, register);
    EntryLapses(c, w1, a, 0);
    r := ThreeEvents(c, w, register, LogoutReq(a, 0), 900 * 1000 + 1);
  }

  /** A token signed at time 0, logged out at once, is accepted again when the entry has lapsed. */
  lemma EntryLapses(c: Config, w: World, a: AccessToken, raw: Id)
    requires w.now == 0 && w.store == map[] && w.issued == [Issue(a, 0)]
    requires a.exp == c.accessTokenTtl > 900
    ensures var (w', out) := Step(c, w, LogoutReq(a, raw));
            out.Done? && w'.now == 0 && Accepts(w'.(now := 900 * 1000 + 1), a)
  {
    assert w.issued[0].token == a;
    var w' := Step(c, w, LogoutReq(a, raw)).0;
    assert w'.(now := 900 * 1000 + 1).issued[0].token == a;
  }

  /** Logout is final in every run of a configuration exactly when its lifetime is at most the fixed
      quarter of an hour for which the controller blacklists. */
  lemma LogoutFinalIff(c: Config)
    ensures (forall r: Run, k: nat, j: nat :: r.c == c ==> !ComesBack(r, k, j)) <==> c.accessTokenTtl <= 900
  {
    if c.accessTokenTtl <= 900 {
      forall r: Run, k: nat, j: nat | r.c == c ensures !ComesBack(r, k, j) {
        if ComesBack(r, k, j) { LogoutIsFinal(r, k, j); }
      }
    } else {
      var r := LogoutNotFinal(c);
      assert ComesBack(r, 1, 3);
    }
  }
}
