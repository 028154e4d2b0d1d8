/** Refresh-token families over whole runs: the linear chain, idle timeout and conservation. */
module Families {
  import opened Basics
  import opened RefreshTable
  import opened World
  import opened Invariants
  import opened Runs

  // ---------- the chain and its length ----------

  function CountFamily(t: Table, family: Id): nat {
    if t == [] then 0
    else CountFamily(t[..|t| - 1], family) + (if t[|t| - 1].family == family then 1 else 0)
  }

  /** Request `k` is a successful refresh in this family. */
  ghost predicate Refreshes(r: Run, k: nat, family: Id)
    requires k < |r.events|
  {
    r.events[k].RefreshReq? && r.Out(k).Pair? && r.Out(k).pair.accessToken.sessionId == family
  }

  ghost function Rotations(r: Run, k: nat, family: Id): nat
    requires k <= |r.events|
  {
    if k == 0 then 0 else Rotations(r, k - 1, family) + (if Refreshes(r, k - 1, family) then 1 else 0)
  }

  lemma {:induction false} CountSameFamilies(t: Table, t': Table, family: Id)
    requires |t| == |t'| && forall i :: 0 <= i < |t| ==> t[i].family == t'[i].family
    ensures CountFamily(t, family) == CountFamily(t', family)
  {
    if t != [] { CountSameFamilies(t[..|t| - 1], t'[..|t| - 1], family); }
  }

  lemma {:induction false} CountZero(t: Table, family: Id)
    ensures CountFamily(t, family) == 0 <==> !Known(t, family)
  {
    if t != [] {
      var front := t[..|t| - 1];
      CountZero(front, family);
      if Known(front, family) {
        var i :| 0 <= i < |front| && front[i].family == family;
        assert t[i].family == family;
      }
      if Known(t, family) && t[|t| - 1].family != family {
        var i :| 0 <= i < |t| && t[i].family == family;
        assert front[i].family == family;
      }
    }
  }

  lemma CountChange(c: Config, t: Table, now: Millis, next: nat, ch: Change, family: Id)
    requires Legal(c, t, now, next, ch)
    ensures CountFamily(Apply(t, ch), family) ==
              CountFamily(t, family) + (if (ch.Open? || ch.Rotate?) && ch.row.family == family then 1 else 0)
  {
    var t' := Apply(t, ch);
    if ch.Open? || ch.Rotate? {
      CountSameFamilies(t, t'[..|t'| - 1], family);
    } else {
      CountSameFamilies(t, t', family);
    }
  }

  /** Request `e` is answered by rotating a token of this family. */
  ghost predicate RotatesIn(c: Config, w: World, e: Event, family: Id) {
    e.RefreshReq? && Step(c, w, e).1.Pair? && Step(c, w, e).1.pair.accessToken.sessionId == family
  }

  lemma FamilyLengthStep(c: Config, w: World, e: Event, family: Id)
    requires WorldInv(c, w)
    ensures var t, t' := w.refreshTokens, Step(c, w, e).0.refreshTokens;
            CountFamily(t', family) == CountFamily(t, family) +
              (if RotatesIn(c, w, e, family) || (!Known(t, family) && Known(t', family)) then 1 else 0)
    ensures Known(w.refreshTokens, family) ==> Known(Step(c, w, e).0.refreshTokens, family)
    ensures RotatesIn(c, w, e, family) ==> Known(w.refreshTokens, family)
  {
    var t, t' := w.refreshTokens, Step(c, w, e).0.refreshTokens;
    var ch := ChangeOf(c, w, e);
    StepTable(c, w, e);
    StepIssues(c, w, e);
    CountChange(c, t, w.now, w.next, ch, family);
    CountZero(t, family);
    CountZero(t', family);
    if ch.Open? { assert !Known(t, ch.row.family); }
    if ch.Rotate? { assert Known(t, ch.row.family); }
  }

  /** In every reachable state a family has one row more than it has had successful refreshes. */
  lemma {:induction false} FamilyLength(r: Run, k: nat, family: Id)
    requires Proper(r) && k <= |r.events|
    ensures CountFamily(r.Table(k), family) == (if Known(r.Table(k), family) then 1 else 0) + Rotations(r, k, family)
    ensures !Known(r.Table(k), family) ==> Rotations(r, k, family) == 0
  {
    hide Step, WorldInv, CountFamily;
    if k == 0 {
      CountZero(r.Table(0), family);
    } else {
      FamilyLength(r, k - 1, family);
      Reachable(r, k - 1);
      FamilyLengthStep(r.c, r.At(k - 1), r.events[k - 1], family);
      assert r.At(k) == Step(r.c, r.At(k - 1), r.events[k - 1]).0;
      assert Refreshes(r, k - 1, family) == RotatesIn(r.c, r.At(k - 1), r.events[k - 1], family);
    }
  }

  /** Every family of every reachable state is a linear chain: older rows are revoked, so at most one
      row is live and it is the newest; creation and expiry never decrease along the chain; and the
      chain is one longer than the number of successful refreshes in it. */
  lemma FamilyIsChain(r: Run, k: nat, family: Id)
    requires Proper(r) && k <= |r.events|
    ensures var t := r.Table(k);
            && (forall i, j :: 0 <= i < j < |t| && t[i].family == family && t[j].family == family ==>
                  t[i].revoked && t[i].userId == t[j].userId
                  && t[i].createdAt <= t[j].createdAt && t[i].expiresAt <= t[j].expiresAt)
            && (Known(t, family) ==> CountFamily(t, family) == 1 + Rotations(r, k, family))
  {
    hide Step;
    Reachable(r, k);
    FamilyLength(r, k, family);
  }

  // ---------- idle timeout ----------

  /** Row `i` is the last of its family. */
  ghost predicate Leaf(t: Table, i: nat) {
    i < |t| && forall j :: i < j < |t| ==> t[j].family != t[i].family
  }

  /** While a family is not refreshed, its newest row stays where it is. */
  lemma {:induction false} LeafStays(r: Run, k: nat, j: nat, i: nat)
    requires Proper(r) && k <= j <= |r.events|
    requires Leaf(r.Table(k), i)
    requires forall m :: k <= m < j ==> !Refreshes(r, m, r.Table(k)[i].family)
    ensures Leaf(r.Table(j), i) && r.Table(j)[i].family == r.Table(k)[i].family
    ensures r.Table(j)[i].expiresAt == r.Table(k)[i].expiresAt
  {
    hide Step, Leaf, WorldInv;
    if k < j {
      assert i < |r.Table(k)| by { LeafIndex(r.Table(k), i); }
      assert !Refreshes(r, j - 1, r.Table(k)[i].family);
      LeafStays(r, k, j - 1, i);
      Reachable(r, j - 1);
      LeafStep(r.c, r.At(j - 1), r.events[j - 1], i);
    }
  }

  lemma LeafIndex(t: Table, i: nat)
    requires Leaf(t, i)
    ensures i < |t|
  {
  }

  lemma LeafStep(c: Config, w: World, e: Event, i: nat)
    requires WorldInv(c, w) && Leaf(w.refreshTokens, i)
    requires !(e.RefreshReq? && Step(c, w, e).1.Pair? && Step(c, w, e).1.pair.accessToken.sessionId == w.refreshTokens[i].family)
    ensures var t, t' := w.refreshTokens, Step(c, w, e).0.refreshTokens;
            Leaf(t', i) && t'[i].family == t[i].family && t'[i].expiresAt == t[i].expiresAt
  {
    hide Step, UsersInv, Owned, IssuedInv, ResetsInv;
    StepTable(c, w, e);
    StepIssues(c, w, e);
  }

  /** A successful refresh leaves its new row as the leaf of the family, good for the full lifetime. */
  lemma RefreshMakesLeaf(r: Run, k: nat)
    requires Proper(r) && k < |r.events| && r.Out(k).Pair?
    ensures var t := r.Table(k + 1);
            && |t| > 0 && Leaf(t, |t| - 1)
            && t[|t| - 1].family == r.Out(k).pair.accessToken.sessionId
            && t[|t| - 1].expiresAt == r.At(k).now + r.c.refreshTtlDays * 86400000
  {
    hide Step;
    StepTable(r.c, r.At(k), r.events[k]);
    StepIssues(r.c, r.At(k), r.events[k]);
  }

  /** The row a successful refresh presents is the leaf of its family, unexpired. */
  lemma RefreshPresentsLeaf(r: Run, j: nat, family: Id)
    requires Proper(r) && j < |r.events| && Refreshes(r, j, family)
    ensures var at := FindHash(r.Table(j), Sha256(r.events[j].raw));
            at >= 0 && Leaf(r.Table(j), at) && r.Table(j)[at].family == family && r.At(j).now <= r.Table(j)[at].expiresAt
  {
    hide Step;
    Reachable(r, j);
    StepTable(r.c, r.At(j), r.events[j]);
    StepIssues(r.c, r.At(j), r.events[j]);
  }

  /** Two successive successful token issues of a family (its opening or a refresh, then the next
      refresh) are at most the refresh lifetime apart. */
  lemma IdleTimeout(r: Run, k: nat, j: nat)
    requires Proper(r) && k < j < |r.events|
    requires r.Out(k).Pair?
    requires Refreshes(r, j, r.Out(k).pair.accessToken.sessionId)
    requires forall m :: k < m < j ==> !Refreshes(r, m, r.Out(k).pair.accessToken.sessionId)
    ensures r.At(j).now <= r.At(k).now + r.c.refreshTtlDays * 86400000
  {
    hide Step;
    var i := RefreshLeafAt(r, k, j);
    RefreshPresentsLeaf(r, j, r.Out(k).pair.accessToken.sessionId);
    SameLeaf(r.Table(j), i, FindHash(r.Table(j), Sha256(r.events[j].raw)));
  }

  /** Where the row that request `k` created stands at moment `j`, the family not refreshed since. */
  lemma RefreshLeafAt(r: Run, k: nat, j: nat) returns (i: nat)
    requires Proper(r) && k < j <= |r.events| && r.Out(k).Pair?
    requires forall m :: k < m < j ==> !Refreshes(r, m, r.Out(k).pair.accessToken.sessionId)
    ensures Leaf(r.Table(j), i)
    ensures r.Table(j)[i].family == r.Out(k).pair.accessToken.sessionId
    ensures r.Table(j)[i].expiresAt == r.At(k).now + r.c.refreshTtlDays * 86400000
  {
    hide Step;
    RefreshMakesLeaf(r, k);
    i := |r.Table(k + 1)| - 1;
    LeafStays(r, k + 1, j, i);
  }

  lemma SameLeaf(t: Table, i: nat, j: nat)
    requires Leaf(t, i) && Leaf(t, j) && t[i].family == t[j].family
    ensures i == j
  {
  }

  /** Once a family has been idle for longer than the refresh lifetime, it never refreshes again. */
  lemma IdleFamilyNeverRefreshes(r: Run, k: nat, j: nat, m: nat)
    requires Proper(r) && k < j <= m < |r.events|
    requires r.Out(k).Pair?
    requires forall n :: k < n < j ==> !Refreshes(r, n, r.Out(k).pair.accessToken.sessionId)
    requires r.At(j).now > r.At(k).now + r.c.refreshTtlDays * 86400000
    ensures !Refreshes(r, m, r.Out(k).pair.accessToken.sessionId)
    decreases m
  {
    hide Step;
    var family := r.Out(k).pair.accessToken.sessionId;
    forall n | j <= n < m ensures !Refreshes(r, n, family) {
      IdleFamilyNeverRefreshes(r, k, j, n);
    }
    Later(r, j, m);
    if Refreshes(r, m, family) {
      IdleTimeout(r, k, m);
    }
  }

  // ---------- conservation ----------

  /** The families of a user that still have a live row, expired or not. */
  ghost function LiveFamilies(t: Table, user: Id): set<Id> {
    set i | 0 <= i < |t| && t[i].userId == user && !t[i].revoked :: t[i].family
  }

  /** The families of a user that a change ends: those whose live row is revoked and not replaced. */
  ghost function EndedBy(t: Table, ch: Change, user: Id): set<Id> {
    if ch.Revoke? then set i | 0 <= i < |t| && t[i].userId == user && !t[i].revoked && Matches(ch.where, t[i]) :: t[i].family
    else {}
  }

  ghost predicate Opens(ch: Change, user: Id) {
    ch.Open? && ch.row.userId == user
  }

  /** One request: the live families of a user are those of before, less the ones it ends, plus the
      one it opens; a refresh changes nothing. */
  lemma LiveFamiliesChange(c: Config, t: Table, now: Millis, next: nat, ch: Change, user: Id)
    requires Inv(c, t, now, next) && Legal(c, t, now, next, ch)
    ensures LiveFamilies(Apply(t, ch), user) ==
              LiveFamilies(t, user) - EndedBy(t, ch, user) + (if Opens(ch, user) then {ch.row.family} else {})
    ensures EndedBy(t, ch, user) <= LiveFamilies(t, user)
    ensures Opens(ch, user) ==> ch.row.family !in LiveFamilies(t, user)
  {
    match ch
    case Keep =>
    case Open(row) =>
      LiveFamiliesAppend(t, row, user);
      assert !Known(t, row.family);
    case Revoke(where) => LiveFamiliesRevoke(t, where, user);
    case Rotate(at, row) =>
      LiveFamiliesRevoke(t, ById(t[at].id), user);
      LiveFamiliesAppend(RevokeWhere(t, ById(t[at].id)), row, user);
      EndedByRow(t, at, user);
  }

  lemma LiveFamiliesAppend(t: Table, row: Row, user: Id)
    requires !row.revoked
    ensures LiveFamilies(t + [row], user) == LiveFamilies(t, user) + (if row.userId == user then {row.family} else {})
  {
    var t' := t + [row];
    assert t'[|t|] == row && forall i :: 0 <= i < |t| ==> t'[i] == t[i];
    forall f | f in LiveFamilies(t, user) ensures f in LiveFamilies(t', user) {
      var i :| 0 <= i < |t| && t[i].userId == user && !t[i].revoked && t[i].family == f;
      assert t'[i].family == f;
    }
  }

  lemma LiveFamiliesRevoke(t: Table, where: Where, user: Id)
    requires Chain(t)
    ensures LiveFamilies(RevokeWhere(t, where), user) == LiveFamilies(t, user) - EndedBy(t, Revoke(where), user)
  {
    var t' := RevokeWhere(t, where);
    forall f | f in LiveFamilies(t, user) && f !in EndedBy(t, Revoke(where), user) ensures f in LiveFamilies(t', user) {
      var i :| 0 <= i < |t| && t[i].userId == user && !t[i].revoked && t[i].family == f;
      assert t'[i].family == f && !t'[i].revoked;
    }
    forall f | f in LiveFamilies(t', user)
      ensures f in LiveFamilies(t, user) && f !in EndedBy(t, Revoke(where), user)
    {
      var i :| 0 <= i < |t'| && t'[i].userId == user && !t'[i].revoked && t'[i].family == f;
      assert t[i].family == f && !t[i].revoked;
    }
  }

  lemma EndedByRow(t: Table, at: nat, user: Id)
    requires Distinct(t) && at < |t| && !t[at].revoked
    ensures EndedBy(t, Revoke(ById(t[at].id)), user) == if t[at].userId == user then {t[at].family} else {}
  {
  }

  ghost function ChangeAt(r: Run, k: nat): Change
    requires k < |r.events|
  {
    ChangeOf(r.c, r.At(k), r.events[k])
  }

  ghost function Opened(r: Run, k: nat, user: Id): nat
    requires k <= |r.events|
  {
    if k == 0 then 0 else Opened(r, k - 1, user) + (if Opens(ChangeAt(r, k - 1), user) then 1 else 0)
  }

  ghost function Ended(r: Run, k: nat, user: Id): nat
    requires k <= |r.events|
  {
    if k == 0 then 0 else Ended(r, k - 1, user) + |EndedBy(r.Table(k - 1), ChangeAt(r, k - 1), user)|
  }

  /** Sessions are conserved: the families of a user with a live row are the registrations and
      logins of that user, less the families ended by logout, revocation, password change or replay. */
  lemma {:induction false} SessionsConserved(r: Run, k: nat, user: Id)
    requires Proper(r) && k <= |r.events|
    ensures |LiveFamilies(r.Table(k), user)| + Ended(r, k, user) == Opened(r, k, user)
  {
    hide Step;
    if k == 0 {
      assert LiveFamilies(r.Table(0), user) == {};
    } else {
      SessionsConserved(r, k - 1, user);
      Reachable(r, k - 1);
      SessionsConservedStep(r.c, r.At(k - 1), r.events[k - 1], user);
    }
  }

  lemma SessionsConservedStep(c: Config, w: World, e: Event, user: Id)
    requires WorldInv(c, w)
    ensures var t, ch := w.refreshTokens, ChangeOf(c, w, e);
            |LiveFamilies(Step(c, w, e).0.refreshTokens, user)| + |EndedBy(t, ch, user)| ==
              |LiveFamilies(t, user)| + (if Opens(ch, user) then 1 else 0)
  {
    var t, ch := w.refreshTokens, ChangeOf(c, w, e);
    StepTable(c, w, e);
    LiveFamiliesChange(c, t, w.now, w.next, ch, user);
    Cardinalities(LiveFamilies(t, user), EndedBy(t, ch, user), if Opens(ch, user) then {ch.row.family} else {});
  }

  lemma Cardinalities(live: set<Id>, ended: set<Id>, added: set<Id>)
    requires ended <= live && live !! added
    ensures |live - ended + added| + |ended| == |live| + |added|
  {
  }

  /** Which sessions of a user a request on one token ends: the family of a replayed token, of the
      live token logged out, or of the live row revoked. */
  lemma WhatEndsOneFamily(c: Config, w: World, e: Event, user: Id)
    requires WorldInv(c, w) && (e.RefreshReq? || e.LogoutReq? || e.RevokeReq?)
    ensures var t, ended := w.refreshTokens, EndedBy(w.refreshTokens, ChangeOf(c, w, e), user);
            match e
            case RefreshReq(raw, _) =>
              forall f :: f in ended <==>
                f in LiveFamilies(t, user)
                && exists i :: 0 <= i < |t| && t[i].tokenHash == Sha256(raw) && t[i].revoked && t[i].family == f
            case LogoutReq(bearer, raw) =>
              forall f :: f in ended <==>
                Accepts(w, bearer) && bearer.sub == user
                && exists i :: 0 <= i < |t| && t[i].tokenHash == Sha256(raw) && !t[i].revoked && t[i].userId == user && t[i].family == f
            case RevokeReq(bearer, rowId) =>
              forall f :: f in ended <==>
                Accepts(w, bearer) && bearer.sub == user
                && exists i :: 0 <= i < |t| && t[i].id == rowId && !t[i].revoked && t[i].userId == user && t[i].family == f
            case _ => true
  {
    var t := w.refreshTokens;
    if e.RefreshReq? {
      var at := FindHash(t, Sha256(e.raw));
      if at >= 0 {
        forall i | 0 <= i < |t| && t[i].tokenHash == Sha256(e.raw) ensures i == at { FindsItself(t, i); }
      }
    }
  }

  /** Which requests end every session of a user: logout everywhere, a password change, a password
      reset. Every other request ends none. */
  lemma WhatEndsEveryFamily(c: Config, w: World, e: Event, user: Id)
    requires !(e.RefreshReq? || e.LogoutReq? || e.RevokeReq?)
    ensures var t, out := w.refreshTokens, Step(c, w, e).1;
            EndedBy(t, ChangeOf(c, w, e), user) ==
              match e
              case LogoutAllReq(bearer) => if Accepts(w, bearer) && bearer.sub == user then LiveFamilies(t, user) else {}
              case ChangeReq(bearer, _, _) => if out.Done? && bearer.sub == user then LiveFamilies(t, user) else {}
              case ResetReq(raw, _) =>
                if out.Done? && w.authTokens[FindAuthToken(w.authTokens, Sha256(raw), PasswordReset)].userId == user
                then LiveFamilies(t, user) else {}
              case _ => {}
  {
  }
}
