/** When what ends a session, or uses a reset token up, is final although other requests are in flight:
    the exact conditions, over all schedules. */
module Finality {
  import opened Basics
  import opened RefreshTable
  import opened World
  import opened Interleaving
  import opened Overlap

  // ---------- a dead family ----------

  /** No schedule from `now` on brings the family back to life. */
  ghost predicate StaysDead(c: Config, reqs: seq<Request>, g: Global, family: Id, now: Millis) {
    forall schedule :: Feasible(reqs, g, schedule, now) ==> Dead(Exec(c, reqs, g, schedule).tables.rows, family)
  }

  /** No login or registration in flight may open this family, nor create the owner of a row of it that a
      refresh has read. */
  ghost predicate Closed(reqs: seq<Request>, g: Global, family: Id)
    requires |g.pcs| == |reqs|
  {
    && (forall r :: 0 <= r < |reqs| ==> !MayOpen(reqs[r], g.pcs[r], family))
    && (forall r, x :: 0 <= r < |reqs| && 0 <= x < |reqs| && HasRead(reqs[x], g.pcs[x], family) ==>
          !MayCreate(reqs[r], g.pcs[r], g.pcs[x].row.userId))
  }

  /** The refresh has read a row of this family and is about to load its owner. */
  predicate HasRead(req: Request, pc: Pc, family: Id) {
    req.op.RefreshOp? && pc.Loading? && pc.row.family == family
  }

  /** No refresh in flight has passed its checks on a token of this family. */
  ghost predicate NoneUnderwayIn(reqs: seq<Request>, g: Global, family: Id)
    requires |g.pcs| == |reqs|
  {
    forall r :: 0 <= r < |reqs| ==> !UnderwayIn(reqs[r], g.pcs[r], g.tables.users, family)
  }

  lemma ActDead(c: Config, req: Request, pc: Pc, s: Tables, t: Millis, family: Id)
    requires Dead(s.rows, family) && !MayOpen(req, pc, family) && !UnderwayIn(req, pc, s.users, family)
    ensures var (s', pc') := Act(c, req, pc, s, t);
            && Dead(s'.rows, family) && !MayOpen(req, pc', family) && !UnderwayIn(req, pc', s'.users, family)
            && !HasRead(req, pc', family)
  {
  }

  lemma TurnDead(c: Config, reqs: seq<Request>, g: Global, turn: Turn, family: Id)
    requires |g.pcs| == |reqs| && turn.who < |reqs|
    requires Dead(g.tables.rows, family) && Closed(reqs, g, family) && NoneUnderwayIn(reqs, g, family)
    ensures var g' := TakeTurn(c, reqs, g, turn);
            Dead(g'.tables.rows, family) && Closed(reqs, g', family) && NoneUnderwayIn(reqs, g', family)
  {
    var g' := TakeTurn(c, reqs, g, turn);
    ActDead(c, reqs[turn.who], g.pcs[turn.who], g.tables, turn.at, family);
    ActCreates(c, reqs[turn.who], g.pcs[turn.who], g.tables, turn.at);
    ActAccounts(c, reqs[turn.who], g.pcs[turn.who], g.tables, turn.at);
    hide Act;
    forall r | 0 <= r < |reqs| && r != turn.who ensures !UnderwayIn(reqs[r], g'.pcs[r], g'.tables.users, family) {
      assert !UnderwayIn(reqs[r], g.pcs[r], g.tables.users, family);
    }
  }

  lemma ActCreates(c: Config, req: Request, pc: Pc, s: Tables, t: Millis)
    ensures forall u: Id :: MayCreate(req, Act(c, req, pc, s, t).1, u) ==> MayCreate(req, pc, u)
  {
  }

  lemma {:induction false} DeadUnderOverlap(c: Config, reqs: seq<Request>, g: Global, schedule: seq<Turn>, family: Id)
    requires WellFormed(reqs, g, schedule) && Dead(g.tables.rows, family)
    requires Closed(reqs, g, family) && NoneUnderwayIn(reqs, g, family)
    ensures Dead(Exec(c, reqs, g, schedule).tables.rows, family)
    decreases |schedule|
  {
    if schedule != [] {
      TurnDead(c, reqs, g, schedule[0], family);
      DeadUnderOverlap(c, reqs, TakeTurn(c, reqs, g, schedule[0]), schedule[1..], family);
    }
  }

  /** A dead family stays dead under every schedule exactly when no refresh in flight is already past
      its checks on a token of that family. */
  lemma DeadForGoodIff(c: Config, reqs: seq<Request>, g: Global, family: Id, now: Millis)
    requires |g.pcs| == |reqs| && Dead(g.tables.rows, family) && Closed(reqs, g, family)
    ensures StaysDead(c, reqs, g, family, now) <==> NoneUnderwayIn(reqs, g, family)
  {
    if NoneUnderwayIn(reqs, g, family) {
      forall schedule | Feasible(reqs, g, schedule, now) ensures Dead(Exec(c, reqs, g, schedule).tables.rows, family) {
        DeadUnderOverlap(c, reqs, g, schedule, family);
      }
    } else {
      var r :| 0 <= r < |reqs| && UnderwayIn(reqs[r], g.pcs[r], g.tables.users, family);
      var schedule := RotationCompletes(c, reqs, g, r, now);
      assert Feasible(reqs, g, schedule, now) && !Dead(Exec(c, reqs, g, schedule).tables.rows, family);
    }
  }

  /** The same at a turn that only revokes and ends its request: the family is dead for good from that
      turn on exactly when it is dead then and no refresh had passed its checks on a token of it. */
  lemma TurnFinalIff(c: Config, reqs: seq<Request>, g: Global, turn: Turn, where: Where, family: Id)
    requires |g.pcs| == |reqs| && turn.who < |reqs| && Closed(reqs, g, family)
    requires !Underway(reqs[turn.who], g.pcs[turn.who], g.tables.users)
    requires TakeTurn(c, reqs, g, turn) ==
               Global(g.tables.(rows := RevokeWhere(g.tables.rows, where)), g.pcs[turn.who := Finished])
    ensures StaysDead(c, reqs, TakeTurn(c, reqs, g, turn), family, turn.at) <==>
              Dead(RevokeWhere(g.tables.rows, where), family) && NoneUnderwayIn(reqs, g, family)
  {
    hide Act;
    var g' := TakeTurn(c, reqs, g, turn);
    assert Closed(reqs, g', family);
    assert NoneUnderwayIn(reqs, g', family) <==> NoneUnderwayIn(reqs, g, family) by {
      forall r | 0 <= r < |reqs|
        ensures UnderwayIn(reqs[r], g'.pcs[r], g'.tables.users, family) <==> UnderwayIn(reqs[r], g.pcs[r], g.tables.users, family)
      {
      }
    }
    if Dead(g'.tables.rows, family) {
      DeadForGoodIff(c, reqs, g', family, turn.at);
    } else {
      assert Feasible(reqs, g', [], turn.at) && Exec(c, reqs, g', []) == g';
    }
  }

  /** Replay detection kills the family at the turn that revokes it, and that is final under overlap
      exactly when no refresh in flight had passed its checks on a token of the family before. */
  lemma ReplayFinalIff(c: Config, reqs: seq<Request>, g: Global, turn: Turn, family: Id)
    requires |g.pcs| == |reqs| && turn.who < |reqs|
    requires reqs[turn.who].op.RefreshOp? && g.pcs[turn.who] == Replaying(family) && Closed(reqs, g, family)
    ensures var g' := TakeTurn(c, reqs, g, turn);
            Dead(g'.tables.rows, family) && (StaysDead(c, reqs, g', family, turn.at) <==> NoneUnderwayIn(reqs, g, family))
  {
    TurnFinalIff(c, reqs, g, turn, ByFamily(family), family);
  }

  /** The step revokes this one row: a revocation that has found it, or a logout with its token. */
  ghost predicate RevokesRow(req: Request, pc: Pc, row: Row) {
    || (req.op.RevokeOp? && pc == Revoking(row.id))
    || (req.op.LogoutOp? && pc.Start? && Sha256(req.op.presented) == row.tokenHash && req.user == row.userId)
  }

  /** Revoking a row, or logging its token out, ends the session for good under overlap exactly when
      nothing else in its family is live and no refresh in flight had passed its checks on a token of it:
      a rotation between reading and writing leaves the session alive although the answer is success. */
  lemma RevokedFinalIff(c: Config, reqs: seq<Request>, g: Global, turn: Turn, i: nat)
    requires |g.pcs| == |reqs| && turn.who < |reqs| && i < |g.tables.rows| && Distinct(g.tables.rows)
    requires RevokesRow(reqs[turn.who], g.pcs[turn.who], g.tables.rows[i]) && Closed(reqs, g, g.tables.rows[i].family)
    ensures var rows, family := g.tables.rows, g.tables.rows[i].family;
            StaysDead(c, reqs, TakeTurn(c, reqs, g, turn), family, turn.at) <==>
            (forall j :: 0 <= j < |rows| && j != i && rows[j].family == family ==> rows[j].revoked)
            && NoneUnderwayIn(reqs, g, family)
  {
    var req, row := reqs[turn.who], g.tables.rows[i];
    var where := if req.op.RevokeOp? then ById(row.id) else ByHashAndUser(row.tokenHash, row.userId);
    var rows' := RevokeWhere(g.tables.rows, where);
    assert rows'[i].revoked;
    assert forall j :: 0 <= j < |rows'| && j != i ==> rows'[j] == g.tables.rows[j];
    assert Dead(rows', row.family) <==>
             forall j :: 0 <= j < |rows'| && j != i && g.tables.rows[j].family == row.family ==> g.tables.rows[j].revoked;
    TurnFinalIff(c, reqs, g, turn, where, row.family);
  }

  /** The converse from the start: a refresh that passes its checks before another request presents a
      revoked token of the same family revives the family that replay detection has just killed. */
  lemma ReplayOverlapRevives(c: Config, reqs: seq<Request>, g: Global, a: nat, b: nat, i: nat, k: nat, t: Millis)
    returns (killed: seq<Turn>, rest: seq<Turn>)
    requires |g.pcs| == |reqs| && a < |reqs| && b < |reqs| && a != b && g.pcs[a].Start? && g.pcs[b].Start?
    requires reqs[a].op.RefreshOp? && reqs[b].op.RefreshOp?
    requires Acceptable(g.tables, i, reqs[a].op.presented, t)
    requires k < |g.tables.rows| && FindHash(g.tables.rows, Sha256(reqs[b].op.presented)) == k
    requires g.tables.rows[k].revoked && g.tables.rows[k].family == g.tables.rows[i].family
    ensures WellFormed(reqs, g, killed) && WellFormed(reqs, Exec(c, reqs, g, killed), rest) && AllAt(killed + rest, t)
    ensures var family, g' := g.tables.rows[i].family, Exec(c, reqs, g, killed);
            Dead(g'.tables.rows, family) && !Dead(Exec(c, reqs, g', rest).tables.rows, family)
  {
    var family := g.tables.rows[i].family;
    killed := [Turn(a, t)] + ([Turn(b, t)] + ([Turn(b, t)] + []));
    ExecCons(c, reqs, g, Turn(a, t), [Turn(b, t)] + ([Turn(b, t)] + []));
    var g1 := TakeTurn(c, reqs, g, Turn(a, t));
    assert g1.tables == g.tables && g1.pcs[a] == Loading(g.tables.rows[i]) && g1.pcs[b].Start?;
    ExecCons(c, reqs, g1, Turn(b, t), [Turn(b, t)] + []);
    var g2 := TakeTurn(c, reqs, g1, Turn(b, t));
    assert g2.tables == g.tables && g2.pcs[a] == Loading(g.tables.rows[i]) && g2.pcs[b] == Replaying(family);
    ExecCons(c, reqs, g2, Turn(b, t), []);
    var g3 := TakeTurn(c, reqs, g2, Turn(b, t));
    assert g3.tables == g.tables.(rows := RevokeWhere(g.tables.rows, ByFamily(family)));
    rest := RotationCompletes(c, reqs, g3, a, t);
  }

  // ---------- the cut-off of a user ----------

  /** The step that revokes every live row of the user: the end of a password reset or change, or
      logging out everywhere. */
  ghost predicate RevokesAll(req: Request, pc: Pc, user: Id) {
    pc == Ending(user) || (req.op.LogoutAllOp? && pc.Start? && req.user == user)
  }

  /** The cut-off kills every family of the user at once, and it is final under overlap exactly when no
      refresh in flight had passed its checks on a token of one of these families before. */
  lemma CutOffFinalIff(c: Config, reqs: seq<Request>, g: Global, turn: Turn, user: Id)
    requires |g.pcs| == |reqs| && turn.who < |reqs| && RevokesAll(reqs[turn.who], g.pcs[turn.who], user)
    requires OneOwner(g.tables.rows)
    requires forall i :: 0 <= i < |g.tables.rows| ==> Closed(reqs, g, g.tables.rows[i].family)
    ensures var rows, g' := g.tables.rows, TakeTurn(c, reqs, g, turn);
            && (forall i :: 0 <= i < |rows| && rows[i].userId == user ==> Dead(g'.tables.rows, rows[i].family))
            && ((forall i :: 0 <= i < |rows| && rows[i].userId == user ==> StaysDead(c, reqs, g', rows[i].family, turn.at)) <==>
                (forall i :: 0 <= i < |rows| && rows[i].userId == user ==> NoneUnderwayIn(reqs, g, rows[i].family)))
  {
    var rows, g' := g.tables.rows, TakeTurn(c, reqs, g, turn);
    CutOffTurn(c, reqs, g, turn, user);
    forall i | 0 <= i < |rows| && rows[i].userId == user
      ensures Dead(g'.tables.rows, rows[i].family)
      ensures StaysDead(c, reqs, g', rows[i].family, turn.at) <==> NoneUnderwayIn(reqs, g, rows[i].family)
    {
      TurnFinalIff(c, reqs, g, turn, LiveOfUser(user), rows[i].family);
    }
  }

  lemma CutOffTurn(c: Config, reqs: seq<Request>, g: Global, turn: Turn, user: Id)
    requires |g.pcs| == |reqs| && turn.who < |reqs| && RevokesAll(reqs[turn.who], g.pcs[turn.who], user)
    ensures TakeTurn(c, reqs, g, turn) ==
              Global(g.tables.(rows := RevokeWhere(g.tables.rows, LiveOfUser(user))), g.pcs[turn.who := Finished])
    ensures !Underway(reqs[turn.who], g.pcs[turn.who], g.tables.users)
  {
  }

  // ---------- what a cut-off leaves to the logins in flight ----------

  /** The families of logins and registrations that have yet to check their credentials. */
  ghost function YetToCheck(reqs: seq<Request>, g: Global): set<Id>
    requires |g.pcs| == |reqs|
  {
    set r | 0 <= r < |reqs| && Enters(reqs[r]) && (g.pcs[r].Start? || g.pcs[r].Creating?) :: reqs[r].op.family
  }

  /** From here on every live session of the user is one of these families. */
  ghost predicate OnlyLive(c: Config, reqs: seq<Request>, g: Global, user: Id, families: set<Id>, now: Millis) {
    forall schedule :: Feasible(reqs, g, schedule, now) ==> LiveIn(Exec(c, reqs, g, schedule).tables.rows, user, families)
  }

  ghost predicate LiveIn(rows: Table, user: Id, families: set<Id>) {
    forall i :: 0 <= i < |rows| && rows[i].userId == user && !rows[i].revoked ==> rows[i].family in families
  }

  /** The request is about to save a live row for the user, in another family than these: a login that
      has checked its credentials, or a refresh past its checks. */
  ghost predicate Escapes(req: Request, pc: Pc, users: seq<User>, user: Id, families: set<Id>) {
    || (Enters(req) && pc == Opening(user) && req.op.family !in families)
    || (Underway(req, pc, users) && pc.row.userId == user && pc.row.family !in families)
  }

  ghost predicate NoneEscapes(reqs: seq<Request>, g: Global, user: Id, families: set<Id>)
    requires |g.pcs| == |reqs|
  {
    forall r :: 0 <= r < |reqs| ==> !Escapes(reqs[r], g.pcs[r], g.tables.users, user, families)
  }

  lemma ActConfined(c: Config, req: Request, pc: Pc, s: Tables, t: Millis, user: Id, families: set<Id>)
    requires LiveIn(s.rows, user, families) && !Escapes(req, pc, s.users, user, families)
    requires Enters(req) && (pc.Start? || pc.Creating?) ==> req.op.family in families
    ensures var (s', pc') := Act(c, req, pc, s, t);
            LiveIn(s'.rows, user, families) && !Escapes(req, pc', s'.users, user, families)
  {
  }

  lemma {:induction false} Confined(c: Config, reqs: seq<Request>, g: Global, schedule: seq<Turn>, user: Id, families: set<Id>)
    requires WellFormed(reqs, g, schedule) && FindUser(g.tables.users, user) >= 0
    requires LiveIn(g.tables.rows, user, families) && NoneEscapes(reqs, g, user, families) && YetToCheck(reqs, g) <= families
    ensures LiveIn(Exec(c, reqs, g, schedule).tables.rows, user, families)
    decreases |schedule|
  {
    if schedule != [] {
      var turn := schedule[0];
      var req, pc := reqs[turn.who], g.pcs[turn.who];
      var g' := TakeTurn(c, reqs, g, turn);
      if Enters(req) && (pc.Start? || pc.Creating?) { assert req.op.family in YetToCheck(reqs, g); }
      ActConfined(c, req, pc, g.tables, turn.at, user, families);
      ActAccounts(c, req, pc, g.tables, turn.at);
      YetToCheckShrinks(c, reqs, g, turn);
      forall r | 0 <= r < |reqs| ensures !Escapes(reqs[r], g'.pcs[r], g'.tables.users, user, families) {
        if r != turn.who { assert !Escapes(reqs[r], g.pcs[r], g.tables.users, user, families); }
      }
      Confined(c, reqs, g', schedule[1..], user, families);
    }
  }

  lemma YetToCheckShrinks(c: Config, reqs: seq<Request>, g: Global, turn: Turn)
    requires |g.pcs| == |reqs| && turn.who < |reqs|
    ensures YetToCheck(reqs, TakeTurn(c, reqs, g, turn)) <= YetToCheck(reqs, g)
  {
    var g' := TakeTurn(c, reqs, g, turn);
    forall f | f in YetToCheck(reqs, g') ensures f in YetToCheck(reqs, g) {
      var r :| 0 <= r < |reqs| && Enters(reqs[r]) && (g'.pcs[r].Start? || g'.pcs[r].Creating?) && reqs[r].op.family == f;
      assert g.pcs[r].Start? || g.pcs[r].Creating?;
    }
  }

  /** A cut-off leaves the user only sessions whose login checks the credentials afterwards, under every
      schedule, exactly when no login in flight has checked them already and not yet saved its row, and
      no refresh of the user is past its checks. A login that has checked the old password opens a
      session that survives the change of it. */
  lemma CutOffConfinesIff(c: Config, reqs: seq<Request>, g: Global, turn: Turn, user: Id)
    requires |g.pcs| == |reqs| && turn.who < |reqs| && RevokesAll(reqs[turn.who], g.pcs[turn.who], user)
    requires FindUser(g.tables.users, user) >= 0
    ensures OnlyLive(c, reqs, TakeTurn(c, reqs, g, turn), user, YetToCheck(reqs, g), turn.at) <==>
              NoneEscapes(reqs, g, user, YetToCheck(reqs, g))
  {
    var families, g' := YetToCheck(reqs, g), TakeTurn(c, reqs, g, turn);
    CutOffTurn(c, reqs, g, turn, user);
    YetToCheckShrinks(c, reqs, g, turn);
    hide Act, TakeTurn;
    forall r | 0 <= r < |reqs|
      ensures Escapes(reqs[r], g'.pcs[r], g'.tables.users, user, families) <==> Escapes(reqs[r], g.pcs[r], g.tables.users, user, families)
    {
    }
    if NoneEscapes(reqs, g, user, families) {
      forall schedule | Feasible(reqs, g', schedule, turn.at)
        ensures LiveIn(Exec(c, reqs, g', schedule).tables.rows, user, families)
      {
        Confined(c, reqs, g', schedule, user, families);
      }
    } else {
      var r :| 0 <= r < |reqs| && Escapes(reqs[r], g'.pcs[r], g'.tables.users, user, families);
      var schedule := EscapeCompletes(c, reqs, g', r, user, families, turn.at);
      assert Feasible(reqs, g', schedule, turn.at) && !LiveIn(Exec(c, reqs, g', schedule).tables.rows, user, families);
    }
  }

  lemma EscapeCompletes(c: Config, reqs: seq<Request>, g: Global, who: nat, user: Id, families: set<Id>, t: Millis)
    returns (schedule: seq<Turn>)
    requires |g.pcs| == |reqs| && who < |reqs| && Escapes(reqs[who], g.pcs[who], g.tables.users, user, families)
    ensures WellFormed(reqs, g, schedule) && AllAt(schedule, t)
    ensures !LiveIn(Exec(c, reqs, g, schedule).tables.rows, user, families)
  {
    if Enters(reqs[who]) {
      schedule := [Turn(who, t)] + [];
      ExecCons(c, reqs, g, Turn(who, t), []);
      var rows' := TakeTurn(c, reqs, g, Turn(who, t)).tables.rows;
      assert rows'[|g.tables.rows|].userId == user && !rows'[|g.tables.rows|].revoked;
    } else {
      schedule := RotationCompletes(c, reqs, g, who, t);
    }
  }

  // ---------- a reset token ----------

  /** The step sets a password with this reset token. */
  predicate SetsWith(req: Request, pc: Pc, raw: Id) {
    req.op.ResetOp? && pc.Setting? && pc.record.tokenHash == Sha256(raw)
  }

  /** How often a schedule sets a password with this reset token. */
  function Sets(c: Config, reqs: seq<Request>, g: Global, schedule: seq<Turn>, raw: Id): nat
    requires WellFormed(reqs, g, schedule)
    decreases |schedule|
  {
    if schedule == [] then 0
    else
      (if SetsWith(reqs[schedule[0].who], g.pcs[schedule[0].who], raw) then 1 else 0)
      + Sets(c, reqs, TakeTurn(c, reqs, g, schedule[0]), schedule[1..], raw)
  }

  /** The token would be accepted at clock reading `t`. */
  ghost predicate Usable(resets: seq<AuthToken>, raw: Id, t: Millis) {
    var at := FindAuthToken(resets, Sha256(raw), PasswordReset);
    at >= 0 && !resets[at].used && t <= resets[at].expiresAt
  }

  /** The token is used, past its expiry or unknown, and no request in flight is about to draw it. */
  ghost predicate Spent(reqs: seq<Request>, g: Global, raw: Id, now: Millis)
    requires |g.pcs| == |reqs|
  {
    && !Usable(g.tables.resets, raw, now)
    && forall r :: 0 <= r < |reqs| ==> !DrawsReset(reqs[r], g.pcs[r], raw)
  }

  predicate DrawsReset(req: Request, pc: Pc, raw: Id) {
    req.op.ForgotOp? && pc.Start? && req.op.raw == raw
  }

  /** The request can still set a password with the token: it has read an unused record of it, or
      (`readers`) it has not looked yet. */
  predicate MaySet(req: Request, pc: Pc, raw: Id, readers: bool) {
    SetsWith(req, pc, raw) || (readers && req.op.ResetOp? && pc.Start? && req.op.presented == raw)
  }

  function Holders(reqs: seq<Request>, pcs: seq<Pc>, raw: Id, readers: bool): nat
    requires |reqs| == |pcs|
  {
    if reqs == [] then 0
    else
      var n := |reqs| - 1;
      Holders(reqs[..n], pcs[..n], raw, readers) + (if MaySet(reqs[n], pcs[n], raw, readers) then 1 else 0)
  }

  lemma {:induction false} HoldersUpdate(reqs: seq<Request>, pcs: seq<Pc>, who: nat, pc: Pc, raw: Id, readers: bool)
    requires |reqs| == |pcs| && who < |reqs|
    ensures Holders(reqs, pcs[who := pc], raw, readers) + (if MaySet(reqs[who], pcs[who], raw, readers) then 1 else 0)
              == Holders(reqs, pcs, raw, readers) + (if MaySet(reqs[who], pc, raw, readers) then 1 else 0)
  {
    var n := |reqs| - 1;
    if who == n {
      assert pcs[who := pc][..n] == pcs[..n];
    } else {
      HoldersUpdate(reqs[..n], pcs[..n], who, pc, raw, readers);
      assert pcs[who := pc][..n] == pcs[..n][who := pc];
    }
  }

  lemma {:induction false} NoHolders(reqs: seq<Request>, pcs: seq<Pc>, raw: Id, readers: bool)
    requires |reqs| == |pcs|
    ensures Holders(reqs, pcs, raw, readers) == 0 <==> forall r :: 0 <= r < |reqs| ==> !MaySet(reqs[r], pcs[r], raw, readers)
  {
    if reqs != [] {
      var n := |reqs| - 1;
      NoHolders(reqs[..n], pcs[..n], raw, readers);
      if forall r :: 0 <= r < n ==> !MaySet(reqs[..n][r], pcs[..n][r], raw, readers) {
        assert forall r :: 0 <= r < n ==> reqs[..n][r] == reqs[r] && pcs[..n][r] == pcs[r];
      }
    }
  }

  lemma ActHolds(c: Config, req: Request, pc: Pc, s: Tables, t: Millis, raw: Id, readers: bool)
    requires readers || !Usable(s.resets, raw, t)
    ensures var pc' := Act(c, req, pc, s, t).1;
            && (MaySet(req, pc', raw, readers) ==> MaySet(req, pc, raw, readers))
            && (SetsWith(req, pc, raw) ==> !MaySet(req, pc', raw, readers))
  {
  }

  lemma {:induction false} FindMarked(tokens: seq<AuthToken>, id: Id, h: TokenHash, kind: AuthTokenType)
    ensures FindAuthToken(MarkUsed(tokens, id), h, kind) == FindAuthToken(tokens, h, kind)
  {
    if tokens != [] {
      FindMarked(tokens[..|tokens| - 1], id, h, kind);
      assert MarkUsed(tokens, id)[..|tokens| - 1] == MarkUsed(tokens[..|tokens| - 1], id);
    }
  }

  lemma ActSpent(c: Config, req: Request, pc: Pc, s: Tables, t: Millis, raw: Id, now: Millis)
    requires now <= t && !Usable(s.resets, raw, now) && !DrawsReset(req, pc, raw)
    ensures !Usable(Act(c, req, pc, s, t).0.resets, raw, t) && !DrawsReset(req, Act(c, req, pc, s, t).1, raw)
  {
    ActResets(c, req, pc, s, t);
    if req.op.ForgotOp? && pc.Start? {
      var at := FindByEmail(s.users, req.op.email);
      if at >= 0 {
        FindTokenAppend(s.resets, AuthToken(req.op.id, s.users[at].id, Sha256(req.op.raw), PasswordReset, false,
                                            t + RESET_TTL_MILLIS, t), Sha256(raw), PasswordReset);
      }
    } else if req.op.ResetOp? && pc.Marking? {
      FindMarked(s.resets, pc.record.id, Sha256(raw), PasswordReset);
    }
  }

  /** No schedule sets a password with the token more often than there are requests holding it. */
  lemma {:induction false} SetsAtMostHolders(
      c: Config, reqs: seq<Request>, g: Global, schedule: seq<Turn>, raw: Id, readers: bool, now: Millis)
    requires Feasible(reqs, g, schedule, now) && (readers || Spent(reqs, g, raw, now))
    ensures Sets(c, reqs, g, schedule, raw) <= Holders(reqs, g.pcs, raw, readers)
    decreases |schedule|
  {
    if schedule != [] {
      var turn := schedule[0];
      var req, pc, g' := reqs[turn.who], g.pcs[turn.who], TakeTurn(c, reqs, g, turn);
      TimelyTail(schedule, now);
      ActHolds(c, req, pc, g.tables, turn.at, raw, readers);
      if !readers { ActSpent(c, req, pc, g.tables, turn.at, raw, now); }
      HoldersUpdate(reqs, g.pcs, turn.who, g'.pcs[turn.who], raw, readers);
      SetsAtMostHolders(c, reqs, g', schedule[1..], raw, readers, turn.at);
    }
  }

  lemma SetsCons(c: Config, reqs: seq<Request>, g: Global, turn: Turn, rest: seq<Turn>, raw: Id)
    requires |g.pcs| == |reqs| && turn.who < |reqs| && WellFormed(reqs, TakeTurn(c, reqs, g, turn), rest)
    ensures WellFormed(reqs, g, [turn] + rest)
    ensures Sets(c, reqs, g, [turn] + rest, raw) ==
              (if SetsWith(reqs[turn.who], g.pcs[turn.who], raw) then 1 else 0) + Sets(c, reqs, TakeTurn(c, reqs, g, turn), rest, raw)
  {
    assert ([turn] + rest)[0] == turn && ([turn] + rest)[1..] == rest;
  }

  /** Letting each request from index `n` on that has read an unused record take one step. */
  lemma {:induction false} AllSet(c: Config, reqs: seq<Request>, g: Global, raw: Id, t: Millis, n: nat)
    returns (schedule: seq<Turn>)
    requires |g.pcs| == |reqs| && n <= |reqs|
    requires forall r :: 0 <= r < n ==> !SetsWith(reqs[r], g.pcs[r], raw)
    ensures WellFormed(reqs, g, schedule) && AllAt(schedule, t)
    ensures Sets(c, reqs, g, schedule, raw) == Holders(reqs, g.pcs, raw, false)
    decreases |reqs| - n
  {
    if n == |reqs| {
      NoHolders(reqs, g.pcs, raw, false);
      schedule := [];
    } else if SetsWith(reqs[n], g.pcs[n], raw) {
      var g' := TakeTurn(c, reqs, g, Turn(n, t));
      HoldersUpdate(reqs, g.pcs, n, g'.pcs[n], raw, false);
      var rest := AllSet(c, reqs, g', raw, t, n + 1);
      SetsCons(c, reqs, g, Turn(n, t), rest, raw);
      schedule := [Turn(n, t)] + rest;
    } else {
      schedule := AllSet(c, reqs, g, raw, t, n + 1);
    }
  }

  lemma {:induction false} HoldersAgree(reqs: seq<Request>, pcs: seq<Pc>, raw: Id)
    requires |reqs| == |pcs|
    requires forall r :: 0 <= r < |reqs| ==> (MaySet(reqs[r], pcs[r], raw, true) ==> SetsWith(reqs[r], pcs[r], raw))
    ensures Holders(reqs, pcs, raw, true) == Holders(reqs, pcs, raw, false)
  {
    if reqs != [] {
      var n := |reqs| - 1;
      assert forall r :: 0 <= r < n ==> reqs[..n][r] == reqs[r] && pcs[..n][r] == pcs[r];
      HoldersAgree(reqs[..n], pcs[..n], raw);
    }
  }

  /** First each request presenting the usable token reads its record, then each sets the password. */
  lemma {:induction false} AllReadThenSet(c: Config, reqs: seq<Request>, g: Global, raw: Id, t: Millis, n: nat)
    returns (schedule: seq<Turn>)
    requires |g.pcs| == |reqs| && n <= |reqs| && Usable(g.tables.resets, raw, t)
    requires forall r :: 0 <= r < n ==> (MaySet(reqs[r], g.pcs[r], raw, true) ==> SetsWith(reqs[r], g.pcs[r], raw))
    ensures WellFormed(reqs, g, schedule) && AllAt(schedule, t)
    ensures Sets(c, reqs, g, schedule, raw) == Holders(reqs, g.pcs, raw, true)
    decreases |reqs| - n
  {
    if n == |reqs| {
      HoldersAgree(reqs, g.pcs, raw);
      schedule := AllSet(c, reqs, g, raw, t, 0);
    } else if MaySet(reqs[n], g.pcs[n], raw, true) && !SetsWith(reqs[n], g.pcs[n], raw) {
      var g' := TakeTurn(c, reqs, g, Turn(n, t));
      assert g'.tables == g.tables && SetsWith(reqs[n], g'.pcs[n], raw);
      HoldersUpdate(reqs, g.pcs, n, g'.pcs[n], raw, true);
      var rest := AllReadThenSet(c, reqs, g', raw, t, n + 1);
      SetsCons(c, reqs, g, Turn(n, t), rest, raw);
      schedule := [Turn(n, t)] + rest;
    } else {
      schedule := AllReadThenSet(c, reqs, g, raw, t, n + 1);
    }
  }

  /** `n` is the largest number of times any schedule sets a password with the token. */
  ghost predicate MostSets(c: Config, reqs: seq<Request>, g: Global, raw: Id, n: nat, now: Millis) {
    && (forall schedule :: Feasible(reqs, g, schedule, now) ==> Sets(c, reqs, g, schedule, raw) <= n)
    && (exists schedule :: Feasible(reqs, g, schedule, now) && Sets(c, reqs, g, schedule, raw) == n)
  }

  /** Under overlap a usable reset token can succeed exactly as often as there are requests in flight
      that present it and have not yet used it. */
  lemma UsableTokenSuccesses(c: Config, reqs: seq<Request>, g: Global, raw: Id, now: Millis)
    requires |g.pcs| == |reqs| && Usable(g.tables.resets, raw, now)
    ensures MostSets(c, reqs, g, raw, Holders(reqs, g.pcs, raw, true), now)
  {
    forall schedule | Feasible(reqs, g, schedule, now)
      ensures Sets(c, reqs, g, schedule, raw) <= Holders(reqs, g.pcs, raw, true)
    {
      SetsAtMostHolders(c, reqs, g, schedule, raw, true, now);
    }
    var schedule := AllReadThenSet(c, reqs, g, raw, now, 0);
    assert Feasible(reqs, g, schedule, now) && Sets(c, reqs, g, schedule, raw) == Holders(reqs, g.pcs, raw, true);
  }

  /** A spent token can still succeed exactly as often as there are requests that read it before. */
  lemma SpentTokenSuccesses(c: Config, reqs: seq<Request>, g: Global, raw: Id, now: Millis)
    requires |g.pcs| == |reqs| && Spent(reqs, g, raw, now)
    ensures MostSets(c, reqs, g, raw, Holders(reqs, g.pcs, raw, false), now)
  {
    forall schedule | Feasible(reqs, g, schedule, now)
      ensures Sets(c, reqs, g, schedule, raw) <= Holders(reqs, g.pcs, raw, false)
    {
      SetsAtMostHolders(c, reqs, g, schedule, raw, false, now);
    }
    var schedule := AllSet(c, reqs, g, raw, now, 0);
    assert Feasible(reqs, g, schedule, now) && Sets(c, reqs, g, schedule, raw) == Holders(reqs, g.pcs, raw, false);
  }

  /** A spent token never sets a password again, under any schedule, exactly when no reset in flight
      has already read it as usable. */
  lemma SpentForGoodIff(c: Config, reqs: seq<Request>, g: Global, raw: Id, now: Millis)
    requires |g.pcs| == |reqs| && Spent(reqs, g, raw, now)
    ensures NeverSets(c, reqs, g, raw, now) <==> forall r :: 0 <= r < |reqs| ==> !SetsWith(reqs[r], g.pcs[r], raw)
  {
    SpentTokenSuccesses(c, reqs, g, raw, now);
    NoHolders(reqs, g.pcs, raw, false);
    if forall r :: 0 <= r < |reqs| ==> !SetsWith(reqs[r], g.pcs[r], raw) {
      assert forall r :: 0 <= r < |reqs| ==> !MaySet(reqs[r], g.pcs[r], raw, false);
    } else {
      var r :| 0 <= r < |reqs| && SetsWith(reqs[r], g.pcs[r], raw);
      assert MaySet(reqs[r], g.pcs[r], raw, false);
    }
  }

  ghost predicate NeverSets(c: Config, reqs: seq<Request>, g: Global, raw: Id, now: Millis) {
    forall schedule :: Feasible(reqs, g, schedule, now) ==> Sets(c, reqs, g, schedule, raw) == 0
  }

  /** A usable token is single-use under every schedule exactly when at most one request in flight
      holds it. */
  lemma SingleUseIff(c: Config, reqs: seq<Request>, g: Global, raw: Id, now: Millis)
    requires |g.pcs| == |reqs| && Usable(g.tables.resets, raw, now)
    ensures (forall schedule :: Feasible(reqs, g, schedule, now) ==> Sets(c, reqs, g, schedule, raw) <= 1) <==>
            Holders(reqs, g.pcs, raw, true) <= 1
  {
    UsableTokenSuccesses(c, reqs, g, raw, now);
  }

  /** The turn marks the record at this index used; it is the only record of the token, and no request in
      flight is about to draw the token. */
  ghost predicate Marks(reqs: seq<Request>, g: Global, turn: Turn, at: nat, raw: Id)
    requires |g.pcs| == |reqs|
  {
    && turn.who < |reqs| && reqs[turn.who].op.ResetOp? && g.pcs[turn.who].Marking?
    && at < |g.tables.resets| && g.tables.resets[at].id == g.pcs[turn.who].record.id
    && g.tables.resets[at].tokenHash == Sha256(raw)
    && (forall i :: 0 <= i < |g.tables.resets| && i != at ==> g.tables.resets[i].tokenHash != Sha256(raw))
    && (forall r :: 0 <= r < |reqs| ==> !DrawsReset(reqs[r], g.pcs[r], raw))
  }

  /** The step that marks a token used spends it. */
  lemma MarkingSpends(c: Config, reqs: seq<Request>, g: Global, turn: Turn, at: nat, raw: Id)
    requires |g.pcs| == |reqs| && Marks(reqs, g, turn, at, raw)
    ensures Spent(reqs, TakeTurn(c, reqs, g, turn), raw, turn.at)
  {
    FindMarked(g.tables.resets, g.pcs[turn.who].record.id, Sha256(raw), PasswordReset);
  }

  /** So it is final exactly when no other reset in flight has already read the token as usable. */
  lemma MarkingFinalIff(c: Config, reqs: seq<Request>, g: Global, turn: Turn, at: nat, raw: Id)
    requires |g.pcs| == |reqs| && Marks(reqs, g, turn, at, raw)
    ensures NeverSets(c, reqs, TakeTurn(c, reqs, g, turn), raw, turn.at) <==>
              forall r :: 0 <= r < |reqs| ==> !SetsWith(reqs[r], g.pcs[r], raw)
  {
    var g' := TakeTurn(c, reqs, g, turn);
    MarkingSpends(c, reqs, g, turn, at, raw);
    SpentForGoodIff(c, reqs, g', raw, turn.at);
    assert forall r :: 0 <= r < |reqs| ==> (SetsWith(reqs[r], g'.pcs[r], raw) <==> SetsWith(reqs[r], g.pcs[r], raw));
  }

  /** Two overlapping resets that read one unused token, wherever they stand among the requests in
      flight, both set the password. */
  lemma OverlapResetsTwice(c: Config, reqs: seq<Request>, g: Global, a: nat, b: nat, at: nat, t: Millis)
    returns (first: seq<Turn>, second: seq<Turn>)
    requires |g.pcs| == |reqs| && a < |reqs| && b < |reqs| && a != b && g.pcs[a].Start? && g.pcs[b].Start?
    requires reqs[a].op.ResetOp? && reqs[b].op.ResetOp? && reqs[a].op.presented == reqs[b].op.presented
    requires at < |g.tables.resets| && FindAuthToken(g.tables.resets, Sha256(reqs[a].op.presented), PasswordReset) == at
    requires !g.tables.resets[at].used && t <= g.tables.resets[at].expiresAt
    requires Account(g.tables.users, g.tables.resets[at].userId).Some?
    ensures WellFormed(reqs, g, first) && WellFormed(reqs, Exec(c, reqs, g, first), second) && AllAt(first + second, t)
    ensures var user, g' := g.tables.resets[at].userId, Exec(c, reqs, g, first);
            && Account(g'.tables.users, user).Some?
            && Account(g'.tables.users, user).value.passwordHash == Argon2(reqs[a].op.newPassword)
            && Account(Exec(c, reqs, g', second).tables.users, user).Some?
            && Account(Exec(c, reqs, g', second).tables.users, user).value.passwordHash == Argon2(reqs[b].op.newPassword)
  {
    hide FindUser, FindAuthToken, SetPassword, Account;
    var record := g.tables.resets[at];
    first := [Turn(a, t)] + ([Turn(b, t)] + ([Turn(a, t)] + []));
    ExecCons(c, reqs, g, Turn(a, t), [Turn(b, t)] + ([Turn(a, t)] + []));
    var g1 := TakeTurn(c, reqs, g, Turn(a, t));
    ExecCons(c, reqs, g1, Turn(b, t), [Turn(a, t)] + []);
    var g2 := TakeTurn(c, reqs, g1, Turn(b, t));
    assert g2.tables == g.tables && g2.pcs[a] == Setting(record) && g2.pcs[b] == Setting(record);
    ExecCons(c, reqs, g2, Turn(a, t), []);
    var g3 := TakeTurn(c, reqs, g2, Turn(a, t));
    AccountSetPassword(g.tables.users, record.userId, Argon2(reqs[a].op.newPassword), record.userId);
    second := [Turn(b, t)] + [];
    ExecCons(c, reqs, g3, Turn(b, t), []);
    AccountSetPassword(g3.tables.users, record.userId, Argon2(reqs[b].op.newPassword), record.userId);
  }
}
