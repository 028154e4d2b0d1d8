/** When overlapping requests fork a family, leaving two live rows in it: the exact condition on the
    requests in flight, over all schedules. */
module Forks {
  import opened Basics
  import opened RefreshTable
  import opened Email
  import opened World
  import opened Interleaving
  import opened Overlap

  // ---------- which tokens can come to be live ----------

  /** Tokens that are live and not past their expiry. */
  ghost function LiveTokens(g: Global, now: Millis): set<Id> {
    set i | 0 <= i < |g.tables.rows| && !g.tables.rows[i].revoked && now <= g.tables.rows[i].expiresAt
      :: g.tables.rows[i].tokenHash.raw
  }

  /** With the accounts as they are, this login or registration can get as far as saving its row. */
  predicate CanOpen(req: Request, pc: Pc, users: seq<User>) {
    match req.op
    case LoginOp(email, password, _, _, _, _) => pc.Opening? || (pc.Start? && Admits(users, email, password))
    case RegisterOp(email, _, _, _, _, _) =>
      pc.Opening? || ((pc.Start? || pc.Creating?) && FindByEmail(users, email) < 0 && !HasAccount(users, req.user))
    case _ => false
  }

  ghost function OpenTokens(reqs: seq<Request>, g: Global): set<Id>
    requires |g.pcs| == |reqs|
  {
    set r | 0 <= r < |reqs| && Enters(reqs[r]) && CanOpen(reqs[r], g.pcs[r], g.tables.users) :: reqs[r].op.raw
  }

  /** A token is not past its expiry at the moment it is drawn. */
  predicate Lasting(c: Config) {
    RefreshTtlMillis(c) >= 0
  }

  /** Tokens that can come to be live and unexpired by at most `n` rotations. */
  ghost function Reach(c: Config, reqs: seq<Request>, g: Global, now: Millis, n: nat): set<Id>
    requires |g.pcs| == |reqs|
  {
    if !Lasting(c) then LiveTokens(g, now)
    else if n == 0 then LiveTokens(g, now) + OpenTokens(reqs, g)
    else
      var before := Reach(c, reqs, g, now, n - 1);
      before + set r | 0 <= r < |reqs| && reqs[r].op.RefreshOp? && reqs[r].op.presented in before :: reqs[r].op.raw
  }

  /** The requests in flight, the state from which they overlap, and the moment. */
  datatype Scene = Scene(c: Config, reqs: seq<Request>, g: Global, now: Millis)

  type Outset = o: Scene | |o.g.pcs| == |o.reqs|
    witness Scene(Config(900, 7), [], Global(Tables([], [], []), []), 0)

  ghost predicate Reached(o: Outset, raw: Id, n: nat) {
    raw in Reach(o.c, o.reqs, o.g, o.now, n)
  }

  ghost predicate CanBeLive(o: Outset, raw: Id) {
    exists n: nat :: Reached(o, raw, n)
  }

  /** Requests `a` and `b` are refreshes that present one token which can come to be live. */
  ghost predicate Compete(o: Outset, a: nat, b: nat) {
    && a < |o.reqs| && b < |o.reqs| && a != b
    && o.reqs[a].op.RefreshOp? && o.reqs[b].op.RefreshOp? && o.reqs[a].op.presented == o.reqs[b].op.presented
    && CanBeLive(o, o.reqs[a].op.presented)
  }

  ghost predicate NoneCompete(o: Outset) {
    forall a: nat, b: nat :: !Compete(o, a, b)
  }

  lemma DrawnCanBeLive(o: Outset, r: nat)
    requires Lasting(o.c)
    requires r < |o.reqs| && o.reqs[r].op.RefreshOp? && CanBeLive(o, o.reqs[r].op.presented)
    ensures CanBeLive(o, o.reqs[r].op.raw)
  {
    var n: nat :| Reached(o, o.reqs[r].op.presented, n);
    assert Reached(o, o.reqs[r].op.raw, n + 1);
  }

  // ---------- credentials in flight ----------

  /** The request is about to set the password this login presents, or to switch an account on. */
  predicate Enables(req: Request, login: Request)
    requires login.op.LoginOp?
  {
    match req.op
    case RegisterOp(_, password, _, _, _, _) => password == login.op.password
    case ResetOp(_, newPassword) => newPassword == login.op.password
    case ChangeOp(_, newPassword) => newPassword == login.op.password
    case SwitchOp(active) => active
    case _ => false
  }

  /** Some refresh in flight presents this token. */
  ghost predicate Presented(reqs: seq<Request>, raw: Id) {
    exists q :: 0 <= q < |reqs| && reqs[q].op.RefreshOp? && reqs[q].op.presented == raw
  }

  /** A login or registration whose token a refresh in flight presents already. */
  ghost predicate PresentedEarly(reqs: seq<Request>, r: nat)
    requires r < |reqs|
  {
    Enters(reqs[r]) && Presented(reqs, reqs[r].op.raw)
  }

  /** A login that has yet to check its credentials, and whose token a refresh in flight presents already. */
  ghost predicate Anticipated(reqs: seq<Request>, g: Global, r: nat)
    requires |g.pcs| == |reqs| && r < |reqs|
  {
    reqs[r].op.LoginOp? && g.pcs[r].Start? && Presented(reqs, reqs[r].op.raw)
  }

  /** The credentials of such a login are valid already, or no request in flight is about to make them so. */
  ghost predicate Settled(reqs: seq<Request>, g: Global)
    requires |g.pcs| == |reqs|
  {
    forall r, d :: 0 <= r < |reqs| && 0 <= d < |reqs| && Anticipated(reqs, g, r) && Enables(reqs[d], reqs[r]) ==>
      Admits(g.tables.users, reqs[r].op.email, reqs[r].op.password)
  }

  /** A step that enables no credentials makes none valid. */
  lemma ActAdmits(c: Config, req: Request, pc: Pc, s: Tables, t: Millis, login: Request)
    requires login.op.LoginOp? && !Enables(req, login)
    ensures Admits(Act(c, req, pc, s, t).0.users, login.op.email, login.op.password) ==>
              Admits(s.users, login.op.email, login.op.password)
  {
    hide Act, FindEmail;
    ActUsers(c, req, pc, s, t);
    var users' := Act(c, req, pc, s, t).0.users;
    if SameUsers(s.users, users') {
      SameEmails(s.users, users', Normalise(login.op.email));
    } else {
      FindEmailAdded(s.users, users'[|s.users|], Normalise(login.op.email));
    }
  }

  // ---------- without competitors no schedule forks a family ----------

  /** The refresh has passed its checks and has not saved its row yet. */
  predicate PastChecks(req: Request, pc: Pc) {
    req.op.RefreshOp? && (pc.Loading? || pc.Rotating? || pc.Saving?)
  }

  /** What a refresh past its checks knows: its token can be live, and nothing else in its family is. */
  ghost predicate Sovereign(o: Outset, req: Request, pc: Pc, s: Tables) {
    PastChecks(req, pc) ==>
      && Known(s.rows, pc.row.family) && HasAccount(s.users, pc.row.userId)
      && CanBeLive(o, req.op.presented)
      && (forall i :: 0 <= i < |s.rows| && s.rows[i].family == pc.row.family && !s.rows[i].revoked ==>
            s.rows[i].id == pc.row.id && s.rows[i].tokenHash == Sha256(req.op.presented))
      && (pc.Saving? ==> Dead(s.rows, pc.row.family))
  }

  /** Every presented token of a live row that is not past its expiry can be live. */
  ghost predicate LiveReachable(o: Outset, rows: Table, now: Millis) {
    forall i :: 0 <= i < |rows| && !rows[i].revoked && now <= rows[i].expiresAt && Presented(o.reqs, rows[i].tokenHash.raw) ==>
      CanBeLive(o, rows[i].tokenHash.raw)
  }

  /** Every row, and every login that has checked its credentials, belongs to an account. */
  ghost predicate Anchored(g: Global) {
    && (forall i :: 0 <= i < |g.tables.rows| ==> HasAccount(g.tables.users, g.tables.rows[i].userId))
    && (forall r :: 0 <= r < |g.pcs| && g.pcs[r].Opening? ==> HasAccount(g.tables.users, g.pcs[r].user))
  }

  /** No two refreshes are past their checks in one family. */
  ghost predicate Separate(reqs: seq<Request>, g: Global)
    requires |g.pcs| == |reqs|
  {
    forall a, b :: 0 <= a < b < |reqs| && PastChecks(reqs[a], g.pcs[a]) && PastChecks(reqs[b], g.pcs[b]) ==>
      g.pcs[a].row.family != g.pcs[b].row.family
  }

  /** A login or registration that can open its family now, and whose token is presented, could at the
      outset. */
  ghost predicate Foreseen(o: Outset, g: Global)
    requires |o.reqs| == |g.pcs|
  {
    && (forall r :: 0 <= r < |o.reqs| && PresentedEarly(o.reqs, r) && CanOpen(o.reqs[r], g.pcs[r], g.tables.users) ==>
          CanOpen(o.reqs[r], o.g.pcs[r], o.g.tables.users))
    && (forall r :: 0 <= r < |o.reqs| && g.pcs[r].Start? ==> o.g.pcs[r].Start?)
  }

  ghost predicate Unforked(o: Outset, g: Global, now: Millis) {
    && |g.pcs| == |o.reqs| && Chain(g.tables.rows) && OpeningsFresh(o.reqs, g) && Anchored(g)
    && LiveReachable(o, g.tables.rows, now) && Foreseen(o, g)
    && (forall r :: 0 <= r < |o.reqs| ==> Sovereign(o, o.reqs[r], g.pcs[r], g.tables))
    && Separate(o.reqs, g)
  }

  lemma SavedIsKnown(rows: Table, rows': Table, family: Id)
    requires Extends(rows, rows') && Known(rows, family)
    ensures Known(rows', family)
  {
    var i :| 0 <= i < |rows| && rows[i].family == family;
    assert rows'[i].family == family;
  }

  /** What another request's step leaves of what a refresh past its checks knows. */
  lemma OthersSovereign(c: Config, o: Outset, req: Request, pc: Pc, other: Request, pc': Pc, s: Tables, t: Millis)
    requires Sovereign(o, req, pc, s)
    requires PastChecks(req, pc) && Saves(other, pc') ==> SavedRow(c, other, pc', t).family != pc.row.family
    ensures Sovereign(o, req, pc, Act(c, other, pc', s, t).0)
  {
    hide Act, CanBeLive, FindUser;
    ActRows(c, other, pc', s, t);
    ActTaken(c, other, pc', s, t);
    ActExtends(c, other, pc', s, t);
    if PastChecks(req, pc) { SavedIsKnown(s.rows, Act(c, other, pc', s, t).0.rows, pc.row.family); }
  }

  /** A refresh that passes its checks is sovereign in its family. */
  lemma AcceptedIsSovereign(c: Config, o: Outset, req: Request, g: Global, t: Millis)
    requires req.op.RefreshOp?
    requires Chain(g.tables.rows) && LiveReachable(o, g.tables.rows, t) && Anchored(g) && Presented(o.reqs, req.op.presented)
    ensures Sovereign(o, req, Act(c, req, Start, g.tables, t).1, g.tables)
  {
    hide CanBeLive, FindUser;
    var rows, presented := g.tables.rows, req.op.presented;
    var at := FindHash(rows, Sha256(presented));
    if Judge(rows, presented, t).Accepted? {
      assert rows[at].tokenHash.raw == presented;
      assert Known(rows, rows[at].family);
    }
  }

  /** The row saved carries a token that can be live, unless it is past its expiry at once. */
  lemma SavedReachable(c: Config, o: Outset, g: Global, who: nat, now: Millis, t: Millis)
    requires Unforked(o, g, now) && who < |o.reqs| && o.c == c
    requires Saves(o.reqs[who], g.pcs[who]) && Lasting(c) && Presented(o.reqs, o.reqs[who].op.raw)
    ensures CanBeLive(o, o.reqs[who].op.raw)
  {
    assert Sovereign(o, o.reqs[who], g.pcs[who], g.tables);
    if Enters(o.reqs[who]) {
      assert CanOpen(o.reqs[who], g.pcs[who], g.tables.users);
      assert Reached(o, o.reqs[who].op.raw, 0);
    } else {
      DrawnCanBeLive(o, who);
    }
  }

  lemma TurnRows(c: Config, o: Outset, g: Global, turn: Turn, now: Millis)
    requires Unforked(o, g, now) && turn.who < |o.reqs| && o.c == c && now <= turn.at
    ensures var rows' := TakeTurn(c, o.reqs, g, turn).tables.rows;
            Chain(rows') && LiveReachable(o, rows', turn.at)
  {
    hide Act, CanBeLive;
    var req, pc := o.reqs[turn.who], g.pcs[turn.who];
    ActRows(c, req, pc, g.tables, turn.at);
    assert Sovereign(o, req, pc, g.tables);
    if Saves(req, pc) && Lasting(c) && Presented(o.reqs, req.op.raw) { SavedReachable(c, o, g, turn.who, now, turn.at); }
    if Saves(req, pc) && Enters(req) { assert MayOpen(req, pc, req.op.family); }
  }

  lemma ActOwnSovereign(c: Config, o: Outset, req: Request, pc: Pc, g: Global, t: Millis)
    requires Sovereign(o, req, pc, g.tables)
    requires Chain(g.tables.rows) && LiveReachable(o, g.tables.rows, t) && Anchored(g)
    requires req.op.RefreshOp? ==> Presented(o.reqs, req.op.presented)
    ensures Sovereign(o, req, Act(c, req, pc, g.tables, t).1, Act(c, req, pc, g.tables, t).0)
  {
    hide CanBeLive, FindUser;
    if req.op.RefreshOp? && pc.Start? {
      AcceptedIsSovereign(c, o, req, g, t);
    } else if req.op.RefreshOp? && pc.Rotating? {
      SavedIsKnown(g.tables.rows, Act(c, req, pc, g.tables, t).0.rows, pc.row.family);
    }
  }

  lemma LiveReachableLater(o: Outset, rows: Table, now: Millis, t: Millis)
    requires LiveReachable(o, rows, now) && now <= t
    ensures LiveReachable(o, rows, t)
  {
  }

  /** A refresh passing its checks finds no other refresh past its checks in that family. */
  lemma EntersAlone(o: Outset, g: Global, who: nat, other: nat, now: Millis, t: Millis)
    requires Unforked(o, g, now) && NoneCompete(o) && now <= t
    requires who < |o.reqs| && other < |o.reqs| && who != other && PastChecks(o.reqs[other], g.pcs[other])
    requires o.reqs[who].op.RefreshOp? && Judge(g.tables.rows, o.reqs[who].op.presented, t).Accepted?
    ensures Judge(g.tables.rows, o.reqs[who].op.presented, t).row.family != g.pcs[other].row.family
  {
    hide CanBeLive;
    var at := FindHash(g.tables.rows, Sha256(o.reqs[who].op.presented));
    assert Sovereign(o, o.reqs[other], g.pcs[other], g.tables);
    assert !Compete(o, who, other);
  }

  lemma TurnSeparate(c: Config, o: Outset, g: Global, turn: Turn, r: nat, now: Millis)
    requires Unforked(o, g, now) && NoneCompete(o) && now <= turn.at
    requires turn.who < |o.reqs| && r < |o.reqs| && r != turn.who
    ensures var g' := TakeTurn(c, o.reqs, g, turn);
            PastChecks(o.reqs[turn.who], g'.pcs[turn.who]) && PastChecks(o.reqs[r], g'.pcs[r]) ==>
              g'.pcs[turn.who].row.family != g'.pcs[r].row.family
  {
    var g' := TakeTurn(c, o.reqs, g, turn);
    var req, pc := o.reqs[turn.who], g.pcs[turn.who];
    if PastChecks(req, g'.pcs[turn.who]) && PastChecks(o.reqs[r], g'.pcs[r]) {
      assert Separate(o.reqs, g);
      if pc.Start? {
        EntersAlone(o, g, turn.who, r, now, turn.at);
      } else {
        assert PastChecks(req, pc) && g'.pcs[turn.who].row == pc.row;
      }
    }
  }

  lemma TurnSovereign(c: Config, o: Outset, g: Global, turn: Turn, r: nat, now: Millis)
    requires Unforked(o, g, now) && turn.who < |o.reqs| && r < |o.reqs| && now <= turn.at
    ensures var g' := TakeTurn(c, o.reqs, g, turn);
            Sovereign(o, o.reqs[r], g'.pcs[r], g'.tables)
  {
    hide Act, CanBeLive;
    var req, pc := o.reqs[turn.who], g.pcs[turn.who];
    assert Sovereign(o, o.reqs[r], g.pcs[r], g.tables);
    if r == turn.who {
      LiveReachableLater(o, g.tables.rows, now, turn.at);
      ActOwnSovereign(c, o, req, pc, g, turn.at);
    } else {
      if Saves(req, pc) && Enters(req) { assert MayOpen(req, pc, req.op.family); }
      OthersSovereign(c, o, o.reqs[r], g.pcs[r], req, pc, g.tables, turn.at);
    }
  }

  lemma TurnAnchored(c: Config, o: Outset, g: Global, turn: Turn, now: Millis)
    requires Unforked(o, g, now) && turn.who < |o.reqs|
    ensures Anchored(TakeTurn(c, o.reqs, g, turn))
  {
    hide CanBeLive, Act, FindUser;
    var req, pc := o.reqs[turn.who], g.pcs[turn.who];
    assert Sovereign(o, req, pc, g.tables);
    ActTaken(c, req, pc, g.tables, turn.at);
    ActRows(c, req, pc, g.tables, turn.at);
    ActOpening(c, req, pc, g.tables, turn.at);
  }

  lemma ActOpening(c: Config, req: Request, pc: Pc, s: Tables, t: Millis)
    ensures var (s', pc') := Act(c, req, pc, s, t);
            pc'.Opening? ==> HasAccount(s'.users, pc'.user)
  {
    if req.op.LoginOp? && pc.Start? {
      var at := FindByEmail(s.users, req.op.email);
      if at >= 0 { assert HasAccount(s.users, s.users[at].id); }
    }
  }

  lemma ActFreshOpenings(c: Config, req: Request, pc: Pc, s: Tables, t: Millis, family: Id)
    ensures MayOpen(req, Act(c, req, pc, s, t).1, family) ==> MayOpen(req, pc, family) && !pc.Opening?
    ensures CanOpen(req, Act(c, req, pc, s, t).1, Act(c, req, pc, s, t).0.users) ==> CanOpen(req, pc, s.users)
    ensures Act(c, req, pc, s, t).1.Start? ==> pc.Start?
  {
    ActTaken(c, req, pc, s, t);
  }

  lemma TurnOpeningsFresh(c: Config, o: Outset, g: Global, turn: Turn, now: Millis)
    requires Unforked(o, g, now) && turn.who < |o.reqs|
    ensures OpeningsFresh(o.reqs, TakeTurn(c, o.reqs, g, turn))
  {
    hide Act, CanBeLive;
    var g' := TakeTurn(c, o.reqs, g, turn);
    var req, pc := o.reqs[turn.who], g.pcs[turn.who];
    assert Sovereign(o, req, pc, g.tables);
    ActRows(c, req, pc, g.tables, turn.at);
    forall j | 0 <= j < |o.reqs| && Enters(o.reqs[j]) && MayOpen(o.reqs[j], g'.pcs[j], o.reqs[j].op.family)
      ensures !Known(g'.tables.rows, o.reqs[j].op.family)
    {
      ActFreshOpenings(c, req, pc, g.tables, turn.at, o.reqs[j].op.family);
      assert MayOpen(o.reqs[j], g.pcs[j], o.reqs[j].op.family);
      assert forall i :: 0 <= i < |g.tables.rows| ==>
          g.tables.rows[i].family != o.reqs[j].op.family && g'.tables.rows[i].family == g.tables.rows[i].family;
    }
  }

  lemma TurnForeseen(c: Config, o: Outset, g: Global, turn: Turn, now: Millis)
    requires Unforked(o, g, now) && turn.who < |o.reqs| && Settled(o.reqs, o.g)
    ensures Foreseen(o, TakeTurn(c, o.reqs, g, turn))
  {
    hide Act, CanBeLive, Admits, FindEmail, FindUser;
    var g' := TakeTurn(c, o.reqs, g, turn);
    var req, pc := o.reqs[turn.who], g.pcs[turn.who];
    ActTaken(c, req, pc, g.tables, turn.at);
    forall r | 0 <= r < |o.reqs| && PresentedEarly(o.reqs, r) && CanOpen(o.reqs[r], g'.pcs[r], g'.tables.users)
      ensures CanOpen(o.reqs[r], o.g.pcs[r], o.g.tables.users)
    {
      ActFreshOpenings(c, req, pc, g.tables, turn.at, o.reqs[r].op.family);
      if r != turn.who && o.reqs[r].op.LoginOp? && !Enables(req, o.reqs[r]) {
        ActAdmits(c, req, pc, g.tables, turn.at, o.reqs[r]);
      }
    }
    ActFreshOpenings(c, req, pc, g.tables, turn.at, 0);
  }

  lemma TurnUnforked(c: Config, o: Outset, g: Global, turn: Turn, now: Millis)
    requires Unforked(o, g, now) && NoneCompete(o) && Settled(o.reqs, o.g)
    requires turn.who < |o.reqs| && o.c == c && now <= turn.at
    ensures Unforked(o, TakeTurn(c, o.reqs, g, turn), turn.at)
  {
    hide Act, CanBeLive, Chain, OpeningsFresh, Anchored, LiveReachable, Foreseen, Sovereign;
    var g' := TakeTurn(c, o.reqs, g, turn);
    TurnRows(c, o, g, turn, now);
    TurnOpeningsFresh(c, o, g, turn, now);
    TurnAnchored(c, o, g, turn, now);
    TurnForeseen(c, o, g, turn, now);
    forall r | 0 <= r < |o.reqs| ensures Sovereign(o, o.reqs[r], g'.pcs[r], g'.tables) {
      TurnSovereign(c, o, g, turn, r, now);
    }
    forall a, b | 0 <= a < b < |o.reqs| && PastChecks(o.reqs[a], g'.pcs[a]) && PastChecks(o.reqs[b], g'.pcs[b])
      ensures g'.pcs[a].row.family != g'.pcs[b].row.family
    {
      if a == turn.who {
        TurnSeparate(c, o, g, turn, b, now);
      } else if b == turn.who {
        TurnSeparate(c, o, g, turn, a, now);
      }
    }
  }

  lemma {:induction false} ExecUnforked(o: Outset, g: Global, schedule: seq<Turn>, now: Millis) returns (later: Millis)
    requires Unforked(o, g, now) && NoneCompete(o) && Settled(o.reqs, o.g)
    requires Feasible(o.reqs, g, schedule, now)
    ensures Unforked(o, Exec(o.c, o.reqs, g, schedule), later)
    decreases |schedule|
  {
    if schedule == [] {
      later := now;
    } else {
      TimelyTail(schedule, now);
      TurnUnforked(o.c, o, g, schedule[0], now);
      later := ExecUnforked(o, TakeTurn(o.c, o.reqs, g, schedule[0]), schedule[1..], schedule[0].at);
    }
  }

  /** No refresh in flight has started yet. */
  ghost predicate RefreshesWait(reqs: seq<Request>, g: Global)
    requires |g.pcs| == |reqs|
  {
    forall r :: 0 <= r < |reqs| && reqs[r].op.RefreshOp? ==> g.pcs[r].Start?
  }

  lemma OutsetUnforked(o: Outset)
    requires RefreshesWait(o.reqs, o.g) && Chain(o.g.tables.rows) && OpeningsFresh(o.reqs, o.g)
    requires Anchored(o.g)
    ensures Unforked(o, o.g, o.now)
  {
    forall i | 0 <= i < |o.g.tables.rows| && !o.g.tables.rows[i].revoked && o.now <= o.g.tables.rows[i].expiresAt
      ensures CanBeLive(o, o.g.tables.rows[i].tokenHash.raw)
    {
      assert Reached(o, o.g.tables.rows[i].tokenHash.raw, 0);
    }
  }

  // ---------- any two competitors can fork a family ----------

  predicate Mints(req: Request) {
    Enters(req) || req.op.RefreshOp?
  }

  /** The row ids and tokens that logins, registrations and refreshes draw are fresh. */
  ghost predicate DrawsFresh(reqs: seq<Request>, g: Global)
    requires |g.pcs| == |reqs|
  {
    && (forall r, i :: 0 <= r < |reqs| && Mints(reqs[r]) && !g.pcs[r].Finished? && 0 <= i < |g.tables.rows| ==>
          g.tables.rows[i].id != reqs[r].op.id && g.tables.rows[i].tokenHash.raw != reqs[r].op.raw)
    && (forall a, b :: 0 <= a < b < |reqs| && Mints(reqs[a]) && Mints(reqs[b]) ==>
          reqs[a].op.id != reqs[b].op.id && reqs[a].op.raw != reqs[b].op.raw)
  }

  lemma DrawsFreshAfter(reqs: seq<Request>, g: Global, g': Global, who: nat, row: Row, where: Where)
    requires |g.pcs| == |reqs| && who < |reqs| && Mints(reqs[who]) && DrawsFresh(reqs, g)
    requires row.id == reqs[who].op.id && row.tokenHash == Sha256(reqs[who].op.raw)
    requires g' == Global(g'.tables, g.pcs[who := Finished])
    requires g'.tables.rows == g.tables.rows + [row] || g'.tables.rows == RevokeWhere(g.tables.rows, where) + [row]
    ensures DrawsFresh(reqs, g')
  {
    forall r, i | 0 <= r < |reqs| && Mints(reqs[r]) && !g'.pcs[r].Finished? && 0 <= i < |g'.tables.rows|
      ensures g'.tables.rows[i].id != reqs[r].op.id && g'.tables.rows[i].tokenHash.raw != reqs[r].op.raw
    {
      assert r != who && !g.pcs[r].Finished?;
      if i < |g.tables.rows| {
        assert g.tables.rows[i].id != reqs[r].op.id;
      } else if r < who {
        assert reqs[r].op.id != reqs[who].op.id;
      } else {
        assert reqs[who].op.id != reqs[r].op.id;
      }
    }
  }

  /** The last three turns of a refresh that has passed its checks. */
  function ThreeTurns(who: nat, t: Millis): seq<Turn> {
    [Turn(who, t)] + ([Turn(who, t)] + ([Turn(who, t)] + []))
  }

  /** A refresh past its checks revokes the row it read and saves a live row in its family, whatever
      has happened to the table in the meantime. */
  lemma RotatesAnyway(c: Config, reqs: seq<Request>, g: Global, who: nat, row: Row, t: Millis)
    requires |g.pcs| == |reqs| && who < |reqs| && reqs[who].op.RefreshOp? && g.pcs[who] == Loading(row)
    requires FindUser(g.tables.users, row.userId) >= 0
    ensures WellFormed(reqs, g, ThreeTurns(who, t)) && AllAt(ThreeTurns(who, t), t)
    ensures Exec(c, reqs, g, ThreeTurns(who, t)) ==
              Global(g.tables.(rows := RevokeWhere(g.tables.rows, ById(row.id))
                                       + [Mint(c, reqs[who].op.id, row.userId, reqs[who].op.raw, row.family, reqs[who].op.meta, t)]),
                     g.pcs[who := Finished])
  {
    var a := Turn(who, t);
    ExecCons(c, reqs, g, a, [a] + ([a] + []));
    var g1 := TakeTurn(c, reqs, g, a);
    ExecCons(c, reqs, g1, a, [a] + []);
    var g2 := TakeTurn(c, reqs, g1, a);
    ExecCons(c, reqs, g2, a, []);
    assert g.pcs[who := Rotating(row)][who := Saving(row)][who := Finished] == g.pcs[who := Finished];
  }

  /** The tables after a rotation of `row` by this request. */
  function AfterRotation(c: Config, req: Request, s: Tables, row: Row, t: Millis): Tables
    requires req.op.RefreshOp?
  {
    s.(rows := RevokeWhere(s.rows, ById(row.id)) + [Mint(c, req.op.id, row.userId, req.op.raw, row.family, req.op.meta, t)])
  }

  /** A refresh of an acceptable token run without interruption. */
  lemma RefreshRuns(c: Config, reqs: seq<Request>, g: Global, who: nat, i: nat, t: Millis) returns (schedule: seq<Turn>)
    requires |g.pcs| == |reqs| && who < |reqs| && reqs[who].op.RefreshOp? && g.pcs[who].Start?
    requires Acceptable(g.tables, i, reqs[who].op.presented, t)
    ensures WellFormed(reqs, g, schedule) && AllAt(schedule, t)
    ensures Exec(c, reqs, g, schedule) == Global(AfterRotation(c, reqs[who], g.tables, g.tables.rows[i], t), g.pcs[who := Finished])
  {
    var g' := TakeTurn(c, reqs, g, Turn(who, t));
    assert g' == Global(g.tables, g.pcs[who := Loading(g.tables.rows[i])]);
    RotatesAnyway(c, reqs, g', who, g.tables.rows[i], t);
    schedule := [Turn(who, t)] + ThreeTurns(who, t);
    ExecCons(c, reqs, g, Turn(who, t), ThreeTurns(who, t));
    assert g.pcs[who := Loading(g.tables.rows[i])][who := Finished] == g.pcs[who := Finished];
  }

  /** The saved row of a rotation can be presented next. */
  lemma RotatedAcceptable(c: Config, reqs: seq<Request>, g: Global, who: nat, i: nat, t: Millis)
    requires |g.pcs| == |reqs| && who < |reqs| && reqs[who].op.RefreshOp? && g.pcs[who].Start? && DrawsFresh(reqs, g)
    requires Acceptable(g.tables, i, reqs[who].op.presented, t) && Lasting(c)
    ensures var g' := Global(AfterRotation(c, reqs[who], g.tables, g.tables.rows[i], t), g.pcs[who := Finished]);
            && DrawsFresh(reqs, g')
            && Acceptable(g'.tables, |g.tables.rows|, reqs[who].op.raw, t)
  {
    var row := g.tables.rows[i];
    var s' := AfterRotation(c, reqs[who], g.tables, row, t);
    var saved := s'.rows[|g.tables.rows|];
    DrawsFreshAfter(reqs, g, Global(s', g.pcs[who := Finished]), who, saved, ById(row.id));
    var at := FindHash(s'.rows, Sha256(reqs[who].op.raw));
    assert s'.rows[|g.tables.rows|].tokenHash == Sha256(reqs[who].op.raw);
    forall k | 0 <= k < |g.tables.rows| ensures s'.rows[k].tokenHash != Sha256(reqs[who].op.raw) {
      assert s'.rows[k].tokenHash == g.tables.rows[k].tokenHash;
      assert g.tables.rows[k].tokenHash.raw != reqs[who].op.raw;
    }
  }

  /** The saved row of a login or registration can be presented at once. */
  lemma OpenedAcceptable(c: Config, reqs: seq<Request>, g: Global, r: nat, t: Millis)
    requires |g.pcs| == |reqs| && r < |reqs| && Enters(reqs[r]) && g.pcs[r].Opening? && DrawsFresh(reqs, g)
    requires HasAccount(g.tables.users, g.pcs[r].user) && Lasting(c)
    ensures var g' := TakeTurn(c, reqs, g, Turn(r, t));
            && Acceptable(g'.tables, |g.tables.rows|, reqs[r].op.raw, t) && DrawsFresh(reqs, g')
            && g'.pcs == g.pcs[r := Finished]
  {
    hide FindUser;
    var g', i := TakeTurn(c, reqs, g, Turn(r, t)), |g.tables.rows|;
    DrawsFreshAfter(reqs, g, g', r, g'.tables.rows[i], LiveOfUser(0));
    var at := FindHash(g'.tables.rows, Sha256(reqs[r].op.raw));
    assert g'.tables.rows[i].tokenHash == Sha256(reqs[r].op.raw);
    forall k | 0 <= k < |g.tables.rows| ensures g'.tables.rows[k].tokenHash != Sha256(reqs[r].op.raw) {
      assert g'.tables.rows[k] == g.tables.rows[k];
      assert g.tables.rows[k].tokenHash.raw != reqs[r].op.raw;
    }
  }

  /** A login or registration that can open gets there in steps of its own. */
  lemma {:induction false} OpeningBringsToLife(c: Config, reqs: seq<Request>, g: Global, r: nat, t: Millis)
    returns (schedule: seq<Turn>, i: nat)
    requires |g.pcs| == |reqs| && r < |reqs| && CanOpen(reqs[r], g.pcs[r], g.tables.users) && DrawsFresh(reqs, g)
    requires g.pcs[r].Opening? ==> HasAccount(g.tables.users, g.pcs[r].user)
    requires Lasting(c)
    ensures WellFormed(reqs, g, schedule) && AllAt(schedule, t)
    ensures var g' := Exec(c, reqs, g, schedule);
            Acceptable(g'.tables, i, reqs[r].op.raw, t) && DrawsFresh(reqs, g') && g'.pcs == g.pcs[r := Finished]
    decreases Rank(g.pcs[r])
  {
    hide Acceptable;
    var turn := Turn(r, t);
    var g' := TakeTurn(c, reqs, g, turn);
    if g.pcs[r].Opening? {
      OpenedAcceptable(c, reqs, g, r, t);
      schedule, i := [turn] + [], |g.tables.rows|;
      ExecCons(c, reqs, g, turn, []);
    } else {
      ActOpening(c, reqs[r], g.pcs[r], g.tables, t);
      ActProceeds(c, reqs[r], g.pcs[r], g.tables, t);
      var rest;
      rest, i := OpeningBringsToLife(c, reqs, g', r, t);
      schedule := [turn] + rest;
      ExecCons(c, reqs, g, turn, rest);
      assert g.pcs[r := g'.pcs[r]][r := Finished] == g.pcs[r := Finished];
    }
  }

  lemma ActProceeds(c: Config, req: Request, pc: Pc, s: Tables, t: Millis)
    requires CanOpen(req, pc, s.users) && !pc.Opening?
    ensures var (s', pc') := Act(c, req, pc, s, t);
            CanOpen(req, pc', s'.users) && s'.rows == s.rows && Rank(pc') < Rank(pc) && !pc'.Finished?
  {
  }

  lemma LiveIsAcceptable(g: Global, raw: Id, now: Millis) returns (i: nat)
    requires Distinct(g.tables.rows) && Anchored(g) && raw in LiveTokens(g, now)
    ensures i < |g.tables.rows| && Acceptable(g.tables, i, raw, now)
  {
    i :| i < |g.tables.rows| && !g.tables.rows[i].revoked && now <= g.tables.rows[i].expiresAt && g.tables.rows[i].tokenHash.raw == raw;
    FindsItself(g.tables.rows, i);
    assert Sha256(raw) == g.tables.rows[i].tokenHash;
  }

  /** What a schedule that forks a family starts from. */
  ghost predicate Forkable(o: Outset) {
    && RefreshesWait(o.reqs, o.g) && Distinct(o.g.tables.rows) && DrawsFresh(o.reqs, o.g) && Anchored(o.g)
  }

  /** No refresh has moved unless it presents a token reachable in fewer rotations than `n`. */
  ghost predicate Waiting(o: Outset, g: Global, n: nat)
    requires |g.pcs| == |o.reqs|
  {
    forall r :: 0 <= r < |o.reqs| && o.reqs[r].op.RefreshOp? && (n == 0 || !Reached(o, o.reqs[r].op.presented, n - 1)) ==>
      g.pcs[r].Start?
  }

  /** Appending the rotation that draws a token to a schedule that makes the presented one acceptable. */
  lemma OneMoreRotation(o: Outset, d: nat, n: nat, first: seq<Turn>, k: nat) returns (schedule: seq<Turn>, i: nat)
    requires WellFormed(o.reqs, o.g, first) && AllAt(first, o.now) && d < |o.reqs| && o.reqs[d].op.RefreshOp? && n > 0
    requires var g1 := Exec(o.c, o.reqs, o.g, first);
             && Acceptable(g1.tables, k, o.reqs[d].op.presented, o.now) && DrawsFresh(o.reqs, g1)
             && Waiting(o, g1, n - 1) && g1.pcs[d].Start?
    requires Reached(o, o.reqs[d].op.presented, n - 1) && Lasting(o.c)
    ensures WellFormed(o.reqs, o.g, schedule) && AllAt(schedule, o.now)
    ensures var g' := Exec(o.c, o.reqs, o.g, schedule);
            Acceptable(g'.tables, i, o.reqs[d].op.raw, o.now) && DrawsFresh(o.reqs, g') && Waiting(o, g', n)
  {
    hide Exec, Acceptable, AfterRotation, DrawsFresh;
    var g1 := Exec(o.c, o.reqs, o.g, first);
    var second := RefreshRuns(o.c, o.reqs, g1, d, k, o.now);
    AcceptableIndex(g1.tables, k, o.reqs[d].op.presented, o.now);
    RotatedAcceptable(o.c, o.reqs, g1, d, k, o.now);
    ExecConcat(o.c, o.reqs, o.g, first, second);
    schedule, i := first + second, |g1.tables.rows|;
  }

  lemma AcceptableIndex(s: Tables, i: nat, presented: Id, t: Millis)
    requires Acceptable(s, i, presented, t)
    ensures i < |s.rows|
  {
  }

  /** Some schedule, all of it at this moment, makes a reachable token acceptable while every refresh
      that does not lie on the way to it is still waiting. */
  lemma {:induction false} BringToLife(o: Outset, raw: Id, n: nat) returns (schedule: seq<Turn>, i: nat)
    requires Forkable(o) && Reached(o, raw, n)
    ensures WellFormed(o.reqs, o.g, schedule) && AllAt(schedule, o.now)
    ensures var g' := Exec(o.c, o.reqs, o.g, schedule);
            Acceptable(g'.tables, i, raw, o.now) && DrawsFresh(o.reqs, g') && Waiting(o, g', n)
    decreases n
  {
    if raw in LiveTokens(o.g, o.now) {
      i := LiveIsAcceptable(o.g, raw, o.now);
      schedule := [];
    } else if n == 0 {
      var r: nat :| r < |o.reqs| && Enters(o.reqs[r]) && CanOpen(o.reqs[r], o.g.pcs[r], o.g.tables.users) && o.reqs[r].op.raw == raw;
      schedule, i := OpeningBringsToLife(o.c, o.reqs, o.g, r, o.now);
    } else if Reached(o, raw, n - 1) {
      schedule, i := BringToLife(o, raw, n - 1);
    } else {
      var d: nat :| d < |o.reqs| && o.reqs[d].op.RefreshOp? && Reached(o, o.reqs[d].op.presented, n - 1) && o.reqs[d].op.raw == raw;
      var first, k := BringToLife(o, o.reqs[d].op.presented, n - 1);
      assert n > 1 ==> !Reached(o, o.reqs[d].op.presented, n - 2);
      schedule, i := OneMoreRotation(o, d, n, first, k);
    }
  }

  lemma {:induction false} LeastReach(o: Outset, raw: Id, n: nat) returns (m: nat)
    requires Reached(o, raw, n)
    ensures Reached(o, raw, m) && (m == 0 || !Reached(o, raw, m - 1))
  {
    if n > 0 && Reached(o, raw, n - 1) { m := LeastReach(o, raw, n - 1); } else { m := n; }
  }

  /** Two refreshes of one acceptable token both pass their checks, and then each rotates. */
  lemma BothRotate(c: Config, reqs: seq<Request>, g: Global, a: nat, b: nat, i: nat, t: Millis)
    returns (schedule: seq<Turn>)
    requires |g.pcs| == |reqs| && a < |reqs| && b < |reqs| && a != b && g.pcs[a].Start? && g.pcs[b].Start?
    requires reqs[a].op.RefreshOp? && reqs[b].op.RefreshOp? && reqs[a].op.presented == reqs[b].op.presented
    requires Acceptable(g.tables, i, reqs[a].op.presented, t)
    ensures WellFormed(reqs, g, schedule) && AllAt(schedule, t)
    ensures var row := g.tables.rows[i];
            Exec(c, reqs, g, schedule).tables ==
              AfterRotation(c, reqs[b], AfterRotation(c, reqs[a], g.tables, row, t), row, t)
  {
    hide RevokeWhere, Exec;
    var row := g.tables.rows[i];
    var g1 := TakeTurn(c, reqs, g, Turn(a, t));
    var g2 := TakeTurn(c, reqs, g1, Turn(b, t));
    assert g2.tables == g.tables && g2.pcs[a] == Loading(row) && g2.pcs[b] == Loading(row);
    RotatesAnyway(c, reqs, g2, a, row, t);
    var g3 := Exec(c, reqs, g2, ThreeTurns(a, t));
    RotatesAnyway(c, reqs, g3, b, row, t);
    ExecConcat(c, reqs, g2, ThreeTurns(a, t), ThreeTurns(b, t));
    ExecCons(c, reqs, g1, Turn(b, t), ThreeTurns(a, t) + ThreeTurns(b, t));
    ExecCons(c, reqs, g, Turn(a, t), [Turn(b, t)] + (ThreeTurns(a, t) + ThreeTurns(b, t)));
    schedule := [Turn(a, t)] + ([Turn(b, t)] + (ThreeTurns(a, t) + ThreeTurns(b, t)));
  }

  /** Two overlapping refreshes of one acceptable token, wherever they stand among the requests in
      flight, both succeed and fork its family. */
  lemma OverlapForksFamily(c: Config, reqs: seq<Request>, g: Global, a: nat, b: nat, i: nat, t: Millis)
    returns (schedule: seq<Turn>)
    requires |g.pcs| == |reqs| && a < |reqs| && b < |reqs| && a != b && g.pcs[a].Start? && g.pcs[b].Start?
    requires reqs[a].op.RefreshOp? && reqs[b].op.RefreshOp? && reqs[a].op.presented == reqs[b].op.presented
    requires Acceptable(g.tables, i, reqs[a].op.presented, t) && reqs[a].op.id != g.tables.rows[i].id
    ensures WellFormed(reqs, g, schedule) && AllAt(schedule, t)
    ensures var rows, rows' := g.tables.rows, Exec(c, reqs, g, schedule).tables.rows;
            && |rows'| == |rows| + 2 && !rows'[|rows|].revoked && !rows'[|rows| + 1].revoked
            && rows'[|rows|].family == rows[i].family && rows'[|rows| + 1].family == rows[i].family
            && !Chain(rows')
  {
    hide Act, Exec;
    schedule := BothRotate(c, reqs, g, a, b, i, t);
  }

  /** Two competitors in flight: some schedule, all of it at this moment, forks a family. */
  lemma CompetitorsFork(o: Outset, a: nat, b: nat) returns (schedule: seq<Turn>)
    requires Forkable(o) && Compete(o, a, b)
    ensures Feasible(o.reqs, o.g, schedule, o.now) && !Chain(Exec(o.c, o.reqs, o.g, schedule).tables.rows)
  {
    hide Chain;
    var raw := o.reqs[a].op.presented;
    var n: nat :| Reached(o, raw, n);
    var m := LeastReach(o, raw, n);
    var first, i := BringToLife(o, raw, m);
    var g1 := Exec(o.c, o.reqs, o.g, first);
    assert Mints(o.reqs[a]) && g1.pcs[a].Start? && g1.pcs[b].Start?;
    var second := OverlapForksFamily(o.c, o.reqs, g1, a, b, i, o.now);
    ExecConcat(o.c, o.reqs, o.g, first, second);
    schedule := first + second;
  }

  ghost predicate AlwaysChain(o: Outset) {
    forall schedule :: Feasible(o.reqs, o.g, schedule, o.now) ==> Chain(Exec(o.c, o.reqs, o.g, schedule).tables.rows)
  }

  /** The tables as the theorems want them: a chain-shaped table with unique ids and hashes, every row and
      checked login with an account, new draws, and no refresh started. */
  ghost predicate Ready(o: Outset) {
    && RefreshesWait(o.reqs, o.g) && Chain(o.g.tables.rows) && Distinct(o.g.tables.rows) && Anchored(o.g)
    && OpeningsFresh(o.reqs, o.g) && DrawsFresh(o.reqs, o.g)
  }

  /** From a given moment on every schedule keeps every family a linear chain exactly when no two of the
      refreshes present one token that is live and unexpired or can come to be through the logins,
      registrations and rotations in flight. Logouts, revocations, replays, resets, registrations and
      refreshes of different tokens may overlap at will. */
  lemma ChainUnderOverlapIff(o: Outset)
    requires Ready(o) && Settled(o.reqs, o.g)
    ensures AlwaysChain(o) <==> NoneCompete(o)
  {
    if NoneCompete(o) {
      OutsetUnforked(o);
      forall schedule | Feasible(o.reqs, o.g, schedule, o.now) ensures Chain(Exec(o.c, o.reqs, o.g, schedule).tables.rows) {
        var later := ExecUnforked(o, o.g, schedule, o.now);
      }
    } else {
      var a: nat, b: nat :| Compete(o, a, b);
      var schedule := CompetitorsFork(o, a, b);
      assert Feasible(o.reqs, o.g, schedule, o.now) && !Chain(Exec(o.c, o.reqs, o.g, schedule).tables.rows);
    }
  }

  /** No refresh presents a token that a request in flight has yet to draw. */
  ghost predicate NoForeknowledge(reqs: seq<Request>) {
    forall r, d :: 0 <= r < |reqs| && 0 <= d < |reqs| && reqs[r].op.RefreshOp? && Mints(reqs[d]) ==>
      reqs[r].op.presented != reqs[d].op.raw
  }

  lemma {:induction false} ReachIsLive(o: Outset, r: nat, n: nat)
    requires NoForeknowledge(o.reqs) && r < |o.reqs| && o.reqs[r].op.RefreshOp?
    ensures Reached(o, o.reqs[r].op.presented, n) <==> o.reqs[r].op.presented in LiveTokens(o.g, o.now)
  {
    if n > 0 { ReachIsLive(o, r, n - 1); }
  }

  /** Two different requests are refreshes presenting one token that is live and unexpired now. */
  ghost predicate ShareLiveToken(reqs: seq<Request>, g: Global, now: Millis, a: nat, b: nat) {
    && a < |reqs| && b < |reqs| && a != b
    && reqs[a].op.RefreshOp? && reqs[b].op.RefreshOp? && reqs[a].op.presented == reqs[b].op.presented
    && reqs[a].op.presented in LiveTokens(g, now)
  }

  lemma CompeteIsShare(o: Outset, a: nat, b: nat)
    requires NoForeknowledge(o.reqs)
    ensures Compete(o, a, b) <==> ShareLiveToken(o.reqs, o.g, o.now, a, b)
  {
    if a < |o.reqs| && o.reqs[a].op.RefreshOp? {
      forall n: nat ensures Reached(o, o.reqs[a].op.presented, n) <==> o.reqs[a].op.presented in LiveTokens(o.g, o.now) {
        ReachIsLive(o, a, n);
      }
      assert o.reqs[a].op.presented in LiveTokens(o.g, o.now) ==> Reached(o, o.reqs[a].op.presented, 0);
    }
  }

  /** When nobody presents a token still to be drawn, the condition is on the table as it is: every
      schedule keeps the chains exactly when no two refreshes present one token that is live and
      unexpired. */
  lemma ChainUnderOverlapIffNoSharedToken(o: Outset)
    requires Ready(o) && NoForeknowledge(o.reqs)
    ensures AlwaysChain(o) <==> forall a: nat, b: nat :: !ShareLiveToken(o.reqs, o.g, o.now, a, b)
  {
    hide Ready, AlwaysChain, Compete, ShareLiveToken;
    assert Settled(o.reqs, o.g);
    ChainUnderOverlapIff(o);
    forall a: nat, b: nat ensures Compete(o, a, b) <==> ShareLiveToken(o.reqs, o.g, o.now, a, b) {
      CompeteIsShare(o, a, b);
    }
  }
}
