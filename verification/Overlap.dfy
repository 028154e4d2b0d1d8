/** What any overlap of requests leaves standing, what holds when one user's requests follow one
    another, and what a refresh does once it has passed its checks. */
module Overlap {
  import opened Basics
  import opened RefreshTable
  import opened Email
  import opened World
  import opened Invariants
  import opened Families
  import opened Interleaving

  // ---------- what survives any interleaving ----------

  lemma ActExtends(c: Config, req: Request, pc: Pc, s: Tables, t: Millis)
    ensures Extends(s.rows, Act(c, req, pc, s, t).0.rows)
  {
    hide Act;
    ActRows(c, req, pc, s, t);
  }

  /** Whatever overlaps with whatever, a revoked flag is never cleared and no row changes otherwise. */
  lemma {:induction false} RevokedForGood(c: Config, reqs: seq<Request>, g: Global, schedule: seq<Turn>)
    requires WellFormed(reqs, g, schedule)
    ensures Extends(g.tables.rows, Exec(c, reqs, g, schedule).tables.rows)
    decreases |schedule|
  {
    if schedule != [] {
      var turn := schedule[0];
      var g' := TakeTurn(c, reqs, g, turn);
      ActExtends(c, reqs[turn.who], g.pcs[turn.who], g.tables, turn.at);
      RevokedForGood(c, reqs, g', schedule[1..]);
      ExtendsTrans(g.tables.rows, g'.tables.rows, Exec(c, reqs, g, schedule).tables.rows);
    }
  }

  /** And all rows of a family keep one owner. */
  lemma OneOwnerForGood(c: Config, owners: Owners, reqs: seq<Request>, g: Global, schedule: seq<Turn>)
    requires Consistent(owners, reqs, g) && WellFormed(reqs, g, schedule)
    ensures OneOwner(Exec(c, reqs, g, schedule).tables.rows)
  {
    ExecConsistent(c, owners, reqs, g, schedule);
  }

  /** The step saves the first row of this family, or the new row of a rotation in it. */
  predicate OpensInto(req: Request, pc: Pc, family: Id) {
    Enters(req) && pc.Opening? && req.op.family == family
  }

  predicate RotatesInto(req: Request, pc: Pc, family: Id) {
    req.op.RefreshOp? && pc.Saving? && pc.row.family == family
  }

  /** A login or registration that has not saved its row yet, and so may still open this family. */
  predicate MayOpen(req: Request, pc: Pc, family: Id) {
    Enters(req) && (pc.Start? || pc.Creating? || pc.Opening?) && req.op.family == family
  }

  function Openings(c: Config, reqs: seq<Request>, g: Global, schedule: seq<Turn>, family: Id): nat
    requires WellFormed(reqs, g, schedule)
    decreases |schedule|
  {
    if schedule == [] then 0
    else
      (if OpensInto(reqs[schedule[0].who], g.pcs[schedule[0].who], family) then 1 else 0)
      + Openings(c, reqs, TakeTurn(c, reqs, g, schedule[0]), schedule[1..], family)
  }

  function Rotated(c: Config, reqs: seq<Request>, g: Global, schedule: seq<Turn>, family: Id): nat
    requires WellFormed(reqs, g, schedule)
    decreases |schedule|
  {
    if schedule == [] then 0
    else
      (if RotatesInto(reqs[schedule[0].who], g.pcs[schedule[0].who], family) then 1 else 0)
      + Rotated(c, reqs, TakeTurn(c, reqs, g, schedule[0]), schedule[1..], family)
  }

  lemma ActCounts(c: Config, req: Request, pc: Pc, s: Tables, t: Millis, family: Id)
    ensures CountFamily(Act(c, req, pc, s, t).0.rows, family) ==
              CountFamily(s.rows, family) + (if OpensInto(req, pc, family) || RotatesInto(req, pc, family) then 1 else 0)
  {
    hide Act;
    ActRows(c, req, pc, s, t);
    var rows' := Act(c, req, pc, s, t).0.rows;
    if |rows'| > |s.rows| {
      assert rows'[..|s.rows|] == s.rows;
    } else {
      CountSameFamilies(s.rows, rows', family);
    }
  }

  lemma {:induction false} RowsAreSaves(c: Config, reqs: seq<Request>, g: Global, schedule: seq<Turn>, family: Id)
    requires WellFormed(reqs, g, schedule)
    ensures CountFamily(Exec(c, reqs, g, schedule).tables.rows, family) ==
              CountFamily(g.tables.rows, family) + Openings(c, reqs, g, schedule, family) + Rotated(c, reqs, g, schedule, family)
    decreases |schedule|
  {
    if schedule != [] {
      var turn := schedule[0];
      ActCounts(c, reqs[turn.who], g.pcs[turn.who], g.tables, turn.at, family);
      RowsAreSaves(c, reqs, TakeTurn(c, reqs, g, turn), schedule[1..], family);
    }
  }

  /** Only request `j` draws this family to open it. */
  ghost predicate OnlyOpening(reqs: seq<Request>, j: nat, family: Id) {
    forall r :: 0 <= r < |reqs| && Enters(reqs[r]) && reqs[r].op.family == family ==> r == j
  }

  lemma {:induction false} OpeningsAtMostOnce(c: Config, reqs: seq<Request>, g: Global, schedule: seq<Turn>, j: nat, family: Id)
    requires WellFormed(reqs, g, schedule) && OnlyOpening(reqs, j, family) && j < |reqs|
    ensures Openings(c, reqs, g, schedule, family) <= if MayOpen(reqs[j], g.pcs[j], family) then 1 else 0
    decreases |schedule|
  {
    if schedule != [] {
      OpeningsAtMostOnce(c, reqs, TakeTurn(c, reqs, g, schedule[0]), schedule[1..], j, family);
    }
  }

  /** The family is unknown to the table and to every request in flight. */
  ghost predicate Unheard(g: Global, family: Id) {
    && !Known(g.tables.rows, family)
    && forall r :: 0 <= r < |g.pcs| ==>
         (g.pcs[r].Loading? || g.pcs[r].Rotating? || g.pcs[r].Saving? ==> g.pcs[r].row.family != family)
  }

  lemma ActUnheard(c: Config, req: Request, pc: Pc, s: Tables, t: Millis, family: Id)
    requires !Known(s.rows, family) && !OpensInto(req, pc, family)
    requires pc.Loading? || pc.Rotating? || pc.Saving? ==> pc.row.family != family
    ensures var (s', pc') := Act(c, req, pc, s, t);
            !Known(s'.rows, family) && (pc'.Loading? || pc'.Rotating? || pc'.Saving? ==> pc'.row.family != family)
  {
  }

  lemma {:induction false} UnopenedStaysUnknown(c: Config, reqs: seq<Request>, g: Global, schedule: seq<Turn>, family: Id)
    requires WellFormed(reqs, g, schedule) && Unheard(g, family) && Openings(c, reqs, g, schedule, family) == 0
    ensures !Known(Exec(c, reqs, g, schedule).tables.rows, family)
    decreases |schedule|
  {
    if schedule != [] {
      var turn := schedule[0];
      ActUnheard(c, reqs[turn.who], g.pcs[turn.who], g.tables, turn.at, family);
      UnopenedStaysUnknown(c, reqs, TakeTurn(c, reqs, g, turn), schedule[1..], family);
    }
  }

  /** However requests overlap, a family grows by one row for each completed rotation, and by one more
      for its login or registration when it was not there before. */
  lemma FamilyLengthUnderOverlap(c: Config, reqs: seq<Request>, g: Global, schedule: seq<Turn>, j: nat, family: Id)
    requires WellFormed(reqs, g, schedule) && j < |reqs| && OnlyOpening(reqs, j, family)
    requires if Known(g.tables.rows, family) then !MayOpen(reqs[j], g.pcs[j], family) else Unheard(g, family)
    ensures var rows, rows' := g.tables.rows, Exec(c, reqs, g, schedule).tables.rows;
            CountFamily(rows', family) ==
              CountFamily(rows, family) + Rotated(c, reqs, g, schedule, family)
              + (if !Known(rows, family) && Known(rows', family) then 1 else 0)
  {
    var rows' := Exec(c, reqs, g, schedule).tables.rows;
    RowsAreSaves(c, reqs, g, schedule, family);
    CountZero(g.tables.rows, family);
    CountZero(rows', family);
    OpeningsAtMostOnce(c, reqs, g, schedule, j, family);
    if !Known(g.tables.rows, family) && Openings(c, reqs, g, schedule, family) == 0 {
      UnopenedStaysUnknown(c, reqs, g, schedule, family);
    }
  }

  // ---------- one user's requests, one after the other ----------

  /** No request takes a turn between two turns of another. */
  ghost predicate OneByOne(schedule: seq<Turn>) {
    forall a, b, d :: 0 <= a < b < d < |schedule| && schedule[a].who == schedule[d].who ==> schedule[b].who == schedule[a].who
  }

  ghost predicate AllStart(g: Global) {
    forall r :: 0 <= r < |g.pcs| ==> g.pcs[r].Start?
  }

  /** Each login and registration draws a family of its own that the table does not know yet. */
  ghost predicate OpeningsFresh(reqs: seq<Request>, g: Global)
    requires |g.pcs| == |reqs|
  {
    && (forall j :: 0 <= j < |reqs| && Enters(reqs[j]) && MayOpen(reqs[j], g.pcs[j], reqs[j].op.family) ==>
          !Known(g.tables.rows, reqs[j].op.family))
    && (forall j, k :: 0 <= j < k < |reqs| && Enters(reqs[j]) && Enters(reqs[k]) ==> reqs[j].op.family != reqs[k].op.family)
  }

  /** What a rotation under way knows of its family: nothing else in it is live. */
  ghost predicate Sole(pc: Pc, rows: Table) {
    match pc
    case Loading(row) => Known(rows, row.family) && SoleLive(rows, row)
    case Rotating(row) => Known(rows, row.family) && SoleLive(rows, row)
    case Saving(row) => Known(rows, row.family) && Dead(rows, row.family)
    case _ => true
  }

  ghost predicate SoleLive(rows: Table, row: Row) {
    forall i :: 0 <= i < |rows| && rows[i].family == row.family && rows[i].id != row.id ==> rows[i].revoked
  }

  lemma AcceptedIsSole(rows: Table, raw: Id, t: Millis)
    requires Chain(rows) && Judge(rows, raw, t).Accepted?
    ensures Known(rows, Judge(rows, raw, t).row.family) && SoleLive(rows, Judge(rows, raw, t).row)
  {
  }

  lemma ActSerial(c: Config, req: Request, pc: Pc, s: Tables, t: Millis)
    requires Chain(s.rows) && Sole(pc, s.rows)
    requires Enters(req) && pc.Opening? ==> !Known(s.rows, req.op.family)
    ensures var (s', pc') := Act(c, req, pc, s, t);
            Chain(s'.rows) && Sole(pc', s'.rows)
  {
    var (s', pc') := Act(c, req, pc, s, t);
    if req.op.RefreshOp? && pc.Start? && pc'.Loading? {
      AcceptedIsSole(s.rows, req.op.presented, t);
    } else if req.op.RefreshOp? && pc.Rotating? {
      var i :| 0 <= i < |s.rows| && s.rows[i].family == pc.row.family;
      assert s'.rows[i].family == pc.row.family;
    }
  }

  /** A step makes known only the family of a login or registration that saves its row, or one known already. */
  lemma ActKnown(c: Config, req: Request, pc: Pc, s: Tables, t: Millis, family: Id)
    requires Sole(pc, s.rows) && Known(Act(c, req, pc, s, t).0.rows, family)
    ensures Known(s.rows, family) || OpensInto(req, pc, family)
  {
  }

  /** Requests still to move have either not started or are the one under way. */
  ghost predicate Poised(g: Global, schedule: seq<Turn>) {
    forall i :: 0 <= i < |schedule| ==>
      && schedule[i].who < |g.pcs|
      && (g.pcs[schedule[i].who].Start?
          || (schedule[i].who == schedule[0].who && Sole(g.pcs[schedule[i].who], g.tables.rows)))
  }

  lemma TurnSerial(c: Config, reqs: seq<Request>, g: Global, schedule: seq<Turn>)
    requires schedule != [] && WellFormed(reqs, g, schedule)
    requires Chain(g.tables.rows) && OpeningsFresh(reqs, g) && OneByOne(schedule) && Poised(g, schedule)
    ensures var g' := TakeTurn(c, reqs, g, schedule[0]);
            Chain(g'.tables.rows) && OpeningsFresh(reqs, g') && Poised(g', schedule[1..])
  {
    var turn := schedule[0];
    var req, pc := reqs[turn.who], g.pcs[turn.who];
    var g' := TakeTurn(c, reqs, g, turn);
    assert Sole(pc, g.tables.rows);
    ActSerial(c, req, pc, g.tables, turn.at);
    forall j | 0 <= j < |reqs| && Enters(reqs[j]) && MayOpen(reqs[j], g'.pcs[j], reqs[j].op.family)
      ensures !Known(g'.tables.rows, reqs[j].op.family)
    {
      if Known(g'.tables.rows, reqs[j].op.family) { ActKnown(c, req, pc, g.tables, turn.at, reqs[j].op.family); }
    }
    var rest := schedule[1..];
    forall i | 0 <= i < |rest|
      ensures g'.pcs[rest[i].who].Start? || (rest[i].who == rest[0].who && Sole(g'.pcs[rest[i].who], g'.tables.rows))
    {
      assert rest[i] == schedule[i + 1];
      if rest[i].who == turn.who && i > 0 { assert schedule[1].who == schedule[0].who; }
    }
  }

  lemma {:induction false} SerialKeepsChain(c: Config, reqs: seq<Request>, g: Global, schedule: seq<Turn>)
    requires WellFormed(reqs, g, schedule)
    requires Chain(g.tables.rows) && OpeningsFresh(reqs, g) && OneByOne(schedule) && Poised(g, schedule)
    ensures Chain(Exec(c, reqs, g, schedule).tables.rows)
    decreases |schedule|
  {
    if schedule != [] {
      var rest := schedule[1..];
      TurnSerial(c, reqs, g, schedule);
      assert OneByOne(rest) by {
        forall a, b, d | 0 <= a < b < d < |rest| && rest[a].who == rest[d].who ensures rest[b].who == rest[a].who {
          assert rest[a] == schedule[a + 1] && rest[b] == schedule[b + 1] && rest[d] == schedule[d + 1];
        }
      }
      SerialKeepsChain(c, reqs, TakeTurn(c, reqs, g, schedule[0]), rest);
    }
  }

  lemma {:induction false} ChainOfOwn(user: Id, rows: Table)
    requires Chain(rows)
    ensures Chain(RowsOf(user, rows))
  {
    if rows != [] {
      var front, last := rows[..|rows| - 1], rows[|rows| - 1];
      assert forall i :: 0 <= i < |front| ==> front[i] == rows[i];
      ChainOfOwn(user, front);
      RowsOfMembers(user, front);
      var own := RowsOf(user, front);
      forall i | 0 <= i < |own| && own[i].family == last.family ensures own[i].revoked {
        assert own[i] in own;
        var k :| 0 <= k < |front| && front[k] == own[i];
        assert rows[k].revoked;
      }
    }
  }

  /** If one user's requests do not overlap one another, then however the requests of all other users
      interleave with them, await by await, that user's families are linear chains. */
  lemma NoOverlapKeepsChain(c: Config, owners: Owners, reqs: seq<Request>, g: Global, schedule: seq<Turn>, user: Id)
    requires Consistent(owners, reqs, g) && WellFormed(reqs, g, schedule)
    requires AllStart(g) && Chain(g.tables.rows) && OpeningsFresh(reqs, g)
    requires OneByOne(Own(reqs, user, schedule))
    ensures Chain(RowsOf(user, Exec(c, reqs, g, schedule).tables.rows))
  {
    var own := Own(reqs, user, schedule);
    Projection(c, owners, reqs, g, g, schedule, user);
    SerialKeepsChain(c, reqs, g, own);
    ChainOfOwn(user, Exec(c, reqs, g, own).tables.rows);
  }

  // ---------- accounts ----------

  predicate HasAccount(users: seq<User>, user: Id) {
    FindUser(users, user) >= 0
  }

  /** Accounts keep id and e-mail. */
  ghost predicate SameUsers(users: seq<User>, users': seq<User>) {
    |users| == |users'| && forall i :: 0 <= i < |users| ==> users'[i].id == users[i].id && users'[i].email == users[i].email
  }

  lemma {:induction false} SameEmails(users: seq<User>, users': seq<User>, email: string)
    requires SameUsers(users, users')
    ensures FindEmail(users', email) == FindEmail(users, email)
  {
    if users != [] { SameEmails(users[..|users| - 1], users'[..|users| - 1], email); }
  }

  lemma FindEmailAdded(users: seq<User>, added: User, email: string)
    ensures FindEmail(users + [added], email) ==
              if FindEmail(users, email) >= 0 then FindEmail(users, email)
              else if added.email == email then |users| else -1
  {
    assert (users + [added])[..|users|] == users;
  }

  /** A registration that may still create this account. */
  predicate MayCreate(req: Request, pc: Pc, user: Id) {
    req.op.RegisterOp? && (pc.Start? || pc.Creating?) && req.user == user
  }

  /** No step makes an account disappear, and only its registration makes one appear. */
  lemma ActAccounts(c: Config, req: Request, pc: Pc, s: Tables, t: Millis)
    ensures var users' := Act(c, req, pc, s, t).0.users;
            && (forall u: Id :: FindUser(s.users, u) >= 0 ==> FindUser(users', u) >= 0)
            && (forall u: Id :: FindUser(users', u) >= 0 && FindUser(s.users, u) < 0 ==> pc.Creating? && MayCreate(req, pc, u))
  {
    hide Act, FindEmail;
    ActUsers(c, req, pc, s, t);
    var users' := Act(c, req, pc, s, t).0.users;
    if |users'| == |s.users| {
      forall u: Id ensures FindUser(users', u) == FindUser(s.users, u) { SameFind(s.users, users', u); }
    } else {
      assert users'[..|s.users|] == s.users;
    }
  }

  /** No step frees an e-mail or an id. */
  lemma ActTaken(c: Config, req: Request, pc: Pc, s: Tables, t: Millis)
    ensures forall u: Id :: HasAccount(s.users, u) ==> HasAccount(Act(c, req, pc, s, t).0.users, u)
    ensures forall e: string :: FindByEmail(s.users, e) >= 0 ==> FindByEmail(Act(c, req, pc, s, t).0.users, e) >= 0
  {
    hide Act, FindEmail, FindUser;
    ActAccounts(c, req, pc, s, t);
    ActUsers(c, req, pc, s, t);
    var users' := Act(c, req, pc, s, t).0.users;
    forall e: string | FindByEmail(s.users, e) >= 0 ensures FindByEmail(users', e) >= 0 {
      if SameUsers(s.users, users') {
        SameEmails(s.users, users', Normalise(e));
      } else {
        FindEmailAdded(s.users, users'[|s.users|], Normalise(e));
      }
    }
  }

  // ---------- a rotation under way ----------

  /** The refresh has passed its checks and nothing will stop it from saving a live row. */
  ghost predicate Underway(req: Request, pc: Pc, users: seq<User>) {
    req.op.RefreshOp? && (pc.Rotating? || pc.Saving? || (pc.Loading? && FindUser(users, pc.row.userId) >= 0))
  }

  ghost predicate UnderwayIn(req: Request, pc: Pc, users: seq<User>, family: Id) {
    Underway(req, pc, users) && pc.row.family == family
  }

  /** The token at row `i` would be accepted now. */
  ghost predicate Acceptable(s: Tables, i: nat, presented: Id, t: Millis) {
    && i < |s.rows| && FindHash(s.rows, Sha256(presented)) == i
    && !s.rows[i].revoked && t <= s.rows[i].expiresAt && FindUser(s.users, s.rows[i].userId) >= 0
  }

  /** Left to itself, a rotation under way ends with a live row in its family. */
  lemma {:induction false} RotationCompletes(c: Config, reqs: seq<Request>, g: Global, who: nat, t: Millis)
    returns (rest: seq<Turn>)
    requires |g.pcs| == |reqs| && who < |reqs| && Underway(reqs[who], g.pcs[who], g.tables.users)
    ensures WellFormed(reqs, g, rest) && AllAt(rest, t)
    ensures var rows' := Exec(c, reqs, g, rest).tables.rows;
            && rows' != [] && !rows'[|rows'| - 1].revoked && rows'[|rows'| - 1].family == g.pcs[who].row.family
            && rows'[|rows'| - 1].userId == g.pcs[who].row.userId
    decreases Rank(g.pcs[who])
  {
    var turn := Turn(who, t);
    var g' := TakeTurn(c, reqs, g, turn);
    if g.pcs[who].Saving? {
      rest := [turn] + [];
      ExecCons(c, reqs, g, turn, []);
    } else {
      var more := RotationCompletes(c, reqs, g', who, t);
      rest := [turn] + more;
      ExecCons(c, reqs, g, turn, more);
    }
  }
}
