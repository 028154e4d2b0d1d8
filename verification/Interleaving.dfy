/** Requests that overlap: every `await` that reads or writes a table is a step of its own, and any
    request may take its next step at any moment. */
module Interleaving {
  import opened Basics
  import opened RefreshTable
  import opened World
  import opened Email

  datatype Tables = Tables(users: seq<User>, rows: Table, resets: seq<AuthToken>)

  /** A request on behalf of a user, with the identifiers it will draw. Presenting a token or an e-mail
      counts as a request on behalf of its owner, whoever presents it; a registration is on behalf of
      the account it will create. */
  datatype Request = Request(user: Id, op: Op)

  datatype Op =
    | RegisterOp(email: string, password: string, family: Id, id: Id, raw: Id, meta: RequestMeta)
    | LoginOp(email: string, password: string, family: Id, id: Id, raw: Id, meta: RequestMeta)
    | RefreshOp(presented: Id, id: Id, raw: Id, meta: RequestMeta)
    | LogoutOp(presented: Id)
    | LogoutAllOp
    | RevokeOp(rowId: Id)
    | ForgotOp(email: string, id: Id, raw: Id)
    | ResetOp(presented: Id, newPassword: string)
    | ChangeOp(current: string, newPassword: string)
    | SwitchOp(active: bool)   // the operator writes `isActive`

  /** Where a request stands: what it has read and is about to do. */
  datatype Pc =
    | Start
    | Creating
    | Opening(user: Id)
    | Replaying(family: Id)
    | Loading(row: Row)
    | Rotating(row: Row)
    | Saving(row: Row)
    | Revoking(id: Id)
    | Setting(record: AuthToken)
    | Marking(record: AuthToken)
    | Changing
    | Ending(user: Id)
    | Finished

  /** The request opens a family if it succeeds. */
  predicate Enters(req: Request) {
    req.op.RegisterOp? || req.op.LoginOp?
  }

  /** The credentials belong to an active account. */
  predicate Admits(users: seq<User>, email: string, password: string) {
    var at := FindByEmail(users, email);
    at >= 0 && users[at].isActive && Verify(users[at].passwordHash, password)
  }

  /** One step of a request at clock reading `t`. */
  function Act(c: Config, req: Request, pc: Pc, s: Tables, t: Millis): (Tables, Pc) {
    match (req.op, pc)
    // register: the e-mail is looked up, then the account is inserted under the two unique columns
    case (RegisterOp(email, _, _, _, _, _), Start) => (s, if FindByEmail(s.users, email) >= 0 then Finished else Creating)
    case (RegisterOp(email, password, _, _, _, _), Creating) =>
      if FindByEmail(s.users, email) >= 0 || FindUser(s.users, req.user) >= 0 then (s, Finished)
      else (s.(users := s.users + [User(req.user, Normalise(email), Argon2(password), true)]), Opening(req.user))
    // login: the credentials are checked, then the first row of the family is saved
    case (LoginOp(email, password, _, _, _, _), Start) =>
      var at := FindByEmail(s.users, email);
      (s, if Admits(s.users, email, password) then Opening(s.users[at].id) else Finished)
    case (RegisterOp(_, _, family, id, raw, meta), Opening(user)) =>
      (s.(rows := s.rows + [Mint(c, id, user, raw, family, meta, t)]), Finished)
    case (LoginOp(_, _, family, id, raw, meta), Opening(user)) =>
      (s.(rows := s.rows + [Mint(c, id, user, raw, family, meta, t)]), Finished)
    // refresh
    case (RefreshOp(presented, _, _, _), Start) =>
      (match Judge(s.rows, presented, t)
       case Reused(row) => (s, Replaying(row.family))
       case Accepted(row) => (s, Loading(row))
       case _ => (s, Finished))
    case (RefreshOp(_, _, _, _), Replaying(family)) => (s.(rows := RevokeWhere(s.rows, ByFamily(family))), Finished)
    case (RefreshOp(_, _, _, _), Loading(row)) => (s, if FindUser(s.users, row.userId) < 0 then Finished else Rotating(row))
    case (RefreshOp(_, _, _, _), Rotating(row)) => (s.(rows := RevokeWhere(s.rows, ById(row.id))), Saving(row))
    case (RefreshOp(_, id, raw, meta), Saving(row)) =>
      (s.(rows := s.rows + [Mint(c, id, row.userId, raw, row.family, meta, t)]), Finished)
    // logout, logoutAll, revokeSession
    case (LogoutOp(presented), Start) =>
      (s.(rows := RevokeWhere(s.rows, ByHashAndUser(Sha256(presented), req.user))), Finished)
    case (LogoutAllOp, Start) => (s.(rows := RevokeWhere(s.rows, LiveOfUser(req.user))), Finished)
    case (RevokeOp(rowId), Start) => (s, if FindOwned(s.rows, rowId, req.user) < 0 then Finished else Revoking(rowId))
    case (RevokeOp(_), Revoking(id)) => (s.(rows := RevokeWhere(s.rows, ById(id))), Finished)
    // forgotPassword, resetPassword, changePassword
    case (ForgotOp(email, id, raw), Start) =>
      var at := FindByEmail(s.users, email);
      (if at < 0 then s
       else s.(resets := s.resets + [AuthToken(id, s.users[at].id, Sha256(raw), PasswordReset, false, t + RESET_TTL_MILLIS, t)]),
       Finished)
    case (ResetOp(presented, _), Start) =>
      var at := FindAuthToken(s.resets, Sha256(presented), PasswordReset);
      (s, if at < 0 || s.resets[at].used || s.resets[at].expiresAt < t then Finished else Setting(s.resets[at]))
    case (ResetOp(_, newPassword), Setting(record)) =>
      (s.(users := SetPassword(s.users, record.userId, Argon2(newPassword))), Marking(record))
    case (ResetOp(_, _), Marking(record)) => (s.(resets := MarkUsed(s.resets, record.id)), Ending(record.userId))
    case (ChangeOp(current, _), Start) =>
      var at := FindUser(s.users, req.user);
      (s, if at < 0 || !Verify(s.users[at].passwordHash, current) then Finished else Changing)
    case (ChangeOp(_, newPassword), Changing) =>
      (s.(users := SetPassword(s.users, req.user, Argon2(newPassword))), Ending(req.user))
    case (SwitchOp(active), Start) => (s.(users := SetActive(s.users, req.user, active)), Finished)
    case (_, Ending(user)) => (s.(rows := RevokeWhere(s.rows, LiveOfUser(user))), Finished)
    case _ => (s, Finished)
  }

  /** How many steps a request may still take. */
  function Rank(pc: Pc): nat {
    match pc
    case Start => 4
    case Loading(_) => 3
    case Setting(_) => 3
    case Rotating(_) => 2
    case Marking(_) => 2
    case Changing => 2
    case Creating => 2
    case Finished => 0
    case _ => 1
  }

  /** Every step brings its request nearer to its end, where it stays. */
  lemma ActRank(c: Config, req: Request, pc: Pc, s: Tables, t: Millis)
    ensures !pc.Finished? ==> Rank(Act(c, req, pc, s, t).1) < Rank(pc)
    ensures pc.Finished? ==> Act(c, req, pc, s, t) == (s, Finished)
  {
  }

  /** All requests in flight. */
  datatype Global = Global(tables: Tables, pcs: seq<Pc>)

  /** Request `who` takes its next step at clock reading `at`. */
  datatype Turn = Turn(who: nat, at: Millis)

  predicate WellFormed(reqs: seq<Request>, g: Global, schedule: seq<Turn>) {
    |g.pcs| == |reqs| && forall i :: 0 <= i < |schedule| ==> schedule[i].who < |reqs|
  }

  /** The clock never runs back, and no reading is before `now`. */
  ghost predicate Timely(schedule: seq<Turn>, now: Millis) {
    forall i, j :: 0 <= i <= j < |schedule| ==> now <= schedule[i].at <= schedule[j].at
  }

  /** A schedule that can happen from `now` on. */
  ghost predicate Feasible(reqs: seq<Request>, g: Global, schedule: seq<Turn>, now: Millis) {
    WellFormed(reqs, g, schedule) && Timely(schedule, now)
  }

  /** Every turn is taken at this clock reading. */
  ghost predicate AllAt(schedule: seq<Turn>, t: Millis) {
    forall i :: 0 <= i < |schedule| ==> schedule[i].at == t
  }

  lemma TimelyTail(schedule: seq<Turn>, now: Millis)
    requires schedule != [] && Timely(schedule, now)
    ensures now <= schedule[0].at && Timely(schedule[1..], schedule[0].at)
  {
    assert schedule[0].at <= schedule[0].at;
  }

  function TakeTurn(c: Config, reqs: seq<Request>, g: Global, turn: Turn): (g': Global)
    requires |g.pcs| == |reqs| && turn.who < |reqs|
    ensures |g'.pcs| == |reqs|
  {
    var (s, pc) := Act(c, reqs[turn.who], g.pcs[turn.who], g.tables, turn.at);
    Global(s, g.pcs[turn.who := pc])
  }

  function Exec(c: Config, reqs: seq<Request>, g: Global, schedule: seq<Turn>): (g': Global)
    requires WellFormed(reqs, g, schedule)
    ensures |g'.pcs| == |reqs|
    decreases |schedule|
  {
    if schedule == [] then g else Exec(c, reqs, TakeTurn(c, reqs, g, schedule[0]), schedule[1..])
  }

  /** The turns of one user's requests. */
  function Own(reqs: seq<Request>, user: Id, schedule: seq<Turn>): (r: seq<Turn>)
    requires forall i :: 0 <= i < |schedule| ==> schedule[i].who < |reqs|
    ensures forall i :: 0 <= i < |r| ==> r[i].who < |reqs| && reqs[r[i].who].user == user
  {
    if schedule == [] then []
    else if reqs[schedule[0].who].user == user then [schedule[0]] + Own(reqs, user, schedule[1..])
    else Own(reqs, user, schedule[1..])
  }

  lemma ExecCons(c: Config, reqs: seq<Request>, g: Global, turn: Turn, rest: seq<Turn>)
    requires WellFormed(reqs, g, [turn] + rest)
    ensures turn.who < |reqs| && WellFormed(reqs, TakeTurn(c, reqs, g, turn), rest)
    ensures Exec(c, reqs, g, [turn] + rest) == Exec(c, reqs, TakeTurn(c, reqs, g, turn), rest)
  {
    assert ([turn] + rest)[0] == turn && ([turn] + rest)[1..] == rest;
    assert forall i :: 0 <= i < |rest| ==> rest[i] == ([turn] + rest)[i + 1];
  }

  lemma {:induction false} ExecConcat(c: Config, reqs: seq<Request>, g: Global, first: seq<Turn>, second: seq<Turn>)
    requires WellFormed(reqs, g, first) && WellFormed(reqs, Exec(c, reqs, g, first), second)
    ensures WellFormed(reqs, g, first + second)
    ensures Exec(c, reqs, g, first + second) == Exec(c, reqs, Exec(c, reqs, g, first), second)
    decreases |first|
  {
    hide TakeTurn, Act;
    if first == [] {
      assert first + second == second;
    } else {
      ExecConcat(c, reqs, TakeTurn(c, reqs, g, first[0]), first[1..], second);
      assert (first + second)[1..] == first[1..] + second;
    }
  }

  // ---------- what a step does to each table ----------

  /** The step saves a row: the first of a family or that of a rotation. */
  predicate Saves(req: Request, pc: Pc) {
    (Enters(req) && pc.Opening?) || (req.op.RefreshOp? && pc.Saving?)
  }

  function SavedRow(c: Config, req: Request, pc: Pc, t: Millis): Row
    requires Saves(req, pc)
  {
    if pc.Opening? then Mint(c, req.op.id, pc.user, req.op.raw, req.op.family, req.op.meta, t)
    else Mint(c, req.op.id, pc.row.userId, req.op.raw, pc.row.family, req.op.meta, t)
  }

  /** The rows the step revokes, if it is one that does. */
  function Revokes(req: Request, pc: Pc): Option<Where> {
    match (req.op, pc)
    case (RefreshOp(_, _, _, _), Replaying(family)) => Some(ByFamily(family))
    case (RefreshOp(_, _, _, _), Rotating(row)) => Some(ById(row.id))
    case (LogoutOp(presented), Start) => Some(ByHashAndUser(Sha256(presented), req.user))
    case (LogoutAllOp, Start) => Some(LiveOfUser(req.user))
    case (RevokeOp(_), Revoking(id)) => Some(ById(id))
    case (_, Ending(user)) => Some(LiveOfUser(user))
    case _ => None
  }

  lemma ActRows(c: Config, req: Request, pc: Pc, s: Tables, t: Millis)
    ensures Saves(req, pc) ==> Revokes(req, pc).None?
    ensures Act(c, req, pc, s, t).0.rows ==
              if Saves(req, pc) then s.rows + [SavedRow(c, req, pc, t)]
              else if Revokes(req, pc).Some? then RevokeWhere(s.rows, Revokes(req, pc).value)
              else s.rows
  {
  }

  /** Only a registration adds an account, and nothing removes one or changes its id or e-mail. */
  lemma ActUsers(c: Config, req: Request, pc: Pc, s: Tables, t: Millis)
    ensures var users' := Act(c, req, pc, s, t).0.users;
            match (req.op, pc)
            case (RegisterOp(email, password, _, _, _, _), Creating) =>
              users' == if FindByEmail(s.users, email) >= 0 || FindUser(s.users, req.user) >= 0 then s.users
                        else s.users + [User(req.user, Normalise(email), Argon2(password), true)]
            case (ResetOp(_, newPassword), Setting(record)) => users' == SetPassword(s.users, record.userId, Argon2(newPassword))
            case (ChangeOp(_, newPassword), Changing) => users' == SetPassword(s.users, req.user, Argon2(newPassword))
            case (SwitchOp(active), Start) => users' == SetActive(s.users, req.user, active)
            case _ => users' == s.users
  {
  }

  lemma ActResets(c: Config, req: Request, pc: Pc, s: Tables, t: Millis)
    ensures var resets' := Act(c, req, pc, s, t).0.resets;
            match (req.op, pc)
            case (ForgotOp(email, id, raw), Start) =>
              var at := FindByEmail(s.users, email);
              resets' == if at < 0 then s.resets
                         else s.resets + [AuthToken(id, s.users[at].id, Sha256(raw), PasswordReset, false, t + RESET_TTL_MILLIS, t)]
            case (ResetOp(_, _), Marking(record)) => resets' == MarkUsed(s.resets, record.id)
            case _ => resets' == s.resets
  {
  }

  // ---------- to whom everything belongs ----------

  /** Who owns each identifier, issued or yet to be drawn, kind by kind. */
  datatype Owners = Owners(
    rowIds: map<Id, Id>, families: map<Id, Id>, refreshTokens: map<Id, Id>,
    resetIds: map<Id, Id>, resetTokens: map<Id, Id>, emails: map<string, Id>)

  predicate Owns<K>(kind: map<K, Id>, user: Id, key: K) {
    key in kind && kind[key] == user
  }

  /** The user's or nobody's. */
  predicate OwnsIfAny<K>(kind: map<K, Id>, user: Id, key: K) {
    key in kind ==> kind[key] == user
  }

  /** Ids are unique and every account has its own e-mail. */
  ghost predicate UsersOwned(owners: Owners, users: seq<User>) {
    && (forall i :: 0 <= i < |users| ==> Owns(owners.emails, users[i].id, users[i].email))
    && (forall i, j :: 0 <= i < j < |users| ==> users[i].id != users[j].id)
  }

  ghost predicate RowsOwned(owners: Owners, rows: Table) {
    forall i :: 0 <= i < |rows| ==>
      && Owns(owners.rowIds, rows[i].userId, rows[i].id) && Owns(owners.families, rows[i].userId, rows[i].family)
      && Owns(owners.refreshTokens, rows[i].userId, rows[i].tokenHash.raw)
  }

  ghost predicate ResetsOwned(owners: Owners, resets: seq<AuthToken>) {
    forall i :: 0 <= i < |resets| ==>
      Owns(owners.resetIds, resets[i].userId, resets[i].id) && Owns(owners.resetTokens, resets[i].userId, resets[i].tokenHash.raw)
  }

  /** What a request draws is its user's; what it presents is its user's or nobody's. */
  ghost predicate RequestOwned(owners: Owners, req: Request) {
    match req.op
    case RegisterOp(email, _, family, id, raw, _) =>
      && Owns(owners.families, req.user, family) && Owns(owners.rowIds, req.user, id)
      && Owns(owners.refreshTokens, req.user, raw) && Owns(owners.emails, req.user, Normalise(email))
    case LoginOp(email, _, family, id, raw, _) =>
      && Owns(owners.families, req.user, family) && Owns(owners.rowIds, req.user, id)
      && Owns(owners.refreshTokens, req.user, raw) && OwnsIfAny(owners.emails, req.user, Normalise(email))
    case RefreshOp(presented, id, raw, _) =>
      && Owns(owners.rowIds, req.user, id) && Owns(owners.refreshTokens, req.user, raw)
      && OwnsIfAny(owners.refreshTokens, req.user, presented)
    case ForgotOp(email, id, raw) =>
      && Owns(owners.resetIds, req.user, id) && Owns(owners.resetTokens, req.user, raw)
      && OwnsIfAny(owners.emails, req.user, Normalise(email))
    case ResetOp(presented, _) => OwnsIfAny(owners.resetTokens, req.user, presented)
    case _ => true
  }

  /** What a request has read is its user's. */
  ghost predicate PcOwned(owners: Owners, user: Id, pc: Pc) {
    match pc
    case Replaying(family) => Owns(owners.families, user, family)
    case Loading(row) => RowOwned(owners, user, row)
    case Rotating(row) => RowOwned(owners, user, row)
    case Saving(row) => RowOwned(owners, user, row)
    case Revoking(id) => Owns(owners.rowIds, user, id)
    case Setting(record) => record.userId == user && Owns(owners.resetIds, user, record.id)
    case Marking(record) => record.userId == user && Owns(owners.resetIds, user, record.id)
    case Ending(u) => u == user
    case Opening(u) => u == user
    case _ => true
  }

  ghost predicate TablesOwned(owners: Owners, s: Tables) {
    RowsOwned(owners, s.rows) && ResetsOwned(owners, s.resets) && UsersOwned(owners, s.users)
  }

  ghost predicate RowOwned(owners: Owners, user: Id, row: Row) {
    row.userId == user && Owns(owners.rowIds, user, row.id) && Owns(owners.families, user, row.family)
  }

  ghost predicate Consistent(owners: Owners, reqs: seq<Request>, g: Global) {
    && |g.pcs| == |reqs|
    && TablesOwned(owners, g.tables)
    && (forall r :: 0 <= r < |reqs| ==> RequestOwned(owners, reqs[r]))
    && (forall r :: 0 <= r < |reqs| ==> PcOwned(owners, reqs[r].user, g.pcs[r]))
  }

  /** A request never reads, and so never goes on to touch, what belongs to another user. */
  lemma ActPcOwned(c: Config, owners: Owners, req: Request, pc: Pc, s: Tables, t: Millis)
    requires TablesOwned(owners, s) && RequestOwned(owners, req) && PcOwned(owners, req.user, pc)
    ensures PcOwned(owners, req.user, Act(c, req, pc, s, t).1)
  {
    if req.op.RefreshOp? && pc.Start? {
      var at := FindHash(s.rows, Sha256(req.op.presented));
      if at >= 0 { assert s.rows[at].tokenHash.raw == req.op.presented; }
    }
    if req.op.ResetOp? && pc.Start? {
      var at := FindAuthToken(s.resets, Sha256(req.op.presented), PasswordReset);
      if at >= 0 { assert s.resets[at].tokenHash.raw == req.op.presented; }
    }
  }

  lemma ActTablesOwned(c: Config, owners: Owners, req: Request, pc: Pc, s: Tables, t: Millis)
    requires TablesOwned(owners, s) && RequestOwned(owners, req) && PcOwned(owners, req.user, pc)
    ensures TablesOwned(owners, Act(c, req, pc, s, t).0)
  {
    hide Act, FindEmail, Revokes;
    ActRows(c, req, pc, s, t);
    ActUsers(c, req, pc, s, t);
    ActResets(c, req, pc, s, t);
    if req.op.ForgotOp? { ForgotOwned(owners, req, s.users); }
  }

  lemma ForgotOwned(owners: Owners, req: Request, users: seq<User>)
    requires UsersOwned(owners, users) && RequestOwned(owners, req) && req.op.ForgotOp?
    ensures var at := FindByEmail(users, req.op.email);
            at >= 0 ==> users[at].id == req.user
  {
  }

  lemma ActConsistent(c: Config, owners: Owners, req: Request, pc: Pc, s: Tables, t: Millis)
    requires TablesOwned(owners, s) && RequestOwned(owners, req) && PcOwned(owners, req.user, pc)
    ensures var (s', pc') := Act(c, req, pc, s, t);
            TablesOwned(owners, s') && PcOwned(owners, req.user, pc')
  {
    hide Act, TablesOwned, RequestOwned, PcOwned;
    ActPcOwned(c, owners, req, pc, s, t);
    ActTablesOwned(c, owners, req, pc, s, t);
  }

  lemma TurnConsistent(c: Config, owners: Owners, reqs: seq<Request>, g: Global, turn: Turn)
    requires Consistent(owners, reqs, g) && turn.who < |reqs|
    ensures Consistent(owners, reqs, TakeTurn(c, reqs, g, turn))
  {
    ActConsistent(c, owners, reqs[turn.who], g.pcs[turn.who], g.tables, turn.at);
  }

  lemma {:induction false} ExecConsistent(c: Config, owners: Owners, reqs: seq<Request>, g: Global, schedule: seq<Turn>)
    requires Consistent(owners, reqs, g) && WellFormed(reqs, g, schedule)
    ensures Consistent(owners, reqs, Exec(c, reqs, g, schedule))
    decreases |schedule|
  {
    if schedule != [] {
      TurnConsistent(c, owners, reqs, g, schedule[0]);
      ExecConsistent(c, owners, reqs, TakeTurn(c, reqs, g, schedule[0]), schedule[1..]);
    }
  }

  // ---------- one user's part of the tables ----------

  function RowsOf(user: Id, rows: Table): Table {
    if rows == [] then []
    else
      var front := RowsOf(user, rows[..|rows| - 1]);
      if rows[|rows| - 1].userId == user then front + [rows[|rows| - 1]] else front
  }

  function ResetsOf(user: Id, resets: seq<AuthToken>): seq<AuthToken> {
    if resets == [] then []
    else
      var front := ResetsOf(user, resets[..|resets| - 1]);
      if resets[|resets| - 1].userId == user then front + [resets[|resets| - 1]] else front
  }

  function Account(users: seq<User>, user: Id): Option<User> {
    var at := FindUser(users, user);
    if at < 0 then None else Some(users[at])
  }

  /** The two states agree on everything that is the user's. */
  ghost predicate Agree(user: Id, s: Tables, s': Tables) {
    && RowsOf(user, s.rows) == RowsOf(user, s'.rows)
    && ResetsOf(user, s.resets) == ResetsOf(user, s'.resets)
    && Account(s.users, user) == Account(s'.users, user)
  }

  lemma RowsOfAppend(user: Id, rows: Table, row: Row)
    ensures RowsOf(user, rows + [row]) == RowsOf(user, rows) + (if row.userId == user then [row] else [])
  {
  }

  lemma ResetsOfAppend(user: Id, resets: seq<AuthToken>, record: AuthToken)
    ensures ResetsOf(user, resets + [record]) == ResetsOf(user, resets) + (if record.userId == user then [record] else [])
  {
  }

  lemma {:induction false} RowsOfRevoke(user: Id, rows: Table, where: Where)
    ensures RowsOf(user, RevokeWhere(rows, where)) == RevokeWhere(RowsOf(user, rows), where)
  {
    if rows != [] {
      var front, last := rows[..|rows| - 1], rows[|rows| - 1];
      RowsOfRevoke(user, front, where);
      assert RevokeWhere(rows, where)[..|rows| - 1] == RevokeWhere(front, where);
      assert RevokeWhere(RowsOf(user, front) + [last], where) ==
             RevokeWhere(RowsOf(user, front), where) + [last.(revoked := last.revoked || Matches(where, last))];
    }
  }

  lemma {:induction false} RowsOfMembers(user: Id, rows: Table)
    ensures forall x :: x in RowsOf(user, rows) <==> x in rows && x.userId == user
  {
    if rows != [] {
      RowsOfMembers(user, rows[..|rows| - 1]);
      assert rows == rows[..|rows| - 1] + [rows[|rows| - 1]];
    }
  }

  /** An update that matches none of the user's rows leaves the user's rows alone. */
  lemma RowsOfUntouched(user: Id, rows: Table, where: Where)
    requires forall x :: x in rows && x.userId == user ==> !Matches(where, x)
    ensures RowsOf(user, RevokeWhere(rows, where)) == RowsOf(user, rows)
  {
    var own := RowsOf(user, rows);
    RowsOfRevoke(user, rows, where);
    RowsOfMembers(user, rows);
    forall i | 0 <= i < |own| ensures RevokeWhere(own, where)[i] == own[i] {
      assert own[i] in own;
    }
  }

  lemma {:induction false} ResetsOfMark(user: Id, resets: seq<AuthToken>, id: Id)
    ensures ResetsOf(user, MarkUsed(resets, id)) == MarkUsed(ResetsOf(user, resets), id)
  {
    if resets != [] {
      var front, last := resets[..|resets| - 1], resets[|resets| - 1];
      ResetsOfMark(user, front, id);
      assert MarkUsed(resets, id)[..|resets| - 1] == MarkUsed(front, id);
      assert MarkUsed(ResetsOf(user, front) + [last], id) ==
             MarkUsed(ResetsOf(user, front), id) + [last.(used := last.used || last.id == id)];
    }
  }

  lemma {:induction false} ResetsOfUntouched(user: Id, resets: seq<AuthToken>, id: Id)
    requires forall i :: 0 <= i < |resets| && resets[i].userId == user ==> resets[i].id != id
    ensures ResetsOf(user, MarkUsed(resets, id)) == ResetsOf(user, resets)
  {
    if resets != [] {
      ResetsOfUntouched(user, resets[..|resets| - 1], id);
      assert MarkUsed(resets, id)[..|resets| - 1] == MarkUsed(resets[..|resets| - 1], id);
    }
  }

  lemma AccountSetPassword(users: seq<User>, id: Id, hash: PasswordHash, user: Id)
    ensures Account(SetPassword(users, id, hash), user) ==
              if id == user && Account(users, user).Some? then Some(Account(users, user).value.(passwordHash := hash))
              else Account(users, user)
  {
    SameFind(users, SetPassword(users, id, hash), user);
  }

  lemma AccountSetActive(users: seq<User>, id: Id, active: bool, user: Id)
    ensures Account(SetActive(users, id, active), user) ==
              if id == user && Account(users, user).Some? then Some(Account(users, user).value.(isActive := active))
              else Account(users, user)
  {
    SameFind(users, SetActive(users, id, active), user);
  }

  lemma AccountAdded(users: seq<User>, added: User, user: Id)
    requires FindUser(users, added.id) < 0
    ensures Account(users + [added], user) == if added.id == user then Some(added) else Account(users, user)
  {
    assert (users + [added])[..|users|] == users;
  }

  /** An e-mail that is the user's or nobody's finds the user's account or none. */
  lemma EmailInOwn(owners: Owners, users: seq<User>, user: Id, email: string)
    requires UsersOwned(owners, users) && OwnsIfAny(owners.emails, user, email)
    ensures var at, own := FindEmail(users, email), Account(users, user);
            (at >= 0 <==> own.Some? && own.value.email == email) && (at >= 0 ==> own == Some(users[at]))
  {
    var at := FindEmail(users, email);
    var own := FindUser(users, user);
    if at >= 0 { assert users[at].id == user; }
    if own >= 0 && users[own].email == email { assert Owns(owners.emails, user, email); }
  }

  /** The row of a hash that only the user's rows carry is found in the user's rows alone. */
  lemma {:induction false} FindInOwn(user: Id, rows: Table, h: TokenHash)
    requires forall i :: 0 <= i < |rows| && rows[i].tokenHash == h ==> rows[i].userId == user
    ensures var at, own := FindHash(rows, h), FindHash(RowsOf(user, rows), h);
            (at >= 0 <==> own >= 0) && (at >= 0 ==> rows[at] == RowsOf(user, rows)[own])
  {
    if rows != [] {
      var front, last := rows[..|rows| - 1], rows[|rows| - 1];
      FindInOwn(user, front, h);
      var own := RowsOf(user, front);
      assert (own + [last])[..|own|] == own;
    }
  }

  lemma JudgeInOwn(user: Id, rows: Table, raw: Id, t: Millis)
    requires forall i :: 0 <= i < |rows| && rows[i].tokenHash == Sha256(raw) ==> rows[i].userId == user
    ensures Judge(rows, raw, t) == Judge(RowsOf(user, rows), raw, t)
  {
  }

  lemma OwnedInOwn(user: Id, rows: Table, id: Id)
    ensures FindOwned(rows, id, user) >= 0 <==> exists x :: x in RowsOf(user, rows) && x.id == id
  {
  }

  lemma FindTokenAppend(resets: seq<AuthToken>, last: AuthToken, h: TokenHash, kind: AuthTokenType)
    ensures FindAuthToken(resets + [last], h, kind) ==
              if FindAuthToken(resets, h, kind) >= 0 then FindAuthToken(resets, h, kind)
              else if last.tokenHash == h && last.kind == kind then |resets| else -1
  {
  }

  lemma {:induction false} TokenInOwn(user: Id, resets: seq<AuthToken>, h: TokenHash, kind: AuthTokenType)
    requires forall i :: 0 <= i < |resets| && resets[i].tokenHash == h ==> resets[i].userId == user
    ensures var at, own := FindAuthToken(resets, h, kind), FindAuthToken(ResetsOf(user, resets), h, kind);
            (at >= 0 <==> own >= 0) && (at >= 0 ==> resets[at] == ResetsOf(user, resets)[own])
  {
    if resets != [] {
      var front, last := resets[..|resets| - 1], resets[|resets| - 1];
      TokenInOwn(user, front, h, kind);
      FindTokenAppend(ResetsOf(user, front), last, h, kind);
    }
  }

  // ---------- projection ----------

  /** What a step revokes is the user's own: the family-wide update of replay detection is harmless only
      because a family never spans two users. */
  lemma RevokesOwn(owners: Owners, req: Request, pc: Pc, rows: Table, user: Id)
    requires RowsOwned(owners, rows) && PcOwned(owners, req.user, pc) && req.user != user && Revokes(req, pc).Some?
    ensures forall x :: x in rows && x.userId == user ==> !Matches(Revokes(req, pc).value, x)
  {
  }

  lemma OthersRows(c: Config, owners: Owners, req: Request, pc: Pc, s: Tables, t: Millis, user: Id)
    requires RowsOwned(owners, s.rows) && PcOwned(owners, req.user, pc) && req.user != user
    ensures RowsOf(user, Act(c, req, pc, s, t).0.rows) == RowsOf(user, s.rows)
  {
    hide Act, RowsOf, Revokes, RowsOwned, Matches;
    ActRows(c, req, pc, s, t);
    if Saves(req, pc) {
      RowsOfAppend(user, s.rows, SavedRow(c, req, pc, t));
    } else if Revokes(req, pc).Some? {
      RevokesOwn(owners, req, pc, s.rows, user);
      RowsOfUntouched(user, s.rows, Revokes(req, pc).value);
    }
  }

  lemma OthersResets(c: Config, owners: Owners, req: Request, pc: Pc, s: Tables, t: Millis, user: Id)
    requires TablesOwned(owners, s) && RequestOwned(owners, req) && PcOwned(owners, req.user, pc) && req.user != user
    ensures ResetsOf(user, Act(c, req, pc, s, t).0.resets) == ResetsOf(user, s.resets)
  {
    hide Act, ResetsOf, RowsOwned, MarkUsed, FindEmail;
    ActResets(c, req, pc, s, t);
    match (req.op, pc)
    case (ForgotOp(email, id, raw), Start) =>
      EmailInOwn(owners, s.users, req.user, Normalise(email));
      ResetsOfAppend(user, s.resets, AuthToken(id, req.user, Sha256(raw), PasswordReset, false, t + RESET_TTL_MILLIS, t));
    case (ResetOp(_, _), Marking(record)) => ResetsOfUntouched(user, s.resets, record.id);
    case _ =>
  }

  lemma OthersAccount(c: Config, owners: Owners, req: Request, pc: Pc, s: Tables, t: Millis, user: Id)
    requires PcOwned(owners, req.user, pc) && req.user != user
    ensures Account(Act(c, req, pc, s, t).0.users, user) == Account(s.users, user)
  {
    hide Act, Account, SetPassword, SetActive, FindUser, FindEmail;
    ActUsers(c, req, pc, s, t);
    match (req.op, pc)
    case (RegisterOp(email, password, _, _, _, _), Creating) =>
      if FindUser(s.users, req.user) < 0 { AccountAdded(s.users, User(req.user, Normalise(email), Argon2(password), true), user); }
    case (ResetOp(_, newPassword), Setting(record)) => AccountSetPassword(s.users, record.userId, Argon2(newPassword), user);
    case (ChangeOp(_, newPassword), Changing) => AccountSetPassword(s.users, req.user, Argon2(newPassword), user);
    case (SwitchOp(active), Start) => AccountSetActive(s.users, req.user, active, user);
    case _ =>
  }

  /** A step of another user's request leaves everything of this user as it was. */
  lemma OthersStep(c: Config, owners: Owners, req: Request, pc: Pc, s: Tables, t: Millis, user: Id)
    requires TablesOwned(owners, s) && RequestOwned(owners, req) && PcOwned(owners, req.user, pc) && req.user != user
    ensures Agree(user, Act(c, req, pc, s, t).0, s)
  {
    hide Act, RowsOf, ResetsOf, Account;
    OthersRows(c, owners, req, pc, s, t, user);
    OthersResets(c, owners, req, pc, s, t, user);
    OthersAccount(c, owners, req, pc, s, t, user);
  }

  lemma OwnRows(c: Config, req: Request, pc: Pc, s: Tables, s': Tables, t: Millis)
    requires RowsOf(req.user, s.rows) == RowsOf(req.user, s'.rows)
    ensures RowsOf(req.user, Act(c, req, pc, s, t).0.rows) == RowsOf(req.user, Act(c, req, pc, s', t).0.rows)
  {
    hide Act, RowsOf, Revokes;
    ActRows(c, req, pc, s, t);
    ActRows(c, req, pc, s', t);
    if Saves(req, pc) {
      RowsOfAppend(req.user, s.rows, SavedRow(c, req, pc, t));
      RowsOfAppend(req.user, s'.rows, SavedRow(c, req, pc, t));
    } else if Revokes(req, pc).Some? {
      BothRevoke(req.user, s.rows, s'.rows, Revokes(req, pc).value);
    }
  }

  lemma OwnResets(c: Config, owners: Owners, req: Request, pc: Pc, s: Tables, s': Tables, t: Millis)
    requires TablesOwned(owners, s) && TablesOwned(owners, s') && RequestOwned(owners, req) && Agree(req.user, s, s')
    ensures ResetsOf(req.user, Act(c, req, pc, s, t).0.resets) == ResetsOf(req.user, Act(c, req, pc, s', t).0.resets)
  {
    hide Act, RowsOf, ResetsOf, RowsOwned, MarkUsed, FindEmail;
    var user := req.user;
    ActResets(c, req, pc, s, t);
    ActResets(c, req, pc, s', t);
    match (req.op, pc)
    case (ForgotOp(email, id, raw), Start) =>
      EmailInOwn(owners, s.users, user, Normalise(email));
      EmailInOwn(owners, s'.users, user, Normalise(email));
      ResetsOfAppend(user, s.resets, AuthToken(id, user, Sha256(raw), PasswordReset, false, t + RESET_TTL_MILLIS, t));
      ResetsOfAppend(user, s'.resets, AuthToken(id, user, Sha256(raw), PasswordReset, false, t + RESET_TTL_MILLIS, t));
    case (ResetOp(_, _), Marking(record)) =>
      ResetsOfMark(user, s.resets, record.id);
      ResetsOfMark(user, s'.resets, record.id);
    case _ =>
  }

  lemma OwnAccount(c: Config, owners: Owners, req: Request, pc: Pc, s: Tables, s': Tables, t: Millis)
    requires TablesOwned(owners, s) && TablesOwned(owners, s') && RequestOwned(owners, req)
    requires PcOwned(owners, req.user, pc) && Agree(req.user, s, s')
    ensures Account(Act(c, req, pc, s, t).0.users, req.user) == Account(Act(c, req, pc, s', t).0.users, req.user)
  {
    hide Act, RowsOf, ResetsOf, SetPassword, SetActive, FindUser, FindEmail, RowsOwned, ResetsOwned;
    var user := req.user;
    ActUsers(c, req, pc, s, t);
    ActUsers(c, req, pc, s', t);
    match (req.op, pc)
    case (RegisterOp(email, password, _, _, _, _), Creating) => BothRegister(owners, req, s, s');
    case (ResetOp(_, newPassword), Setting(record)) =>
      AccountSetPassword(s.users, record.userId, Argon2(newPassword), user);
      AccountSetPassword(s'.users, record.userId, Argon2(newPassword), user);
    case (ChangeOp(_, newPassword), Changing) =>
      AccountSetPassword(s.users, user, Argon2(newPassword), user);
      AccountSetPassword(s'.users, user, Argon2(newPassword), user);
    case (SwitchOp(active), Start) =>
      AccountSetActive(s.users, user, active, user);
      AccountSetActive(s'.users, user, active, user);
    case _ =>
  }

  /** Whether the insert of a registration succeeds depends only on whether the user has an account. */
  lemma BothRegister(owners: Owners, req: Request, s: Tables, s': Tables)
    requires TablesOwned(owners, s) && TablesOwned(owners, s') && RequestOwned(owners, req)
    requires req.op.RegisterOp? && Account(s.users, req.user) == Account(s'.users, req.user)
    ensures var (email, added) := (req.op.email, User(req.user, Normalise(req.op.email), Argon2(req.op.password), true));
            && (FindByEmail(s.users, email) >= 0 <==> FindByEmail(s'.users, email) >= 0)
            && (FindUser(s.users, req.user) >= 0 <==> FindUser(s'.users, req.user) >= 0)
            && (FindUser(s.users, req.user) < 0 ==>
                  Account(s.users + [added], req.user) == Account(s'.users + [added], req.user) == Some(added))
  {
    hide FindUser, FindEmail;
    var added := User(req.user, Normalise(req.op.email), Argon2(req.op.password), true);
    EmailInOwn(owners, s.users, req.user, added.email);
    EmailInOwn(owners, s'.users, req.user, added.email);
    if FindUser(s.users, req.user) < 0 {
      AccountAdded(s.users, added, req.user);
      AccountAdded(s'.users, added, req.user);
    }
  }

  lemma OwnStart(c: Config, owners: Owners, req: Request, s: Tables, s': Tables, t: Millis)
    requires TablesOwned(owners, s) && TablesOwned(owners, s') && RequestOwned(owners, req) && Agree(req.user, s, s')
    ensures Act(c, req, Start, s, t).1 == Act(c, req, Start, s', t).1
  {
    hide RowsOf, ResetsOf, FindHash, FindOwned, FindAuthToken, Matches, RevokeWhere, FindEmail, SetActive;
    var user := req.user;
    match req.op
    case RegisterOp(email, _, _, _, _, _) =>
      EmailInOwn(owners, s.users, user, Normalise(email));
      EmailInOwn(owners, s'.users, user, Normalise(email));
    case LoginOp(email, _, _, _, _, _) =>
      EmailInOwn(owners, s.users, user, Normalise(email));
      EmailInOwn(owners, s'.users, user, Normalise(email));
    case RefreshOp(presented, _, _, _) =>
      JudgeInOwn(user, s.rows, presented, t);
      JudgeInOwn(user, s'.rows, presented, t);
    case RevokeOp(rowId) =>
      OwnedInOwn(user, s.rows, rowId);
      OwnedInOwn(user, s'.rows, rowId);
    case ResetOp(presented, _) =>
      TokenInOwn(user, s.resets, Sha256(presented), PasswordReset);
      TokenInOwn(user, s'.resets, Sha256(presented), PasswordReset);
    case _ =>
  }

  lemma OwnContinue(c: Config, owners: Owners, req: Request, pc: Pc, s: Tables, s': Tables, t: Millis)
    requires TablesOwned(owners, s) && TablesOwned(owners, s') && RequestOwned(owners, req)
    requires !pc.Start? && PcOwned(owners, req.user, pc) && Agree(req.user, s, s')
    ensures Act(c, req, pc, s, t).1 == Act(c, req, pc, s', t).1
  {
    hide RowsOf, ResetsOf, RevokeWhere, MarkUsed, SetPassword, SetActive, FindEmail, TablesOwned, RequestOwned;
    if req.op.RegisterOp? && pc.Creating? { BothRegister(owners, req, s, s'); }
  }

  /** A step of the user's own request does the same in two states that agree on what is the user's. */
  lemma OwnStep(c: Config, owners: Owners, req: Request, pc: Pc, s: Tables, s': Tables, t: Millis)
    requires TablesOwned(owners, s) && TablesOwned(owners, s') && RequestOwned(owners, req)
    requires PcOwned(owners, req.user, pc) && Agree(req.user, s, s')
    ensures Act(c, req, pc, s, t).1 == Act(c, req, pc, s', t).1
    ensures Agree(req.user, Act(c, req, pc, s, t).0, Act(c, req, pc, s', t).0)
  {
    hide Act, RowsOf, ResetsOf, Account, TablesOwned, RequestOwned, PcOwned;
    OwnRows(c, req, pc, s, s', t);
    OwnResets(c, owners, req, pc, s, s', t);
    OwnAccount(c, owners, req, pc, s, s', t);
    if pc.Start? { OwnStart(c, owners, req, s, s', t); } else { OwnContinue(c, owners, req, pc, s, s', t); }
  }

  lemma BothRevoke(user: Id, rows: Table, rows': Table, where: Where)
    requires RowsOf(user, rows) == RowsOf(user, rows')
    ensures RowsOf(user, RevokeWhere(rows, where)) == RowsOf(user, RevokeWhere(rows', where))
  {
    RowsOfRevoke(user, rows, where);
    RowsOfRevoke(user, rows', where);
  }

  ghost predicate SamePcs(reqs: seq<Request>, user: Id, g: Global, h: Global)
    requires |g.pcs| == |reqs| && |h.pcs| == |reqs|
  {
    forall r :: 0 <= r < |reqs| && reqs[r].user == user ==> g.pcs[r] == h.pcs[r]
  }

  /** Per-user projection: under any interleaving of every user's steps, one user's rows, reset
      tokens, account and progress are exactly what that user's steps alone would have produced. */
  lemma {:induction false} Projection(
      c: Config, owners: Owners, reqs: seq<Request>, g: Global, h: Global, schedule: seq<Turn>, user: Id)
    requires Consistent(owners, reqs, g) && Consistent(owners, reqs, h) && WellFormed(reqs, g, schedule)
    requires Agree(user, g.tables, h.tables) && SamePcs(reqs, user, g, h)
    ensures var g', h' := Exec(c, reqs, g, schedule), Exec(c, reqs, h, Own(reqs, user, schedule));
            Agree(user, g'.tables, h'.tables) && SamePcs(reqs, user, g', h')
    decreases |schedule|
  {
    if schedule != [] {
      var turn := schedule[0];
      var req := reqs[turn.who];
      var g1 := TakeTurn(c, reqs, g, turn);
      TurnConsistent(c, owners, reqs, g, turn);
      if req.user == user {
        var own := Own(reqs, user, schedule);
        assert own[0] == turn && own[1..] == Own(reqs, user, schedule[1..]);
        TurnConsistent(c, owners, reqs, h, turn);
        OwnStep(c, owners, req, g.pcs[turn.who], g.tables, h.tables, turn.at);
        Projection(c, owners, reqs, g1, TakeTurn(c, reqs, h, turn), schedule[1..], user);
      } else {
        OthersStep(c, owners, req, g.pcs[turn.who], g.tables, turn.at, user);
        Projection(c, owners, reqs, g1, h, schedule[1..], user);
      }
    }
  }
}
