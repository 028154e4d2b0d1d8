/** Where the two models meet: requests that follow one another do what the atomic requests of a run
    do, and any moment of a run is a state from which requests may overlap. */
module SerialRuns {
  import opened Basics
  import opened RefreshTable
  import opened Email
  import opened World
  import opened Invariants
  import opened Runs
  import opened ResetTokens
  import opened Interleaving
  import opened Overlap
  import opened Forks

  // ---------- a request alone is the atomic request ----------

  /** The request runs to its end with nothing in between. */
  function Alone(c: Config, req: Request, pc: Pc, s: Tables, t: Millis): Tables
    decreases Rank(pc)
  {
    if pc.Finished? then s
    else
      ActRank(c, req, pc, s, t);
      var (s', pc') := Act(c, req, pc, s, t);
      Alone(c, req, pc', s', t)
  }

  function TablesOf(w: World): Tables {
    Tables(w.users, w.refreshTokens, w.authTokens)
  }

  lemma AloneStep(c: Config, req: Request, pc: Pc, s: Tables, t: Millis)
    ensures !pc.Finished? ==> Alone(c, req, pc, s, t) == Alone(c, req, Act(c, req, pc, s, t).1, Act(c, req, pc, s, t).0, t)
    ensures pc.Finished? ==> Alone(c, req, pc, s, t) == s
  {
  }

  /** What a refresh that found row `row` acceptable goes on to do. */
  lemma AcceptedAlone(c: Config, req: Request, row: Row, s: Tables, t: Millis)
    requires req.op.RefreshOp?
    ensures Alone(c, req, Loading(row), s, t) ==
              if FindUser(s.users, row.userId) < 0 then s
              else s.(rows := RevokeWhere(s.rows, ById(row.id))
                              + [Mint(c, req.op.id, row.userId, req.op.raw, row.family, req.op.meta, t)])
  {
    AloneStep(c, req, Loading(row), s, t);
    if FindUser(s.users, row.userId) >= 0 {
      AloneStep(c, req, Rotating(row), s, t);
      AloneStep(c, req, Saving(row), s.(rows := RevokeWhere(s.rows, ById(row.id))), t);
    }
  }

  /** Run alone, the awaits of a refresh add up to the atomic refresh. */
  lemma RefreshAlone(c: Config, w: World, raw: Id, meta: RequestMeta, user: Id)
    ensures Alone(c, Request(user, RefreshOp(raw, w.next + 2, w.next + 1, meta)), Start, TablesOf(w), w.now)
              == TablesOf(Refresh(c, w, raw, meta).0)
  {
    var req := Request(user, RefreshOp(raw, w.next + 2, w.next + 1, meta));
    var s := TablesOf(w);
    AloneStep(c, req, Start, s, w.now);
    match Judge(s.rows, raw, w.now)
    case Accepted(row) =>
      AcceptedAlone(c, req, row, s, w.now);
      AtomicRefreshTables(c, w, raw, meta);
    case Reused(row) => AloneStep(c, req, Replaying(row.family), s, w.now);
    case _ =>
  }

  lemma AtomicRefreshTables(c: Config, w: World, raw: Id, meta: RequestMeta)
    requires Judge(w.refreshTokens, raw, w.now).Accepted?
    ensures var row := Judge(w.refreshTokens, raw, w.now).row;
            TablesOf(Refresh(c, w, raw, meta).0) ==
              if FindUser(w.users, row.userId) < 0 then TablesOf(w)
              else TablesOf(w).(rows := RevokeWhere(w.refreshTokens, ById(row.id))
                                        + [Mint(c, w.next + 2, row.userId, w.next + 1, row.family, meta, w.now)])
  {
  }

  /** So do those of a reset and of a password change. */
  lemma ResetAlone(c: Config, w: World, raw: Id, newPassword: string, user: Id)
    ensures Alone(c, Request(user, ResetOp(raw, newPassword)), Start, TablesOf(w), w.now)
              == TablesOf(ResetPassword(w, raw, newPassword).0)
  {
    var req := Request(user, ResetOp(raw, newPassword));
    var s := TablesOf(w);
    var at := FindAuthToken(s.resets, Sha256(raw), PasswordReset);
    AloneStep(c, req, Start, s, w.now);
    if !(at < 0 || s.resets[at].used || s.resets[at].expiresAt < w.now) {
      var record := s.resets[at];
      var s1 := s.(users := SetPassword(s.users, record.userId, Argon2(newPassword)));
      var s2 := s1.(resets := MarkUsed(s1.resets, record.id));
      AloneStep(c, req, Setting(record), s, w.now);
      AloneStep(c, req, Marking(record), s1, w.now);
      AloneStep(c, req, Ending(record.userId), s2, w.now);
    }
  }

  lemma ChangeAlone(c: Config, w: World, user: Id, current: string, newPassword: string)
    ensures Alone(c, Request(user, ChangeOp(current, newPassword)), Start, TablesOf(w), w.now)
              == TablesOf(ChangePassword(w, user, current, newPassword).0)
  {
  }

  /** Run alone, a login whose credentials are valid is the atomic login; otherwise it does nothing. */
  lemma LoginAlone(c: Config, w: World, email: string, password: string, family: Id, id: Id, raw: Id, meta: RequestMeta, user: Id)
    ensures var (req, cred) := (Request(user, LoginOp(email, password, family, id, raw, meta)), ValidateCredentials(w, email, password));
            Alone(c, req, Start, TablesOf(w), w.now) ==
              if cred.None? then TablesOf(w)
              else TablesOf(w).(rows := w.refreshTokens + [Mint(c, id, cred.value.id, raw, family, meta, w.now)])
  {
    var req := Request(user, LoginOp(email, password, family, id, raw, meta));
    AloneStep(c, req, Start, TablesOf(w), w.now);
    if Admits(w.users, email, password) {
      AloneStep(c, req, Opening(w.users[FindByEmail(w.users, email)].id), TablesOf(w), w.now);
    }
  }

  /** And a registration, which creates the account and opens its first family if the e-mail is free. */
  lemma RegisterAlone(c: Config, w: World, email: string, password: string, family: Id, id: Id, raw: Id, meta: RequestMeta, user: Id)
    requires FindByEmail(w.users, email) < 0 ==> FindUser(w.users, user) < 0
    ensures var (req, added) := (Request(user, RegisterOp(email, password, family, id, raw, meta)),
                                 User(user, Normalise(email), Argon2(password), true));
            Alone(c, req, Start, TablesOf(w), w.now) ==
              if FindByEmail(w.users, email) >= 0 then TablesOf(w)
              else TablesOf(w).(users := w.users + [added], rows := w.refreshTokens + [Mint(c, id, user, raw, family, meta, w.now)])
  {
    hide FindEmail, FindUser;
    var req := Request(user, RegisterOp(email, password, family, id, raw, meta));
    AloneStep(c, req, Start, TablesOf(w), w.now);
    if FindByEmail(w.users, email) < 0 {
      AloneStep(c, req, Creating, TablesOf(w), w.now);
      AloneStep(c, req, Opening(user), TablesOf(w).(users := w.users + [User(user, Normalise(email), Argon2(password), true)]), w.now);
    }
  }

  /** And the requests of one or two steps. */
  lemma ShortAlone(c: Config, w: World, user: Id, raw: Id, rowId: Id, active: bool)
    ensures Alone(c, Request(user, LogoutOp(raw)), Start, TablesOf(w), w.now) == TablesOf(Logout(w, user, raw, None, None).0)
    ensures Alone(c, Request(user, LogoutAllOp), Start, TablesOf(w), w.now) == TablesOf(LogoutAll(w, user).0)
    ensures Alone(c, Request(user, RevokeOp(rowId)), Start, TablesOf(w), w.now) == TablesOf(RevokeSession(w, user, rowId).0)
    ensures Alone(c, Request(user, SwitchOp(active)), Start, TablesOf(w), w.now) ==
              TablesOf(w).(users := SetActive(w.users, user, active))
  {
  }

  lemma ForgotAlone(c: Config, w: World, email: string, id: Id, raw: Id, user: Id)
    ensures var at := FindByEmail(w.users, email);
            Alone(c, Request(user, ForgotOp(email, id, raw)), Start, TablesOf(w), w.now) ==
              if at < 0 then TablesOf(w)
              else TablesOf(w).(resets := w.authTokens + [AuthToken(id, w.users[at].id, Sha256(raw), PasswordReset, false,
                                                                    w.now + RESET_TTL_MILLIS, w.now)])
  {
  }

  // ---------- requests one after the other are atomic requests ----------

  /** One request taking its steps at these clock readings, with nothing in between. */
  function Through(c: Config, req: Request, pc: Pc, s: Tables, times: seq<Millis>): (Tables, Pc)
    decreases |times|
  {
    if times == [] then (s, pc)
    else
      var (s', pc') := Act(c, req, pc, s, times[0]);
      Through(c, req, pc', s', times[1..])
  }

  /** Enough steps at one clock reading are the request run to its end. */
  lemma {:induction false} ThroughIsAlone(c: Config, req: Request, pc: Pc, s: Tables, t: Millis, times: seq<Millis>)
    requires Rank(pc) <= |times| && forall i :: 0 <= i < |times| ==> times[i] == t
    ensures Through(c, req, pc, s, times) == (Alone(c, req, pc, s, t), Finished)
    decreases |times|
  {
    hide Act;
    if times == [] {
      AloneStep(c, req, pc, s, t);
    } else {
      ActRank(c, req, pc, s, t);
      AloneStep(c, req, pc, s, t);
      var (s', pc') := Act(c, req, pc, s, t);
      ThroughIsAlone(c, req, pc', s', t, times[1..]);
    }
  }

  /** Consecutive turns of one request. */
  datatype Block = Block(who: nat, times: seq<Millis>)

  function Turns(who: nat, times: seq<Millis>): seq<Turn> {
    if times == [] then [] else [Turn(who, times[0])] + Turns(who, times[1..])
  }

  function Flatten(order: seq<Block>): seq<Turn> {
    if order == [] then [] else Turns(order[0].who, order[0].times) + Flatten(order[1..])
  }

  /** The requests of a serial run, each from its start, one after the other. */
  function Serial(c: Config, reqs: seq<Request>, order: seq<Block>, s: Tables): Tables
    requires forall i :: 0 <= i < |order| ==> order[i].who < |reqs|
    decreases |order|
  {
    if order == [] then s
    else Serial(c, reqs, order[1..], Through(c, reqs[order[0].who], Start, s, order[0].times).0)
  }

  lemma {:induction false} BlockRuns(c: Config, reqs: seq<Request>, g: Global, who: nat, times: seq<Millis>)
    requires |g.pcs| == |reqs| && who < |reqs|
    ensures WellFormed(reqs, g, Turns(who, times))
    ensures var (s, pc) := Through(c, reqs[who], g.pcs[who], g.tables, times);
            Exec(c, reqs, g, Turns(who, times)) == Global(s, g.pcs[who := pc])
    decreases |times|
  {
    if times == [] {
      assert g.pcs[who := g.pcs[who]] == g.pcs;
    } else {
      var g' := TakeTurn(c, reqs, g, Turn(who, times[0]));
      BlockRuns(c, reqs, g', who, times[1..]);
      ExecCons(c, reqs, g, Turn(who, times[0]), Turns(who, times[1..]));
      var pc := Through(c, reqs[who], g.pcs[who], g.tables, times).1;
      assert g.pcs[who := g'.pcs[who]][who := pc] == g.pcs[who := pc];
    }
  }

  ghost predicate EachOnceFromStart(g: Global, order: seq<Block>) {
    && (forall i :: 0 <= i < |order| ==> order[i].who < |g.pcs| && g.pcs[order[i].who].Start?)
    && (forall i, j :: 0 <= i < j < |order| ==> order[i].who != order[j].who)
  }

  /** Turns taken block after block do what the serial run does. */
  lemma {:induction false} SerialExec(c: Config, reqs: seq<Request>, g: Global, order: seq<Block>)
    requires |g.pcs| == |reqs| && EachOnceFromStart(g, order)
    ensures WellFormed(reqs, g, Flatten(order))
    ensures Exec(c, reqs, g, Flatten(order)).tables == Serial(c, reqs, order, g.tables)
    decreases |order|
  {
    if order != [] {
      var first := Turns(order[0].who, order[0].times);
      BlockRuns(c, reqs, g, order[0].who, order[0].times);
      var g' := Exec(c, reqs, g, first);
      assert EachOnceFromStart(g', order[1..]);
      SerialExec(c, reqs, g', order[1..]);
      ExecConcat(c, reqs, g, first, Flatten(order[1..]));
    }
  }

  /** If one user's requests follow one another without overlap, then however the requests of all
      other users interleave with them, the user's rows, reset tokens and account are exactly those
      of the serial run of that user's requests. */
  lemma InterleavedIsSerial(
      c: Config, owners: Owners, reqs: seq<Request>, g: Global, schedule: seq<Turn>, user: Id, order: seq<Block>)
    requires Consistent(owners, reqs, g) && WellFormed(reqs, g, schedule)
    requires EachOnceFromStart(g, order) && Own(reqs, user, schedule) == Flatten(order)
    ensures Agree(user, Exec(c, reqs, g, schedule).tables, Serial(c, reqs, order, g.tables))
  {
    Projection(c, owners, reqs, g, g, schedule, user);
    SerialExec(c, reqs, g, order);
  }

  // ---------- a run is a serial schedule ----------

  /** The user who holds this refresh token, or reset token, in the end; anyone if nobody does. */
  function HolderOf(end: World, raw: Id): Id {
    var at := FindHash(end.refreshTokens, Sha256(raw));
    if at < 0 then 0 else end.refreshTokens[at].userId
  }

  function ResetHolderOf(end: World, raw: Id): Id {
    var at := FindAuthToken(end.authTokens, Sha256(raw), PasswordReset);
    if at < 0 then 0 else end.authTokens[at].userId
  }

  function EmailHolderOf(end: World, email: string): Id {
    var at := FindByEmail(end.users, email);
    if at < 0 then 0 else end.users[at].id
  }

  /** The request, step by step, that stands for an atomic request with an effect on the three tables.
      It draws what the run draws, or `spare` where the run draws nothing. */
  function RequestOf(c: Config, end: World, spare: Id, w: World, e: Event): Option<Request> {
    match e
    case RegisterReq(email, password, meta) =>
      Some(if FindByEmail(w.users, email) < 0 then Request(w.next, RegisterOp(email, password, w.next + 1, w.next + 4, w.next + 3, meta))
           else Request(EmailHolderOf(end, email), RegisterOp(email, password, spare, spare, spare, meta)))
    case LoginReq(email, password, meta) =>
      Some(Request(EmailHolderOf(end, email),
                   if ValidateCredentials(w, email, password).Some? then LoginOp(email, password, w.next, w.next + 3, w.next + 2, meta)
                   else LoginOp(email, password, spare, spare, spare, meta)))
    case RefreshReq(raw, meta) =>
      Some(Request(HolderOf(end, raw),
                   if Refresh(c, w, raw, meta).1.Pair? then RefreshOp(raw, w.next + 2, w.next + 1, meta)
                   else RefreshOp(raw, spare, spare, meta)))
    case ForgotReq(email) =>
      Some(Request(EmailHolderOf(end, email),
                   if FindByEmail(w.users, email) >= 0 then ForgotOp(email, w.next + 1, w.next) else ForgotOp(email, spare, spare)))
    case ResetReq(raw, newPassword) => Some(Request(ResetHolderOf(end, raw), ResetOp(raw, newPassword)))
    case LogoutReq(bearer, raw) => if Accepts(w, bearer) then Some(Request(bearer.sub, LogoutOp(raw))) else None
    case LogoutAllReq(bearer) => if Accepts(w, bearer) then Some(Request(bearer.sub, LogoutAllOp)) else None
    case ChangeReq(bearer, current, newPassword) =>
      if Accepts(w, bearer) then Some(Request(bearer.sub, ChangeOp(current, newPassword))) else None
    case RevokeReq(bearer, rowId) => if Accepts(w, bearer) then Some(Request(bearer.sub, RevokeOp(rowId))) else None
    case SetActiveByHand(userId, active) => Some(Request(userId, SwitchOp(active)))
    case _ => None
  }

  lemma RefusedRefreshAlone(c: Config, w: World, raw: Id, meta: RequestMeta, user: Id, spare: Id)
    requires !Refresh(c, w, raw, meta).1.Pair?
    ensures Alone(c, Request(user, RefreshOp(raw, spare, spare, meta)), Start, TablesOf(w), w.now)
              == TablesOf(Refresh(c, w, raw, meta).0)
  {
    var req := Request(user, RefreshOp(raw, spare, spare, meta));
    var s := TablesOf(w);
    AloneStep(c, req, Start, s, w.now);
    match Judge(s.rows, raw, w.now)
    case Accepted(row) => AcceptedAlone(c, req, row, s, w.now);
    case Reused(row) => AloneStep(c, req, Replaying(row.family), s, w.now);
    case _ =>
  }

  /** The tables after an atomic request, by the operation behind it. */
  lemma StepTables(c: Config, w: World, e: Event)
    ensures TablesOf(Step(c, w, e).0) ==
              match e
              case RegisterReq(email, password, meta) => TablesOf(Register(c, w, email, password, meta).0)
              case LoginReq(email, password, meta) =>
                var user := ValidateCredentials(w, email, password);
                if user.None? then TablesOf(w) else TablesOf(Login(c, w, user.value, meta).0)
              case RefreshReq(raw, meta) => TablesOf(Refresh(c, w, raw, meta).0)
              case ForgotReq(email) => TablesOf(ForgotPassword(w, email).0)
              case ResetReq(raw, newPassword) => TablesOf(ResetPassword(w, raw, newPassword).0)
              case LogoutReq(bearer, raw) =>
                if Accepts(w, bearer) then TablesOf(Logout(w, bearer.sub, raw, None, None).0) else TablesOf(w)
              case LogoutAllReq(bearer) => if Accepts(w, bearer) then TablesOf(LogoutAll(w, bearer.sub).0) else TablesOf(w)
              case ChangeReq(bearer, current, newPassword) =>
                if Accepts(w, bearer) then TablesOf(ChangePassword(w, bearer.sub, current, newPassword).0) else TablesOf(w)
              case RevokeReq(bearer, rowId) =>
                if Accepts(w, bearer) then TablesOf(RevokeSession(w, bearer.sub, rowId).0) else TablesOf(w)
              case SetActiveByHand(userId, active) => TablesOf(w).(users := SetActive(w.users, userId, active))
              case _ => TablesOf(w)
  {
    hide Register, Login, Refresh, ForgotPassword, ResetPassword, ChangePassword, RevokeSession, LogoutAll, RevokeWhere;
    hide ValidateCredentials, Accepts, SetActive;
  }

  lemma LoginTables(c: Config, w: World, user: UserEntity, meta: RequestMeta)
    ensures TablesOf(Login(c, w, user, meta).0) ==
              TablesOf(w).(rows := w.refreshTokens + [Mint(c, w.next + 3, user.id, w.next + 2, w.next, meta, w.now)])
  {
  }

  lemma RegisterTables(c: Config, w: World, email: string, password: string, meta: RequestMeta)
    ensures TablesOf(Register(c, w, email, password, meta).0) ==
              if FindByEmail(w.users, email) >= 0 then TablesOf(w)
              else TablesOf(w).(users := w.users + [User(w.next, Normalise(email), Argon2(password), true)],
                                rows := w.refreshTokens + [Mint(c, w.next + 4, w.next, w.next + 3, w.next + 1, meta, w.now)])
  {
  }

  lemma ForgotTables(w: World, email: string)
    ensures var at := FindByEmail(w.users, email);
            TablesOf(ForgotPassword(w, email).0) ==
              if at < 0 then TablesOf(w)
              else TablesOf(w).(resets := w.authTokens + [AuthToken(w.next + 1, w.users[at].id, Sha256(w.next), PasswordReset, false,
                                                                    w.now + RESET_TTL_MILLIS, w.now)])
  {
  }

  lemma NextIsFree(users: seq<User>, next: nat)
    requires UsersInv(users, next)
    ensures FindUser(users, next) < 0
  {
  }

  /** One atomic request leaves the tables that its step-by-step form, run alone, leaves. */
  lemma StepIsAlone(c: Config, end: World, spare: Id, w: World, e: Event)
    requires UsersInv(w.users, w.next)
    ensures var q := RequestOf(c, end, spare, w, e);
            TablesOf(Step(c, w, e).0) == if q.None? then TablesOf(w) else Alone(c, q.value, Start, TablesOf(w), w.now)
  {
    hide Alone, Act, Step, Register, Refresh, Login, ForgotPassword, ResetPassword, ChangePassword, RevokeSession, LogoutAll, Logout;
    hide TablesOf, ValidateCredentials, Accepts, HolderOf, ResetHolderOf, EmailHolderOf, FindByEmail, UsersInv, SetActive;
    StepTables(c, w, e);
    match e
    case RegisterReq(email, password, meta) =>
      NextIsFree(w.users, w.next);
      RegisterTables(c, w, email, password, meta);
      var q := RequestOf(c, end, spare, w, e).value;
      RegisterAlone(c, w, email, password, q.op.family, q.op.id, q.op.raw, meta, q.user);
    case LoginReq(email, password, meta) =>
      var user := ValidateCredentials(w, email, password);
      var q := RequestOf(c, end, spare, w, e).value;
      LoginAlone(c, w, email, password, q.op.family, q.op.id, q.op.raw, meta, q.user);
      if user.Some? { LoginTables(c, w, user.value, meta); }
    case RefreshReq(raw, meta) =>
      if Refresh(c, w, raw, meta).1.Pair? {
        RefreshAlone(c, w, raw, meta, HolderOf(end, raw));
      } else {
        RefusedRefreshAlone(c, w, raw, meta, HolderOf(end, raw), spare);
      }
    case ForgotReq(email) =>
      var q := RequestOf(c, end, spare, w, e).value;
      ForgotAlone(c, w, email, q.op.id, q.op.raw, q.user);
      ForgotTables(w, email);
    case ResetReq(raw, newPassword) => ResetAlone(c, w, raw, newPassword, ResetHolderOf(end, raw));
    case ChangeReq(bearer, current, newPassword) => ChangeAlone(c, w, bearer.sub, current, newPassword);
    case LogoutReq(bearer, raw) => ShortAlone(c, w, bearer.sub, raw, 0, true);
    case LogoutAllReq(bearer) => ShortAlone(c, w, bearer.sub, 0, 0, true);
    case RevokeReq(bearer, rowId) => ShortAlone(c, w, bearer.sub, 0, rowId, true);
    case SetActiveByHand(userId, active) => ShortAlone(c, w, userId, 0, 0, active);
    case _ =>
  }

  /** An identifier that nothing in the first `j` requests of the run draws or presents, nor any after it. */
  function Spare(r: Run, j: nat): (s: nat)
    requires j <= |r.events|
    ensures forall m :: 0 <= m < j && (r.events[m].RefreshReq? || r.events[m].ResetReq?) ==> r.events[m].raw < s
    ensures r.At(j).next <= s
  {
    if j == 0 then r.At(0).next
    else
      var s := Spare(r, j - 1);
      var e := r.events[j - 1];
      var s' := if (e.RefreshReq? || e.ResetReq?) && s <= e.raw then e.raw + 1 else s;
      if s' < r.At(j).next then r.At(j).next else s'
  }

  function StandIn(r: Run, m: nat, n: nat): Option<Request>
    requires m < n <= |r.events|
  {
    RequestOf(r.c, r.At(n), Spare(r, n) + m, r.At(m), r.events[m])
  }

  /** The requests of the run between two moments, `n` being the last moment of interest, and each of
      them as a block of steps at the moment it was served. */
  function Requests(r: Run, k: nat, j: nat, n: nat): seq<Request>
    requires k <= j <= n <= |r.events|
  {
    if j == k then []
    else
      var q := StandIn(r, j - 1, n);
      Requests(r, k, j - 1, n) + (if q.None? then [] else [q.value])
  }

  function Blocks(r: Run, k: nat, j: nat, n: nat): (order: seq<Block>)
    requires k <= j <= n <= |r.events|
    ensures |order| == |Requests(r, k, j, n)| && forall i :: 0 <= i < |order| ==> order[i].who == i
  {
    if j == k then []
    else if StandIn(r, j - 1, n).None? then Blocks(r, k, j - 1, n)
    else
      var t := r.At(j - 1).now;
      Blocks(r, k, j - 1, n) + [Block(|Requests(r, k, j - 1, n)|, [t, t, t, t])]
  }

  lemma {:induction false} SerialAppend(c: Config, reqs: seq<Request>, q: Request, order: seq<Block>, b: Block, s: Tables)
    requires (forall i :: 0 <= i < |order| ==> order[i].who < |reqs|) && b.who == |reqs|
    ensures Serial(c, reqs + [q], order + [b], s) == Through(c, q, Start, Serial(c, reqs, order, s), b.times).0
    decreases |order|
  {
    if order == [] {
      assert ([b])[1..] == [];
    } else {
      assert (order + [b])[1..] == order[1..] + [b];
      SerialAppend(c, reqs, q, order[1..], b, Through(c, reqs[order[0].who], Start, s, order[0].times).0);
    }
  }

  lemma BlockIsStep(r: Run, m: nat, n: nat)
    requires Proper(r) && m < n <= |r.events|
    ensures var q, t := StandIn(r, m, n), r.At(m).now;
            TablesOf(r.At(m + 1)) ==
              if q.None? then TablesOf(r.At(m)) else Through(r.c, q.value, Start, TablesOf(r.At(m)), [t, t, t, t]).0
  {
    hide Step, RequestOf, Alone, Through;
    var w := r.At(m);
    Runs.Reachable(r, m);
    StepIsAlone(r.c, r.At(n), Spare(r, n) + m, w, r.events[m]);
    var q := StandIn(r, m, n);
    if q.Some? { ThroughIsAlone(r.c, q.value, Start, TablesOf(w), w.now, [w.now, w.now, w.now, w.now]); }
  }

  /** The requests of a run taken one after the other, await by await, bring the tables from one moment
      of the run to the other. */
  lemma {:induction false} RunIsSerial(r: Run, k: nat, j: nat, n: nat)
    requires Proper(r) && k <= j <= n <= |r.events|
    ensures Serial(r.c, Requests(r, k, j, n), Blocks(r, k, j, n), TablesOf(r.At(k))) == TablesOf(r.At(j))
  {
    hide Step, StandIn, Through, TablesOf, Proper;
    if k < j {
      RunIsSerial(r, k, j - 1, n);
      BlockIsStep(r, j - 1, n);
      var reqs, order, q, t := Requests(r, k, j - 1, n), Blocks(r, k, j - 1, n), StandIn(r, j - 1, n), r.At(j - 1).now;
      if q.Some? {
        SerialAppend(r.c, reqs, q.value, order, Block(|reqs|, [t, t, t, t]), TablesOf(r.At(k)));
      } else {
        assert Requests(r, k, j, n) == reqs;
      }
    }
  }

  // ---------- who owns what, at any moment of a run ----------

  /** An identifier, or an e-mail, and the user it belongs to. */
  type Claim<K> = (K, Id)

  /** One user for each key. */
  ghost predicate Granted<K(!new)>(claims: seq<Claim<K>>) {
    forall i, j :: 0 <= i < |claims| && 0 <= j < |claims| && claims[i].0 == claims[j].0 ==> claims[i].1 == claims[j].1
  }

  /** Identifiers given out by now, one user for each. */
  ghost predicate Given(claims: seq<Claim<Id>>, next: nat) {
    Granted(claims) && forall i :: 0 <= i < |claims| ==> claims[i].0 < next
  }

  /** Identifiers not given out yet, one user for each. */
  ghost predicate New(claims: set<Claim<Id>>, next: nat) {
    && (forall p, q :: p in claims && q in claims && p.0 == q.0 ==> p.1 == q.1)
    && forall p :: p in claims ==> next <= p.0
  }

  /** One user for each key, the same as granted if it has been granted already. */
  ghost predicate Pending<K(!new)>(claims: set<Claim<K>>, granted: seq<Claim<K>>) {
    && (forall p, q :: p in claims && q in claims && p.0 == q.0 ==> p.1 == q.1)
    && (forall p, i :: p in claims && 0 <= i < |granted| && p.0 == granted[i].0 ==> p.1 == granted[i].1)
  }

  lemma Assign<K(!new)>(granted: seq<Claim<K>>, pending: set<Claim<K>>) returns (m: map<K, Id>)
    requires Granted(granted) && Pending(pending, granted)
    ensures forall i :: 0 <= i < |granted| ==> Owns(m, granted[i].1, granted[i].0)
    ensures forall p :: p in pending ==> Owns(m, p.1, p.0)
    ensures forall key :: key in m ==> (key, m[key]) in pending || exists i :: 0 <= i < |granted| && granted[i].0 == key
  {
    var claims := (set i | 0 <= i < |granted| :: granted[i]) + pending;
    assert forall i :: 0 <= i < |granted| ==> granted[i] in claims;
    assert forall p, q :: p in claims && q in claims && p.0 == q.0 ==> p.1 == q.1;
    m := map p | p in claims :: p.0 := p.1;
    assert forall p :: p in claims ==> Owns(m, p.1, p.0);
    assert forall key :: key in m ==> (key, m[key]) in claims;
  }

  function RowIdClaims(t: Table): seq<Claim<Id>> {
    seq(|t|, i requires 0 <= i < |t| => (t[i].id, t[i].userId))
  }

  function FamilyClaims(t: Table): seq<Claim<Id>> {
    seq(|t|, i requires 0 <= i < |t| => (t[i].family, t[i].userId))
  }

  function RefreshClaims(t: Table): seq<Claim<Id>> {
    seq(|t|, i requires 0 <= i < |t| => (t[i].tokenHash.raw, t[i].userId))
  }

  function ResetIdClaims(a: seq<AuthToken>): seq<Claim<Id>> {
    seq(|a|, i requires 0 <= i < |a| => (a[i].id, a[i].userId))
  }

  function ResetClaims(a: seq<AuthToken>): seq<Claim<Id>> {
    seq(|a|, i requires 0 <= i < |a| => (a[i].tokenHash.raw, a[i].userId))
  }

  function EmailClaims(users: seq<User>): seq<Claim<string>> {
    seq(|users|, i requires 0 <= i < |users| => (users[i].email, users[i].id))
  }

  lemma RowClaims(t: Table, next: nat)
    requires Distinct(t) && Below(t, next)
    ensures Given(RowIdClaims(t), next) && Given(RefreshClaims(t), next)
  {
    forall i, j | 0 <= i < |t| && 0 <= j < |t| && (t[i].id == t[j].id || t[i].tokenHash.raw == t[j].tokenHash.raw) ensures i == j {
      assert t[i].tokenHash == Sha256(t[i].tokenHash.raw) && t[j].tokenHash == Sha256(t[j].tokenHash.raw);
    }
  }

  lemma FamilyClaimsGiven(t: Table, next: nat)
    requires OneOwner(t) && Below(t, next)
    ensures Given(FamilyClaims(t), next)
  {
    assert forall i :: 0 <= i < |t| ==> FamilyClaims(t)[i] == (t[i].family, t[i].userId);
  }

  lemma ResetClaimsGiven(a: seq<AuthToken>, now: Millis, next: nat)
    requires ResetsInv(a, now, next)
    ensures Given(ResetIdClaims(a), next) && Given(ResetClaims(a), next)
  {
    forall i, j | 0 <= i < |a| && 0 <= j < |a| && (a[i].id == a[j].id || a[i].tokenHash.raw == a[j].tokenHash.raw) ensures i == j {
      assert a[i].tokenHash == Sha256(a[i].tokenHash.raw) && a[j].tokenHash == Sha256(a[j].tokenHash.raw);
    }
  }

  lemma EmailClaimsGranted(users: seq<User>, next: nat)
    requires UsersInv(users, next)
    ensures Granted(EmailClaims(users))
  {
    forall i, j | 0 <= i < |users| && 0 <= j < |users| && users[i].email == users[j].email ensures i == j {
    }
  }

  lemma AssignNew(given: seq<Claim<Id>>, drawn: set<Claim<Id>>, next: nat) returns (m: map<Id, Id>)
    requires Given(given, next) && New(drawn, next)
    ensures forall i :: 0 <= i < |given| ==> Owns(m, given[i].1, given[i].0)
    ensures forall p :: p in drawn ==> Owns(m, p.1, p.0)
    ensures forall key :: key in m ==> (key, m[key]) in drawn || exists i :: 0 <= i < |given| && given[i].0 == key
  {
    m := Assign(given, drawn);
  }

  /** Identifiers still to be drawn, and e-mails still to be registered, kind by kind, with their users. */
  datatype Draws = Draws(
    rowIds: set<Claim<Id>>, families: set<Claim<Id>>, refreshTokens: set<Claim<Id>>, resetIds: set<Claim<Id>>,
    resetTokens: set<Claim<Id>>, emails: set<Claim<string>>)

  ghost predicate AllPending(d: Draws, w: World) {
    && New(d.rowIds, w.next) && New(d.families, w.next) && New(d.refreshTokens, w.next)
    && New(d.resetIds, w.next) && New(d.resetTokens, w.next) && Pending(d.emails, EmailClaims(w.users))
  }

  ghost predicate OwnDraws(owners: Owners, d: Draws) {
    && (forall p :: p in d.rowIds ==> Owns(owners.rowIds, p.1, p.0))
    && (forall p :: p in d.families ==> Owns(owners.families, p.1, p.0))
    && (forall p :: p in d.refreshTokens ==> Owns(owners.refreshTokens, p.1, p.0))
    && (forall p :: p in d.resetIds ==> Owns(owners.resetIds, p.1, p.0))
    && (forall p :: p in d.resetTokens ==> Owns(owners.resetTokens, p.1, p.0))
    && (forall p :: p in d.emails ==> Owns(owners.emails, p.1, p.0))
  }

  /** Every token and e-mail that has an owner is in a table or still to be drawn or registered. */
  ghost predicate NoOthers(owners: Owners, w: World, d: Draws) {
    && (forall raw :: raw in owners.refreshTokens ==>
          (raw, owners.refreshTokens[raw]) in d.refreshTokens
          || exists i :: 0 <= i < |w.refreshTokens| && w.refreshTokens[i].tokenHash.raw == raw)
    && (forall raw :: raw in owners.resetTokens ==>
          (raw, owners.resetTokens[raw]) in d.resetTokens
          || exists i :: 0 <= i < |w.authTokens| && w.authTokens[i].tokenHash.raw == raw)
    && (forall email :: email in owners.emails ==>
          (email, owners.emails[email]) in d.emails || exists i :: 0 <= i < |w.users| && w.users[i].email == email)
  }

  /** In a reachable state everything in the tables, and everything still to be drawn, has one owner. */
  lemma OwnersExist(c: Config, w: World, d: Draws) returns (owners: Owners)
    requires WorldInv(c, w) && AllPending(d, w)
    ensures TablesOwned(owners, TablesOf(w)) && OwnDraws(owners, d) && NoOthers(owners, w, d)
  {
    hide Distinct, OneOwner, Below, Chain, Timed, Owned, IssuedInv, ResetsInv, Given, Granted, Pending, New;
    var t, a, us := w.refreshTokens, w.authTokens, w.users;
    RowClaims(t, w.next);
    FamilyClaimsGiven(t, w.next);
    ResetClaimsGiven(a, w.now, w.next);
    EmailClaimsGranted(us, w.next);
    var rowIds := AssignNew(RowIdClaims(t), d.rowIds, w.next);
    var families := AssignNew(FamilyClaims(t), d.families, w.next);
    var refreshTokens := AssignNew(RefreshClaims(t), d.refreshTokens, w.next);
    var resetIds := AssignNew(ResetIdClaims(a), d.resetIds, w.next);
    var resetTokens := AssignNew(ResetClaims(a), d.resetTokens, w.next);
    var emails := Assign(EmailClaims(us), d.emails);
    owners := Owners(rowIds, families, refreshTokens, resetIds, resetTokens, emails);
    forall i | 0 <= i < |t|
      ensures Owns(rowIds, t[i].userId, t[i].id) && Owns(families, t[i].userId, t[i].family)
      ensures Owns(refreshTokens, t[i].userId, t[i].tokenHash.raw)
    {
      assert RowIdClaims(t)[i].0 == t[i].id && FamilyClaims(t)[i].0 == t[i].family && RefreshClaims(t)[i].0 == t[i].tokenHash.raw;
    }
    forall i | 0 <= i < |a| ensures Owns(resetIds, a[i].userId, a[i].id) && Owns(resetTokens, a[i].userId, a[i].tokenHash.raw) {
      assert ResetIdClaims(a)[i].0 == a[i].id && ResetClaims(a)[i].0 == a[i].tokenHash.raw;
    }
    forall i | 0 <= i < |us| ensures Owns(emails, us[i].id, us[i].email) {
      assert EmailClaims(us)[i].0 == us[i].email;
    }
  }

  // ---------- requests may overlap from any moment of a run ----------

  /** The requests are about to start from this state. */
  function From(w: World, reqs: seq<Request>): Global {
    Global(TablesOf(w), seq(|reqs|, _ => Start))
  }

  /** What the requests will draw is new, and each draw is one request's. */
  ghost predicate DrawsNew(reqs: seq<Request>, next: nat) {
    && (forall r :: 0 <= r < |reqs| && (Mints(reqs[r]) || reqs[r].op.ForgotOp?) ==> next <= reqs[r].op.id && next <= reqs[r].op.raw)
    && (forall r :: 0 <= r < |reqs| && Enters(reqs[r]) ==> next <= reqs[r].op.family)
    && (forall a, b :: 0 <= a < b < |reqs| && Enters(reqs[a]) && Enters(reqs[b]) ==> reqs[a].op.family != reqs[b].op.family)
    && (forall a, b :: 0 <= a < b < |reqs| && Mints(reqs[a]) && Mints(reqs[b]) ==>
          reqs[a].op.id != reqs[b].op.id && reqs[a].op.raw != reqs[b].op.raw)
    && (forall a, b :: 0 <= a < b < |reqs| && reqs[a].op.ForgotOp? && reqs[b].op.ForgotOp? ==>
          reqs[a].op.id != reqs[b].op.id && reqs[a].op.raw != reqs[b].op.raw)
  }

  /** A token or e-mail that the request presents is its user's or nobody's, and will be. */
  ghost predicate PresentsOwn(w: World, reqs: seq<Request>, req: Request) {
    match req.op
    case RefreshOp(presented, _, _, _) =>
      && (forall i :: 0 <= i < |w.refreshTokens| && w.refreshTokens[i].tokenHash.raw == presented ==> w.refreshTokens[i].userId == req.user)
      && (forall d :: 0 <= d < |reqs| && Mints(reqs[d]) && reqs[d].op.raw == presented ==> reqs[d].user == req.user)
    case ResetOp(presented, _) =>
      && (forall i :: 0 <= i < |w.authTokens| && w.authTokens[i].tokenHash.raw == presented ==> w.authTokens[i].userId == req.user)
      && (forall d :: 0 <= d < |reqs| && reqs[d].op.ForgotOp? && reqs[d].op.raw == presented ==> reqs[d].user == req.user)
    case RegisterOp(email, _, _, _, _, _) => PresentsEmail(w, reqs, req.user, Normalise(email))
    case LoginOp(email, _, _, _, _, _) => PresentsEmail(w, reqs, req.user, Normalise(email))
    case ForgotOp(email, _, _) => PresentsEmail(w, reqs, req.user, Normalise(email))
    case _ => true
  }

  ghost predicate PresentsEmail(w: World, reqs: seq<Request>, user: Id, email: string) {
    && (forall i :: 0 <= i < |w.users| && w.users[i].email == email ==> w.users[i].id == user)
    && (forall d :: 0 <= d < |reqs| && reqs[d].op.RegisterOp? && Normalise(reqs[d].op.email) == email ==> reqs[d].user == user)
  }

  ghost predicate AllPresentOwn(w: World, reqs: seq<Request>) {
    forall r :: 0 <= r < |reqs| ==> PresentsOwn(w, reqs, reqs[r])
  }

  function DrawsOf(reqs: seq<Request>): Draws {
    Draws(set r | 0 <= r < |reqs| && Mints(reqs[r]) :: (reqs[r].op.id, reqs[r].user),
          set r | 0 <= r < |reqs| && Enters(reqs[r]) :: (reqs[r].op.family, reqs[r].user),
          set r | 0 <= r < |reqs| && Mints(reqs[r]) :: (reqs[r].op.raw, reqs[r].user),
          set r | 0 <= r < |reqs| && reqs[r].op.ForgotOp? :: (reqs[r].op.id, reqs[r].user),
          set r | 0 <= r < |reqs| && reqs[r].op.ForgotOp? :: (reqs[r].op.raw, reqs[r].user),
          set r | 0 <= r < |reqs| && reqs[r].op.RegisterOp? :: (Normalise(reqs[r].op.email), reqs[r].user))
  }

  lemma NewDraws(reqs: seq<Request>, next: nat)
    requires DrawsNew(reqs, next)
    ensures var d := DrawsOf(reqs);
            New(d.rowIds, next) && New(d.families, next) && New(d.refreshTokens, next) && New(d.resetIds, next) && New(d.resetTokens, next)
  {
  }

  lemma EmailsPending(w: World, reqs: seq<Request>)
    requires AllPresentOwn(w, reqs)
    ensures Pending(DrawsOf(reqs).emails, EmailClaims(w.users))
  {
    var emails := DrawsOf(reqs).emails;
    forall p | p in emails
      ensures exists r :: 0 <= r < |reqs| && reqs[r].op.RegisterOp? && p == (Normalise(reqs[r].op.email), reqs[r].user)
                          && PresentsEmail(w, reqs, p.1, p.0)
    {
      var r :| 0 <= r < |reqs| && reqs[r].op.RegisterOp? && p == (Normalise(reqs[r].op.email), reqs[r].user);
      assert PresentsOwn(w, reqs, reqs[r]);
    }
    forall p, i | p in emails && 0 <= i < |w.users| && p.0 == EmailClaims(w.users)[i].0 ensures p.1 == EmailClaims(w.users)[i].1 {
      assert w.users[i].email == p.0;
    }
  }

  /** These requests about to start at a moment of a run. */
  function SceneAt(r: Run, k: nat, reqs: seq<Request>): Outset
    requires k <= |r.events|
  {
    Scene(r.c, reqs, From(r.At(k), reqs), r.At(k).now)
  }

  /** At any moment of any run, requests that draw new identifiers find the tables as the theorems on
      overlapping requests want them. */
  lemma ReadyAtAnyMoment(r: Run, k: nat, reqs: seq<Request>)
    requires Proper(r) && k <= |r.events| && DrawsNew(reqs, r.At(k).next)
    ensures Ready(SceneAt(r, k, reqs)) && OneOwner(r.Table(k))
  {
    hide Step, Follows;
    Reachable(r, k);
    var g := From(r.At(k), reqs);
    forall i | 0 <= i < |r.Table(k)| ensures HasAccount(r.At(k).users, r.Table(k)[i].userId) {
      assert HasUser(r.At(k).users, r.Table(k)[i].userId);
    }
  }

  /** And if each presents only what is its user's, everything has one owner. */
  lemma ConsistentAtAnyMoment(r: Run, k: nat, reqs: seq<Request>) returns (owners: Owners)
    requires Proper(r) && k <= |r.events| && DrawsNew(reqs, r.At(k).next) && AllPresentOwn(r.At(k), reqs)
    ensures Consistent(owners, reqs, From(r.At(k), reqs))
  {
    hide Step, WorldInv, Follows, TablesOwned, PresentsOwn;
    var w, d := r.At(k), DrawsOf(reqs);
    Reachable(r, k);
    NewDraws(reqs, w.next);
    EmailsPending(w, reqs);
    owners := OwnersExist(r.c, w, d);
    forall q | 0 <= q < |reqs| ensures RequestOwned(owners, reqs[q]) {
      DrawnOwned(owners, reqs, q);
      PresentedOwned(owners, w, reqs, q);
    }
  }

  lemma DrawnOwned(owners: Owners, reqs: seq<Request>, q: nat)
    requires q < |reqs| && OwnDraws(owners, DrawsOf(reqs))
    ensures var (op, user) := (reqs[q].op, reqs[q].user);
            && (Mints(reqs[q]) ==> Owns(owners.rowIds, user, op.id) && Owns(owners.refreshTokens, user, op.raw))
            && (Enters(reqs[q]) ==> Owns(owners.families, user, op.family))
            && (op.ForgotOp? ==> Owns(owners.resetIds, user, op.id) && Owns(owners.resetTokens, user, op.raw))
            && (op.RegisterOp? ==> Owns(owners.emails, user, Normalise(op.email)))
  {
    var d, op, user := DrawsOf(reqs), reqs[q].op, reqs[q].user;
    if Mints(reqs[q]) { assert (op.id, user) in d.rowIds && (op.raw, user) in d.refreshTokens; }
    if Enters(reqs[q]) { assert (op.family, user) in d.families; }
    if op.ForgotOp? { assert (op.id, user) in d.resetIds && (op.raw, user) in d.resetTokens; }
    if op.RegisterOp? { assert (Normalise(op.email), user) in d.emails; }
  }

  lemma PresentedOwned(owners: Owners, w: World, reqs: seq<Request>, q: nat)
    requires q < |reqs| && PresentsOwn(w, reqs, reqs[q]) && NoOthers(owners, w, DrawsOf(reqs)) && TablesOwned(owners, TablesOf(w))
    ensures match reqs[q].op
            case RefreshOp(presented, _, _, _) => OwnsIfAny(owners.refreshTokens, reqs[q].user, presented)
            case ResetOp(presented, _) => OwnsIfAny(owners.resetTokens, reqs[q].user, presented)
            case LoginOp(email, _, _, _, _, _) => OwnsIfAny(owners.emails, reqs[q].user, Normalise(email))
            case ForgotOp(email, _, _) => OwnsIfAny(owners.emails, reqs[q].user, Normalise(email))
            case _ => true
  {
    match reqs[q].op
    case RefreshOp(raw, _, _, _) =>
      if i :| 0 <= i < |w.refreshTokens| && w.refreshTokens[i].tokenHash.raw == raw {
        assert Owns(owners.refreshTokens, w.refreshTokens[i].userId, raw);
      }
    case ResetOp(raw, _) =>
      if i :| 0 <= i < |w.authTokens| && w.authTokens[i].tokenHash.raw == raw {
        assert Owns(owners.resetTokens, w.authTokens[i].userId, raw);
      }
    case LoginOp(email, _, _, _, _, _) => EmailOwned(owners, w, reqs, reqs[q].user, Normalise(email));
    case ForgotOp(email, _, _) => EmailOwned(owners, w, reqs, reqs[q].user, Normalise(email));
    case _ =>
  }

  lemma EmailOwned(owners: Owners, w: World, reqs: seq<Request>, user: Id, email: string)
    requires PresentsEmail(w, reqs, user, email) && NoOthers(owners, w, DrawsOf(reqs)) && UsersOwned(owners, w.users)
    ensures OwnsIfAny(owners.emails, user, email)
  {
    if i :| 0 <= i < |w.users| && w.users[i].email == email { assert Owns(owners.emails, w.users[i].id, email); }
  }

  /** So from every moment of every run the chains survive every schedule exactly when no two of the
      refreshes present one token that is live and unexpired or can come to be. */
  lemma ChainIffAtAnyMoment(r: Run, k: nat, reqs: seq<Request>)
    requires Proper(r) && k <= |r.events| && DrawsNew(reqs, r.At(k).next) && Settled(reqs, From(r.At(k), reqs))
    ensures AlwaysChain(SceneAt(r, k, reqs)) <==> NoneCompete(SceneAt(r, k, reqs))
  {
    ReadyAtAnyMoment(r, k, reqs);
    ChainUnderOverlapIff(SceneAt(r, k, reqs));
  }

  /** And if nobody presents a token still to be drawn, exactly when no two present one token that is live
      and unexpired at that moment. */
  lemma NoSharedTokenAtAnyMoment(r: Run, k: nat, reqs: seq<Request>)
    requires Proper(r) && k <= |r.events| && DrawsNew(reqs, r.At(k).next) && NoForeknowledge(reqs)
    ensures AlwaysChain(SceneAt(r, k, reqs)) <==>
              forall a: nat, b: nat :: !ShareLiveToken(reqs, From(r.At(k), reqs), r.At(k).now, a, b)
  {
    ReadyAtAnyMoment(r, k, reqs);
    ChainUnderOverlapIffNoSharedToken(SceneAt(r, k, reqs));
  }

  // ---------- the requests of a run, interleaved ----------

  /** The identifiers that the stand-ins for refused requests would draw. */
  ghost function SpareDraws(r: Run, k: nat, n: nat): set<Claim<Id>>
    requires k <= n <= |r.events|
  {
    set m | k <= m < n && StandIn(r, m, n).Some? :: (Spare(r, n) + m, StandIn(r, m, n).value.user)
  }

  ghost function SparesOf(r: Run, k: nat, n: nat): Draws
    requires k <= n <= |r.events|
  {
    var spare := SpareDraws(r, k, n);
    Draws(spare, spare, spare, spare, spare, {})
  }

  /** Who owns what at moment `n` of a run, the spare identifiers included. */
  ghost predicate OwnersOfRun(owners: Owners, r: Run, k: nat, n: nat)
    requires k <= n <= |r.events|
  {
    TablesOwned(owners, TablesOf(r.At(n))) && OwnDraws(owners, SparesOf(r, k, n)) && NoOthers(owners, r.At(n), SparesOf(r, k, n))
  }

  lemma OwnersOfRunExist(r: Run, k: nat, n: nat) returns (owners: Owners)
    requires Proper(r) && k <= n <= |r.events|
    ensures OwnersOfRun(owners, r, k, n)
  {
    hide Step, WorldInv, Follows, StandIn;
    Reachable(r, n);
    owners := OwnersExist(r.c, r.At(n), SparesOf(r, k, n));
  }

  /** A presented token that has an owner in the end is presented on behalf of that owner. */
  lemma TokenPresented(r: Run, k: nat, m: nat, n: nat, owners: Owners)
    requires Proper(r) && k <= m < n <= |r.events| && OwnersOfRun(owners, r, k, n) && r.events[m].RefreshReq?
    ensures OwnsIfAny(owners.refreshTokens, HolderOf(r.At(n), r.events[m].raw), r.events[m].raw)
  {
    hide Step, StandIn, Follows, ResetsOwned, UsersOwned;
    Reachable(r, n);
    var t, raw := r.Table(n), r.events[m].raw;
    if raw in owners.refreshTokens {
      assert raw < Spare(r, n);
      var i: nat :| i < |t| && t[i].tokenHash.raw == raw;
      assert t[i].tokenHash == Sha256(raw);
      FindsItself(t, i);
    }
  }

  lemma ResetPresented(r: Run, k: nat, m: nat, n: nat, owners: Owners)
    requires Proper(r) && k <= m < n <= |r.events| && OwnersOfRun(owners, r, k, n) && r.events[m].ResetReq?
    ensures OwnsIfAny(owners.resetTokens, ResetHolderOf(r.At(n), r.events[m].raw), r.events[m].raw)
  {
    hide Step, StandIn, Follows, RowsOwned, UsersOwned, Inv, UsersInv, IssuedInv, Owned;
    Reachable(r, n);
    var a, raw := r.At(n).authTokens, r.events[m].raw;
    if raw in owners.resetTokens {
      assert raw < Spare(r, n);
      var i: nat :| i < |a| && a[i].tokenHash.raw == raw;
      assert a[i].tokenHash == Sha256(raw);
      assert FindAuthToken(a, Sha256(raw), PasswordReset) == i;
    }
  }

  lemma EmailPresented(r: Run, k: nat, n: nat, owners: Owners, email: string)
    requires Proper(r) && k <= n <= |r.events| && OwnersOfRun(owners, r, k, n)
    ensures OwnsIfAny(owners.emails, EmailHolderOf(r.At(n), email), Normalise(email))
    ensures FindByEmail(r.At(n).users, email) >= 0 ==> Owns(owners.emails, EmailHolderOf(r.At(n), email), Normalise(email))
  {
    hide Step, StandIn, Follows, RowsOwned, ResetsOwned;
    Reachable(r, n);
    var users := r.At(n).users;
    if Normalise(email) in owners.emails {
      var i: nat :| i < |users| && users[i].email == Normalise(email);
      assert FindByEmail(users, email) == i;
    }
  }

  /** The last row of moment `m + 1` has its owners at moment `n`. */
  lemma LastRowOwned(r: Run, k: nat, m: nat, n: nat, owners: Owners)
    requires Proper(r) && k <= m < n <= |r.events| && OwnersOfRun(owners, r, k, n) && r.Table(m + 1) != []
    ensures var row := r.Table(m + 1)[|r.Table(m + 1)| - 1];
            && Owns(owners.rowIds, row.userId, row.id) && Owns(owners.families, row.userId, row.family)
            && Owns(owners.refreshTokens, row.userId, row.tokenHash.raw)
  {
    hide Step, StandIn, Spare, Proper, ResetsOwned, UsersOwned;
    Later(r, m + 1, n);
    var i := |r.Table(m + 1)| - 1;
    assert r.Table(n)[i].(revoked := r.Table(m + 1)[i].revoked) == r.Table(m + 1)[i];
  }

  lemma LastResetOwned(r: Run, k: nat, m: nat, n: nat, owners: Owners)
    requires Proper(r) && k <= m < n <= |r.events| && OwnersOfRun(owners, r, k, n) && r.At(m + 1).authTokens != []
    ensures var record := r.At(m + 1).authTokens[|r.At(m + 1).authTokens| - 1];
            Owns(owners.resetIds, record.userId, record.id) && Owns(owners.resetTokens, record.userId, record.tokenHash.raw)
  {
    hide Step, StandIn, Spare, Proper, RowsOwned, UsersOwned;
    TokensLater(r, m + 1, n);
    var i := |r.At(m + 1).authTokens| - 1;
    assert r.At(n).authTokens[i].(used := r.At(m + 1).authTokens[i].used) == r.At(m + 1).authTokens[i];
  }

  /** A token that has a row at moment `m` is held by that row's user in the end. */
  lemma HolderIsOwner(r: Run, m: nat, n: nat, i: nat)
    requires Proper(r) && m <= n <= |r.events| && i < |r.Table(m)|
    ensures HolderOf(r.At(n), r.Table(m)[i].tokenHash.raw) == r.Table(m)[i].userId
  {
    hide Step, Follows;
    RowLater(r, m, n, i);
    Reachable(r, n);
    FindsItself(r.Table(n), i);
    assert r.Table(n)[i].tokenHash == Sha256(r.Table(m)[i].tokenHash.raw);
  }

  /** An e-mail that has an account at moment `m` is that account's in the end. */
  lemma EmailHolderIsOwner(r: Run, m: nat, n: nat, email: string)
    requires Proper(r) && m <= n <= |r.events|
    ensures var at := FindByEmail(r.At(m).users, email);
            at >= 0 ==> FindByEmail(r.At(n).users, email) == at && EmailHolderOf(r.At(n), email) == r.At(m).users[at].id
  {
    hide Step, Follows;
    Later(r, m, n);
    Reachable(r, n);
    var at := FindByEmail(r.At(m).users, email);
    if at >= 0 { assert r.At(n).users[at].email == Normalise(email); }
  }

  lemma SpareOwned(r: Run, k: nat, m: nat, n: nat, owners: Owners)
    requires Proper(r) && k <= m < n <= |r.events| && OwnersOfRun(owners, r, k, n) && StandIn(r, m, n).Some?
    ensures var (spare, user) := (Spare(r, n) + m, StandIn(r, m, n).value.user);
            && Owns(owners.rowIds, user, spare) && Owns(owners.families, user, spare) && Owns(owners.refreshTokens, user, spare)
            && Owns(owners.resetIds, user, spare) && Owns(owners.resetTokens, user, spare)
  {
    hide Step, Spare, Proper, TablesOwned, StandIn;
    assert (Spare(r, n) + m, StandIn(r, m, n).value.user) in SpareDraws(r, k, n);
  }

  /** The account of a registration that succeeds is the e-mail's in the end. */
  lemma RegisteredOwned(r: Run, k: nat, m: nat, n: nat, owners: Owners)
    requires Proper(r) && k <= m < n <= |r.events| && OwnersOfRun(owners, r, k, n) && r.events[m].RegisterReq?
    requires FindByEmail(r.At(m).users, r.events[m].email) < 0
    ensures Owns(owners.emails, r.At(m).next, Normalise(r.events[m].email))
  {
    hide Step, Spare, Proper, TablesOwned, OwnersOfRun, FindEmail, StandIn;
    var w, e := r.At(m), r.events[m];
    StepOf(r, m);
    RegisterTables(r.c, w, e.email, e.password, e.meta);
    FindEmailAdded(w.users, User(w.next, Normalise(e.email), Argon2(e.password), true), Normalise(e.email));
    EmailHolderIsOwner(r, m + 1, n, e.email);
    EmailPresented(r, k, n, owners, e.email);
  }

  lemma RegisterOwned(r: Run, k: nat, m: nat, n: nat, owners: Owners)
    requires Proper(r) && k <= m < n <= |r.events| && OwnersOfRun(owners, r, k, n) && r.events[m].RegisterReq?
    ensures RequestOwned(owners, StandIn(r, m, n).value)
  {
    hide Step, Spare, Proper, TablesOwned, OwnersOfRun, FindByEmail;
    var w, e := r.At(m), r.events[m];
    if FindByEmail(w.users, e.email) < 0 {
      StepOf(r, m);
      RegisterTables(r.c, w, e.email, e.password, e.meta);
      LastRowOwned(r, k, m, n, owners);
      RegisteredOwned(r, k, m, n, owners);
    } else {
      EmailHolderIsOwner(r, m, n, e.email);
      EmailPresented(r, k, n, owners, e.email);
      SpareOwned(r, k, m, n, owners);
    }
  }

  lemma LoginOwned(r: Run, k: nat, m: nat, n: nat, owners: Owners)
    requires Proper(r) && k <= m < n <= |r.events| && OwnersOfRun(owners, r, k, n) && r.events[m].LoginReq?
    ensures RequestOwned(owners, StandIn(r, m, n).value)
  {
    hide Step, Spare, Proper, TablesOwned, OwnersOfRun, FindEmail;
    var w, e := r.At(m), r.events[m];
    StepOf(r, m);
    EmailPresented(r, k, n, owners, e.email);
    var user := ValidateCredentials(w, e.email, e.password);
    if user.Some? {
      LoginTables(r.c, w, user.value, e.meta);
      LastRowOwned(r, k, m, n, owners);
      EmailHolderIsOwner(r, m, n, e.email);
    } else {
      SpareOwned(r, k, m, n, owners);
    }
  }

  lemma ForgotOwnedInRun(r: Run, k: nat, m: nat, n: nat, owners: Owners)
    requires Proper(r) && k <= m < n <= |r.events| && OwnersOfRun(owners, r, k, n) && r.events[m].ForgotReq?
    ensures RequestOwned(owners, StandIn(r, m, n).value)
  {
    hide Step, Spare, Proper, TablesOwned, OwnersOfRun, FindEmail;
    var w, e := r.At(m), r.events[m];
    StepOf(r, m);
    EmailPresented(r, k, n, owners, e.email);
    ForgotTables(w, e.email);
    if FindByEmail(w.users, e.email) >= 0 {
      LastResetOwned(r, k, m, n, owners);
      EmailHolderIsOwner(r, m, n, e.email);
    } else {
      SpareOwned(r, k, m, n, owners);
    }
  }

  /** A refresh that succeeds presents a stored token and saves a row for the same user. */
  lemma RotationStored(c: Config, w: World, raw: Id, meta: RequestMeta) returns (i: nat)
    requires Refresh(c, w, raw, meta).1.Pair?
    ensures var t' := Refresh(c, w, raw, meta).0.refreshTokens;
            && t' != [] && t'[|t'| - 1].id == w.next + 2 && t'[|t'| - 1].tokenHash.raw == w.next + 1
            && i < |t'| && t'[i].tokenHash == Sha256(raw) && t'[i].userId == t'[|t'| - 1].userId
  {
    i := FindHash(w.refreshTokens, Sha256(raw));
  }

  lemma RefreshOwned(r: Run, k: nat, m: nat, n: nat, owners: Owners)
    requires Proper(r) && k <= m < n <= |r.events| && OwnersOfRun(owners, r, k, n) && r.events[m].RefreshReq?
    ensures RequestOwned(owners, StandIn(r, m, n).value)
  {
    hide Step, Spare, Proper, TablesOwned, OwnersOfRun, Refresh;
    var w, e := r.At(m), r.events[m];
    StepOf(r, m);
    TokenPresented(r, k, m, n, owners);
    if Refresh(r.c, w, e.raw, e.meta).1.Pair? {
      var i := RotationStored(r.c, w, e.raw, e.meta);
      LastRowOwned(r, k, m, n, owners);
      HolderIsOwner(r, m + 1, n, i);
    } else {
      SpareOwned(r, k, m, n, owners);
    }
  }

  lemma StandInOwned(r: Run, k: nat, m: nat, n: nat, owners: Owners)
    requires Proper(r) && k <= m < n <= |r.events| && OwnersOfRun(owners, r, k, n) && StandIn(r, m, n).Some?
    ensures RequestOwned(owners, StandIn(r, m, n).value)
  {
    hide Step, Spare, Proper, OwnersOfRun;
    match r.events[m]
    case RegisterReq(_, _, _) => RegisterOwned(r, k, m, n, owners);
    case LoginReq(_, _, _) => LoginOwned(r, k, m, n, owners);
    case ForgotReq(_) => ForgotOwnedInRun(r, k, m, n, owners);
    case RefreshReq(_, _) => RefreshOwned(r, k, m, n, owners);
    case ResetReq(_, _) => ResetPresented(r, k, m, n, owners);
    case _ =>
  }

  lemma StepOf(r: Run, m: nat)
    requires Proper(r) && m < |r.events|
    ensures Step(r.c, r.At(m), r.events[m]) == (r.At(m + 1), r.Out(m))
    ensures match r.events[m]
            case RegisterReq(email, password, meta) => r.At(m + 1) == Register(r.c, r.At(m), email, password, meta).0
            case LoginReq(email, password, meta) =>
              var user := ValidateCredentials(r.At(m), email, password);
              user.Some? ==> r.At(m + 1) == Login(r.c, r.At(m), user.value, meta).0
            case RefreshReq(raw, meta) => r.At(m + 1) == Refresh(r.c, r.At(m), raw, meta).0
            case ForgotReq(email) => r.At(m + 1) == ForgotPassword(r.At(m), email).0
            case _ => true
  {
    hide Register, Login, Refresh, ForgotPassword, ValidateCredentials;
  }

  lemma {:induction false} RequestsOwned(r: Run, k: nat, j: nat, n: nat, owners: Owners)
    requires Proper(r) && k <= j <= n <= |r.events| && OwnersOfRun(owners, r, k, n)
    ensures forall i :: 0 <= i < |Requests(r, k, j, n)| ==> RequestOwned(owners, Requests(r, k, j, n)[i])
  {
    hide Proper, StandIn, OwnersOfRun, RequestOwned;
    if k < j {
      RequestsOwned(r, k, j - 1, n, owners);
      if StandIn(r, j - 1, n).Some? { StandInOwned(r, k, j - 1, n, owners); }
    }
  }

  /** The requests of a run, about to start together at an earlier moment of it, find everything with
      one owner, theirs included. */
  lemma RunConsistent(r: Run, k: nat, n: nat) returns (owners: Owners)
    requires Proper(r) && k <= n <= |r.events|
    ensures Consistent(owners, Requests(r, k, n, n), From(r.At(k), Requests(r, k, n, n)))
  {
    hide Step, Proper, Requests, Spare, StandIn, WorldInv;
    owners := OwnersOfRunExist(r, k, n);
    RequestsOwned(r, k, n, n, owners);
    Later(r, k, n);
    TokensLater(r, k, n);
    Reachable(r, k);
    StillOwned(owners, r.c, r.At(k), r.At(n));
  }

  /** What is owned at a later moment was owned by the same users before. */
  lemma StillOwned(owners: Owners, c: Config, w: World, w': World)
    requires WorldInv(c, w) && TablesOwned(owners, TablesOf(w'))
    requires Extends(w.refreshTokens, w'.refreshTokens) && TokensExtend(w.authTokens, w'.authTokens) && UsersExtend(w.users, w'.users)
    ensures TablesOwned(owners, TablesOf(w))
  {
    hide Inv, IssuedInv, ResetsInv, Owned;
    var t, t', a, a' := w.refreshTokens, w'.refreshTokens, w.authTokens, w'.authTokens;
    assert forall i :: 0 <= i < |t| ==> t'[i].(revoked := t[i].revoked) == t[i];
    assert forall i :: 0 <= i < |a| ==> a'[i].(used := a[i].used) == a[i];
  }

  lemma {:induction false} FlattenWho(order: seq<Block>, n: nat)
    requires forall i :: 0 <= i < |order| ==> order[i].who < n
    ensures forall i :: 0 <= i < |Flatten(order)| ==> Flatten(order)[i].who < n
  {
    if order != [] {
      TurnsWho(order[0].who, order[0].times);
      FlattenWho(order[1..], n);
    }
  }

  lemma {:induction false} TurnsWho(who: nat, times: seq<Millis>)
    ensures forall i :: 0 <= i < |Turns(who, times)| ==> Turns(who, times)[i].who == who
  {
    if times != [] { TurnsWho(who, times[1..]); }
  }

  /** The requests served between two moments of a run as a schedule: one after the other, each at its
      moment. */
  function InTurn(r: Run, k: nat, n: nat): (schedule: seq<Turn>)
    requires k <= n <= |r.events|
    ensures forall i :: 0 <= i < |schedule| ==> schedule[i].who < |Requests(r, k, n, n)|
  {
    FlattenWho(Blocks(r, k, n, n), |Requests(r, k, n, n)|);
    Flatten(Blocks(r, k, n, n))
  }

  /** The run carries over to interleavings. Let the requests served between two moments of a run
      start together at the first, and let them and their steps interleave in any way that leaves one
      user's own requests in their order and at their times: in the end that user's rows, reset tokens
      and account are exactly those of the run at the second moment. */
  lemma InterleavedIsRun(r: Run, k: nat, n: nat, schedule: seq<Turn>, user: Id)
    requires Proper(r) && k <= n <= |r.events|
    requires var reqs := Requests(r, k, n, n);
             WellFormed(reqs, From(r.At(k), reqs), schedule) && Own(reqs, user, schedule) == Own(reqs, user, InTurn(r, k, n))
    ensures var reqs := Requests(r, k, n, n);
            Agree(user, Exec(r.c, reqs, From(r.At(k), reqs), schedule).tables, TablesOf(r.At(n)))
  {
    hide Step, Proper, Requests, Blocks, Act, Flatten;
    var reqs, order := Requests(r, k, n, n), Blocks(r, k, n, n);
    var g := From(r.At(k), reqs);
    var owners := RunConsistent(r, k, n);
    Projection(r.c, owners, reqs, g, g, schedule, user);
    SerialExec(r.c, reqs, g, order);
    Projection(r.c, owners, reqs, g, g, Flatten(order), user);
    RunIsSerial(r, k, n, n);
  }
}
