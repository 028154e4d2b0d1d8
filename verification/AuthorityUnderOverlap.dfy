/** How stale the authority in an access token can be when requests overlap: roles are loaded at one await
    and signed at a later one. */
module AuthorityUnderOverlap {
  import opened Basics
  import opened RefreshTable
  import opened Rbac
  import opened World
  import opened Interleaving
  import opened Overlap
  import A = Authority

  /** A schedule from requests about to start, and the role graph that each turn finds: it may change in
      any way between two turns. For the insert of a registration the links of the new account count. */
  datatype Story = Story(c: Config, reqs: seq<Request>, g: Global, schedule: seq<Turn>, graphs: seq<Graph>)

  type Course = o: Story | WellFormed(o.reqs, o.g, o.schedule) && |o.graphs| == |o.schedule|
    witness Story(Config(900, 7), [], Global(Tables([], [], []), []), [], [])

  /** The state before turn `k`. */
  function Before(o: Course, k: nat): (g: Global)
    requires k <= |o.schedule|
    ensures |g.pcs| == |o.reqs|
  {
    if k == 0 then o.g else TakeTurn(o.c, o.reqs, Before(o, k - 1), o.schedule[k - 1])
  }

  /** The request whose turn it is, and where it stands. */
  function Req(o: Course, k: nat): Request
    requires k < |o.schedule|
  {
    o.reqs[o.schedule[k].who]
  }

  function PcAt(o: Course, k: nat): Pc
    requires k < |o.schedule|
  {
    Before(o, k).pcs[o.schedule[k].who]
  }

  /** The step loads the user with its roles: the credential check of a login, the insert of a
      registration, or the load of a refresh. */
  predicate Loads(req: Request, pc: Pc) {
    match req.op
    case LoginOp(_, _, _, _, _, _) => pc.Start?
    case RegisterOp(_, _, _, _, _, _) => pc.Creating?
    case RefreshOp(_, _, _, _) => pc.Loading?
    case _ => false
  }

  /** Whom it loads. */
  function Loaded(req: Request, pc: Pc, users: seq<User>): Id
    requires Loads(req, pc)
  {
    match req.op
    case LoginOp(email, _, _, _, _, _) =>
      var at := FindByEmail(users, email);
      if at < 0 then 0 else users[at].id
    case RegisterOp(_, _, _, _, _, _) => req.user
    case _ => pc.row.userId
  }

  predicate LoadsUser(o: Course, k: nat)
    requires k < |o.schedule|
  {
    Loads(Req(o, k), PcAt(o, k))
  }

  function LoadedUser(o: Course, k: nat): Id
    requires k < |o.schedule| && LoadsUser(o, k)
  {
    Loaded(Req(o, k), PcAt(o, k), Before(o, k).tables.users)
  }

  /** The turn signs an access token and saves the refresh token that goes with it. */
  predicate Signs(o: Course, k: nat)
    requires k < |o.schedule|
  {
    Saves(Req(o, k), PcAt(o, k))
  }

  /** The latest turn before `k` at which the request loaded its user. */
  function LoadTurn(o: Course, who: nat, k: nat): (l: Option<nat>)
    requires k <= |o.schedule|
    ensures l.Some? ==> l.value < k && o.schedule[l.value].who == who && LoadsUser(o, l.value)
  {
    if k == 0 then None
    else if o.schedule[k - 1].who == who && LoadsUser(o, k - 1) then Some(k - 1)
    else LoadTurn(o, who, k - 1)
  }

  /** What an access token carries of its subject: names flattened from the roles that were loaded, and an
      expiry counted from the signing. */
  datatype Signature = Signature(sub: Id, roles: seq<string>, permissions: seq<string>, exp: int)

  function Sign(o: Course, k: nat): Signature
    requires k < |o.schedule| && Signs(o, k) && LoadTurn(o, o.schedule[k].who, k).Some?
  {
    var l := LoadTurn(o, o.schedule[k].who, k).value;
    var roles := RolesOfUser(o.graphs[l], LoadedUser(o, l));
    Signature(LoadedUser(o, l), FlattenRoleNames(roles), PermissionNames(roles), Seconds(o.schedule[k].at) + o.c.accessTokenTtl)
  }

  /** Whom a request past its load is about to save a row for. */
  function Holder(req: Request, pc: Pc): Option<Id> {
    if Enters(req) && pc.Opening? then Some(pc.user)
    else if req.op.RefreshOp? && (pc.Rotating? || pc.Saving?) then Some(pc.row.userId)
    else None
  }

  lemma ActHolder(c: Config, req: Request, pc: Pc, s: Tables, t: Millis)
    ensures var holder := Holder(req, Act(c, req, pc, s, t).1);
            holder.Some? ==> if Loads(req, pc) then holder == Some(Loaded(req, pc, s.users)) else holder == Holder(req, pc)
  {
  }

  /** Past its load, a request has loaded the user it goes on to save a row for. */
  lemma {:induction false} HasLoaded(o: Course, who: nat, k: nat)
    requires AllStart(o.g) && k <= |o.schedule| && who < |o.reqs|
    ensures var holder, l := Holder(o.reqs[who], Before(o, k).pcs[who]), LoadTurn(o, who, k);
            holder.Some? ==> l.Some? && LoadedUser(o, l.value) == holder.value
  {
    hide Act, Loads, Loaded, Holder;
    if k == 0 {
      assert Holder(o.reqs[who], Start).None? by { NoHolderYet(o.reqs[who]); }
    } else {
      HasLoaded(o, who, k - 1);
      var g := Before(o, k - 1);
      if o.schedule[k - 1].who == who { ActHolder(o.c, o.reqs[who], g.pcs[who], g.tables, o.schedule[k - 1].at); }
    }
  }

  lemma NoHolderYet(req: Request)
    ensures Holder(req, Start).None?
  {
  }

  /** Staleness under overlap: whenever the permission guard lets a request through, the user really held
      every required permission at the turn that loaded it for this token, and less than one lifetime has
      passed since the token was signed. To the bound for atomic requests comes the time that the
      request takes from load to signing. */
  lemma StalenessUnderOverlap(o: Course, k: nat, now: Millis, required: seq<string>) returns (l: nat)
    requires AllStart(o.g) && k < |o.schedule| && Signs(o, k)
    ensures LoadTurn(o, o.schedule[k].who, k) == Some(l) && l < k && Req(o, l) == Req(o, k)
    ensures Sign(o, k).sub == SavedRow(o.c, Req(o, k), PcAt(o, k), o.schedule[k].at).userId
    // what is signed is what the user held at the load, no more and no less, for the lifetime from now on
    ensures var a := Sign(o, k);
            && (forall p :: p in a.permissions <==> Holds(o.graphs[l], a.sub, p))
            && (forall n :: n in a.roles <==> Member(o.graphs[l], a.sub, n))
            && a.exp == o.schedule[k].at / 1000 + o.c.accessTokenTtl
    ensures var a := Sign(o, k);
            Seconds(now) < a.exp && (forall p :: p in required ==> p in a.permissions) ==>
              && (forall p :: p in required ==> Holds(o.graphs[l], a.sub, p))
              && now - o.schedule[l].at < (o.schedule[k].at - o.schedule[l].at) + o.c.accessTokenTtl * 1000
  {
    HasLoaded(o, o.schedule[k].who, k);
    l := LoadTurn(o, o.schedule[k].who, k).value;
    var a := Sign(o, k);
    hide Before, LoadTurn, PermissionNames, RolesOfUser;
    forall p ensures p in a.permissions <==> Holds(o.graphs[l], a.sub, p) { FlattenedIsHeld(o.graphs[l], a.sub, p); }
    forall n ensures n in a.roles <==> Member(o.graphs[l], a.sub, n) { A.RoleNamesAreMemberships(o.graphs[l], a.sub, n); }
  }

  // ---------- the delay really adds up ----------

  /** A refresh by user 1 loads its user and then pauses; a request of someone else marks the moment from
      which the role graph grants nothing. */
  function Pausing(c: Config, granted: Graph, delay: nat): Course {
    var none := RequestMeta(None, None);
    var user := User(1, "", Argon2(""), true);
    var row := Row(2, 1, Sha256(3), 4, false, none, delay, 0);
    var reqs := [Request(1, RefreshOp(3, 5, 6, none)), Request(0, LogoutOp(7))];
    var g := Global(Tables([user], [row], []), [Start, Start]);
    var nothing := Graph([], [], {}, {});
    Story(c, reqs, g, [Turn(0, 0), Turn(0, 0), Turn(1, 1), Turn(0, delay), Turn(0, delay)],
          [granted, granted, nothing, nothing, nothing])
  }

  lemma PausingSteps(c: Config, granted: Graph, delay: nat)
    ensures var (o, row) := (Pausing(c, granted, delay), Pausing(c, granted, delay).g.tables.rows[0]);
            && Before(o, 1).pcs == [Loading(row), Start] && Before(o, 2).pcs == [Rotating(row), Start]
            && Before(o, 3).pcs == [Rotating(row), Finished] && Before(o, 4).pcs == [Saving(row), Finished]
  {
    var o := Pausing(c, granted, delay);
    var row := o.g.tables.rows[0];
    assert o.g.tables.rows[..0] == [] && o.g.tables.users[..0] == [];
    assert Before(o, 1) == Global(o.g.tables, [Loading(row), Start]);
    assert Before(o, 2) == Global(o.g.tables, [Rotating(row), Start]);
    assert Before(o, 3).tables.users == o.g.tables.users;
  }

  /** However long the pause, a permission taken away one millisecond after the load still passes the guard
      one millisecond before the lifetime counted from the signing is over. */
  lemma DelayAddsUp(c: Config, granted: Graph, delay: nat, name: string) returns (o: Course)
    requires c.accessTokenTtl >= 1 && delay >= 1 && delay % 1000 == 0 && Holds(granted, 1, name)
    ensures o.c == c && AllStart(o.g) && Timely(o.schedule, 0) && |o.schedule| == 5 && Signs(o, 4)
    ensures o.schedule[2].at == 1 && forall j :: 2 <= j < 5 ==> !Holds(o.graphs[j], 1, name)
    ensures LoadTurn(o, o.schedule[4].who, 4).Some?
    ensures var a := Sign(o, 4);
            a.sub == 1 && name in a.permissions && Seconds(delay + c.accessTokenTtl * 1000 - 1) < a.exp
  {
    hide Before, RolesOfUser, PermissionNames, FlattenRoleNames, Holds, Seconds;
    o := Pausing(c, granted, delay);
    PausingLoads(c, granted, delay);
    FlattenedIsHeld(granted, 1, name);
    NothingHeld(name);
    LastMillisecond(delay, c.accessTokenTtl);
  }

  lemma LastMillisecond(at: int, lifetime: int)
    requires at % 1000 == 0 && lifetime >= 1
    ensures Seconds(at + lifetime * 1000 - 1) < Seconds(at) + lifetime
  {
  }

  lemma NothingHeld(name: string)
    ensures !Holds(Graph([], [], {}, {}), 1, name)
  {
  }

  lemma PausingLoads(c: Config, granted: Graph, delay: nat)
    ensures var o := Pausing(c, granted, delay);
            LoadTurn(o, 0, 4) == Some(1) && LoadedUser(o, 1) == 1 && Signs(o, 4)
  {
    var o := Pausing(c, granted, delay);
    PausingSteps(c, granted, delay);
    hide Before, Act;
    assert LoadsUser(o, 1) && !LoadsUser(o, 3);
    assert LoadTurn(o, 0, 2) == Some(1);
    assert LoadTurn(o, 0, 3) == Some(1);
  }
}
