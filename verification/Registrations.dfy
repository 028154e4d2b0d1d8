/** Registrations that overlap: at most one account per e-mail, and exactly one if the e-mail was free. */
module Registrations {
  import opened Basics
  import opened RefreshTable
  import opened Email
  import opened World
  import opened Interleaving
  import opened Overlap

  /** A registration of an e-mail with this normal form. */
  predicate Registers(req: Request, email: string) {
    req.op.RegisterOp? && Normalise(req.op.email) == email
  }

  /** The registration is through with its insert, one way or the other. */
  predicate Decided(pc: Pc) {
    pc.Opening? || pc.Finished?
  }

  ghost predicate Unique(users: seq<User>) {
    forall i, j :: 0 <= i < j < |users| ==> users[i].id != users[j].id && users[i].email != users[j].email
  }

  /** A registration that finds its e-mail taken when it looks is over before it tries to insert. */
  lemma LooksFirst(c: Config, req: Request, s: Tables, t: Millis)
    requires req.op.RegisterOp?
    ensures var (s', pc') := Act(c, req, Start, s, t);
            s' == s && (pc'.Finished? <==> exists i :: 0 <= i < |s.users| && s.users[i].email == Normalise(req.op.email))
  {
  }

  /** The registrations have yet to insert, each under an id of its own that no account has. */
  ghost predicate ToCome(reqs: seq<Request>, g: Global)
    requires |g.pcs| == |reqs|
  {
    && (forall r :: 0 <= r < |reqs| && reqs[r].op.RegisterOp? ==>
          (g.pcs[r].Start? || g.pcs[r].Creating?) && !HasAccount(g.tables.users, reqs[r].user))
    && (forall a, b :: 0 <= a < b < |reqs| && reqs[a].op.RegisterOp? && reqs[b].op.RegisterOp? ==> reqs[a].user != reqs[b].user)
  }

  /** The account that a registration creates, as far as overlap with it goes. */
  ghost predicate Creates(req: Request, user: User) {
    req.op.RegisterOp? && user.id == req.user && user.email == Normalise(req.op.email)
  }

  /** The accounts are the old ones and, in order of their inserts, one for each winner; only decided
      registrations win, and a decided registration finds its e-mail taken, by itself or by another. */
  ghost predicate Grown(reqs: seq<Request>, users: seq<User>, g: Global, winners: seq<nat>)
    requires |g.pcs| == |reqs|
  {
    var users' := g.tables.users;
    && Unique(users') && |users'| == |users| + |winners| && SameUsers(users, users'[..|users|])
    && (forall i :: 0 <= i < |winners| ==>
          winners[i] < |reqs| && Creates(reqs[winners[i]], users'[|users| + i]) && Decided(g.pcs[winners[i]]))
    && (forall r :: 0 <= r < |reqs| && reqs[r].op.RegisterOp? ==> g.pcs[r].Start? || g.pcs[r].Creating? || Decided(g.pcs[r]))
    && (forall r :: 0 <= r < |reqs| && reqs[r].op.RegisterOp? && !Decided(g.pcs[r]) ==> !HasAccount(users', reqs[r].user))
    && (forall r :: 0 <= r < |reqs| && reqs[r].op.RegisterOp? && Decided(g.pcs[r]) ==> FindByEmail(users', reqs[r].op.email) >= 0)
  }

  /** The step inserts an account. */
  predicate Inserts(req: Request, pc: Pc, users: seq<User>) {
    req.op.RegisterOp? && pc.Creating? && FindByEmail(users, req.op.email) < 0 && !HasAccount(users, req.user)
  }

  /** A step that inserts no account keeps ids and e-mails, and decides a registration only if it finds
      its e-mail or its id taken. */
  lemma ActSameUsers(c: Config, req: Request, pc: Pc, s: Tables, t: Millis)
    requires !Inserts(req, pc, s.users)
    ensures var (s', pc') := Act(c, req, pc, s, t);
            && SameUsers(s.users, s'.users)
            && (req.op.RegisterOp? && (pc.Start? || pc.Creating? || Decided(pc)) ==>
                  && (pc'.Creating? || Decided(pc')) && (Decided(pc) ==> Decided(pc'))
                  && (!Decided(pc) && Decided(pc') ==> FindByEmail(s.users, req.op.email) >= 0 || HasAccount(s.users, req.user)))
  {
    hide FindEmail, FindUser;
    ActUsers(c, req, pc, s, t);
  }

  lemma SameUsersFind(users: seq<User>, users': seq<User>)
    requires SameUsers(users, users')
    ensures forall e: string :: FindByEmail(users', e) == FindByEmail(users, e)
    ensures forall u: Id :: FindUser(users', u) == FindUser(users, u)
  {
    forall e: string ensures FindByEmail(users', e) == FindByEmail(users, e) { SameEmails(users, users', Normalise(e)); }
    forall u: Id ensures FindUser(users', u) == FindUser(users, u) { SameFind(users, users', u); }
  }

  lemma TurnWithoutInsert(c: Config, reqs: seq<Request>, users: seq<User>, g: Global, turn: Turn, winners: seq<nat>)
    requires |g.pcs| == |reqs| && turn.who < |reqs| && Grown(reqs, users, g, winners)
    requires !Inserts(reqs[turn.who], g.pcs[turn.who], g.tables.users)
    ensures Grown(reqs, users, TakeTurn(c, reqs, g, turn), winners)
  {
    var g' := TakeTurn(c, reqs, g, turn);
    hide Act, FindEmail, FindUser, FindByEmail;
    ActSameUsers(c, reqs[turn.who], g.pcs[turn.who], g.tables, turn.at);
    SameUsersFind(g.tables.users, g'.tables.users);
    assert forall i :: 0 <= i < |g'.tables.users| ==> g'.tables.users[i].id == g.tables.users[i].id;
  }

  lemma TurnWithInsert(c: Config, reqs: seq<Request>, users: seq<User>, g: Global, turn: Turn, winners: seq<nat>)
    requires |g.pcs| == |reqs| && turn.who < |reqs| && Grown(reqs, users, g, winners)
    requires forall a, b :: 0 <= a < b < |reqs| && reqs[a].op.RegisterOp? && reqs[b].op.RegisterOp? ==> reqs[a].user != reqs[b].user
    requires Inserts(reqs[turn.who], g.pcs[turn.who], g.tables.users)
    ensures Grown(reqs, users, TakeTurn(c, reqs, g, turn), winners + [turn.who])
  {
    var g', req := TakeTurn(c, reqs, g, turn), reqs[turn.who];
    var old', new' := g.tables.users, g'.tables.users;
    var added := User(req.user, Normalise(req.op.email), Argon2(req.op.password), true);
    assert new' == old' + [added] && g'.pcs == g.pcs[turn.who := Opening(req.user)];
    hide Act, FindEmail, FindUser;
    forall i | 0 <= i < |old'| ensures old'[i].id != added.id && old'[i].email != added.email {
      NotFound(old', added, i);
    }
    assert new'[..|users|] == old'[..|users|];
    forall r | 0 <= r < |reqs| && reqs[r].op.RegisterOp?
      ensures !Decided(g'.pcs[r]) ==> !HasAccount(new', reqs[r].user)
      ensures Decided(g'.pcs[r]) ==> FindByEmail(new', reqs[r].op.email) >= 0
    {
      FindEmailAdded(old', added, Normalise(reqs[r].op.email));
      AddedAccount(old', added, reqs[r].user);
      if r < turn.who { assert reqs[r].user != req.user; }
      if turn.who < r { assert reqs[turn.who].user != reqs[r].user; }
    }
  }

  lemma AddedAccount(users: seq<User>, added: User, user: Id)
    ensures HasAccount(users + [added], user) <==> HasAccount(users, user) || added.id == user
  {
    assert (users + [added])[..|users|] == users;
  }

  lemma NotFound(users: seq<User>, user: User, i: nat)
    requires i < |users| && FindUser(users, user.id) < 0 && FindEmail(users, user.email) < 0
    ensures users[i].id != user.id && users[i].email != user.email
  {
  }

  lemma {:induction false} ExecGrown(c: Config, reqs: seq<Request>, users: seq<User>, g: Global, schedule: seq<Turn>, winners: seq<nat>)
    returns (winners': seq<nat>)
    requires WellFormed(reqs, g, schedule) && Grown(reqs, users, g, winners)
    requires forall a, b :: 0 <= a < b < |reqs| && reqs[a].op.RegisterOp? && reqs[b].op.RegisterOp? ==> reqs[a].user != reqs[b].user
    ensures Grown(reqs, users, Exec(c, reqs, g, schedule), winners')
    decreases |schedule|
  {
    hide Grown, Inserts, Act;
    if schedule == [] {
      winners' := winners;
    } else {
      var turn := schedule[0];
      if Inserts(reqs[turn.who], g.pcs[turn.who], g.tables.users) {
        TurnWithInsert(c, reqs, users, g, turn, winners);
        winners' := ExecGrown(c, reqs, users, TakeTurn(c, reqs, g, turn), schedule[1..], winners + [turn.who]);
      } else {
        TurnWithoutInsert(c, reqs, users, g, turn, winners);
        winners' := ExecGrown(c, reqs, users, TakeTurn(c, reqs, g, turn), schedule[1..], winners);
      }
    }
  }

  /** However registrations overlap one another and everything else, the accounts afterwards are those
      before and one for each of some registrations, all e-mails unique. Of the registrations of
      variants of one e-mail, none succeeds if it had an account, never two succeed, and as soon as one
      of them is decided exactly one has succeeded if it had none. */
  lemma OneAccountPerEmail(c: Config, reqs: seq<Request>, g: Global, schedule: seq<Turn>, email: string)
    returns (winners: seq<nat>)
    requires WellFormed(reqs, g, schedule) && ToCome(reqs, g) && Unique(g.tables.users)
    ensures Grown(reqs, g.tables.users, Exec(c, reqs, g, schedule), winners)
    ensures FindEmail(g.tables.users, email) >= 0 ==>
              forall i :: 0 <= i < |winners| ==> !Registers(reqs[winners[i]], email)
    ensures forall i, j :: 0 <= i < j < |winners| ==>
              !(Registers(reqs[winners[i]], email) && Registers(reqs[winners[j]], email))
    ensures FindEmail(g.tables.users, email) < 0
            && (exists r :: 0 <= r < |reqs| && Registers(reqs[r], email) && Decided(Exec(c, reqs, g, schedule).pcs[r])) ==>
              exists i :: 0 <= i < |winners| && Registers(reqs[winners[i]], email)
  {
    var users, g' := g.tables.users, Exec(c, reqs, g, schedule);
    assert users[..|users|] == users;
    winners := ExecGrown(c, reqs, users, g, schedule, []);
    WinnersDiffer(reqs, users, g', winners, email);
    if FindEmail(users, email) < 0 && exists r :: 0 <= r < |reqs| && Registers(reqs[r], email) && Decided(g'.pcs[r]) {
      var r :| 0 <= r < |reqs| && Registers(reqs[r], email) && Decided(g'.pcs[r]);
      SomeoneWins(reqs, users, g', winners, email, r);
    }
  }

  lemma WinnersDiffer(reqs: seq<Request>, users: seq<User>, g: Global, winners: seq<nat>, email: string)
    requires |g.pcs| == |reqs| && Grown(reqs, users, g, winners)
    ensures FindEmail(users, email) >= 0 ==> forall i :: 0 <= i < |winners| ==> !Registers(reqs[winners[i]], email)
    ensures forall i, j :: 0 <= i < j < |winners| ==>
              !(Registers(reqs[winners[i]], email) && Registers(reqs[winners[j]], email))
  {
    var users' := g.tables.users;
    hide FindEmail;
    forall i | 0 <= i < |winners| ensures Registers(reqs[winners[i]], email) ==> users'[|users| + i].email == email {
      assert Creates(reqs[winners[i]], users'[|users| + i]);
    }
    var at := FindEmail(users, email);
    if at >= 0 { assert users'[..|users|][at].email == email; }
  }

  lemma SomeoneWins(reqs: seq<Request>, users: seq<User>, g: Global, winners: seq<nat>, email: string, r: nat)
    requires |g.pcs| == |reqs| && Grown(reqs, users, g, winners) && FindEmail(users, email) < 0
    requires r < |reqs| && Registers(reqs[r], email) && Decided(g.pcs[r])
    ensures exists i :: 0 <= i < |winners| && Registers(reqs[winners[i]], email)
  {
    var users' := g.tables.users;
    hide FindEmail;
    var at := FindByEmail(users', reqs[r].op.email);
    assert forall k :: 0 <= k < |users| ==> users'[..|users|][k].email == users[k].email && users'[k].email != email;
    assert Creates(reqs[winners[at - |users|]], users'[at]);
  }
}
