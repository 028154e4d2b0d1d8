/** The accounts, seen from outside, are a plain map from normalised e-mail to password. */
module Credentials {
  import opened Basics
  import opened RefreshTable
  import opened Rbac
  import opened Email
  import opened World
  import opened Invariants
  import opened Runs
  import opened Replay

  /** What the users table says about passwords. */
  ghost function PasswordTable(users: seq<User>): map<string, string> {
    if users == [] then map[]
    else PasswordTable(users[..|users| - 1])[users[|users| - 1].email := users[|users| - 1].passwordHash.password]
  }

  /** The e-mail of an account that exists. */
  ghost function EmailOf(w: World, id: Id): string {
    if FindUser(w.users, id) < 0 then "" else w.users[FindUser(w.users, id)].email
  }

  /** The specification: how one request changes a plain map from e-mail to password. */
  ghost function NextPasswords(m: map<string, string>, c: Config, w: World, e: Event): map<string, string> {
    var out := Step(c, w, e).1;
    match e
    case RegisterReq(email, password, _) => if out.Pair? then m[Normalise(email) := password] else m
    case ChangeReq(bearer, _, new') => if out.Done? then m[EmailOf(w, bearer.sub) := new'] else m
    case ResetReq(raw, new') =>
      var at := FindAuthToken(w.authTokens, Sha256(raw), PasswordReset);
      if out.Done? && at >= 0 then m[EmailOf(w, w.authTokens[at].userId) := new'] else m
    case _ => m
  }

  /** The password set by the latest registration, reset or change, for every e-mail. */
  ghost function Passwords(r: Run, k: nat): map<string, string>
    requires k <= |r.events|
  {
    if k == 0 then PasswordTable(r.At(0).users)
    else NextPasswords(Passwords(r, k - 1), r.c, r.At(k - 1), r.events[k - 1])
  }

  /** The map has the e-mails of the accounts as its keys and the hashed passwords as its values. */
  lemma {:induction false} PasswordTableLookup(users: seq<User>, next: nat, email: string)
    requires UsersInv(users, next)
    ensures email in PasswordTable(users) <==> FindEmail(users, email) >= 0
    ensures email in PasswordTable(users) ==>
              PasswordTable(users)[email] == users[FindEmail(users, email)].passwordHash.password
  {
    if users != [] { PasswordTableLookup(users[..|users| - 1], next, email); }
  }

  lemma FrontInv(users: seq<User>, next: nat)
    requires UsersInv(users, next) && users != []
    ensures UsersInv(users[..|users| - 1], next)
  {
  }

  lemma {:induction false} PasswordTableSet(users: seq<User>, next: nat, id: Id, password: string)
    requires UsersInv(users, next) && FindUser(users, id) >= 0
    ensures PasswordTable(SetPassword(users, id, Argon2(password))) ==
              PasswordTable(users)[users[FindUser(users, id)].email := password]
  {
    var users' := SetPassword(users, id, Argon2(password));
    var front, last := users[..|users| - 1], users[|users| - 1];
    FrontInv(users, next);
    assert users'[..|users| - 1] == SetPassword(front, id, Argon2(password));
    if FindUser(front, id) < 0 {
      assert SetPassword(front, id, Argon2(password)) == front;
    } else {
      PasswordTableSet(front, next, id, password);
      assert front[FindUser(front, id)].email != last.email;
    }
  }

  lemma PasswordTableAdd(users: seq<User>, user: User)
    ensures PasswordTable(users + [user]) == PasswordTable(users)[user.email := user.passwordHash.password]
  {
  }

  lemma {:induction false} PasswordTableActive(users: seq<User>, id: Id, active: bool)
    ensures PasswordTable(SetActive(users, id, active)) == PasswordTable(users)
  {
    if users != [] {
      var front := users[..|users| - 1];
      PasswordTableActive(front, id, active);
      assert SetActive(users, id, active)[..|users| - 1] == SetActive(front, id, active);
    }
  }

  /** How one request changes the accounts. */
  lemma StepAccounts(c: Config, w: World, e: Event)
    requires WorldInv(c, w)
    ensures var (w', out) := Step(c, w, e);
            match e
            case RegisterReq(email, password, _) =>
              w'.users == if out.Pair? then w.users + [User(w.next, Normalise(email), Argon2(password), true)] else w.users
            case ChangeReq(bearer, _, new') =>
              if out.Done? then FindUser(w.users, bearer.sub) >= 0 && w'.users == SetPassword(w.users, bearer.sub, Argon2(new'))
              else w'.users == w.users
            case ResetReq(raw, new') =>
              var at := FindAuthToken(w.authTokens, Sha256(raw), PasswordReset);
              if out.Done? then at >= 0 && FindUser(w.users, w.authTokens[at].userId) >= 0
                                && w'.users == SetPassword(w.users, w.authTokens[at].userId, Argon2(new'))
              else w'.users == w.users
            case SetActiveByHand(id, active) => w'.users == SetActive(w.users, id, active)
            case _ => w'.users == w.users
  {
    hide WorldInv, RevokeWhere, Register, ResetPassword, FindUser, FindEmail, FindHash, FindOwned, Accepts, ValidateCredentials, Judge;
    match e
    case RegisterReq(email, password, meta) => RegisterUsers(c, w, email, password, meta);
    case ResetReq(raw, newPassword) => ResetAccounts(c, w, raw, newPassword);
    case _ =>
  }

  lemma ResetAccounts(c: Config, w: World, raw: Id, newPassword: string)
    requires WorldInv(c, w)
    ensures var ((w', out), at) := (ResetPassword(w, raw, newPassword), FindAuthToken(w.authTokens, Sha256(raw), PasswordReset));
            if out.Done? then at >= 0 && FindUser(w.users, w.authTokens[at].userId) >= 0
                              && w'.users == SetPassword(w.users, w.authTokens[at].userId, Argon2(newPassword))
            else w'.users == w.users
  {
    hide Inv, UsersInv, IssuedInv, ResetsInv;
    var at := FindAuthToken(w.authTokens, Sha256(raw), PasswordReset);
    if at >= 0 { assert HasUser(w.users, w.authTokens[at].userId); }
  }

  lemma {:induction false} TableIsPasswords(r: Run, k: nat)
    requires Proper(r) && k <= |r.events|
    ensures PasswordTable(r.At(k).users) == Passwords(r, k)
  {
    hide Step, WorldInv, NextPasswords, PasswordTable;
    if k > 0 {
      TableIsPasswords(r, k - 1);
      Reachable(r, k - 1);
      PasswordsStep(r.c, r.At(k - 1), r.events[k - 1]);
    }
  }

  lemma PasswordsStep(c: Config, w: World, e: Event)
    requires WorldInv(c, w)
    ensures PasswordTable(Step(c, w, e).0.users) == NextPasswords(PasswordTable(w.users), c, w, e)
  {
    hide Step, PasswordTable, Inv, Owned, IssuedInv, ResetsInv, Sound, UsersInv, SetPassword, SetActive;
    StepAccounts(c, w, e);
    match e
    case RegisterReq(email, password, _) =>
      if Step(c, w, e).1.Pair? {
        PasswordTableAdd(w.users, User(w.next, Normalise(email), Argon2(password), true));
      }
    case ChangeReq(bearer, _, new') =>
      if Step(c, w, e).1.Done? { PasswordTableSet(w.users, w.next, bearer.sub, new'); }
    case ResetReq(raw, new') =>
      if Step(c, w, e).1.Done? {
        PasswordTableSet(w.users, w.next, w.authTokens[FindAuthToken(w.authTokens, Sha256(raw), PasswordReset)].userId, new');
      }
    case SetActiveByHand(id, active) => PasswordTableActive(w.users, id, active);
    case _ =>
  }

  /** Credentials are accepted exactly when the account of the normalised e-mail is active and the
      password is the one set by the latest registration, reset or change. */
  lemma CredentialsRefineMap(r: Run, k: nat, email: string, password: string)
    requires Proper(r) && k <= |r.events|
    ensures Normalise(email) in Passwords(r, k) <==> FindByEmail(r.At(k).users, email) >= 0
    ensures ValidateCredentials(r.At(k), email, password).Some? <==>
              && Normalise(email) in Passwords(r, k)
              && Passwords(r, k)[Normalise(email)] == password
              && r.At(k).users[FindByEmail(r.At(k).users, email)].isActive
  {
    hide Step;
    TableIsPasswords(r, k);
    Reachable(r, k);
    PasswordTableLookup(r.At(k).users, r.At(k).next, Normalise(email));
  }

  /** Registration succeeds exactly when no account has that normal form. */
  lemma RegisterIff(r: Run, k: nat)
    requires Proper(r) && k < |r.events| && r.events[k].RegisterReq?
    ensures r.Out(k).Pair? <==> Normalise(r.events[k].email) !in Passwords(r, k)
  {
    hide Step;
    CredentialsRefineMap(r, k, r.events[k].email, "");
    StepUsers(r.c, r.At(k), r.events[k]);
  }

  /** A password change succeeds exactly when the bearer is accepted and the map holds the current
      password for the e-mail of the bearer's account. */
  lemma ChangeIff(r: Run, k: nat)
    requires Proper(r) && k < |r.events| && r.events[k].ChangeReq?
    ensures var (w, e, m) := (r.At(k), r.events[k], Passwords(r, k));
            r.Out(k).Done? <==>
            Accepts(w, e.bearer) && EmailOf(w, e.bearer.sub) in m && m[EmailOf(w, e.bearer.sub)] == e.current
  {
    hide Step;
    var w, e := r.At(k), r.events[k];
    TableIsPasswords(r, k);
    Reachable(r, k);
    ChangeDone(r.c, w, e);
    if Accepts(w, e.bearer) {
      BearerHasAccount(r, k, e.bearer);
      HasUserFound(w.users, e.bearer.sub);
      FoundByEmail(w.users, w.next, FindUser(w.users, e.bearer.sub));
      PasswordTableLookup(w.users, w.next, EmailOf(w, e.bearer.sub));
    }
  }

  lemma ChangeDone(c: Config, w: World, e: Event)
    requires e.ChangeReq?
    ensures Step(c, w, e).1.Done? <==>
              var at := FindUser(w.users, e.bearer.sub);
              Accepts(w, e.bearer) && at >= 0 && w.users[at].passwordHash.password == e.current
  {
  }

  lemma HasUserFound(users: seq<User>, id: Id)
    requires HasUser(users, id)
    ensures FindUser(users, id) >= 0
  {
  }

  lemma FoundByEmail(users: seq<User>, next: nat, at: nat)
    requires UsersInv(users, next) && at < |users|
    ensures FindEmail(users, users[at].email) == at
  {
  }

  /** Which accounts a run has: those it started with and, at the index of its registration, one for
      each successful registration. */
  lemma {:induction false} AccountOrigin(r: Run, j: nat, i: nat) returns (k: nat)
    requires Proper(r) && j <= |r.events| && |r.At(0).users| <= i < |r.At(j).users|
    ensures k < j && r.events[k].RegisterReq? && r.Out(k).Pair? && |r.At(k).users| == i
    ensures r.At(j).users[i].email == Normalise(r.events[k].email)
  {
    hide Step;
    StepUsers(r.c, r.At(j - 1), r.events[j - 1]);
    if i < |r.At(j - 1).users| { k := AccountOrigin(r, j - 1, i); } else { k := j - 1; }
  }

  /** A registered e-mail has its account, at the same index, at every later moment, and every variant
      of the e-mail finds it and no other. */
  lemma RegisteredIsFound(r: Run, k: nat, j: nat, b: string)
    requires Proper(r) && k < j <= |r.events| && r.events[k].RegisterReq? && r.Out(k).Pair?
    ensures |r.At(k).users| < |r.At(j).users|
    ensures FindByEmail(r.At(j).users, b) == |r.At(k).users| <==> Variant(r.events[k].email, b)
  {
    hide Step;
    var at := |r.At(k).users|;
    StepUsers(r.c, r.At(k), r.events[k]);
    Later(r, k + 1, j);
    assert r.At(j).users[at].email == r.At(k + 1).users[at].email;
    Reachable(r, j);
    FoundByEmail(r.At(j).users, r.At(j).next, at);
    SameNormalFormIffVariant(r.events[k].email, b);
  }

  /** Registration succeeds exactly when no account the run started with has that normal form and no
      earlier registration has succeeded with a variant of the e-mail. */
  lemma RegisterHistory(r: Run, j: nat)
    requires Proper(r) && j < |r.events| && r.events[j].RegisterReq?
    ensures var email := r.events[j].email;
            r.Out(j).Pair? <==>
            && FindByEmail(r.At(0).users, email) < 0
            && forall k :: 0 <= k < j && r.events[k].RegisterReq? && r.Out(k).Pair? ==> !Variant(r.events[k].email, email)
  {
    hide Step;
    var email := r.events[j].email;
    var at := FindByEmail(r.At(j).users, email);
    StepUsers(r.c, r.At(j), r.events[j]);
    Later(r, 0, j);
    if at < 0 {
      assert forall i :: 0 <= i < |r.At(0).users| ==> r.At(j).users[i].email == r.At(0).users[i].email;
      forall k | 0 <= k < j && r.events[k].RegisterReq? && r.Out(k).Pair? ensures !Variant(r.events[k].email, email) {
        RegisteredIsFound(r, k, j, email);
      }
    } else if at < |r.At(0).users| {
      assert r.At(j).users[at].email == r.At(0).users[at].email;
    } else {
      var k := AccountOrigin(r, j, at);
      SameNormalFormIffVariant(r.events[k].email, email);
    }
  }

  /** Nobody else takes this e-mail before moment `j`: it is free at moment `k`, and no registration
      strictly between succeeds with a variant of it. */
  ghost predicate Untaken(r: Run, k: nat, j: nat, email: string)
    requires k <= j <= |r.events|
  {
    && FindByEmail(r.At(k).users, email) < 0
    && forall m :: k < m < j && r.events[m].RegisterReq? && r.Out(m).Pair? ==> !Variant(r.events[m].email, email)
  }

  lemma UntakenFromStart(r: Run, k: nat, j: nat, email: string, m: nat)
    requires Proper(r) && k < j <= |r.events| && Untaken(r, k, j, email)
    ensures FindByEmail(r.At(0).users, email) < 0
    ensures m < j && m != k && r.events[m].RegisterReq? && r.Out(m).Pair? ==> !Variant(r.events[m].email, email)
  {
    hide Step;
    Later(r, 0, k);
    assert forall i :: 0 <= i < |r.At(0).users| ==> r.At(k).users[i].email == r.At(0).users[i].email;
    if m < k && r.events[m].RegisterReq? && r.Out(m).Pair? { RegisteredIsFound(r, m, k, email); }
  }

  /** Of two registrations anywhere in a run, the first of which succeeds: the second fails when its
      e-mail is a case or padding variant of the first, and if nobody else takes the e-mail it succeeds
      exactly when it is not. At every later moment exactly the variants of the first find its account. */
  lemma TwoRegistrations(r: Run, k: nat, j: nat)
    requires Proper(r) && k < j < |r.events| && r.events[k].RegisterReq? && r.events[j].RegisterReq? && r.Out(k).Pair?
    ensures var (a, b, at) := (r.events[k].email, r.events[j].email, |r.At(k).users|);
            && (Variant(a, b) ==> r.Out(j) == Failed(EmailTaken))
            && (Untaken(r, k, j, b) ==> (r.Out(j).Pair? <==> !Variant(a, b)))
            && (forall i, x :: k < i <= |r.events| ==> (FindByEmail(r.At(i).users, x) == at <==> Variant(a, x)))
  {
    hide Step;
    var b := r.events[j].email;
    RegisterHistory(r, j);
    if Variant(r.events[k].email, b) {
      RefusedEmail(r.c, r.At(j), r.events[j]);
    } else if Untaken(r, k, j, b) {
      UntakenFromStart(r, k, j, b, k);
      forall m | 0 <= m < j && r.events[m].RegisterReq? && r.Out(m).Pair? ensures !Variant(r.events[m].email, b) {
        if m != k { UntakenFromStart(r, k, j, b, m); }
      }
    }
    forall i, x | k < i <= |r.events|
      ensures FindByEmail(r.At(i).users, x) == |r.At(k).users| <==> Variant(r.events[k].email, x)
    {
      RegisteredIsFound(r, k, i, x);
    }
  }

  lemma RefusedEmail(c: Config, w: World, e: Event)
    requires e.RegisterReq? && !Step(c, w, e).1.Pair?
    ensures Step(c, w, e).1 == Failed(EmailTaken)
  {
  }

  /** `refresh` never looks at `isActive`: switching an account off changes no answer of it. */
  lemma RefreshIgnoresActive(c: Config, w: World, raw: Id, meta: RequestMeta, id: Id, active: bool)
    ensures Refresh(c, w.(users := SetActive(w.users, id, active)), raw, meta).1 == Refresh(c, w, raw, meta).1
  {
    var users' := SetActive(w.users, id, active);
    forall u: Id ensures FindUser(users', u) == FindUser(w.users, u) {
      SameFind(w.users, users', u);
    }
  }
}
