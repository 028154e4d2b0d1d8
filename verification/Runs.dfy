/** Runs of unbounded length, and what holds between any two moments of one run. */
module Runs {
  import opened Basics
  import opened RefreshTable
  import opened Rbac
  import opened World
  import opened Invariants

  /** The requests of a run, each handled atomically, the states between them and the answers. */
  datatype Record = Record(c: Config, events: seq<Event>, states: seq<World>, answers: seq<Outcome>) {

    /** The state before request `k`, after the first `k` requests. */
    function At(k: nat): World
      requires k < |states|
    {
      states[k]
    }

    /** What request `k` answers. */
    function Out(k: nat): Outcome
      requires k < |answers|
    {
      answers[k]
    }

    /** The refresh-token table before request `k`. */
    function Table(k: nat): Table
      requires k < |states|
    {
      states[k].refreshTokens
    }
  }

  const EMPTY_WORLD := World(0, 0, [], Graph([], [], {}, {}), [], [], map[], [])

  type Run = r: Record | |r.states| == |r.events| + 1 && |r.answers| == |r.events|
    witness Record(Config(900, 7), [], [EMPTY_WORLD], [])

  /** Each state and answer follows from the one before by the step function. */
  ghost predicate Follows(r: Run) {
    forall k {:trigger Step(r.c, r.states[k], r.events[k])} :: 0 <= k < |r.events| ==>
      Step(r.c, r.states[k], r.events[k]) == (r.states[k + 1], r.answers[k])
  }

  /** A migrated and seeded service that has not yet served anyone: any sound set of accounts, roles
      and permissions, no token of any kind. */
  ghost predicate Initial(w: World) {
    && w.refreshTokens == [] && w.authTokens == [] && w.issued == [] && w.store == map[]
    && UsersInv(w.users, w.next) && Sound(w.graph, w.next)
  }

  /** A run of the service from an initial state. */
  ghost predicate Proper(r: Run) {
    Initial(r.states[0]) && Follows(r)
  }

  /** Any requests from any start give a run: requests are never stuck. */
  lemma {:induction false} RunOf(c: Config, w: World, events: seq<Event>) returns (r: Run)
    ensures r.c == c && r.events == events && r.At(0) == w && Follows(r)
    decreases |events|
  {
    hide Step;
    if events == [] {
      r := Record(c, events, [w], []);
    } else {
      var (w1, out) := Step(c, w, events[0]);
      var rest := RunOf(c, w1, events[1..]);
      r := Record(c, events, [w] + rest.states, [out] + rest.answers);
      forall k | 0 <= k < |events| ensures Step(c, r.states[k], events[k]) == (r.states[k + 1], r.answers[k]) {
        if k > 0 {
          assert Step(c, rest.states[k - 1], rest.events[k - 1]) == (rest.states[k], rest.answers[k - 1]);
        }
      }
    }
  }

  lemma StepAt(r: Run, k: nat)
    requires Proper(r) && k < |r.events|
    ensures Step(r.c, r.At(k), r.events[k]) == (r.At(k + 1), r.Out(k))
  {
    hide Step;
  }

  /** The invariant holds at every moment of every run. */
  lemma {:induction false} Reachable(r: Run, k: nat)
    requires Proper(r) && k <= |r.events|
    ensures WorldInv(r.c, r.At(k))
  {
    hide Step;
    if k > 0 {
      Reachable(r, k - 1);
      WorldInvStep(r.c, r.At(k - 1), r.events[k - 1]);
    }
  }

  /** A moment `j` at or after `k`: time has not gone back, no row has lost its place or had its
      revocation cleared, no account has gone and no signed token has been forgotten. */
  lemma {:induction false} Later(r: Run, k: nat, j: nat)
    requires Proper(r) && k <= j <= |r.events|
    ensures r.At(k).now <= r.At(j).now && r.At(k).next <= r.At(j).next
    ensures Extends(r.Table(k), r.Table(j))
    ensures UsersExtend(r.At(k).users, r.At(j).users)
    ensures r.At(k).issued <= r.At(j).issued
  {
    hide Step;
    if k < j {
      Later(r, k, j - 1);
      var w, e := r.At(j - 1), r.events[j - 1];
      StepClock(r.c, w, e);
      StepTable(r.c, w, e);
      StepUsers(r.c, w, e);
      StepIssues(r.c, w, e);
      ChangeExtends(r.c, w.refreshTokens, w.now, w.next, ChangeOf(r.c, w, e));
      ExtendsTrans(r.Table(k), w.refreshTokens, r.Table(j));
    }
  }

  /** A row keeps its place, hash, owner and family, and stays revoked once it is. */
  lemma RowLater(r: Run, k: nat, j: nat, i: nat)
    requires Proper(r) && k <= j <= |r.events| && i < |r.Table(k)|
    ensures i < |r.Table(j)|
    ensures r.Table(j)[i].tokenHash == r.Table(k)[i].tokenHash && r.Table(j)[i].family == r.Table(k)[i].family
    ensures r.Table(j)[i].userId == r.Table(k)[i].userId && (r.Table(k)[i].revoked ==> r.Table(j)[i].revoked)
  {
    Later(r, k, j);
    ExtendsAt(r.Table(k), r.Table(j), i);
  }

  lemma ExtendsAt(t: Table, t': Table, i: nat)
    requires Extends(t, t') && i < |t|
    ensures i < |t'| && t'[i].tokenHash == t[i].tokenHash && t'[i].family == t[i].family
    ensures t'[i].userId == t[i].userId && (t[i].revoked ==> t'[i].revoked)
  {
  }

  /** A run of two requests and a pause, moment by moment. */
  lemma ThreeEvents(c: Config, w: World, e: Event, f: Event, ms: nat) returns (r: Run)
    ensures r.c == c && r.events == [e, f, Tick(ms)] && Follows(r)
    ensures r.At(0) == w && r.At(1) == Step(c, w, e).0 && r.At(2) == Step(c, r.At(1), f).0
    ensures r.At(3) == r.At(2).(now := r.At(2).now + ms)
    ensures r.Out(0) == Step(c, w, e).1 && r.Out(1) == Step(c, r.At(1), f).1
  {
    r := RunOf(c, w, [e, f, Tick(ms)]);
    assert Step(c, r.states[0], r.events[0]) == (r.states[1], r.answers[0]);
    assert Step(c, r.states[1], r.events[1]) == (r.states[2], r.answers[1]);
    assert Step(c, r.states[2], r.events[2]) == (r.states[3], r.answers[2]);
  }
}
