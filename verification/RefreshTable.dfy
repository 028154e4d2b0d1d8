/** The `refresh_tokens` table, in insertion order, and what one atomic request may do to it. */
module RefreshTable {
  import opened Basics

  datatype Row = Row(
    id: Id, userId: Id, tokenHash: TokenHash, family: Id, revoked: bool,
    meta: RequestMeta, expiresAt: Millis, createdAt: Millis)

  type Table = seq<Row>

  /** The four `where` objects that the service passes to `refreshTokenRepo.update`. */
  datatype Where =
    | ById(id: Id)
    | ByFamily(family: Id)
    | ByHashAndUser(tokenHash: TokenHash, userId: Id)
    | LiveOfUser(userId: Id)

  predicate Matches(where: Where, row: Row) {
    match where
    case ById(id) => row.id == id
    case ByFamily(family) => row.family == family
    case ByHashAndUser(tokenHash, userId) => row.tokenHash == tokenHash && row.userId == userId
    case LiveOfUser(userId) => row.userId == userId && !row.revoked
  }

  /** `update(where, { revoked: true })`. */
  function RevokeWhere(t: Table, where: Where): (r: Table)
    ensures |r| == |t|
    ensures forall i {:trigger r[i]} :: 0 <= i < |t| ==>
              r[i] == t[i].(revoked := t[i].revoked || Matches(where, t[i]))
  {
    seq(|t|, i requires 0 <= i < |t| => t[i].(revoked := t[i].revoked || Matches(where, t[i])))
  }

  /** After an update exactly the live rows that do not match are live, and they are as they were. */
  lemma LiveAfterUpdate(t: Table, where: Where)
    ensures forall row :: (row in RevokeWhere(t, where) && !row.revoked) <==> (row in t && !row.revoked && !Matches(where, row))
  {
    var t' := RevokeWhere(t, where);
    forall row | row in t' && !row.revoked ensures row in t && !Matches(where, row) {
      var i :| 0 <= i < |t'| && t'[i] == row;
      assert t[i] == row;
    }
    forall row | row in t && !row.revoked && !Matches(where, row) ensures row in t' {
      var i :| 0 <= i < |t| && t[i] == row;
      assert t'[i] == row;
    }
  }

  /** Updates may be repeated and taken in any order. */
  lemma UpdatesCommute(t: Table, a: Where, b: Where)
    ensures RevokeWhere(RevokeWhere(t, a), a) == RevokeWhere(t, a)
    ensures RevokeWhere(RevokeWhere(t, a), b) == RevokeWhere(RevokeWhere(t, b), a)
  {
  }

  /** `findOne({ where: { tokenHash } })`: the first match, or -1. */
  function FindHash(t: Table, h: TokenHash): (at: int)
    ensures -1 <= at < |t|
    ensures at >= 0 ==> t[at].tokenHash == h
    ensures forall i :: 0 <= i < (if at >= 0 then at else |t|) ==> t[i].tokenHash != h
  {
    if t == [] then -1
    else
      var at := FindHash(t[..|t| - 1], h);
      if at >= 0 then at
      else if t[|t| - 1].tokenHash == h then |t| - 1 else -1
  }

  /** `findOne({ where: { id, userId } })`: the first match, or -1. */
  function FindOwned(t: Table, id: Id, userId: Id): (at: int)
    ensures -1 <= at < |t|
    ensures at >= 0 ==> t[at].id == id && t[at].userId == userId
    ensures forall i :: 0 <= i < (if at >= 0 then at else |t|) ==> !(t[i].id == id && t[i].userId == userId)
  {
    if t == [] then -1
    else
      var at := FindOwned(t[..|t| - 1], id, userId);
      if at >= 0 then at
      else if t[|t| - 1].id == id && t[|t| - 1].userId == userId then |t| - 1 else -1
  }

  /** The row `issueTokenPair` saves. */
  function Mint(c: Config, id: Id, userId: Id, raw: Id, family: Id, meta: RequestMeta, now: Millis): Row {
    Row(id, userId, Sha256(raw), family, false, meta, now + RefreshTtlMillis(c), now)
  }

  datatype Verdict = Unknown | Reused(row: Row) | Expired | Accepted(row: Row)

  /** The three tests `refresh` makes on the row it has read. */
  function Judge(t: Table, raw: Id, now: Millis): Verdict {
    var at := FindHash(t, Sha256(raw));
    if at < 0 then Unknown
    else if t[at].revoked then Reused(t[at])
    else if t[at].expiresAt < now then Expired
    else Accepted(t[at])
  }

  // ---------- the table as a set of families ----------

  ghost predicate Distinct(t: Table) {
    forall i, j :: 0 <= i < j < |t| ==> t[i].id != t[j].id && t[i].tokenHash != t[j].tokenHash
  }

  /** A family never spans two users. */
  ghost predicate OneOwner(t: Table) {
    forall i, j :: 0 <= i < |t| && 0 <= j < |t| && t[i].family == t[j].family ==> t[i].userId == t[j].userId
  }

  /** Every row of a family but its newest is revoked. */
  ghost predicate Chain(t: Table) {
    forall i, j :: 0 <= i < j < |t| && t[i].family == t[j].family ==> t[i].revoked
  }

  /** No identifier of the table is `next` or later. */
  ghost predicate Below(t: Table, next: nat) {
    forall i :: 0 <= i < |t| ==> t[i].id < next && t[i].family < next && t[i].tokenHash.raw < next
  }

  ghost predicate Timed(c: Config, t: Table, now: Millis) {
    && (forall i :: 0 <= i < |t| ==> t[i].createdAt <= now && t[i].expiresAt == t[i].createdAt + RefreshTtlMillis(c))
    && (forall i, j :: 0 <= i < j < |t| ==> t[i].createdAt <= t[j].createdAt)
  }

  ghost predicate Inv(c: Config, t: Table, now: Millis, next: nat) {
    Distinct(t) && OneOwner(t) && Chain(t) && Below(t, next) && Timed(c, t, now)
  }

  ghost predicate Dead(t: Table, family: Id) {
    forall i :: 0 <= i < |t| && t[i].family == family ==> t[i].revoked
  }

  ghost predicate Known(t: Table, family: Id) {
    exists i :: 0 <= i < |t| && t[i].family == family
  }

  // ---------- what one atomic request may do ----------

  datatype Change = Revoke(where: Where) | Open(row: Row) | Rotate(at: nat, row: Row) | Keep

  ghost predicate Legal(c: Config, t: Table, now: Millis, next: nat, ch: Change) {
    match ch
    case Keep => true
    case Revoke(_) => true
    case Open(row) => Newborn(c, row, now, next) && next <= row.family
    case Rotate(at, row) =>
      && Newborn(c, row, now, next)
      && at < |t| && !t[at].revoked && now <= t[at].expiresAt
      && row.family == t[at].family && row.userId == t[at].userId
  }

  ghost predicate Newborn(c: Config, row: Row, now: Millis, next: nat) {
    && next <= row.id && next <= row.tokenHash.raw && !row.revoked
    && row.createdAt == now && row.expiresAt == now + RefreshTtlMillis(c)
  }

  ghost function Apply(t: Table, ch: Change): Table
    requires ch.Rotate? ==> ch.at < |t|
  {
    match ch
    case Keep => t
    case Revoke(where) => RevokeWhere(t, where)
    case Open(row) => t + [row]
    case Rotate(at, row) => RevokeWhere(t, ById(t[at].id)) + [row]
  }

  /** A later table: rows stay where they are, keep every column but `revoked`, and `revoked` is never cleared. */
  ghost predicate Extends(t: Table, t': Table) {
    && |t| <= |t'|
    && forall i {:trigger t'[i]} {:trigger t[i]} :: 0 <= i < |t| ==>
         t'[i].(revoked := t[i].revoked) == t[i] && (t[i].revoked ==> t'[i].revoked)
  }

  lemma ChangeExtends(c: Config, t: Table, now: Millis, next: nat, ch: Change)
    requires Legal(c, t, now, next, ch)
    ensures Extends(t, Apply(t, ch))
  {
  }

  lemma RevokeKeepsInv(c: Config, t: Table, now: Millis, next: nat, where: Where)
    requires Inv(c, t, now, next)
    ensures Inv(c, RevokeWhere(t, where), now, next)
  {
  }

  /** A live row may join a family only when nothing live is left in it. */
  lemma AppendKeepsInv(c: Config, t: Table, now: Millis, next: nat, row: Row, next': nat)
    requires Inv(c, t, now, next) && Newborn(c, row, now, next) && next <= next'
    requires row.id < next' && row.tokenHash.raw < next' && row.family < next'
    requires Dead(t, row.family)
    requires forall i :: 0 <= i < |t| && t[i].family == row.family ==> t[i].userId == row.userId
    ensures Inv(c, t + [row], now, next')
  {
  }

  /** One atomic request keeps the whole table invariant, the linear chain included. */
  lemma ChangeKeepsInv(c: Config, t: Table, now: Millis, next: nat, ch: Change, next': nat)
    requires Inv(c, t, now, next) && Legal(c, t, now, next, ch) && next <= next'
    requires ch.Open? || ch.Rotate? ==> ch.row.id < next' && ch.row.tokenHash.raw < next' && ch.row.family < next'
    ensures Inv(c, Apply(t, ch), now, next')
  {
    match ch
    case Keep =>
    case Revoke(where) => RevokeKeepsInv(c, t, now, next, where);
    case Open(row) => AppendKeepsInv(c, t, now, next, row, next');
    case Rotate(at, row) =>
      RevokeKeepsInv(c, t, now, next, ById(t[at].id));
      RotatedFamilyIsDead(t, at);
      AppendKeepsInv(c, RevokeWhere(t, ById(t[at].id)), now, next, row, next');
  }

  /** Revoking the live row of a chain leaves nothing live in its family. */
  lemma RotatedFamilyIsDead(t: Table, at: nat)
    requires Chain(t) && at < |t| && !t[at].revoked
    ensures Dead(RevokeWhere(t, ById(t[at].id)), t[at].family)
  {
  }

  lemma {:induction false} ExtendsTrans(a: Table, b: Table, d: Table)
    requires Extends(a, b) && Extends(b, d)
    ensures Extends(a, d)
  {
  }

  /** With distinct hashes, looking a row's hash up finds that row. */
  lemma FindsItself(t: Table, i: nat)
    requires Distinct(t) && i < |t|
    ensures FindHash(t, t[i].tokenHash) == i
  {
  }
}
