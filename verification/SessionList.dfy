/** What `listSessions` shows, against what `refresh` would accept. */
module SessionList {
  import opened Basics
  import opened RefreshTable
  import opened World
  import opened Invariants

  ghost predicate NewestFirst(rows: Table) {
    forall i, j :: 0 <= i < j < |rows| ==> rows[i].createdAt >= rows[j].createdAt
  }

  ghost predicate DistinctFamilies(rows: Table) {
    forall i, j :: 0 <= i < j < |rows| ==> rows[i].family != rows[j].family
  }

  ghost predicate Active(row: Row, user: Id, now: Millis) {
    row.userId == user && !row.revoked && row.expiresAt > now
  }

  lemma {:induction false} InsertMembers(rows: Table, row: Row)
    ensures forall x :: x in InsertNewestFirst(rows, row) <==> x in rows || x == row
  {
    if rows != [] && rows[0].createdAt > row.createdAt {
      InsertMembers(rows[1..], row);
      assert rows == [rows[0]] + rows[1..];
    }
  }

  lemma {:induction false} InsertKeepsOrder(rows: Table, row: Row)
    requires NewestFirst(rows)
    ensures NewestFirst(InsertNewestFirst(rows, row))
  {
    if rows != [] && rows[0].createdAt > row.createdAt {
      var rest := InsertNewestFirst(rows[1..], row);
      InsertKeepsOrder(rows[1..], row);
      InsertMembers(rows[1..], row);
      forall i | 0 <= i < |rest| ensures rows[0].createdAt >= rest[i].createdAt {
        assert rest[i] in rest;
      }
    }
  }

  lemma {:induction false} InsertKeepsFamilies(rows: Table, row: Row)
    requires DistinctFamilies(rows) && forall x :: x in rows ==> x.family != row.family
    ensures DistinctFamilies(InsertNewestFirst(rows, row))
  {
    if rows != [] && rows[0].createdAt > row.createdAt {
      var rest := InsertNewestFirst(rows[1..], row);
      assert forall i, j :: 0 <= i < j < |rows[1..]| ==> rows[1..][i].family == rows[i + 1].family && rows[1..][j].family == rows[j + 1].family;
      InsertKeepsFamilies(rows[1..], row);
      InsertMembers(rows[1..], row);
      forall i | 0 <= i < |rest| ensures rows[0].family != rest[i].family {
        assert rest[i] in rest;
      }
    }
  }

  /** The list holds the user's live unexpired rows, newest first, one per family. */
  lemma {:induction false} ActiveRowsExact(t: Table, user: Id, now: Millis)
    requires Chain(t)
    ensures var rows := ActiveRows(t, user, now);
            && (forall x :: x in rows <==> x in t && Active(x, user, now))
            && NewestFirst(rows) && DistinctFamilies(rows)
  {
    if t != [] {
      var front, last := t[..|t| - 1], t[|t| - 1];
      assert t == front + [last];
      ActiveRowsExact(front, user, now);
      var rows := ActiveRows(front, user, now);
      if Active(last, user, now) {
        forall x | x in rows ensures x.family != last.family {
          var i :| 0 <= i < |front| && front[i] == x;
          assert t[i] == x && t[|t| - 1] == last;
        }
        InsertMembers(rows, last);
        InsertKeepsOrder(rows, last);
        InsertKeepsFamilies(rows, last);
      }
    }
  }

  /** The outcome `refresh` would give the token of this row now. */
  function WouldRefresh(c: Config, w: World, row: Row, meta: RequestMeta): Outcome {
    Refresh(c, w, row.tokenHash.raw, meta).1
  }

  lemma RowVerdict(c: Config, w: World, i: nat)
    requires WorldInv(c, w) && i < |w.refreshTokens|
    ensures forall meta :: WouldRefresh(c, w, w.refreshTokens[i], meta).Pair? <==>
              !w.refreshTokens[i].revoked && w.now <= w.refreshTokens[i].expiresAt
  {
  }

  /** Every listed row is one whose token `refresh` accepts at that instant; a row of the user whose
      token `refresh` accepts is listed exactly when it does not expire at this very millisecond. */
  lemma ListAgreesWithRefresh(c: Config, w: World, user: Id, meta: RequestMeta)
    requires WorldInv(c, w)
    ensures var rows := ActiveRows(w.refreshTokens, user, w.now);
            && (forall x :: x in rows ==> x in w.refreshTokens && x.userId == user && WouldRefresh(c, w, x, meta).Pair?)
            && (forall x :: x in w.refreshTokens && x.userId == user && WouldRefresh(c, w, x, meta).Pair? ==>
                  (x in rows <==> x.expiresAt != w.now))
  {
    ActiveRowsExact(w.refreshTokens, user, w.now);
    forall i | 0 <= i < |w.refreshTokens|
      ensures WouldRefresh(c, w, w.refreshTokens[i], meta).Pair? <==>
                !w.refreshTokens[i].revoked && w.now <= w.refreshTokens[i].expiresAt
    {
      RowVerdict(c, w, i);
    }
  }

  /** The response shows the active rows in descending order of creation, one session a family, and
      marks at most one of them as current: the one of the caller's own family. */
  lemma ListShape(c: Config, w: World, user: Id, current: Option<Id>)
    requires WorldInv(c, w)
    ensures var views, rows := ListSessions(w, user, current), ActiveRows(w.refreshTokens, user, w.now);
            && |views| == |rows| && DistinctFamilies(rows)
            && (forall i :: 0 <= i < |views| ==>
                  views[i].id == rows[i].id && (views[i].current <==> current == Some(rows[i].family)))
            && (forall i, j :: 0 <= i < j < |views| ==>
                  views[i].createdAt >= views[j].createdAt && !(views[i].current && views[j].current))
  {
    ActiveRowsExact(w.refreshTokens, user, w.now);
  }
}
