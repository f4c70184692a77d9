/** The transaction history: what the query may answer, the page it is cut into, and walks that follow NextCursor. */
module Pagination {
  import opened Domain

  /** A row as the history shows it. Ids are ranks in the collation order of the ULIDs, so that `<` is the
      order of `id < ?`; `createdAt` is the time of insertion in microseconds. */
  datatype HistoryRow = HistoryRow(id: nat, user: string, kind: Kind, amount: int64, createdAt: nat)

  /** None is the empty cursor. */
  type Cursor = Option<nat>

  type Table = seq<HistoryRow>

  predicate KeysUnique(table: Table) {
    forall i, j :: 0 <= i < j < |table| ==> table[i].id != table[j].id
  }

  /** The WHERE clause. */
  predicate Matches(row: HistoryRow, user: string, cursor: Cursor) {
    row.user == user && (cursor.Some? ==> row.id < cursor.value)
  }

  /** What ORDER BY created_at DESC LIMIT n may return: any order among equal times, and any choice among
      equal times at the cut. */
  predicate IsAnswer(table: Table, user: string, cursor: Cursor, n: nat, rows: seq<HistoryRow>) {
    && |rows| <= n
    && (forall i :: 0 <= i < |rows| ==> rows[i] in table && Matches(rows[i], user, cursor))
    && (forall i, j :: 0 <= i < j < |rows| ==> rows[i].id != rows[j].id && rows[i].createdAt >= rows[j].createdAt)
    && (forall m :: m in table && Matches(m, user, cursor) && m !in rows ==>
          |rows| == n && (n > 0 ==> rows[n - 1].createdAt >= m.createdAt))
  }

  // ---- The query and the page ----------------------------------------------------------------------

  function Filter(table: Table, user: string, cursor: Cursor): (rows: seq<HistoryRow>)
    ensures forall m :: m in rows <==> m in table && Matches(m, user, cursor)
  {
    if |table| == 0 then []
    else
      var rest := Filter(table[1..], user, cursor);
      if Matches(table[0], user, cursor) then [table[0]] + rest else rest
  }

  predicate NewestFirst(rows: seq<HistoryRow>) {
    forall i, j :: 0 <= i < j < |rows| ==> rows[i].createdAt >= rows[j].createdAt
  }

  function InsertByTime(row: HistoryRow, rows: seq<HistoryRow>): (r: seq<HistoryRow>)
    requires NewestFirst(rows)
    ensures NewestFirst(r) && |r| == |rows| + 1
    ensures forall m :: m in r <==> m == row || m in rows
  {
    if |rows| == 0 || row.createdAt >= rows[0].createdAt then [row] + rows
    else
      var rest := InsertByTime(row, rows[1..]);
      assert forall m :: m in rows <==> m == rows[0] || m in rows[1..];
      assert forall m :: m in rest ==> m == row || m in rows[1..];
      assert forall m :: m in rows[1..] ==> m.createdAt <= rows[0].createdAt;
      assert forall k :: 0 <= k < |rest| ==> rest[k] in rest;
      [rows[0]] + rest
  }

  function SortByTime(rows: seq<HistoryRow>): (r: seq<HistoryRow>)
    ensures NewestFirst(r) && |r| == |rows|
    ensures forall m :: m in r <==> m in rows
  {
    if |rows| == 0 then [] else InsertByTime(rows[0], SortByTime(rows[1..]))
  }

  lemma ConsUnique(row: HistoryRow, rest: Table)
    requires KeysUnique(rest) && forall m :: m in rest ==> m.id != row.id
    ensures KeysUnique([row] + rest)
  {
    forall i, j | 0 <= i < j < |rest| + 1 ensures ([row] + rest)[i].id != ([row] + rest)[j].id {
      assert rest[j - 1] in rest;
    }
  }

  lemma TailUnique(rows: Table)
    requires KeysUnique(rows) && |rows| > 0
    ensures KeysUnique(rows[1..]) && forall m :: m in rows[1..] ==> m.id != rows[0].id
  {
  }

  lemma {:induction false} FilterUnique(table: Table, user: string, cursor: Cursor)
    requires KeysUnique(table)
    ensures KeysUnique(Filter(table, user, cursor))
  {
    if |table| > 0 {
      TailUnique(table);
      FilterUnique(table[1..], user, cursor);
      if Matches(table[0], user, cursor) {
        ConsUnique(table[0], Filter(table[1..], user, cursor));
      }
    }
  }

  lemma {:induction false} InsertUnique(row: HistoryRow, rows: Table)
    requires NewestFirst(rows) && KeysUnique(rows) && forall m :: m in rows ==> m.id != row.id
    ensures KeysUnique(InsertByTime(row, rows))
  {
    if |rows| == 0 || row.createdAt >= rows[0].createdAt {
      ConsUnique(row, rows);
    } else {
      TailUnique(rows);
      assert rows[0] in rows;
      InsertUnique(row, rows[1..]);
      ConsUnique(rows[0], InsertByTime(row, rows[1..]));
    }
  }

  lemma {:induction false} SortUnique(rows: Table)
    requires KeysUnique(rows)
    ensures KeysUnique(SortByTime(rows))
  {
    if |rows| > 0 {
      TailUnique(rows);
      SortUnique(rows[1..]);
      InsertUnique(rows[0], SortByTime(rows[1..]));
    }
  }

  /** One admissible evaluation of the query. */
  function Select(table: Table, user: string, cursor: Cursor, n: nat): (rows: seq<HistoryRow>)
    requires KeysUnique(table)
    ensures IsAnswer(table, user, cursor, n, rows)
  {
    FilterUnique(table, user, cursor);
    SortUnique(Filter(table, user, cursor));
    var sorted := SortByTime(Filter(table, user, cursor));
    if |sorted| <= n then sorted
    else
      assert forall m :: m in sorted && m !in sorted[..n] ==> m in sorted[n..];
      sorted[..n]
  }

  datatype Page = Page(items: seq<HistoryRow>, next: Cursor)

  /** The first `limit` rows are shown; the one after them, if any, names the next page. */
  predicate IsPage(rows: seq<HistoryRow>, limit: nat, page: Page) {
    if |rows| <= limit then page == Page(rows, None) else page == Page(rows[..limit], Some(rows[limit].id))
  }

  function Normalise(limit: int): (r: nat)
    ensures 1 <= r <= 100
    ensures 1 <= limit <= 100 ==> r == limit
    ensures !(1 <= limit <= 100) ==> r == 50
  {
    if limit <= 0 || limit > 100 then 50 else limit
  }

  /** The page is cut from some admissible answer of limit + 1 rows. */
  ghost predicate Serves(table: Table, user: string, cursor: Cursor, limit: nat, page: Page) {
    exists rows :: IsAnswer(table, user, cursor, limit + 1, rows) && IsPage(rows, limit, page)
  }

  // ---- Walks -------------------------------------------------------------------------------------------

  /** The cursor that fetches answer i of a client who starts at `start` and follows NextCursor. */
  function CursorOf(answers: seq<seq<HistoryRow>>, limit: nat, start: Cursor, i: nat): Cursor
    requires i <= |answers|
  {
    if i == 0 then start
    else if |answers[i - 1]| > limit then Some(answers[i - 1][limit].id)
    else None
  }

  /** The answers behind the pages served so far, when page i is served from `tables[i]`. */
  predicate IsPartialWalk(tables: seq<Table>, user: string, limit: nat, start: Cursor, answers: seq<seq<HistoryRow>>) {
    && 0 < |answers| == |tables|
    && (forall i :: 0 <= i < |answers| ==>
          IsAnswer(tables[i], user, CursorOf(answers, limit, start, i), limit + 1, answers[i]))
    && (forall i :: 0 <= i < |answers| - 1 ==> |answers[i]| > limit)
  }

  /** A walk ends with the first page that has no NextCursor. */
  predicate IsWalk(tables: seq<Table>, user: string, limit: nat, start: Cursor, answers: seq<seq<HistoryRow>>) {
    IsPartialWalk(tables, user, limit, start, answers) && |answers[|answers| - 1]| <= limit
  }

  function Fixed(table: Table, n: nat): (tables: seq<Table>)
    ensures |tables| == n && forall i :: 0 <= i < n ==> tables[i] == table
  {
    seq(n, _ => table)
  }

  /** A walk over a table that does not change. */
  predicate IsFixedWalk(table: Table, user: string, limit: nat, start: Cursor, answers: seq<seq<HistoryRow>>) {
    IsWalk(Fixed(table, |answers|), user, limit, start, answers)
  }

  lemma WalkTail(table: Table, user: string, limit: nat, start: Cursor, answers: seq<seq<HistoryRow>>)
    requires IsFixedWalk(table, user, limit, start, answers) && |answers[0]| > limit
    ensures |answers| > 1 && IsFixedWalk(table, user, limit, Some(answers[0][limit].id), answers[1..])
  {
    hide IsAnswer;
    var rest, next := answers[1..], Some(answers[0][limit].id);
    forall i | 0 <= i < |rest|
      ensures IsAnswer(table, user, CursorOf(rest, limit, next, i), limit + 1, rest[i])
    {
      assert Fixed(table, |answers|)[i + 1] == table;
      assert CursorOf(rest, limit, next, i) == CursorOf(answers, limit, start, i + 1);
    }
  }

  /** What the client is shown. */
  function Shown(answers: seq<seq<HistoryRow>>, limit: nat): seq<HistoryRow> {
    if |answers| == 0 then []
    else (if |answers[0]| <= limit then answers[0] else answers[0][..limit]) + Shown(answers[1..], limit)
  }

  /** The shown rows, with the row that each NextCursor names put back between its two pages. */
  function Restored(answers: seq<seq<HistoryRow>>): seq<HistoryRow> {
    if |answers| == 0 then [] else answers[0] + Restored(answers[1..])
  }

  /** For this user, the order of ids is the order of creation. */
  predicate OrdersAgree(table: Table, user: string) {
    forall a, b :: a in table && b in table && a.user == user && b.user == user && a.id < b.id ==>
      a.createdAt < b.createdAt
  }

  /** Exactly the matching rows, newest first, none twice. */
  ghost predicate IsHistory(table: Table, user: string, cursor: Cursor, rows: seq<HistoryRow>) {
    && (forall i, j :: 0 <= i < j < |rows| ==> rows[i].id > rows[j].id && rows[i].createdAt > rows[j].createdAt)
    && (forall m :: m in rows <==> m in table && Matches(m, user, cursor))
  }

  /** With agreeing orders an answer is in strict descending order, and everything it leaves out is below its end. */
  lemma AnswerIsTop(table: Table, user: string, cursor: Cursor, n: nat, rows: seq<HistoryRow>)
    requires KeysUnique(table) && OrdersAgree(table, user) && IsAnswer(table, user, cursor, n, rows) && n > 0
    ensures forall i, j :: 0 <= i < j < |rows| ==> rows[i].id > rows[j].id && rows[i].createdAt > rows[j].createdAt
    ensures forall m :: m in table && Matches(m, user, cursor) && m !in rows ==>
              |rows| == n && m.id < rows[n - 1].id && m.createdAt < rows[n - 1].createdAt
  {
    forall i, j | 0 <= i < j < |rows| ensures rows[i].id > rows[j].id && rows[i].createdAt > rows[j].createdAt {
      assert rows[i] in table && rows[j] in table && rows[i].id != rows[j].id;
    }
    forall m | m in table && Matches(m, user, cursor) && m !in rows
      ensures |rows| == n && m.id < rows[n - 1].id && m.createdAt < rows[n - 1].createdAt
    {
      assert rows[n - 1] in table && rows[n - 1] in rows;
      var i :| 0 <= i < |table| && table[i] == m;
      var j :| 0 <= j < |table| && table[j] == rows[n - 1];
      assert m.id != rows[n - 1].id;
    }
  }

  /** Page-walk equation: over a fixed ledger with agreeing orders, the pages with the row that each NextCursor
      names put back between its two pages are exactly the ledger below the starting cursor, newest first,
      none twice. */
  lemma {:induction false} PageWalkEquation(table: Table, user: string, limit: nat, start: Cursor,
                                            answers: seq<seq<HistoryRow>>)
    requires KeysUnique(table) && OrdersAgree(table, user)
    requires IsFixedWalk(table, user, limit, start, answers)
    ensures IsHistory(table, user, start, Restored(answers))
    decreases |answers|
  {
    hide IsAnswer, IsHistory, OrdersAgree, KeysUnique;
    var rows := answers[0];
    assert Fixed(table, |answers|)[0] == table && CursorOf(answers, limit, start, 0) == start;
    assert IsAnswer(table, user, start, limit + 1, rows);
    if |rows| <= limit {
      assert answers[1..] == [];
      assert Restored(answers) == rows;
      ShortAnswerIsHistory(table, user, start, limit + 1, rows);
    } else {
      AnswerLength(table, user, start, limit + 1, rows);
      WalkTail(table, user, limit, start, answers);
      PageWalkEquation(table, user, limit, Some(rows[limit].id), answers[1..]);
      JoinHistories(table, user, start, rows, Restored(answers[1..]));
    }
  }

  lemma AnswerLength(table: Table, user: string, cursor: Cursor, n: nat, rows: seq<HistoryRow>)
    requires IsAnswer(table, user, cursor, n, rows)
    ensures |rows| <= n
    ensures forall m :: m in rows ==> m in table && Matches(m, user, cursor)
  {
  }

  /** An answer shorter than its limit is everything there is. */
  lemma ShortAnswerIsHistory(table: Table, user: string, cursor: Cursor, n: nat, rows: seq<HistoryRow>)
    requires KeysUnique(table) && OrdersAgree(table, user) && IsAnswer(table, user, cursor, n, rows) && |rows| < n
    ensures IsHistory(table, user, cursor, rows)
  {
    AnswerIsTop(table, user, cursor, n, rows);
  }

  lemma JoinHistories(table: Table, user: string, cursor: Cursor, rows: seq<HistoryRow>, rest: seq<HistoryRow>)
    requires KeysUnique(table) && OrdersAgree(table, user) && |rows| > 0
    requires IsAnswer(table, user, cursor, |rows|, rows)
    requires IsHistory(table, user, Some(rows[|rows| - 1].id), rest)
    ensures IsHistory(table, user, cursor, rows + rest)
  {
    AnswerIsTop(table, user, cursor, |rows|, rows);
    var last, all := rows[|rows| - 1], rows + rest;
    assert last in rows;
    forall m | m in rest
      ensures m in table && m.id < last.id && m.createdAt < last.createdAt && Matches(m, user, cursor)
    {
    }
    forall i, j | 0 <= i < j < |all| ensures all[i].id > all[j].id && all[i].createdAt > all[j].createdAt {
      if j >= |rows| {
        assert rest[j - |rows|] in rest;
        if i >= |rows| {
          assert all[i] == rest[i - |rows|];
        }
      }
    }
    forall m | m in table && Matches(m, user, cursor) ensures m in all {
      if m !in rows {
        assert m in rest;
      }
    }
  }

  lemma {:induction false} ShownCount(table: Table, user: string, limit: nat, start: Cursor,
                                      answers: seq<seq<HistoryRow>>)
    requires IsFixedWalk(table, user, limit, start, answers)
    ensures |Restored(answers)| == |Shown(answers, limit)| + |answers| - 1
    decreases |answers|
  {
    if |answers[0]| <= limit {
      assert answers[1..] == [];
    } else {
      assert Fixed(table, |answers|)[0] == table;
      assert IsAnswer(table, user, CursorOf(answers, limit, start, 0), limit + 1, answers[0]);
      WalkTail(table, user, limit, start, answers);
      ShownCount(table, user, limit, Some(answers[0][limit].id), answers[1..]);
    }
  }

  lemma {:induction false} SizeOfUnique(rows: seq<HistoryRow>)
    requires forall i, j :: 0 <= i < j < |rows| ==> rows[i].id != rows[j].id
    ensures |set i | 0 <= i < |rows| :: rows[i].id| == |rows|
  {
    var ids := set i | 0 <= i < |rows| :: rows[i].id;
    if |rows| == 0 {
      assert ids == {};
    } else {
      var n := |rows| - 1;
      SizeOfUnique(rows[..n]);
      var rest := set i | 0 <= i < |rows[..n]| :: rows[..n][i].id;
      assert forall i :: 0 <= i < n ==> rows[..n][i].id in rest;
      assert ids == rest + {rows[n].id};
    }
  }

  /** A sequence of exactly the matching rows is as long as there are ids of matching rows. */
  lemma HistorySize(table: Table, user: string, cursor: Cursor, rows: seq<HistoryRow>)
    requires forall i, j :: 0 <= i < j < |rows| ==> rows[i].id != rows[j].id
    requires forall m :: m in rows <==> m in table && Matches(m, user, cursor)
    ensures |rows| == |Remaining(table, user, cursor)|
  {
    SizeOfUnique(rows);
    var ids := set i | 0 <= i < |rows| :: rows[i].id;
    assert forall m :: m in rows ==> m.id in ids;
    assert ids == Remaining(table, user, cursor);
  }

  lemma Distribute(p: int, d: int)
    ensures (p - 1) * d + d == p * d
  {
  }

  lemma {:induction false} RestoredCount(table: Table, user: string, limit: nat, start: Cursor,
                                         answers: seq<seq<HistoryRow>>)
    requires IsFixedWalk(table, user, limit, start, answers)
    ensures |Restored(answers)| == (|answers| - 1) * (limit + 1) + |answers[|answers| - 1]|
    decreases |answers|
  {
    hide IsAnswer;
    if |answers[0]| <= limit {
      assert |answers| == 1 && answers[1..] == [];
    } else {
      assert Fixed(table, |answers|)[0] == table;
      AnswerLength(table, user, CursorOf(answers, limit, start, 0), limit + 1, answers[0]);
      WalkTail(table, user, limit, start, answers);
      RestoredCount(table, user, limit, Some(answers[0][limit].id), answers[1..]);
      Distribute(|answers| - 1, limit + 1);
    }
  }

  lemma DivisionIs(n: nat, d: nat, q: nat)
    requires d > 0 && q * d <= n < q * d + d
    ensures q == n / d
  {
    var k := n / d;
    assert k * d <= n < k * d + d;
    if q < k {
      Distribute(k, d);
      LessTimes(q, k - 1, d);
    } else if k < q {
      Distribute(q, d);
      LessTimes(k, q - 1, d);
    }
  }

  lemma LessTimes(a: nat, b: nat, d: nat)
    requires a <= b
    ensures a * d <= b * d
  {
  }

  /** How many rows a walk never shows: one for every full limit + 1 rows that it names; and where it names every
      row of the user exactly once, one for every full limit + 1 rows that the user has. */
  lemma RowsNeverShown(table: Table, user: string, limit: nat, answers: seq<seq<HistoryRow>>)
    requires IsFixedWalk(table, user, limit, None, answers)
    ensures var n := |Restored(answers)|; |Shown(answers, limit)| == n - n / (limit + 1)
    ensures var n := |Remaining(table, user, None)|;
            NamesEachOnce(table, user, None, Restored(answers)) ==> |Shown(answers, limit)| == n - n / (limit + 1)
  {
    hide IsAnswer;
    ShownCount(table, user, limit, None, answers);
    RestoredCount(table, user, limit, None, answers);
    DivisionIs(|Restored(answers)|, limit + 1, |answers| - 1);
    if NamesEachOnce(table, user, None, Restored(answers)) {
      HistorySize(table, user, None, Restored(answers));
    }
  }

  lemma {:induction false} HistoryUnique(table: Table, user: string, cursor: Cursor,
                                         a: seq<HistoryRow>, b: seq<HistoryRow>)
    requires IsHistory(table, user, cursor, a) && IsHistory(table, user, cursor, b)
    ensures a == b
  {
    DescendingUnique(a, b);
  }

  lemma NoMembers(b: seq<HistoryRow>)
    requires forall m :: m !in b
    ensures b == []
  {
    assert forall m :: m in multiset(b) <==> m in b;
    assert multiset(b) == multiset{};
    assert |multiset(b)| == |b|;
  }

  /** A strictly descending sequence is determined by its elements. */
  lemma {:induction false} DescendingUnique(a: seq<HistoryRow>, b: seq<HistoryRow>)
    requires forall i, j :: 0 <= i < j < |a| ==> a[i].id > a[j].id
    requires forall i, j :: 0 <= i < j < |b| ==> b[i].id > b[j].id
    requires forall m :: m in a <==> m in b
    ensures a == b
  {
    if |a| == 0 {
      NoMembers(b);
    } else {
      assert a[0] in b;
      assert b[0] in a;
      assert a[0] == b[0];
      forall m ensures m in a[1..] <==> m in b[1..] {
        assert m in a <==> m == a[0] || m in a[1..];
        assert m in b <==> m == b[0] || m in b[1..];
      }
      DescendingUnique(a[1..], b[1..]);
    }
  }

  // ---- When a walk works out ---------------------------------------------------------------------------

  /** Over a fixed ledger the restored pages are the ledger in descending order if and only if the two orders
      agree. */
  lemma HistoryIffOrdersAgree(table: Table, user: string, limit: nat, answers: seq<seq<HistoryRow>>)
    requires KeysUnique(table) && IsFixedWalk(table, user, limit, None, answers)
    ensures IsHistory(table, user, None, Restored(answers)) <==> OrdersAgree(table, user)
  {
    if OrdersAgree(table, user) {
      PageWalkEquation(table, user, limit, None, answers);
    }
    if IsHistory(table, user, None, Restored(answers)) {
      var rows := Restored(answers);
      forall a, b | a in table && b in table && a.user == user && b.user == user && a.id < b.id
        ensures a.createdAt < b.createdAt
      {
        assert a in rows && b in rows;
      }
    }
  }

  /** Every matching row, none twice. */
  ghost predicate NamesEachOnce(table: Table, user: string, cursor: Cursor, rows: seq<HistoryRow>) {
    && (forall i, j :: 0 <= i < j < |rows| ==> rows[i].id != rows[j].id)
    && (forall m :: m in rows <==> m in table && Matches(m, user, cursor))
  }

  /** No two rows of the user were created at the same time. */
  predicate TimesDistinct(table: Table, user: string) {
    forall a, b :: a in table && b in table && a.user == user && b.user == user && a != b ==> a.createdAt != b.createdAt
  }

  /** The matching rows, newest first. */
  ghost predicate IsTimeline(table: Table, user: string, cursor: Cursor, rows: seq<HistoryRow>) {
    && (forall i, j :: 0 <= i < j < |rows| ==> rows[i].createdAt > rows[j].createdAt)
    && (forall m :: m in rows <==> m in table && Matches(m, user, cursor))
  }

  lemma TimelineExists(table: Table, user: string, cursor: Cursor)
    requires KeysUnique(table) && TimesDistinct(table, user)
    ensures IsTimeline(table, user, cursor, SortByTime(Filter(table, user, cursor)))
  {
    FilterUnique(table, user, cursor);
    SortUnique(Filter(table, user, cursor));
    var rows := SortByTime(Filter(table, user, cursor));
    forall i, j | 0 <= i < j < |rows| ensures rows[i].createdAt > rows[j].createdAt {
      assert rows[i] in rows && rows[j] in rows;
      assert rows[i].id != rows[j].id;
    }
  }

  /** With distinct times the query has one answer: the newest rows. */
  lemma AnswerIsPrefix(table: Table, user: string, cursor: Cursor, n: nat, answer: seq<HistoryRow>,
                       rows: seq<HistoryRow>)
    requires IsTimeline(table, user, cursor, rows) && IsAnswer(table, user, cursor, n, answer)
    ensures |answer| == (if |rows| < n then |rows| else n) && answer == rows[..|answer|]
  {
    for k := 0 to |answer|
      invariant k <= |rows| && answer[..k] == rows[..k]
    {
      AnswerAgreesAt(table, user, cursor, n, answer, rows, k);
    }
    assert answer == answer[..|answer|];
    if |answer| < |rows| {
      assert rows[|answer|] in rows;
      assert rows[|answer|] !in answer by { assert forall i :: 0 <= i < |answer| ==> answer[i] == rows[i]; }
    }
  }

  lemma AnswerAgreesAt(table: Table, user: string, cursor: Cursor, n: nat, answer: seq<HistoryRow>,
                       rows: seq<HistoryRow>, k: nat)
    requires IsTimeline(table, user, cursor, rows) && IsAnswer(table, user, cursor, n, answer)
    requires k < |answer| && k <= |rows| && answer[..k] == rows[..k]
    ensures k < |rows| && answer[k] == rows[k]
  {
    assert forall i :: 0 <= i < k ==> answer[i] == answer[..k][i] && rows[i] == rows[..k][i];
    var j := PlaceInTimeline(table, user, cursor, n, answer, rows, k);
    NewerRowIsAnswered(table, user, cursor, n, answer, rows, k, j);
    var p :| 0 <= p < |answer| && answer[p] == rows[k];
    hide IsAnswer;
    AnswerDescends(table, user, cursor, n, answer, k, p);
  }

  lemma AnswerDescends(table: Table, user: string, cursor: Cursor, n: nat, answer: seq<HistoryRow>, i: nat, j: nat)
    requires IsAnswer(table, user, cursor, n, answer) && j < |answer|
    ensures i <= j ==> answer[j].createdAt <= answer[i].createdAt
    ensures i < j ==> answer[j] != answer[i]
  {
  }

  lemma PlaceInTimeline(table: Table, user: string, cursor: Cursor, n: nat, answer: seq<HistoryRow>,
                        rows: seq<HistoryRow>, k: nat) returns (j: nat)
    requires IsTimeline(table, user, cursor, rows) && IsAnswer(table, user, cursor, n, answer)
    requires k < |answer| && k <= |rows| && forall i :: 0 <= i < k ==> answer[i] == rows[i]
    ensures k <= j < |rows| && rows[j] == answer[k]
  {
    assert answer[k] in rows;
    j :| 0 <= j < |rows| && rows[j] == answer[k];
  }

  lemma NewerRowIsAnswered(table: Table, user: string, cursor: Cursor, n: nat, answer: seq<HistoryRow>,
                           rows: seq<HistoryRow>, k: nat, j: nat)
    requires IsTimeline(table, user, cursor, rows) && IsAnswer(table, user, cursor, n, answer)
    requires k < |answer| && k <= j < |rows| && rows[j] == answer[k]
    ensures rows[k] in answer
  {
    assert rows[k] in rows;
    AnswerDescends(table, user, cursor, n, answer, k, |answer| - 1);
  }

  lemma {:induction false} ShownWithinRestored(answers: seq<seq<HistoryRow>>, limit: nat)
    ensures forall m :: m in Shown(answers, limit) ==> m in Restored(answers)
  {
    if |answers| > 0 {
      ShownWithinRestored(answers[1..], limit);
      assert forall m :: m in answers[0][..if |answers[0]| <= limit then |answers[0]| else limit] ==> m in answers[0];
    }
  }

  /** The first boundary row is cut from its page, and every later answer has smaller ids. */
  lemma BoundaryRowIsNotShown(table: Table, user: string, limit: nat, answers: seq<seq<HistoryRow>>)
    requires IsFixedWalk(table, user, limit, None, answers) && |answers[0]| > limit
    ensures answers[0][limit] in table && answers[0][limit].user == user
    ensures answers[0][limit] !in Shown(answers, limit)
  {
    assert Fixed(table, |answers|)[0] == table && CursorOf(answers, limit, None, 0) == None;
    var first, c := answers[0], answers[0][limit];
    assert IsAnswer(table, user, None, limit + 1, first);
    WalkTail(table, user, limit, None, answers);
    RestoredRowsMatch(table, user, limit, Some(c.id), answers[1..]);
    ShownWithinRestored(answers[1..], limit);
    assert c !in first[..limit];
    assert Shown(answers, limit) == first[..limit] + Shown(answers[1..], limit);
  }

  lemma AnswerFitsRemaining(table: Table, user: string, n: nat, rows: seq<HistoryRow>)
    requires IsAnswer(table, user, None, n, rows)
    ensures |rows| <= |Remaining(table, user, None)|
  {
    SizeOfUnique(rows);
    SubsetSize(set i | 0 <= i < |rows| :: rows[i].id, Remaining(table, user, None));
  }

  /** A complete walk is more than the code delivers, whatever the orders: every row of the user is shown if and
      only if they fit on one page. So the walk shows the ledger in descending order if and only if, besides, the
      orders agree. */
  lemma WalkCompleteIffOnePage(table: Table, user: string, limit: nat, answers: seq<seq<HistoryRow>>)
    requires KeysUnique(table) && IsFixedWalk(table, user, limit, None, answers)
    ensures (forall m :: m in table && m.user == user ==> m in Shown(answers, limit)) <==>
            |Remaining(table, user, None)| <= limit
    ensures IsHistory(table, user, None, Shown(answers, limit)) <==>
            OrdersAgree(table, user) && |Remaining(table, user, None)| <= limit
  {
    hide IsAnswer, OrdersAgree, KeysUnique;
    assert Fixed(table, |answers|)[0] == table && CursorOf(answers, limit, None, 0) == None;
    AnswerFitsRemaining(table, user, limit + 1, answers[0]);
    if |answers[0]| <= limit {
      assert answers[1..] == [];
      assert Shown(answers, limit) == answers[0] + Shown(answers[1..], limit) == answers[0];
      assert Restored(answers) == answers[0] + Restored(answers[1..]) == answers[0];
      ShortAnswerIsComplete(table, user, limit + 1, answers[0]);
      HistoryIffOrdersAgree(table, user, limit, answers);
    } else {
      BoundaryRowIsNotShown(table, user, limit, answers);
    }
  }

  lemma ShortAnswerIsComplete(table: Table, user: string, n: nat, rows: seq<HistoryRow>)
    requires IsAnswer(table, user, None, n, rows) && |rows| < n
    ensures forall m :: m in table && m.user == user ==> m in rows
    ensures |rows| == |Remaining(table, user, None)|
  {
    assert forall m :: m in rows <==> m in table && Matches(m, user, None);
    HistorySize(table, user, None, rows);
  }

  /** Row p divides the timeline: what is newer has a larger id, what is older a smaller one. */
  predicate SplitsAt(rows: seq<HistoryRow>, p: nat)
    requires p < |rows|
  {
    && (forall i :: 0 <= i < p ==> rows[i].id > rows[p].id)
    && (forall j :: p < j < |rows| ==> rows[j].id < rows[p].id)
  }

  /** Each row that falls on a page boundary, one in limit + 1, divides the timeline. */
  predicate BoundariesSplit(rows: seq<HistoryRow>, limit: nat) {
    forall p :: 0 <= p < |rows| && p % (limit + 1) == limit ==> SplitsAt(rows, p)
  }

  lemma ModShift(p: nat, d: nat)
    requires d > 0
    ensures (p + d) % d == p % d
  {
    var q := p / d;
    assert p == q * d + p % d;
    assert p + d == (q + 1) * d + p % d by { Distribute(q + 1, d); }
    DivisionIs(p + d, d, q + 1);
  }

  /** The first boundary and those of the rest. */
  lemma BoundariesUnfold(rows: seq<HistoryRow>, limit: nat)
    requires |rows| > limit
    ensures BoundariesSplit(rows, limit) <==> SplitsAt(rows, limit) && BoundariesSplit(rows[limit + 1..], limit)
  {
    hide SplitsAt;
    var d, tail := limit + 1, rows[limit + 1..];
    FirstBoundary(limit);
    if BoundariesSplit(rows, limit) {
      forall p | 0 <= p < |tail| && p % d == limit ensures SplitsAt(tail, p) {
        ModShift(p, d);
        WholeSplitsTail(rows, limit, p);
      }
    }
    if SplitsAt(rows, limit) && BoundariesSplit(tail, limit) {
      forall p | 0 <= p < |rows| && p % d == limit ensures SplitsAt(rows, p) {
        NextBoundary(p, limit);
        if p > limit {
          ModShift(p - d, d);
          TailSplitsWhole(rows, limit, p);
        }
      }
    }
  }

  lemma FirstBoundary(limit: nat)
    ensures limit % (limit + 1) == limit
  {
  }

  lemma NextBoundary(p: nat, limit: nat)
    requires p % (limit + 1) == limit
    ensures p == limit || p >= limit + 1
  {
    if p < limit {
      DivisionIs(p, limit + 1, 0);
    }
  }

  lemma WholeSplitsTail(rows: seq<HistoryRow>, limit: nat, p: nat)
    requires |rows| > limit && p < |rows[limit + 1..]| && SplitsAt(rows, p + (limit + 1))
    ensures SplitsAt(rows[limit + 1..], p)
  {
    var d, tail := limit + 1, rows[limit + 1..];
    assert forall i :: 0 <= i < |tail| ==> tail[i] == rows[i + d];
  }

  lemma TailSplitsWhole(rows: seq<HistoryRow>, limit: nat, p: nat)
    requires limit < p < |rows| && SplitsAt(rows, limit)
    requires p >= limit + 1 && SplitsAt(rows[limit + 1..], p - (limit + 1))
    ensures SplitsAt(rows, p)
  {
    var d, tail := limit + 1, rows[limit + 1..];
    forall i | 0 <= i < p ensures rows[i].id > rows[p].id {
      if i >= d {
        assert tail[i - d].id > tail[p - d].id;
      }
    }
    forall j | p < j < |rows| ensures rows[j].id < rows[p].id {
      assert tail[j - d].id < tail[p - d].id;
    }
  }

  lemma TimelineIdsDiffer(table: Table, user: string, cursor: Cursor, rows: seq<HistoryRow>)
    requires KeysUnique(table) && IsTimeline(table, user, cursor, rows)
    ensures NamesEachOnce(table, user, cursor, rows)
  {
    forall i, j | 0 <= i < j < |rows| ensures rows[i].id != rows[j].id {
      assert rows[i] in rows && rows[j] in rows && rows[i] != rows[j];
    }
  }

  lemma {:induction false} RestoredRowsMatch(table: Table, user: string, limit: nat, start: Cursor,
                                             answers: seq<seq<HistoryRow>>)
    requires IsFixedWalk(table, user, limit, start, answers)
    ensures forall m :: m in Restored(answers) ==> m in table && Matches(m, user, start)
    decreases |answers|
  {
    hide IsAnswer;
    assert Fixed(table, |answers|)[0] == table && CursorOf(answers, limit, start, 0) == start;
    AnswerLength(table, user, start, limit + 1, answers[0]);
    if |answers[0]| <= limit {
      assert answers[1..] == [];
    } else {
      WalkTail(table, user, limit, start, answers);
      assert answers[0][limit] in answers[0];
      RestoredRowsMatch(table, user, limit, Some(answers[0][limit].id), answers[1..]);
    }
  }

  /** If the first boundary divides the timeline, what is older is the timeline of the rest of the walk. */
  lemma RestOfTimeline(table: Table, user: string, limit: nat, start: Cursor, rows: seq<HistoryRow>)
    requires IsTimeline(table, user, start, rows) && |rows| > limit && SplitsAt(rows, limit)
    ensures IsTimeline(table, user, Some(rows[limit].id), rows[limit + 1..])
  {
    var c, tail := rows[limit], rows[limit + 1..];
    assert c in rows;
    forall m ensures m in tail <==> m in table && Matches(m, user, Some(c.id)) {
      if m in tail {
        var j :| 0 <= j < |tail| && tail[j] == m;
        assert rows[limit + 1 + j] == m && m in rows;
      }
      if m in table && Matches(m, user, Some(c.id)) {
        assert m in rows;
        var j :| 0 <= j < |rows| && rows[j] == m;
        assert j > limit;
        assert tail[j - (limit + 1)] == m;
      }
    }
  }

  /** If a newer row has a smaller id than the boundary, the walk comes back to a row of its first page. */
  lemma NewerRowComesTwice(table: Table, user: string, limit: nat, start: Cursor, answers: seq<seq<HistoryRow>>,
                           rows: seq<HistoryRow>, i: nat)
    requires IsFixedWalk(table, user, limit, start, answers) && IsTimeline(table, user, start, rows)
    requires i < limit < |rows| && |answers[0]| > limit && answers[0] == rows[..limit + 1]
    requires rows[i].id < rows[limit].id
    ensures !NamesEachOnce(table, user, start, Restored(answers))
  {
    var c := rows[limit];
    assert Fixed(table, |answers|)[1] == table && CursorOf(answers, limit, start, 1) == Some(c.id);
    var next := answers[1];
    assert IsAnswer(table, user, Some(c.id), limit + 1, next);
    assert rows[i] in rows && c in rows;
    assert Matches(rows[i], user, Some(c.id));
    assert |next| > 0 && next[0].createdAt >= rows[i].createdAt;
    assert next[0] in rows;
    var k :| 0 <= k < |rows| && rows[k] == next[0];
    assert k <= i;
    var all := Restored(answers);
    assert all == answers[0] + Restored(answers[1..]);
    assert Restored(answers[1..]) == next + Restored(answers[1..][1..]);
    assert all[k] == rows[k] && all[limit + 1] == next[0];
  }

  /** If an older row has a larger id than the boundary, the walk never comes to it. */
  lemma OlderRowIsMissed(table: Table, user: string, limit: nat, start: Cursor, answers: seq<seq<HistoryRow>>,
                         rows: seq<HistoryRow>, j: nat)
    requires IsFixedWalk(table, user, limit, start, answers) && IsTimeline(table, user, start, rows)
    requires limit < j < |rows| && |answers[0]| > limit && answers[0] == rows[..limit + 1]
    requires rows[j].id >= rows[limit].id
    ensures !NamesEachOnce(table, user, start, Restored(answers))
  {
    hide IsAnswer;
    WalkTail(table, user, limit, start, answers);
    RestoredRowsMatch(table, user, limit, Some(rows[limit].id), answers[1..]);
    assert rows[j] in rows;
    assert rows[j] !in answers[0] by {
      assert forall p :: 0 <= p < |answers[0]| ==> answers[0][p] == rows[p];
    }
    assert rows[j] !in Restored(answers[1..]);
    assert Restored(answers) == answers[0] + Restored(answers[1..]);
  }

  lemma FirstPageOnce(table: Table, user: string, limit: nat, start: Cursor, rows: seq<HistoryRow>,
                      rest: seq<HistoryRow>)
    requires KeysUnique(table) && IsTimeline(table, user, start, rows) && |rows| > limit && SplitsAt(rows, limit)
    ensures NamesEachOnce(table, user, start, rows[..limit + 1] + rest) ==>
              NamesEachOnce(table, user, Some(rows[limit].id), rest)
  {
    RestOfTimeline(table, user, limit, start, rows);
    var all, first, tail, c := rows[..limit + 1] + rest, rows[..limit + 1], rows[limit + 1..], rows[limit];
    assert forall j :: 0 <= j <= limit ==> all[j] == rows[j];
    if NamesEachOnce(table, user, start, all) {
      forall i, j | 0 <= i < j < |rest| ensures rest[i].id != rest[j].id {
        assert all[limit + 1 + i] == rest[i] && all[limit + 1 + j] == rest[j];
      }
      forall m ensures m in rest <==> m in tail {
        if m in rest {
          var i :| 0 <= i < |rest| && rest[i] == m;
          assert all[limit + 1 + i] == m && m in all;
          assert m in rows;
          var j :| 0 <= j < |rows| && rows[j] == m;
          assert j > limit;
          assert tail[j - (limit + 1)] == m;
        }
        if m in tail {
          var i :| 0 <= i < |tail| && tail[i] == m;
          assert rows[limit + 1 + i] == m && m in rows;
          assert m in all;
          assert m !in first;
        }
      }
    }
  }

  /** The exact condition under which a walk names every row exactly once, as an item or as a cursor: each row
      that falls on a page boundary divides the timeline. Then the restored pages are the timeline itself. */
  lemma {:induction false} WalkNamesEachOnceIff(table: Table, user: string, limit: nat, start: Cursor,
                                                answers: seq<seq<HistoryRow>>, rows: seq<HistoryRow>)
    requires KeysUnique(table) && IsTimeline(table, user, start, rows)
    requires IsFixedWalk(table, user, limit, start, answers)
    ensures NamesEachOnce(table, user, start, Restored(answers)) <==> BoundariesSplit(rows, limit)
    ensures BoundariesSplit(rows, limit) ==> Restored(answers) == rows
    decreases |answers|
  {
    hide IsAnswer, IsTimeline, NamesEachOnce, BoundariesSplit, KeysUnique, SplitsAt;
    assert Fixed(table, |answers|)[0] == table && CursorOf(answers, limit, start, 0) == start;
    AnswerIsPrefix(table, user, start, limit + 1, answers[0], rows);
    if |answers[0]| <= limit {
      assert answers[1..] == [];
      assert Restored(answers) == rows;
      TimelineIdsDiffer(table, user, start, rows);
      ShortTimelineSplits(rows, limit);
    } else {
      assert Restored(answers) == rows[..limit + 1] + Restored(answers[1..]);
      BoundariesUnfold(rows, limit);
      if SplitsAt(rows, limit) {
        WalkTail(table, user, limit, start, answers);
        RestOfTimeline(table, user, limit, start, rows);
        WalkNamesEachOnceIff(table, user, limit, Some(rows[limit].id), answers[1..], rows[limit + 1..]);
        FirstPageOnce(table, user, limit, start, rows, Restored(answers[1..]));
        assert rows[..limit + 1] + rows[limit + 1..] == rows;
        TimelineIdsDiffer(table, user, start, rows);
      } else {
        UnsplitBoundary(table, user, limit, start, answers, rows);
      }
    }
  }

  lemma ShortTimelineSplits(rows: seq<HistoryRow>, limit: nat)
    requires |rows| <= limit
    ensures BoundariesSplit(rows, limit)
  {
    forall p | 0 <= p < |rows| ensures p % (limit + 1) == limit ==> SplitsAt(rows, p) {
      assert p % (limit + 1) == p;
    }
  }

  lemma UnsplitBoundary(table: Table, user: string, limit: nat, start: Cursor, answers: seq<seq<HistoryRow>>,
                        rows: seq<HistoryRow>)
    requires KeysUnique(table) && IsFixedWalk(table, user, limit, start, answers)
    requires IsTimeline(table, user, start, rows)
    requires limit < |rows| && |answers[0]| > limit && answers[0] == rows[..limit + 1] && !SplitsAt(rows, limit)
    ensures !NamesEachOnce(table, user, start, Restored(answers))
  {
    TimelineIdsDiffer(table, user, start, rows);
    if i :| 0 <= i < limit && rows[i].id <= rows[limit].id {
      NewerRowComesTwice(table, user, limit, start, answers, rows, i);
    } else {
      var j :| limit < j < |rows| && rows[j].id >= rows[limit].id;
      OlderRowIsMissed(table, user, limit, start, answers, rows, j);
    }
  }

  /** The same on the table: with distinct times, a walk names every row of the user exactly once if and only if
      each row on a page boundary of the timeline divides it. Orders that disagree only within pages do no harm. */
  lemma WalkWorksOutIff(table: Table, user: string, limit: nat, answers: seq<seq<HistoryRow>>)
    requires KeysUnique(table) && TimesDistinct(table, user) && IsFixedWalk(table, user, limit, None, answers)
    ensures NamesEachOnce(table, user, None, Restored(answers)) <==>
            BoundariesSplit(SortByTime(Filter(table, user, None)), limit)
  {
    TimelineExists(table, user, None);
    WalkNamesEachOnceIff(table, user, limit, None, answers, SortByTime(Filter(table, user, None)));
  }

  // ---- Commits between page requests ---------------------------------------------------------------------

  /** `later` has all rows of `first`, and every further row of the user has a larger id than all of those. */
  predicate GrowsAbove(first: Table, later: Table, user: string) {
    && (forall m :: m in first ==> m in later)
    && (forall m, n :: m in later && m.user == user && m !in first && n in first && n.user == user ==> n.id < m.id)
  }

  /** A query below a row that was there at first does not see what came later. */
  lemma AnswerUnaffected(first: Table, later: Table, user: string, c: HistoryRow, n: nat, rows: seq<HistoryRow>)
    requires GrowsAbove(first, later, user) && c in first && c.user == user
    ensures IsAnswer(later, user, Some(c.id), n, rows) <==> IsAnswer(first, user, Some(c.id), n, rows)
  {
    forall m ensures (m in later && Matches(m, user, Some(c.id))) <==> (m in first && Matches(m, user, Some(c.id))) {
      if m in later && m.user == user && m !in first {
        assert c.id < m.id;
      }
    }
  }

  lemma {:induction false} AnswerUnaffectedByCommits(first: Table, tables: seq<Table>, user: string, limit: nat,
                                                     answers: seq<seq<HistoryRow>>, i: nat)
    requires IsPartialWalk(tables, user, limit, None, answers) && tables[0] == first && i < |answers|
    requires forall k :: 0 <= k < |tables| ==> GrowsAbove(first, tables[k], user)
    ensures IsAnswer(first, user, CursorOf(answers, limit, None, i), limit + 1, answers[i])
  {
    hide IsAnswer, GrowsAbove;
    assert IsAnswer(tables[i], user, CursorOf(answers, limit, None, i), limit + 1, answers[i]);
    if i > 0 {
      AnswerUnaffectedByCommits(first, tables, user, limit, answers, i - 1);
      var c := answers[i - 1][limit];
      AnswerLength(first, user, CursorOf(answers, limit, None, i - 1), limit + 1, answers[i - 1]);
      assert c in first && c.user == user;
      AnswerUnaffected(first, tables[i], user, c, limit + 1, answers[i]);
    }
  }

  /** Commits between page requests do not disturb a walk: it is also a walk over the ledger as it was
      when the first page was served. */
  lemma WalkUnaffectedByCommits(first: Table, tables: seq<Table>, user: string, limit: nat,
                                answers: seq<seq<HistoryRow>>)
    requires IsWalk(tables, user, limit, None, answers) && tables[0] == first
    requires forall i :: 0 <= i < |tables| ==> GrowsAbove(first, tables[i], user)
    ensures IsFixedWalk(first, user, limit, None, answers)
  {
    forall i | 0 <= i < |answers|
      ensures IsAnswer(first, user, CursorOf(answers, limit, None, i), limit + 1, answers[i])
    {
      AnswerUnaffectedByCommits(first, tables, user, limit, answers, i);
    }
  }

  // ---- Termination -----------------------------------------------------------------------------------------

  /** The ids that the query can still return. */
  function Remaining(table: Table, user: string, cursor: Cursor): set<nat> {
    set m | m in table && Matches(m, user, cursor) :: m.id
  }

  /** Each NextCursor is one of the rows that were still to come and is strictly below the cursor that fetched
      it, whatever the order of creation. */
  lemma NextCursorDescends(table: Table, user: string, cursor: Cursor, limit: nat, rows: seq<HistoryRow>)
    requires IsAnswer(table, user, cursor, limit + 1, rows) && |rows| > limit
    ensures cursor.Some? ==> rows[limit].id < cursor.value
    ensures Remaining(table, user, Some(rows[limit].id)) < Remaining(table, user, cursor)
    ensures |Remaining(table, user, Some(rows[limit].id))| < |Remaining(table, user, cursor)|
  {
    var next, here := Remaining(table, user, Some(rows[limit].id)), Remaining(table, user, cursor);
    assert rows[limit] in table && Matches(rows[limit], user, cursor);
    assert rows[limit].id in here;
    assert rows[limit].id !in next;
    forall x | x in next ensures x in here {
      var m :| m in table && Matches(m, user, Some(rows[limit].id)) && m.id == x;
      assert Matches(m, user, cursor);
    }
    SmallerSet(next, here, rows[limit].id);
  }

  lemma SmallerSet(a: set<nat>, b: set<nat>, x: nat)
    requires a <= b && x in b && x !in a
    ensures a < b && |a| < |b|
  {
    assert a <= b - {x};
    SubsetSize(a, b - {x});
  }

  lemma {:induction false} SubsetSize(a: set<nat>, b: set<nat>)
    requires a <= b
    ensures |a| <= |b|
    decreases a
  {
    if a != {} {
      var x :| x in a;
      SubsetSize(a - {x}, b - {x});
    }
  }

  lemma {:induction false} ShownAppend(answers: seq<seq<HistoryRow>>, rows: seq<HistoryRow>, limit: nat)
    ensures Shown(answers + [rows], limit) == Shown(answers, limit) + (if |rows| <= limit then rows else rows[..limit])
  {
    if |answers| == 0 {
      assert [rows][1..] == [];
    } else {
      assert (answers + [rows])[1..] == answers[1..] + [rows];
      ShownAppend(answers[1..], rows, limit);
    }
  }

  // ---- The client loop -----------------------------------------------------------------------------------

  /** Where the client stands: the answers so far, the last page, the cursor that fetched it, what has been shown. */
  predicate Walking(tables: seq<Table>, user: string, limit: nat, answers: seq<seq<HistoryRow>>, page: Page,
                    cursor: Cursor, shown: seq<HistoryRow>) {
    && IsPartialWalk(tables, user, limit, None, answers)
    && IsPage(answers[|answers| - 1], limit, page)
    && cursor == CursorOf(answers, limit, None, |answers| - 1)
    && shown == Shown(answers, limit)
  }

  lemma WalkingStarts(table: Table, user: string, limit: nat, rows: seq<HistoryRow>, page: Page)
    requires IsAnswer(table, user, None, limit + 1, rows) && IsPage(rows, limit, page)
    ensures Walking([table], user, limit, [rows], page, None, page.items)
  {
    hide IsAnswer;
    ShownAppend([], rows, limit);
    assert [] + [rows] == [rows];
  }

  lemma WalkingCursor(tables: seq<Table>, user: string, limit: nat, answers: seq<seq<HistoryRow>>, page: Page,
                      cursor: Cursor, shown: seq<HistoryRow>)
    requires Walking(tables, user, limit, answers, page, cursor, shown)
    ensures 0 < |answers| == |tables| && IsAnswer(tables[|tables| - 1], user, cursor, limit + 1, answers[|answers| - 1])
    ensures if page.next.Some?
            then |answers[|answers| - 1]| > limit && page.next.value == answers[|answers| - 1][limit].id
            else IsWalk(tables, user, limit, None, answers)
  {
    hide IsAnswer;
  }

  lemma WalkingContinues(tables: seq<Table>, table: Table, user: string, limit: nat, answers: seq<seq<HistoryRow>>,
                         page: Page, cursor: Cursor, shown: seq<HistoryRow>, rows: seq<HistoryRow>, next: Page)
    requires Walking(tables, user, limit, answers, page, cursor, shown) && page.next.Some?
    requires IsAnswer(table, user, page.next, limit + 1, rows) && IsPage(rows, limit, next)
    ensures Walking(tables + [table], user, limit, answers + [rows], next, page.next, shown + next.items)
  {
    hide IsAnswer;
    PartialWalkExtends(tables, table, user, limit, answers, rows);
    ShownAppend(answers, rows, limit);
  }

  lemma CursorOfPrefix(answers: seq<seq<HistoryRow>>, rows: seq<HistoryRow>, limit: nat, start: Cursor, i: nat)
    requires i <= |answers|
    ensures CursorOf(answers + [rows], limit, start, i) == CursorOf(answers, limit, start, i)
  {
  }

  lemma WalkAt(tables: seq<Table>, user: string, limit: nat, answers: seq<seq<HistoryRow>>, i: nat)
    requires IsPartialWalk(tables, user, limit, None, answers) && i < |answers|
    ensures |tables| == |answers| && IsAnswer(tables[i], user, CursorOf(answers, limit, None, i), limit + 1, answers[i])
    ensures i < |answers| - 1 ==> |answers[i]| > limit
  {
    hide IsAnswer, CursorOf;
  }

  lemma PartialWalkExtends(tables: seq<Table>, table: Table, user: string, limit: nat, answers: seq<seq<HistoryRow>>,
                           rows: seq<HistoryRow>)
    requires IsPartialWalk(tables, user, limit, None, answers)
    requires |answers| > 0 && |answers[|answers| - 1]| > limit
    requires IsAnswer(table, user, Some(answers[|answers| - 1][limit].id), limit + 1, rows)
    ensures IsPartialWalk(tables + [table], user, limit, None, answers + [rows])
  {
    hide IsAnswer, IsPartialWalk;
    var all, now, n := answers + [rows], tables + [table], |answers|;
    WalkAt(tables, user, limit, answers, 0);
    forall i | 0 <= i < n
      ensures IsAnswer(now[i], user, CursorOf(all, limit, None, i), limit + 1, all[i]) && |all[i]| > limit
    {
      WalkAt(tables, user, limit, answers, i);
      CursorOfPrefix(answers, rows, limit, None, i);
    }
    assert CursorOf(all, limit, None, n) == Some(answers[n - 1][limit].id);
    assert all[n] == rows && now[n] == table;
    WalkFrom(now, user, limit, all);
  }

  lemma WalkFrom(tables: seq<Table>, user: string, limit: nat, answers: seq<seq<HistoryRow>>)
    requires 0 < |answers| == |tables|
    requires forall i :: 0 <= i < |answers| ==>
               IsAnswer(tables[i], user, CursorOf(answers, limit, None, i), limit + 1, answers[i])
    requires forall i :: 0 <= i < |answers| - 1 ==> |answers[i]| > limit
    ensures IsPartialWalk(tables, user, limit, None, answers)
  {
    hide IsAnswer, CursorOf;
  }
}
