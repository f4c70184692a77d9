/** The history of a running ledger: the protocol delivers what pagination assumes. */
module LedgerHistory {
  import opened Domain
  import Machine
  import opened Invariant
  import opened Preservation
  import opened Runs
  import opened LedgerTheorems
  import Witnesses
  import opened Pagination

  function HistoryRowOf(e: Machine.Entry): HistoryRow {
    HistoryRow(e.row.id, e.row.user, e.row.kind, e.row.amount, e.insertedAt)
  }

  /** One user's part of mileage_transactions; `created_at` is set by the insert. */
  function HistoryOf(log: seq<Machine.Entry>): (table: Table)
    ensures |table| == |log| && forall k :: 0 <= k < |log| ==> table[k] == HistoryRowOf(log[k])
  {
    seq(|log|, k requires 0 <= k < |log| => HistoryRowOf(log[k]))
  }

  /** Each row that the query returns is a committed row of this user, with its id, type and amount, and with the
      time of its insert. */
  lemma AnswerShowsLedger(log: seq<Machine.Entry>, user: string, cursor: Cursor, n: nat, rows: seq<HistoryRow>)
    requires IsAnswer(HistoryOf(log), user, cursor, n, rows)
    ensures forall i :: 0 <= i < |rows| ==> IsCommitted(log, user, rows[i])
  {
    forall i | 0 <= i < |rows| ensures IsCommitted(log, user, rows[i]) {
      var k :| 0 <= k < |log| && HistoryOf(log)[k] == rows[i];
      assert log[k].row.id == rows[i].id;
    }
  }

  predicate IsCommitted(log: seq<Machine.Entry>, user: string, row: HistoryRow) {
    exists k :: 0 <= k < |log| &&
      log[k].row.id == row.id && log[k].row.user == user == row.user && log[k].row.kind == row.kind &&
      log[k].row.amount == row.amount && log[k].insertedAt == row.createdAt
  }

  /** The assumption on ULIDs: of two rows of a user, the one inserted later has the larger id. */
  predicate IdsFollowClock(log: seq<Machine.Entry>) {
    forall j, k :: 0 <= j < |log| && 0 <= k < |log| && log[j].insertedAt < log[k].insertedAt ==>
      log[j].row.id < log[k].row.id
  }

  /** In a reachable state the two orders agree as soon as ids follow the clock. */
  lemma ReachableOrdersAgree(s: Machine.State, u: string)
    requires Machine.Reachable(s) && IdsFollowClock(Machine.Log(s, u))
    ensures var table := HistoryOf(Machine.Log(s, u));
            KeysUnique(table) && OrdersAgree(table, u)
  {
    var log := Machine.Log(s, u);
    var table := HistoryOf(log);
    forall i, j | 0 <= i < j < |table| ensures table[i].id != table[j].id {
      EntriesDiffer(s, u, i, u, j);
    }
    forall a, b | a in table && b in table && a.id < b.id ensures a.createdAt < b.createdAt {
      var i :| 0 <= i < |table| && table[i] == a;
      var j :| 0 <= j < |table| && table[j] == b;
      CriticalIntervalsDisjoint(s, u, i, j);
      CriticalIntervalsDisjoint(s, u, j, i);
    }
  }

  /** Whatever commits in between, later rows have larger ids than all rows already visible: this is where
      the optimistic lock matters, because without it a row inserted earlier could commit later. */
  lemma ReachableHistoryGrowsAbove(s: Machine.State, t: Machine.State, u: string)
    requires Machine.Reachable(s) && Machine.Reaches(s, t) && IdsFollowClock(Machine.Log(t, u))
    ensures GrowsAbove(HistoryOf(Machine.Log(s, u)), HistoryOf(Machine.Log(t, u)), u)
    ensures IdsFollowClock(Machine.Log(s, u))
  {
    ReachesGrows(s, t);
    var before, after := Machine.Log(s, u), Machine.Log(t, u);
    assert Extends(before, after, s.now);
    var first, later := HistoryOf(before), HistoryOf(after);
    forall m | m in first ensures m in later {
      var j :| 0 <= j < |first| && first[j] == m;
      assert later[j] == m;
    }
    forall m, n | m in later && m.user == u && m !in first && n in first && n.user == u ensures n.id < m.id {
      var k :| 0 <= k < |later| && later[k] == m;
      var j :| 0 <= j < |first| && first[j] == n;
      assert forall i :: 0 <= i < |first| ==> later[i] in first;
      LaterRowsAreNewer(s, t, u, j, k);
    }
  }

  /** The states in which the pages are served, in order. */
  ghost predicate ServedAlong(states: seq<Machine.State>) {
    && |states| > 0 && Machine.Reachable(states[0])
    && forall i :: 0 <= i < |states| ==> Machine.Reaches(states[0], states[i])
  }

  function TablesOf(states: seq<Machine.State>, u: string): (tables: seq<Table>)
    ensures |tables| == |states| && forall i :: 0 <= i < |states| ==> tables[i] == HistoryOf(Machine.Log(states[i], u))
  {
    seq(|states|, i requires 0 <= i < |states| => HistoryOf(Machine.Log(states[i], u)))
  }

  /** A client that pages through the history while grants and redeems keep committing sees, up to the row it loses at
      each page boundary, exactly the ledger as it was when its first page was served. */
  lemma PagingWhileCommitting(states: seq<Machine.State>, u: string, limit: nat, answers: seq<seq<HistoryRow>>)
    requires ServedAlong(states) && forall i :: 0 <= i < |states| ==> IdsFollowClock(Machine.Log(states[i], u))
    requires IsWalk(TablesOf(states, u), u, limit, None, answers)
    ensures IsHistory(HistoryOf(Machine.Log(states[0], u)), u, None, Restored(answers))
  {
    var first, tables := HistoryOf(Machine.Log(states[0], u)), TablesOf(states, u);
    forall i | 0 <= i < |tables| ensures GrowsAbove(first, tables[i], u) {
      ReachableHistoryGrowsAbove(states[0], states[i], u);
    }
    WalkUnaffectedByCommits(first, tables, u, limit, answers);
    ReachableOrdersAgree(states[0], u);
    PageWalkEquation(first, u, limit, None, answers);
  }

  /** No two rows of one user are inserted at the same time: their critical intervals are disjoint. */
  lemma ReachableTimesDistinct(s: Machine.State, u: string)
    requires Machine.Reachable(s)
    ensures TimesDistinct(HistoryOf(Machine.Log(s, u)), u) && KeysUnique(HistoryOf(Machine.Log(s, u)))
  {
    var table := HistoryOf(Machine.Log(s, u));
    forall i, j | 0 <= i < j < |table| ensures table[i].id != table[j].id && table[i].createdAt != table[j].createdAt {
      EntriesDiffer(s, u, i, u, j);
      CriticalIntervalsDisjoint(s, u, i, j);
    }
  }

  /** Over the ledger of a reachable state, whatever ids were drawn, a walk names every row exactly once if and
      only if each row on a page boundary of the timeline divides it. */
  lemma ReachableWalkWorksOutIff(s: Machine.State, u: string, limit: nat, answers: seq<seq<HistoryRow>>)
    requires Machine.Reachable(s) && IsFixedWalk(HistoryOf(Machine.Log(s, u)), u, limit, None, answers)
    ensures var table := HistoryOf(Machine.Log(s, u));
            && (NamesEachOnce(table, u, None, Restored(answers)) <==>
                BoundariesSplit(SortByTime(Filter(table, u, None)), limit))
            && (IsHistory(table, u, None, Restored(answers)) <==> OrdersAgree(table, u))
  {
    ReachableTimesDistinct(s, u);
    WalkWorksOutIff(HistoryOf(Machine.Log(s, u)), u, limit, answers);
    HistoryIffOrdersAgree(HistoryOf(Machine.Log(s, u)), u, limit, answers);
  }

  lemma ReversedAnswers(t: Table, u: string)
    requires |t| == 3 && forall k :: 0 <= k < 3 ==> t[k].id == 3 - k && t[k].user == u
    requires t[0].createdAt < t[1].createdAt < t[2].createdAt
    ensures IsAnswer(t, u, None, 2, [t[2], t[1]]) && IsAnswer(t, u, Some(2), 2, [t[2]])
  {
    assert forall m :: m in t <==> m == t[0] || m == t[1] || m == t[2];
  }

  /** The boundaries do fail to divide the timeline in a reachable state: three grants that drew descending ids.
      With one row per page, a client is shown the newest row twice, and the oldest neither as an item nor as a
      cursor. */
  lemma DisagreeingOrdersLoseRows() returns (s: Machine.State, answers: seq<seq<HistoryRow>>)
    ensures Machine.Reachable(s)
    ensures var u, t := Witnesses.USER, HistoryOf(Machine.Log(s, Witnesses.USER));
            && |t| == 3 && t[0].createdAt < t[1].createdAt < t[2].createdAt
            && IsFixedWalk(t, u, 1, None, answers)
            && Shown(answers, 1) == [t[2], t[2]] && t[0] !in Restored(answers)
  {
    hide IsAnswer, Machine.Reachable;
    var u := Witnesses.USER;
    s := Witnesses.ReversedIds(Machine.Input(Grant, u, 5, "a"), Machine.Input(Grant, u, 5, "b"),
                               Machine.Input(Grant, u, 5, "c"));
    var t := HistoryOf(Machine.Log(s, u));
    CriticalIntervalsDisjoint(s, u, 0, 1);
    CriticalIntervalsDisjoint(s, u, 1, 2);
    ReversedAnswers(t, u);
    answers := [[t[2], t[1]], [t[2]]];
    assert answers[1..] == [[t[2]]] && [[t[2]]][1..] == [];
    assert Shown(answers[1..], 1) == [t[2]] && Restored(answers[1..]) == [t[2]];
    assert Restored(answers) == [t[2], t[1], t[2]];
  }
}
