/** The history use case, and the client that follows NextCursor while others keep committing. */
module Transactions {
  import opened Domain
  import opened Machine
  import opened Invariant
  import opened Runs
  import opened Environment
  import opened Repository
  import opened LedgerHistory
  import opened Pagination

  /** A complete walk: the pages were served in `states`, one after the other along a run. */
  ghost predicate WalkedAlong(states: seq<State>, user: string, limit: nat, answers: seq<seq<HistoryRow>>,
                              shown: seq<HistoryRow>) {
    ServedAlong(states) && IsWalk(TablesOf(states, user), user, limit, None, answers) && shown == Shown(answers, limit)
  }

  /** Every draw so far was lucky, and `rest` is what remains of the script. */
  ghost predicate NoFailure(luck: seq<bool>, rest: seq<bool>) {
    exists n :: 0 <= n <= |luck| && rest == luck[n..] && false !in luck[..n]
  }

  /** The last draw was the first unlucky one. */
  ghost predicate FirstFailure(luck: seq<bool>, rest: seq<bool>) {
    exists n :: 0 <= n < |luck| && rest == luck[n + 1..] && !luck[n] && false !in luck[..n]
  }

  lemma DrawDecides(luck: seq<bool>, before: seq<bool>, rest: seq<bool>)
    requires NoFailure(luck, before) && rest == Rest(before)
    ensures if Fortune(before) then NoFailure(luck, rest) else FirstFailure(luck, rest)
  {
    var n :| 0 <= n <= |luck| && before == luck[n..] && false !in luck[..n];
    if |before| > 0 {
      assert before[0] == luck[n] && rest == luck[n + 1..];
      if luck[n] {
        assert luck[..n + 1] == luck[..n] + [true];
      }
    }
  }

  class TransactionsUsecase {
    const repo: MileageRepository
    const world: World

    constructor (repo: MileageRepository)
      ensures this.repo == repo && this.world == repo.world
    {
      this.repo := repo;
      this.world := repo.world;
    }

    ghost predicate Valid()
      reads this, world
    {
      repo.world == world && world.Valid()
    }

    method Execute(user: string, cursor: Cursor, askedLimit: int) returns (output: Option<Page>, err: Option<Error>)
      requires Valid()
      modifies world
      ensures Valid() && old(world.trace) <= world.trace
      ensures old(world.others) == [] ==> world.others == [] && world.st == old(world.st)
      ensures world.luck == Rest(old(world.luck))
      ensures err.Some? <==> !Fortune(old(world.luck))
      ensures match err
              case Some(e) => Cause(e) == Unclassified && output == None
              case None =>
                && output.Some?
                && Serves(HistoryOf(Log(world.st, user)), user, cursor, Normalise(askedLimit), output.value)
                && (forall i :: 0 <= i < |output.value.items| ==>
                      IsCommitted(Log(world.st, user), user, output.value.items[i]))
                && (output.value.next.Some? ==>
                      exists k :: 0 <= k < |Log(world.st, user)| &&
                                  Log(world.st, user)[k].row.id == output.value.next.value)
    {
      hide Recorded, IsAnswer;
      var limit := Normalise(askedLimit);
      var txs;
      txs, err := repo.ListTransactions(user, cursor, limit);
      if err.Some? {
        return None, Some(Wrap("list transactions", err.value));
      }
      var items: seq<HistoryRow> := [];
      var next: Cursor := None;
      for i := 0 to |txs|
        invariant i <= limit && items == txs[..i] && next == None
      {
        if i >= limit {
          next := Some(txs[i].id);
          break;
        }
        items := items + [txs[i]];
      }
      AnswerLength(HistoryOf(Log(world.st, user)), user, cursor, limit + 1, txs);
      assert next.Some? ==> IsCommitted(Log(world.st, user), user, txs[limit]);
      assert IsPage(txs, limit, Page(items, next));
      return Some(Page(items, next)), None;
    }

    /** The client loop, with any commits between two requests; it stops at the first failing request. It ends
        whatever ids are drawn, because each cursor is below the last. */
    method WalkAll(user: string, askedLimit: int) returns (shown: seq<HistoryRow>, err: Option<Error>)
      requires Valid()
      modifies world
      ensures Valid() && old(world.trace) <= world.trace
      ensures err.Some? ==> Cause(err.value) == Unclassified && FirstFailure(old(world.luck), world.luck)
      ensures err == None ==> NoFailure(old(world.luck), world.luck)
      ensures err == None ==>
                exists states: seq<State>, answers ::
                  && WalkedAlong(states, user, Normalise(askedLimit), answers, shown)
                  && states[|states| - 1] == world.st
                  && (old(world.others) == [] ==> AllAre(states, old(world.st)))
    {
      hide Inv, RunFrom, IsAnswer, IsPage, Normalise, Browsing, WalkedAlong;
      ghost var limit := Normalise(askedLimit);
      var cursor: Cursor := None;
      var output;
      assert NoFailure(world.luck, world.luck[0..]);
      DrawDecides(world.luck, world.luck, Rest(world.luck));
      output, err := Execute(user, cursor, askedLimit);
      if err.Some? {
        return [], err;
      }
      var page := output.value;
      ghost var first := world.trace;
      shown := page.items;
      ghost var states, answers := BrowsingStarts(world.st, first, user, limit, page);
      while page.next.Some?
        invariant Valid() && first <= world.trace && old(world.trace) <= world.trace && err == None
        invariant Browsing(states, first, world.st, user, limit, answers, page, cursor, shown)
        invariant old(world.others) == [] ==>
                    world.others == [] && AllAre(states, old(world.st)) && world.st == old(world.st)
        invariant NoFailure(old(world.luck), world.luck)
        decreases if page.next.Some? then page.next.value + 1 else 0
      {
        ghost var before, last := world.st, page;
        var fetch := page.next;
        DrawDecides(old(world.luck), world.luck, Rest(world.luck));
        output, err := Execute(user, fetch, askedLimit);
        if err.Some? {
          return shown, err;
        }
        page := output.value;
        NextIsBelow(HistoryOf(Log(world.st, user)), user, fetch, limit, page);
        answers := BrowsingContinues(states, first, before, world.st, world.trace, user, limit, answers, last,
                                     cursor, shown, page);
        states := states + [world.st];
        cursor, shown := fetch, shown + page.items;
      }
      BrowsingEnds(states, first, world.st, user, limit, answers, page, cursor, shown);
      assert WalkedAlong(states, user, Normalise(askedLimit), answers, shown);
    }
  }

  predicate AllAre(states: seq<State>, s: State) {
    forall i :: 0 <= i < |states| ==> states[i] == s
  }

  /** Where the client stands, and the run along which its pages were served. */
  ghost predicate Browsing(states: seq<State>, first: seq<Step>, now: State, user: string, limit: nat,
                           answers: seq<seq<HistoryRow>>, page: Page, cursor: Cursor, shown: seq<HistoryRow>) {
    && ServedAlong(states) && RunFrom(START, first) == Some(states[0]) && states[|states| - 1] == now
    && Walking(TablesOf(states, user), user, limit, answers, page, cursor, shown)
  }

  lemma BrowsingStarts(s: State, trace: seq<Step>, user: string, limit: nat, page: Page)
    returns (states: seq<State>, answers: seq<seq<HistoryRow>>)
    requires RunFrom(START, trace) == Some(s) && Serves(HistoryOf(Log(s, user)), user, None, limit, page)
    ensures states == [s] && Browsing(states, trace, s, user, limit, answers, page, None, page.items)
  {
    hide IsAnswer, IsPage;
    var table := HistoryOf(Log(s, user));
    var rows :| IsAnswer(table, user, None, limit + 1, rows) && IsPage(rows, limit, page);
    states, answers := [s], [rows];
    StartsServing(s, trace);
    WalkingStarts(table, user, limit, rows, page);
    assert TablesOf(states, user) == [table];
  }

  lemma BrowsingContinues(states: seq<State>, first: seq<Step>, before: State, s: State, trace: seq<Step>, user: string,
                          limit: nat, answers: seq<seq<HistoryRow>>, last: Page, cursor: Cursor, shown: seq<HistoryRow>,
                          page: Page)
    returns (more: seq<seq<HistoryRow>>)
    requires Browsing(states, first, before, user, limit, answers, last, cursor, shown)
    requires RunFrom(START, trace) == Some(s) && first <= trace
    requires last.next.Some? && Serves(HistoryOf(Log(s, user)), user, last.next, limit, page)
    ensures Browsing(states + [s], first, s, user, limit, more, page, last.next, shown + page.items)
  {
    hide IsAnswer, IsPage, Walking, ServedAlong, RunFrom;
    var table := HistoryOf(Log(s, user));
    var rows :| IsAnswer(table, user, last.next, limit + 1, rows) && IsPage(rows, limit, page);
    more := answers + [rows];
    KeepsServing(states, first, s, trace);
    WalkingContinues(TablesOf(states, user), table, user, limit, answers, last, cursor, shown, rows, page);
    TablesOfAppend(states, s, user);
  }

  lemma TablesOfAppend(states: seq<State>, s: State, user: string)
    ensures TablesOf(states + [s], user) == TablesOf(states, user) + [HistoryOf(Log(s, user))]
  {
  }

  lemma BrowsingEnds(states: seq<State>, first: seq<Step>, now: State, user: string, limit: nat,
                     answers: seq<seq<HistoryRow>>, page: Page, cursor: Cursor, shown: seq<HistoryRow>)
    requires Browsing(states, first, now, user, limit, answers, page, cursor, shown) && page.next == None
    ensures WalkedAlong(states, user, limit, answers, shown) && states[|states| - 1] == now
  {
    hide IsAnswer, IsPage;
    WalkingCursor(TablesOf(states, user), user, limit, answers, page, cursor, shown);
  }

  lemma StartsServing(s: State, trace: seq<Step>)
    requires RunFrom(START, trace) == Some(s)
    ensures ServedAlong([s])
  {
    LaterInRunReached(trace, s, trace, s);
    assert Reachable(s);
  }

  lemma KeepsServing(states: seq<State>, first: seq<Step>, s: State, trace: seq<Step>)
    requires ServedAlong(states) && RunFrom(START, first) == Some(states[0])
    requires RunFrom(START, trace) == Some(s) && first <= trace
    ensures ServedAlong(states + [s]) && |states| > 0 && (states + [s])[0] == states[0]
  {
    LaterInRunReached(first, states[0], trace, s);
  }

  lemma NextIsBelow(table: Table, user: string, cursor: Cursor, limit: nat, page: Page)
    requires Serves(table, user, cursor, limit, page) && cursor.Some?
    ensures page.next.Some? ==> page.next.value < cursor.value
  {
    var rows :| IsAnswer(table, user, cursor, limit + 1, rows) && IsPage(rows, limit, page);
    if page.next.Some? {
      NextCursorDescends(table, user, cursor, limit, rows);
    }
  }

  /** When nobody commits in between, the walk is one over a fixed ledger. */
  lemma UndisturbedWalkIsFixed(states: seq<State>, s: State, user: string, limit: nat, answers: seq<seq<HistoryRow>>,
                               shown: seq<HistoryRow>)
    requires WalkedAlong(states, user, limit, answers, shown) && AllAre(states, s)
    ensures IsFixedWalk(HistoryOf(Log(s, user)), user, limit, None, answers)
  {
    hide IsAnswer;
    assert TablesOf(states, user) == Fixed(HistoryOf(Log(s, user)), |answers|);
  }

  /** What the client of a complete walk has seen, when ids follow the clock: the ledger as it was when its first
      page was served, up to the one row per page boundary. */
  lemma WalkedHistory(states: seq<State>, user: string, limit: nat, answers: seq<seq<HistoryRow>>,
                      shown: seq<HistoryRow>)
    requires WalkedAlong(states, user, limit, answers, shown)
    requires forall i :: 0 <= i < |states| ==> IdsFollowClock(Log(states[i], user))
    ensures var first := HistoryOf(Log(states[0], user));
            && IsHistory(first, user, None, Restored(answers))
            && |shown| == |Restored(answers)| - |Restored(answers)| / (limit + 1)
  {
    PagingWhileCommitting(states, user, limit, answers);
    var first := HistoryOf(Log(states[0], user));
    forall i | 0 <= i < |states| ensures GrowsAbove(first, TablesOf(states, user)[i], user) {
      ReachableHistoryGrowsAbove(states[0], states[i], user);
    }
    WalkUnaffectedByCommits(first, TablesOf(states, user), user, limit, answers);
    RowsNeverShown(first, user, limit, answers);
  }
}
