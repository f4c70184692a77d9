/** Concrete runs: what the guarantees leave open does happen. */
module Witnesses {
  import opened Domain
  import opened Machine
  import opened Invariant
  import opened Preservation
  import opened Runs
  import opened LedgerTheorems
  import opened CacheTheorems
  import opened Undisturbed

  // ---- Every cause of a stale entry occurs ---------------------------------------------------------

  lemma Continue(s: State, p: State)
    requires Reachable(s) && Reaches(s, p)
    ensures Reachable(p)
  {
    ReachesReachable(s, p);
  }

  lemma ReachableNext(p: State, step: Step)
    requires Reachable(p) && Enabled(p, step)
    ensures Reachable(Next(p, step))
  {
    ReachesNext(START, p, step);
  }

  /** From the commit until its DEL, the entry that was cached before is stale. */
  lemma StaleBetweenCommitAndDelete(s: State, c: CallId, input: Input, id: nat)
    requires Reachable(s) && CanCommit(s, c, input, id) && input.user in s.cache
    ensures var t, k := Committed(s, c, input, id), |Log(s, input.user)|;
            Reachable(t) && Stale(t, input.user) && DeleteStillOwed(t, input.user, k)
  {
    var t, u := Committed(s, c, input, id), input.user;
    UndisturbedCallCommits(s, c, input, id);
    Continue(s, t);
    LogFacts(s, u);
    CachedPairIsAuthentic(s, u);
    UnseenRowHasOneCause(t, u, |Log(s, u)|);
    StaleIffCause(t, u);
  }

  /** A DEL that succeeds removes the stale entry; one that fails, or never happens, leaves it stale. */
  lemma StaleAfterLostDelete(s: State, c: CallId, input: Input, id: nat, step: Step)
    requires Reachable(s) && CanCommit(s, c, input, id) && input.user in s.cache
    requires step in {Delete(c), DeleteFails(c, false), Die(c)}
    ensures var p := Committed(s, c, input, id);
            && Enabled(p, step) && Reachable(Next(p, step))
            && (step == Delete(c) ==> input.user !in Next(p, step).cache)
            && (step != Delete(c) ==> Stale(Next(p, step), input.user) &&
                                      DeleteLostSinceSet(Next(p, step), input.user, |Log(s, input.user)|))
  {
    var p, u, k := Committed(s, c, input, id), input.user, |Log(s, input.user)|;
    StaleBetweenCommitAndDelete(s, c, input, id);
    ReachableNext(p, step);
    if step != Delete(c) {
      var t := Next(p, step);
      LogFacts(s, u);
      OwedFateIsSettled(s, c, input, id, step);
      CachedPairIsAuthentic(s, u);
      UnseenRowHasOneCause(t, u, k);
      CacheFacts(s, u);
      StaleIffCause(t, u);
    }
  }

  lemma OwedFateIsSettled(s: State, c: CallId, input: Input, id: nat, step: Step)
    requires LogOk(s, input.user) && CanCommit(s, c, input, id)
    requires step in {DeleteFails(c, false), Die(c)}
    ensures var p, k := Committed(s, c, input, id), |Log(s, input.user)|;
            && Enabled(p, step) && k < |Fates(Next(p, step), input.user)|
            && Fates(Next(p, step), input.user)[k] ==
                 (if step == Die(c) then WriterDied(p.now) else DeleteFailed(p.now))
            && Log(Next(p, step), input.user) == Log(p, input.user)
            && Next(p, step).cache == s.cache
  {
  }

  /** A reader that read before the commit and sets the entry after the DEL makes it stale; and because it may take
      any time in between, the pair that a hit then answers can have been outdated for any time. */
  lemma StaleBySlowReader(s: State, c: CallId, input: Input, id: nat, r: ReaderId, delay: nat) returns (t: State)
    requires Reachable(s) && CanCommit(s, c, input, id)
    requires r in s.readers && s.readers[r].Holding? && s.readers[r].user == input.user
    ensures Reachable(t) && Reaches(Committed(s, c, input, id), t) && t.clock == s.clock + delay
    ensures |Log(t, input.user)| == |Log(s, input.user)| + 1
    ensures CacheHit(t, input.user) && Stale(t, input.user)
    ensures SetAfterInvalidation(t, input.user, |Log(s, input.user)|)
  {
    hide Inv, Reachable, Reaches, IdFree, Quiet, SlotOf, Perform;
    var q, u := Committed(s, c, input, id), input.user;
    UndisturbedCallCommits(s, c, input, id);
    Continue(s, q);
    ReaderFacts(s, r);
    LogFacts(s, u);
    DeleteState(s, c, input, id);
    t := SetAfterPause(q, c, r, delay);
    UnseenRowHasOneCause(t, u, |Log(s, u)|);
    StaleIffCause(t, u);
  }

  /** DEL, a pause, SET. */
  lemma SetAfterPause(q: State, c: CallId, r: ReaderId, delay: nat) returns (t: State)
    requires Reachable(q) && Enabled(q, Delete(c)) && Enabled(Next(q, Delete(c)), CacheSet(r))
    ensures Reachable(t) && Reaches(q, t)
    ensures var p := Next(q, Delete(c));
            var u, a := p.readers[r].user, p.readers[r].account;
            && t.fates == p.fates && t.ledger == p.ledger && t.accounts == p.accounts
            && u in t.cache && t.cache[u].account == a && t.cache[u].setAt > p.now
            && CacheHit(t, u) && t.clock == p.clock + delay
  {
    hide Reachable, Reaches;
    var p := Next(q, Delete(c));
    ReachesItself(q);
    ReachableNext(q, Delete(c));
    ReachesNext(q, q, Delete(c));
    hide Enabled, Next, CacheHit;
    t := SetAfterTick(q, p, r, delay);
  }

  lemma SetAfterTick(q: State, p: State, r: ReaderId, delay: nat) returns (t: State)
    requires Reachable(p) && Reaches(q, p) && Enabled(p, CacheSet(r))
    ensures Reachable(t) && Reaches(q, t)
    ensures var u, a := p.readers[r].user, p.readers[r].account;
            && t.fates == p.fates && t.ledger == p.ledger && t.accounts == p.accounts
            && u in t.cache && t.cache[u].account == a && t.cache[u].setAt > p.now
            && CacheHit(t, u) && t.clock == p.clock + delay
  {
    hide Reachable, Reaches;
    var w := Next(p, Tick(delay));
    ReachableNext(p, Tick(delay));
    ReachesNext(q, p, Tick(delay));
    t := Next(w, CacheSet(r));
    ReachableNext(w, CacheSet(r));
    ReachesNext(q, w, CacheSet(r));
  }

  lemma ReaderFacts(s: State, r: ReaderId)
    requires Reachable(s) && r in s.readers
    ensures ReaderOk(s, s.readers[r])
  {
    ReachableInv(s);
  }

  lemma DeleteState(s: State, c: CallId, input: Input, id: nat)
    requires CanCommit(s, c, input, id) && LogOk(s, input.user)
    ensures var q, u := Committed(s, c, input, id), input.user;
            var p := Next(q, Delete(c));
            && Fates(p, u) == Fates(s, u) + [Deleted(q.now)]
            && Log(p, u) == Log(s, u) + [CommittedEntry(s, c, input, id)]
            && p.readers == s.readers && p.now == q.now + 1 && p.clock == s.clock
            && u in p.accounts && p.accounts[u] == q.accounts[u]
  {
  }

  /** The state after the commit of `locked` was applied although the client was told of a failure. */
  function CommittedBehindBack(s: State, c: CallId, input: Input, locked: Tx): State
    requires locked.Locked?
  {
    var u := input.user;
    var entry := Entry(locked.row, c, locked.work.readAt, locked.insertedAt, s.now + 7);
    During(s, c, input, Done(Failed(Unclassified), s.now + 6), NoTx, 8).(
      accounts := s.accounts[u := locked.image],
      ledger := s.ledger[u := Log(s, u) + [entry]],
      fates := s.fates[u := Fates(s, u) + [Unacknowledged(s.now + 7)]])
  }

  lemma UnacknowledgedCommitHappens(s: State, c: CallId, input: Input, id: nat)
    requires Reachable(s) && CanCommit(s, c, input, id)
    ensures Reachable(CommittedBehindBack(s, c, input, AboutToCommit(s, input, id)))
  {
    hide Inv, Reachable, IdFree, SlotOf, Quiet, Perform, Reaches;
    ReachesStage(s, c, input, id, 6);
    var locked := AboutToCommit(s, input, id);
    Continue(s, During(s, c, input, InTx(0, ToCommit), locked, 6));
    UnacknowledgedSteps(s, c, input, locked);
  }

  lemma UnacknowledgedSteps(s: State, c: CallId, input: Input, locked: Tx)
    requires locked.Locked? && Reachable(During(s, c, input, InTx(0, ToCommit), locked, 6))
    ensures Reachable(CommittedBehindBack(s, c, input, locked))
  {
    hide Inv, Reachable;
    var s6 := During(s, c, input, InTx(0, ToCommit), locked, 6);
    var s7 := During(s, c, input, Done(Failed(Unclassified), s.now + 6), locked, 7);
    CommitFailsState(s, c, input, locked);
    ReachableNext(s6, CommitFails(c));
    ReachableNext(s7, ServerCommit(c));
    ServerCommitState(s, c, input, locked);
  }

  lemma CommitFailsState(s: State, c: CallId, input: Input, locked: Tx)
    ensures var s6 := During(s, c, input, InTx(0, ToCommit), locked, 6);
            && Enabled(s6, CommitFails(c))
            && Next(s6, CommitFails(c)) == During(s, c, input, Done(Failed(Unclassified), s.now + 6), locked, 7)
  {
    var s6, s7 := During(s, c, input, InTx(0, ToCommit), locked, 6),
                  During(s, c, input, Done(Failed(Unclassified), s.now + 6), locked, 7);
    assert Next(s6, CommitFails(c)).calls == s7.calls;
  }

  lemma ServerCommitState(s: State, c: CallId, input: Input, locked: Tx)
    requires locked.Locked?
    ensures var s7 := During(s, c, input, Done(Failed(Unclassified), s.now + 6), locked, 7);
            && Enabled(s7, ServerCommit(c))
            && Next(s7, ServerCommit(c)) == CommittedBehindBack(s, c, input, locked)
  {
    var s7 := During(s, c, input, Done(Failed(Unclassified), s.now + 6), locked, 7);
    assert Next(s7, ServerCommit(c)).calls == CommittedBehindBack(s, c, input, locked).calls;
  }

  /** Such a commit leaves the entry stale, and the call that reported the failure has its effect nevertheless. */
  lemma StaleAfterUnacknowledgedCommit(s: State, c: CallId, input: Input, id: nat)
    requires Reachable(s) && CanCommit(s, c, input, id) && input.user in s.cache
    ensures var t, k := CommittedBehindBack(s, c, input, AboutToCommit(s, input, id)), |Log(s, input.user)|;
            && Reachable(t) && t.calls[c].phase.outcome == Failed(Unclassified)
            && WroteAt(t, c, input.user, k)
            && Stale(t, input.user) && DeleteLostSinceSet(t, input.user, k)
  {
    hide Inv, Reachable;
    UnacknowledgedCommitHappens(s, c, input, id);
    LogFacts(s, input.user);
    CacheFacts(s, input.user);
    CachedPairIsAuthentic(s, input.user);
    var t := CommittedBehindBack(s, c, input, AboutToCommit(s, input, id));
    UnseenRowHasOneCause(t, input.user, |Log(s, input.user)|);
    StaleIffCause(t, input.user);
  }

  // ---- A concrete start ----------------------------------------------------------------------------

  const USER := "u"

  /** One user with an empty account. */
  function OneAccount(): State {
    START.(accounts := map[USER := NEW_ACCOUNT], now := 1)
  }

  lemma OneAccountReachable()
    ensures Reachable(OneAccount())
  {
    ReachesItself(START);
    ReachableNext(START, CreateAccount(USER));
  }

  /** The hypotheses of the four lemmas above are met: there is a reachable state with a cached account and one with
      a reader about to fill the cache, in both of which a grant can commit. */
  lemma HoldingReaderReachable() returns (holding: State)
    ensures Reachable(holding)
    ensures holding == OneAccount().(readers := map[0 := Holding(USER, NEW_ACCOUNT, 3)], now := 4)
  {
    hide Reachable;
    OneAccountReachable();
    var s0 := OneAccount();
    ReachableNext(s0, Ask(0, USER));
    var s1 := s0.(readers := map[0 := Checking(USER)], now := 2);
    assert Next(s0, Ask(0, USER)) == s1;
    ReachableNext(s1, CacheGet(0));
    var s2 := s0.(readers := map[0 := Missed(USER)], now := 3);
    assert Next(s1, CacheGet(0)) == s2;
    ReachableNext(s2, DbGet(0));
    holding := s0.(readers := map[0 := Holding(USER, NEW_ACCOUNT, 3)], now := 4);
    assert Next(s2, DbGet(0)) == holding;
  }

  lemma CachedAccountReachable() returns (holding: State, cached: State)
    ensures Reachable(holding) && Reachable(cached)
    ensures holding.readers == map[0 := Holding(USER, NEW_ACCOUNT, 3)] && USER in cached.cache
    ensures CanCommit(holding, 0, Input(Grant, USER, 5, "k"), 1) && CanCommit(cached, 0, Input(Grant, USER, 5, "k"), 1)
  {
    hide Reachable;
    holding := HoldingReaderReachable();
    ReachableNext(holding, CacheSet(0));
    cached := Next(holding, CacheSet(0));
  }

  // ---- Limits of the guarantees --------------------------------------------------------------------

  /** Calls 0 to n - 1 are settled, and exactly `rows` are committed, all of one user. */
  predicate Settled(s: State, n: nat, rows: seq<Row>) {
    && USER in s.accounts && s.accounts[USER].version == |rows| && s.ledger.Keys <= {USER}
    && |Log(s, USER)| == |rows|
    && (forall k :: 0 <= k < |rows| ==> Log(s, USER)[k].row == rows[k] && rows[k].user == USER)
    && (forall d :: d in s.calls ==> d < n && s.calls[d].tx == NoTx)
  }

  lemma StartsSettled()
    ensures Reachable(OneAccount()) && Settled(OneAccount(), 0, [])
  {
    OneAccountReachable();
  }

  /** One more operation, undisturbed, under a new key and with a new id. */
  lemma OneMoreCommit(s: State, n: nat, rows: seq<Row>, input: Input, id: nat) returns (t: State)
    requires Reachable(s) && Settled(s, n, rows) && |rows| < 100
    requires input.user == USER && input.amount > 0 && input.key != ""
    requires Perform(input.kind, s.accounts[USER], input.amount).Ok?
    requires forall k :: 0 <= k < |rows| ==> rows[k].id != id && !SameKey(rows[k], RowFor(input, 0))
    ensures Reachable(t) && Settled(t, n + 1, rows + [RowFor(input, id)])
    ensures t.accounts[USER] == Perform(input.kind, s.accounts[USER], input.amount).value
    ensures t.calls == s.calls[n := Call(input, s.now, [], Deleting(id, t.accounts[USER]), NoTx)]
  {
    hide Reachable, Reaches, Perform, CanCommit;
    SettledCanCommit(s, n, rows, input, id);
    UndisturbedCallCommits(s, n, input, id);
    t := Committed(s, n, input, id);
    Continue(s, t);
    AfterwardsVersion(input.kind, s.accounts[USER], input.amount);
  }

  lemma SettledCanCommit(s: State, n: nat, rows: seq<Row>, input: Input, id: nat)
    requires Settled(s, n, rows) && |rows| < 100
    requires input.user == USER && input.amount > 0 && input.key != ""
    requires Perform(input.kind, s.accounts[USER], input.amount).Ok?
    requires forall k :: 0 <= k < |rows| ==> rows[k].id != id && !SameKey(rows[k], RowFor(input, 0))
    ensures CanCommit(s, n, input, id)
  {
    hide Perform;
    assert SlotOf(s, input) < 0;
  }

  lemma AfterwardsVersion(kind: Kind, a: Account, amount: int64)
    requires Perform(kind, a, amount).Ok? && a.version < MAX_INT64
    ensures Perform(kind, a, amount).value.version == a.version + 1
  {
  }

  /** Two operations of one user, one after the other. */
  lemma TwoCommits(first: Input, second: Input) returns (s: State)
    requires first.user == second.user == USER && first.key != "" && second.key != ""
    requires first.kind == Grant && first.amount > 0
    requires second.amount > 0 && Perform(second.kind, Account(first.amount, 1), second.amount).Ok?
    requires first.key != second.key || first.kind != second.kind
    ensures Reachable(s) && Settled(s, 2, [RowFor(first, 1), RowFor(second, 2)])
    ensures s.accounts[USER] == Perform(second.kind, Account(first.amount, 1), second.amount).value
    ensures 0 in s.calls && 1 in s.calls && 2 !in s.calls
    ensures s.calls[0].input == first && s.calls[0].phase == Deleting(1, Account(first.amount, 1))
  {
    hide Reachable, Settled;
    StartsSettled();
    var s1 := OneMoreCommit(OneAccount(), 0, [], first, 1);
    s := OneMoreCommit(s1, 1, [] + [RowFor(first, 1)], second, 2);
    assert [] + [RowFor(first, 1)] + [RowFor(second, 2)] == [RowFor(first, 1), RowFor(second, 2)];
  }

  /** Three grants whose ids were drawn in descending order: nothing binds ids to the clock. */
  lemma ReversedIds(a: Input, b: Input, c: Input) returns (s: State)
    requires a == Input(Grant, USER, 5, "a") && b == Input(Grant, USER, 5, "b") && c == Input(Grant, USER, 5, "c")
    ensures Reachable(s) && Settled(s, 3, [RowFor(a, 3), RowFor(b, 2), RowFor(c, 1)])
  {
    hide Reachable, Settled;
    StartsSettled();
    var s1 := OneMoreCommit(OneAccount(), 0, [], a, 3);
    assert [] + [RowFor(a, 3)] == [RowFor(a, 3)];
    var s2 := OneMoreCommit(s1, 1, [RowFor(a, 3)], b, 2);
    assert [RowFor(a, 3)] + [RowFor(b, 2)] == [RowFor(a, 3), RowFor(b, 2)];
    s := OneMoreCommit(s2, 2, [RowFor(a, 3), RowFor(b, 2)], c, 1);
    assert [RowFor(a, 3), RowFor(b, 2)] + [RowFor(c, 1)] == [RowFor(a, 3), RowFor(b, 2), RowFor(c, 1)];
  }

  /** The promise of the same result fails: a call is repeated after another operation of its account, and is
      answered under its own id with the pair of that later operation. */
  lemma ReplayReportsLaterPair() returns (s: State)
    ensures Reachable(s) && 0 in s.calls && 2 in s.calls && s.calls[0].input == s.calls[2].input
    ensures s.calls[0].phase.Done? && s.calls[0].phase.outcome == Fresh(1, Account(5, 1))
    ensures s.calls[2].phase.Done? && s.calls[2].phase.outcome == Replayed(1, Account(12, 2))
  {
    hide Reachable;
    var first, second := Input(Grant, USER, 5, "a"), Input(Grant, USER, 7, "b");
    var p := TwoCommits(first, second);
    ReachableNext(p, Delete(0));
    s := Repeat(Next(p, Delete(0)), 2, first, 0);
  }

  /** A call that repeats row k of a settled state is replayed with the current pair. */
  lemma Repeat(s: State, c: CallId, input: Input, k: nat) returns (t: State)
    requires Reachable(s) && c !in s.calls && input.amount > 0 && input.key != "" && input.user in s.accounts
    requires k < |Log(s, input.user)| && Log(s, input.user)[k].row == RowFor(input, Log(s, input.user)[k].row.id)
    ensures Reachable(t) && c in t.calls && t.calls[c].input == input && t.calls[c].phase.Done?
    ensures t.calls[c].phase.outcome == Replayed(Log(s, input.user)[k].row.id, s.accounts[input.user])
    ensures forall d :: d in s.calls ==> d in t.calls && t.calls[d] == s.calls[d]
  {
    hide Reachable, SlotOf;
    LookupFindsRow(s, input.user, k, input);
    var s1 := Next(s, Invoke(c, input));
    ReachableNext(s, Invoke(c, input));
    assert SlotOf(s1, input) == k by { SameLedgerSameSlot(s, s1, input); }
    var s2 := Next(s1, Find(c));
    ReachableNext(s1, Find(c));
    t := Next(s2, ReplayRead(c));
    ReachableNext(s2, ReplayRead(c));
  }

  /** Without the bound, the exact balance is lost: two grants make the stored balance negative. */
  lemma GrantsCanOverflow() returns (s: State)
    ensures Reachable(s) && USER in s.accounts
    ensures s.accounts[USER] == Account(MIN_INT64, 2) && !NeverOverflowed(Log(s, USER))
  {
    hide Reachable;
    s := TwoCommits(Input(Grant, USER, MAX_INT64, "a"), Input(Grant, USER, 1, "b"));
    NoOverdraft(s, USER);
    Serializable(s, USER);
    assert Log(s, USER)[..2] == Log(s, USER);
  }

  /** A grant and a redeem under one key are independent: both take effect. */
  lemma SameKeyBothKinds() returns (s: State)
    ensures Reachable(s) && USER in s.accounts && s.accounts[USER] == Account(2, 2) && |Log(s, USER)| == 2
    ensures Log(s, USER)[0].row.key == Log(s, USER)[1].row.key
    ensures Log(s, USER)[0].row.kind == Grant && Log(s, USER)[1].row.kind == Redeem
  {
    hide Reachable;
    s := TwoCommits(Input(Grant, USER, 5, "k"), Input(Redeem, USER, 3, "k"));
  }

  /** A concurrent caller with the same key and the same amount does not always get the first caller's answer:
      if its lookup came before the other's commit, it is told ErrAlreadyProcessed. */
  lemma RaceLoserIsRefused() returns (s: State)
    ensures Reachable(s) && 0 in s.calls && 1 in s.calls && s.calls[0].input == s.calls[1].input
    ensures s.calls[0].phase.Deleting? && |Log(s, USER)| == 1
    ensures s.calls[1].phase.Done? && s.calls[1].phase.outcome == Failed(AlreadyProcessed)
  {
    OneAccountReachable();
    var s0 := OneAccount();
    var input := Input(Grant, USER, 5, "k");
    assert CanCommit(s0, 1, input, 1);
    ReachesStage(s0, 1, input, 1, 2);
    var s1 := During(s0, 1, input, Looping(0), NoTx, 2);
    Continue(s0, s1);
    assert CanCommit(s1, 0, input, 1);
    UndisturbedCallCommits(s1, 0, input, 1);
    var s2 := Committed(s1, 0, input, 1);
    Continue(s1, s2);
    assert Log(s2, USER) == [CommittedEntry(s1, 0, input, 1)];
    s := LoserSteps(s2, input);
  }

  lemma LoserSteps(s: State, input: Input) returns (t: State)
    requires Reachable(s) && 0 in s.calls && 1 in s.calls && s.calls[0].input == s.calls[1].input == input
    requires s.calls[0].phase.Deleting? && Quiet(s, input.user)
    requires s.calls[1] == Call(input, s.calls[1].startedAt, [], Looping(0), NoTx)
    requires input.user in s.accounts && Perform(input.kind, s.accounts[input.user], input.amount).Ok?
    requires SlotOf(s, input) >= 0 && IdFree(s, 2)
    ensures Reachable(t) && 0 in t.calls && 1 in t.calls && t.calls[0] == s.calls[0] && t.calls[1].input == input
    ensures t.calls[1].phase.Done? && t.calls[1].phase.outcome == Failed(AlreadyProcessed) && t.ledger == s.ledger
  {
    hide Reachable, SlotOf;
    ReachableNext(s, Begin(1));
    var s1 := Next(s, Begin(1));
    ReachableNext(s1, Read(1));
    var s2 := Next(s1, Read(1));
    assert s2.calls[1].tx.Snap? && s2.calls[0] == s.calls[0] && s2.ledger == s.ledger;
    assert SlotOf(s2, input) >= 0 by { SameLedgerSameSlot(s, s2, input); }
    assert !KeyHeld(s2, 1) && IdFree(s2, 2);
    ReachableNext(s2, Insert(1, 2));
    var s3 := Next(s2, Insert(1, 2));
    ReachableNext(s3, Rollback(1));
    t := Next(s3, Rollback(1));
  }

  /** And if the operation is a redeem, the loser may be told that the balance is insufficient, because the winner,
      with equal input, has spent it. */
  lemma RaceLoserLacksBalance() returns (s: State)
    ensures Reachable(s) && 1 in s.calls && 2 in s.calls && s.calls[1].input == s.calls[2].input
    ensures s.calls[1].phase.Deleting? && s.calls[1].phase.account == Account(0, 2)
    ensures s.calls[2].phase.Done? && s.calls[2].phase.outcome == Failed(InsufficientBalance)
  {
    hide Reachable, Reaches;
    StartsSettled();
    var input := Input(Redeem, USER, 5, "k");
    var s0 := OneMoreCommit(OneAccount(), 0, [], Input(Grant, USER, 5, "g"), 1);
    SettledCanCommit(s0, 2, [RowFor(Input(Grant, USER, 5, "g"), 1)], input, 2) by {
      assert [] + [RowFor(Input(Grant, USER, 5, "g"), 1)] == [RowFor(Input(Grant, USER, 5, "g"), 1)];
    }
    ReachesStage(s0, 2, input, 2, 2);
    var s1 := During(s0, 2, input, Looping(0), NoTx, 2);
    Continue(s0, s1);
    assert CanCommit(s1, 1, input, 2) by { assert IdFree(s1, 2) && SlotOf(s1, input) == SlotOf(s0, input); }
    UndisturbedCallCommits(s1, 1, input, 2);
    var s2 := Committed(s1, 1, input, 2);
    Continue(s1, s2);
    s := PoorSteps(s2, input);
  }

  lemma PoorSteps(s: State, input: Input) returns (t: State)
    requires Reachable(s) && 2 in s.calls && s.calls[2] == Call(input, s.calls[2].startedAt, [], Looping(0), NoTx)
    requires input.user in s.accounts
    requires Perform(input.kind, s.accounts[input.user], input.amount) == Error(InsufficientBalance)
    ensures Reachable(t) && 2 in t.calls && t.calls[2].input == input
    ensures t.calls[2].phase.Done? && t.calls[2].phase.outcome == Failed(InsufficientBalance)
    ensures forall d :: d in s.calls && d != 2 ==> d in t.calls && t.calls[d] == s.calls[d]
  {
    hide Reachable;
    ReachableNext(s, Begin(2));
    var s1 := Next(s, Begin(2));
    ReachableNext(s1, Read(2));
    var s2 := Next(s1, Read(2));
    ReachableNext(s2, Rollback(2));
    t := Next(s2, Rollback(2));
  }

  lemma SameLedgerSameSlot(s: State, t: State, input: Input)
    requires t.ledger == s.ledger
    ensures SlotOf(t, input) == SlotOf(s, input)
  {
  }
}
