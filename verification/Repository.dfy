/** The MySQL side as imperative methods: each is one round trip, preceded by everybody else's turn. */
module Repository {
  import opened Domain
  import opened Machine
  import opened Invariant
  import opened LedgerTheorems
  import opened LedgerHistory
  import opened Pagination
  import opened Environment

  predicate At(s: State, c: CallId, input: Input, phase: Phase) {
    c in s.calls && s.calls[c].input == input && s.calls[c].phase == phase
  }

  predicate Ends(s: State, c: CallId, input: Input, outcome: Outcome) {
    c in s.calls && s.calls[c].input == input && s.calls[c].phase.Done? && s.calls[c].phase.outcome == outcome
  }

  /** While the transaction is alive it works on this pair. */
  predicate WorksOn(tx: Tx, before: Account, after: Account) {
    tx.Snap? || HasRow(tx) ==> tx.work.before == before && tx.work.after == after
  }

  function Failure(message: string): Error {
    Wrap(message, Root(Unclassified))
  }

  lemma FailedFindLeads(s: State, c: CallId)
    requires Enabled(s, FindFails(c))
    ensures Ends(Next(s, FindFails(c)), c, s.calls[c].input, Failed(Unclassified))
    ensures Next(s, FindFails(c)).accounts == s.accounts && Next(s, FindFails(c)).ledger == s.ledger
  {
  }

  lemma FindLeads(s: State, c: CallId, input: Input)
    requires Reachable(s) && Enabled(s, Find(c)) && At(s, c, input, Looking)
    ensures var t, k := Next(s, Find(c)), SlotOf(s, input);
            && (KeyUsed(t, input) <==> k >= 0) && t.accounts == s.accounts && t.ledger == s.ledger
            && if k < 0 then At(t, c, input, Looping(0))
               else
                 var row := Log(s, input.user)[k].row;
                 && SameKey(row, RowFor(input, 0)) && InLedger(t, row)
                 && (row.amount == input.amount <==> KeyUsedWithAmount(t, input))
                 && if row.amount == input.amount then At(t, c, input, Replaying(row, k))
                    else Ends(t, c, input, Failed(IdempotencyConflict))
  {
    SlotIffUsed(s, input);
    SameLedgerSameKeys(s, Next(s, Find(c)), input);
    LogFacts(s, input.user);
    SlotIffReplayable(s, input);
    var t := Next(s, Find(c));
    assert Log(t, input.user) == Log(s, input.user);
    if SlotOf(s, input) >= 0 {
      assert EntryOk(s, input.user, Log(s, input.user)[SlotOf(s, input)]);
      assert Log(t, input.user)[SlotOf(s, input)].row.user == input.user;
    }
  }

  /** The row is committed. */
  predicate InLedger(s: State, row: Row) {
    exists k :: 0 <= k < |Log(s, row.user)| && Log(s, row.user)[k].row == row
  }

  lemma InsertLeads(s: State, c: CallId, input: Input, a: nat, row: Row, before: Account, after: Account)
    requires Reachable(s) && Enabled(s, Insert(c, row.id)) && At(s, c, input, InTx(a, ToInsert))
    requires WorksOn(s.calls[c].tx, before, after) && row == RowFor(input, row.id)
    ensures var t := Next(s, Insert(c, row.id));
            && (KeyUsed(t, input) <==> SlotOf(s, input) >= 0)
            && if SlotOf(s, input) >= 0 then At(t, c, input, RollingBack(a, AlreadyProcessed))
               else At(t, c, input, InTx(a, ToUpdate)) && WorksOn(t.calls[c].tx, before, after) &&
                    t.calls[c].tx.Pending? && t.calls[c].tx.row == row
  {
    SlotIffUsed(s, input);
    SameLedgerSameKeys(s, Next(s, Insert(c, row.id)), input);
  }

  lemma UpdateLeads(s: State, c: CallId, input: Input, a: nat, before: Account, after: Account)
    requires Enabled(s, Update(c)) && At(s, c, input, InTx(a, ToUpdate)) && WorksOn(s.calls[c].tx, before, after)
    ensures var t := Next(s, Update(c));
            && t.accounts == s.accounts
            && if VersionMatches(s, input.user, before.version)
               then At(t, c, input, InTx(a, ToCommit)) && WorksOn(t.calls[c].tx, before, after) &&
                    t.calls[c].tx.Locked? && t.calls[c].tx.row == s.calls[c].tx.row &&
                    t.calls[c].tx.image == Account(after.balance, before.version + 1)
               else At(t, c, input, RollingBack(a, OptimisticLock))
  {
  }

  predicate SameData(s: State, t: State) {
    t.accounts == s.accounts && t.cache == s.cache && t.clock == s.clock
  }

  lemma DbGetLeads(s: State, r: ReaderId)
    requires r in s.readers && s.readers[r].Missed?
    ensures Enabled(s, DbGet(r)) && Enabled(s, DbGetFails(r))
    ensures Next(s, DbGetFails(r)) == SetReader(s, r, Refused(s.readers[r].user, Unclassified))
    ensures var t, u := Next(s, DbGet(r)), s.readers[r].user;
            && SameData(s, t) && r in t.readers
            && t.readers[r] == if u in s.accounts then Holding(u, s.accounts[u], s.now) else Refused(u, AccountNotFound)
  {
  }

  /** The last step of the run added a new empty account for this user, and changed no other. */
  predicate CreatedLast(trace: seq<Step>, s: State, user: string) {
    && |trace| > 0 && trace[|trace| - 1] == Step.CreateAccount(user)
    && match RunFrom(START, trace[..|trace| - 1])
       case None => false
       case Some(p) => user !in p.accounts && s.accounts == p.accounts[user := Account(0, 0)]
  }

  /** What stood in the way of a failing statement still does afterwards. */
  lemma FailureKeepsObstacles(s: State, c: CallId, id: nat)
    requires Enabled(s, StatementFails(c))
    ensures var t := Next(s, StatementFails(c));
            && c in t.calls && t.calls[c].tx == s.calls[c].tx && t.accounts == s.accounts
            && (KeyHeld(t, c) <==> KeyHeld(s, c)) && (RowHeld(t, c) <==> RowHeld(s, c))
            && (IdFree(t, id) <==> IdFree(s, id))
  {
    var t := Next(s, StatementFails(c));
    assert forall d :: d in s.calls <==> d in t.calls;
    assert forall d :: d in s.calls ==> t.calls[d].tx == s.calls[d].tx && t.calls[d].input == s.calls[d].input;
  }

  lemma ReadHindered(s: State, c: CallId, drawable: set<nat>)
    requires Is(s, c, ToRead) && !s.calls[c].tx.Open?
    ensures Hindered(s, StatementFails(c), drawable)
  {
  }

  lemma InsertHindered(s: State, c: CallId, id: nat, drawable: set<nat>)
    requires Is(s, c, ToInsert) && id in drawable && (!s.calls[c].tx.Snap? || KeyHeld(s, c) || !IdFree(s, id))
    ensures Hindered(s, StatementFails(c), drawable)
  {
    hide KeyHeld, IdFree;
  }

  lemma UpdateHindered(s: State, c: CallId, before: Account, drawable: set<nat>)
    requires Is(s, c, ToUpdate) && (s.calls[c].tx.Pending? ==> s.calls[c].tx.work.before == before)
    requires || !s.calls[c].tx.Pending? || RowHeld(s, c)
             || (VersionMatches(s, s.calls[c].input.user, before.version) && before.version == MAX_INT64)
    ensures Hindered(s, StatementFails(c), drawable)
  {
    hide RowHeld;
  }

  lemma StatementMayFail(s: State, c: CallId)
    requires c in s.calls && s.calls[c].phase.InTx? && s.calls[c].phase.pc != ToCommit
    ensures Enabled(s, StatementFails(c))
  {
  }

  lemma LookupLeads(s: State, c: CallId)
    requires c in s.calls && s.calls[c].phase.Looking?
    ensures Enabled(s, Find(c)) && Enabled(s, FindFails(c))
  {
  }

  lemma ReadLeads(s: State, c: CallId, input: Input, a: nat)
    requires At(s, c, input, InTx(a, ToRead))
    ensures Enabled(s, Read(c)) <==> s.calls[c].tx.Open?
    ensures Enabled(s, Read(c)) ==>
            var t, u := Next(s, Read(c)), input.user;
            if u !in s.accounts then At(t, c, input, RollingBack(a, AccountNotFound))
            else
              match Perform(input.kind, s.accounts[u], input.amount)
              case Error(e) => At(t, c, input, RollingBack(a, e))
              case Ok(after) => At(t, c, input, InTx(a, ToInsert)) && WorksOn(t.calls[c].tx, s.accounts[u], after)
  {
    hide Perform;
  }

  lemma ReplayReadLeads(s: State, c: CallId)
    requires Reachable(s) && c in s.calls && s.calls[c].phase.Replaying?
    ensures Enabled(s, ReplayRead(c)) && Enabled(s, ReplayReadFails(c)) && s.calls[c].input.user in s.accounts
    ensures var call, t := s.calls[c], Next(s, ReplayRead(c));
            && Ends(t, c, call.input, Replayed(call.phase.existing.id, s.accounts[call.input.user]))
            && t.accounts == s.accounts
    ensures Ends(Next(s, ReplayReadFails(c)), c, s.calls[c].input, Failed(Unclassified))
    ensures Next(s, ReplayReadFails(c)).accounts == s.accounts
  {
    ReplayIsSafe(s, c);
  }

  lemma InsertEnabled(s: State, c: CallId, id: nat)
    requires Is(s, c, ToInsert)
    ensures Enabled(s, Insert(c, id)) <==> s.calls[c].tx.Snap? && !KeyHeld(s, c) && IdFree(s, id)
  {
    hide KeyHeld, IdFree;
  }

  lemma UpdateEnabled(s: State, c: CallId, before: Account)
    requires Is(s, c, ToUpdate) && (s.calls[c].tx.Pending? ==> s.calls[c].tx.work.before == before)
    ensures Enabled(s, Update(c)) <==>
              && s.calls[c].tx.Pending? && !RowHeld(s, c)
              && !(VersionMatches(s, s.calls[c].input.user, before.version) && before.version == MAX_INT64)
  {
    hide RowHeld;
  }

  lemma FailureLeads(s: State, c: CallId)
    requires Enabled(s, StatementFails(c))
    ensures At(Next(s, StatementFails(c)), c, s.calls[c].input, RollingBack(s.calls[c].phase.attempt, Unclassified))
    ensures Next(s, StatementFails(c)).calls[c].tx == s.calls[c].tx
  {
  }

  class MileageRepository {
    const world: World

    constructor (world: World)
      ensures this.world == world
    {
      this.world := world;
    }

    /** Inserts the account row; a second row of the user fails on the primary key. A driver error leaves open
        whether the row was inserted. */
    method CreateAccount(user: string) returns (err: Option<Error>)
      requires world.Valid()
      modifies world
      ensures world.Valid() && old(world.trace) <= world.trace
      ensures world.others == Rest(old(world.others)) && world.luck == Rest(old(world.luck))
      ensures match err
              case None => Fortune(old(world.luck)) && CreatedLast(world.trace, world.st, user)
              case Some(e) => Cause(e) == Unclassified && (Fortune(old(world.luck)) ==> user in world.st.accounts)
      ensures old(world.others) == [] ==>
                && (err == None <==> Fortune(old(world.luck)) && user !in old(world.st.accounts))
                && (world.st == old(world.st) ||
                    (user !in old(world.st.accounts) &&
                     world.st.accounts == old(world.st.accounts)[user := Account(0, 0)]))
    {
      hide Inv, Fair;
      ghost var session := world.Open(Browser);
      world.Interfere(session, Browser);
      var ok := world.Lucky(session);
      if user in world.st.accounts {
        return Some(Failure("create account"));
      }
      if !ok {
        var applied := world.Whim();
        if applied {
          world.Act(Step.CreateAccount(user), session);
        }
        return Some(Failure("create account"));
      }
      ghost var before := world.trace;
      world.Act(Step.CreateAccount(user), session);
      assert world.trace[..|before|] == before;
      return None;
    }

    method FindTransactionByIdempotencyKey(c: CallId, input: Input, ghost session: Session)
      returns (existing: Option<Row>, err: Option<Error>)
      requires world.Valid() && world.IsFair(session) && session.me == Caller(c)
      requires At(world.st, c, input, Looking)
      modifies world
      ensures world.Valid() && world.IsFair(session) && old(world.trace) <= world.trace
      ensures world.others == Rest(old(world.others)) && world.luck == Rest(old(world.luck))
      ensures world.ids == old(world.ids) && (old(world.Calm()) ==> world.Calm())
      ensures old(world.Calm() && Enabled(world.st, Find(c))) ==> world.st == Next(old(world.st), Find(c))
      ensures old(world.Calm()) ==>
                world.st.accounts == old(world.st.accounts) && world.st.ledger == old(world.st.ledger)
      ensures err.Some? <==> !Fortune(old(world.luck))
      ensures match err
              case Some(e) =>
                existing == None && Cause(e) == Unclassified && Ends(world.st, c, input, Failed(Unclassified))
              case None =>
                match existing
                case None => At(world.st, c, input, Looping(0)) && !KeyUsed(world.st, input)
                case Some(row) =>
                  && SameKey(row, RowFor(input, 0)) && KeyUsed(world.st, input) && InLedger(world.st, row)
                  && (row.amount == input.amount <==> KeyUsedWithAmount(world.st, input))
                  && (if row.amount == input.amount
                      then c in world.st.calls && world.st.calls[c].input == input &&
                           world.st.calls[c].phase.Replaying? && world.st.calls[c].phase.existing == row
                      else Ends(world.st, c, input, Failed(IdempotencyConflict)))
    {
      hide Recorded, Fair, Next, Enabled, KeyUsed, KeyUsedWithAmount, InLedger, OwnStep, Hindered;
      world.Interfere(session, Caller(c));
      var ok := world.Lucky(session);
      LookupLeads(world.st, c);
      if !ok {
        FailedFindLeads(world.st, c);
        world.Act(FindFails(c), session);
        return None, Some(Failure("find transaction by idempotency key"));
      }
      var k := SlotOf(world.st, input);
      existing := if k >= 0 then Some(Log(world.st, input.user)[k].row) else None;
      world.IsReachable();
      FindLeads(world.st, c, input);
      world.Act(Find(c), session);
      return existing, None;
    }

    /** GetAccount with a plain context runs outside any transaction: the read behind a replay. It never
        misses the account. */
    method GetAccountForReplay(c: CallId, input: Input, ghost row: Row, ghost session: Session)
      returns (account: Option<Account>, err: Option<Error>)
      requires world.Valid() && world.IsFair(session) && session.me == Caller(c)
      requires c in world.st.calls && world.st.calls[c].input == input
      requires world.st.calls[c].phase.Replaying? && world.st.calls[c].phase.existing == row
      modifies world
      ensures world.Valid() && world.IsFair(session) && old(world.trace) <= world.trace
      ensures world.others == Rest(old(world.others)) && world.luck == Rest(old(world.luck))
      ensures world.ids == old(world.ids) && (old(world.Calm()) ==> world.Calm())
      ensures old(world.Calm() && Enabled(world.st, ReplayRead(c))) ==> world.st == Next(old(world.st), ReplayRead(c))
      ensures old(world.Calm()) ==> world.st.accounts == old(world.st.accounts)
      ensures err.Some? <==> !Fortune(old(world.luck))
      ensures match err
              case Some(e) => Cause(e) == Unclassified && Ends(world.st, c, input, Failed(Unclassified))
              case None => account.Some? && Ends(world.st, c, input, Replayed(row.id, account.value)) &&
                           input.user in world.st.accounts && world.st.accounts[input.user] == account.value
    {
      hide Recorded, Fair, Next, Enabled, OwnStep, Hindered;
      world.Interfere(session, Caller(c));
      var ok := world.Lucky(session);
      world.IsReachable();
      ReplayReadLeads(world.st, c);
      if !ok {
        world.Act(ReplayReadFails(c), session);
        return None, Some(Failure("get account"));
      }
      account := if input.user in world.st.accounts then Some(world.st.accounts[input.user]) else None;
      world.Act(ReplayRead(c), session);
      return account, None;
    }

    /** GetAccount with the transaction's context is its first statement and fixes the pair it works on. */
    method GetAccountInTx(c: CallId, input: Input, a: nat, ghost session: Session)
      returns (account: Option<Account>, err: Option<Error>)
      requires world.Valid() && world.IsFair(session) && session.me == Caller(c)
      requires At(world.st, c, input, InTx(a, ToRead))
      modifies world
      ensures world.Valid() && world.IsFair(session) && old(world.trace) <= world.trace
      ensures world.others == Rest(old(world.others)) && world.luck == Rest(old(world.luck))
      ensures world.ids == old(world.ids) && (old(world.Calm()) ==> world.Calm())
      ensures old(world.Calm() && Enabled(world.st, Read(c))) ==> world.st == Next(old(world.st), Read(c))
      ensures old(world.Calm() && world.st.calls[c].tx.Open?) ==>
                err == None && account == (if input.user in old(world.st.accounts)
                                           then Some(old(world.st.accounts)[input.user]) else None)
      ensures err.Some? && Fortune(old(world.luck)) ==> c in world.st.calls && !world.st.calls[c].tx.Open?
      ensures match err
              case Some(e) => Cause(e) == Unclassified && At(world.st, c, input, RollingBack(a, Unclassified))
              case None =>
                match account
                case None => At(world.st, c, input, RollingBack(a, AccountNotFound))
                case Some(before) =>
                  match Perform(input.kind, before, input.amount)
                  case Error(e) => At(world.st, c, input, RollingBack(a, e))
                  case Ok(after) =>
                    At(world.st, c, input, InTx(a, ToInsert)) && WorksOn(world.st.calls[c].tx, before, after)
    {
      hide Recorded, Fair, Next, Enabled, OwnStep, Hindered, Perform;
      world.Interfere(session, Caller(c));
      var ok := world.Lucky(session);
      ReadLeads(world.st, c, input, a);
      if !ok || !world.st.calls[c].tx.Open? {
        if ok {
          ReadHindered(world.st, c, world.drawable);
        }
        StatementMayFail(world.st, c);
        FailureLeads(world.st, c);
        world.Act(StatementFails(c), session);
        return None, Some(Failure("get account"));
      }
      account := if input.user in world.st.accounts then Some(world.st.accounts[input.user]) else None;
      world.Act(Read(c), session);
      return account, None;
    }

    /** GetAccount behind a balance query. */
    method GetAccountForQuery(r: ReaderId, user: string, ghost session: Session)
      returns (account: Option<Account>, err: Option<Error>)
      requires world.Valid() && world.IsFair(session) && session.me == Asker(r)
      requires r in world.st.readers && world.st.readers[r] == Missed(user)
      modifies world
      ensures world.Valid() && world.IsFair(session) && old(world.trace) <= world.trace && r in world.st.readers
      ensures world.others == Rest(old(world.others)) && world.luck == Rest(old(world.luck))
      ensures old(world.Calm()) ==> world.Calm() && SameData(old(world.st), world.st)
      ensures err.Some? <==> !Fortune(old(world.luck))
      ensures var reader := world.st.readers[r];
              match err
              case Some(e) => reader == Refused(user, Unclassified) && Cause(e) == Unclassified
              case None =>
                && account == (if user in world.st.accounts then Some(world.st.accounts[user]) else None)
                && if account == None then reader == Refused(user, AccountNotFound)
                   else reader.Holding? && reader.user == user && reader.account == account.value
    {
      hide Recorded, Fair, Next, Enabled, OwnStep, Hindered;
      world.Interfere(session, Asker(r));
      var ok := world.Lucky(session);
      DbGetLeads(world.st, r);
      if !ok {
        world.Act(DbGetFails(r), session);
        return None, Some(Failure("get account"));
      }
      account := if user in world.st.accounts then Some(world.st.accounts[user]) else None;
      world.Act(DbGet(r), session);
      return account, None;
    }

    method InsertTransaction(c: CallId, input: Input, a: nat, row: Row,
                             ghost before: Account, ghost after: Account, ghost session: Session)
      returns (err: Option<Error>)
      requires world.Valid() && world.IsFair(session) && session.me == Caller(c)
      requires At(world.st, c, input, InTx(a, ToInsert))
      requires WorksOn(world.st.calls[c].tx, before, after)
      requires row == RowFor(input, row.id) && row.id in world.drawable
      modifies world
      ensures world.Valid() && world.IsFair(session) && old(world.trace) <= world.trace
      ensures world.others == Rest(old(world.others)) && world.luck == Rest(old(world.luck))
      ensures world.ids == old(world.ids) && (old(world.Calm()) ==> world.Calm())
      ensures old(world.Calm() && Enabled(world.st, Insert(c, row.id))) ==>
                world.st == Next(old(world.st), Insert(c, row.id))
      ensures match err
              case None =>
                && At(world.st, c, input, InTx(a, ToUpdate)) && WorksOn(world.st.calls[c].tx, before, after)
                && world.st.calls[c].tx.Pending? && world.st.calls[c].tx.row == row && !KeyUsed(world.st, input)
              case Some(e) =>
                || (Cause(e) == AlreadyProcessed && e.Root? && KeyUsed(world.st, input) &&
                    At(world.st, c, input, RollingBack(a, AlreadyProcessed)))
                || (Cause(e) == Unclassified && At(world.st, c, input, RollingBack(a, Unclassified)) &&
                    (Fortune(old(world.luck)) ==>
                       !world.st.calls[c].tx.Snap? || KeyHeld(world.st, c) || !IdFree(world.st, row.id)))
    {
      hide Recorded, Fair, Next, Enabled, KeyHeld, IdFree, SlotOf, KeyUsed, OwnStep, Hindered;
      world.Interfere(session, Caller(c));
      var ok := world.Lucky(session);
      InsertEnabled(world.st, c, row.id);
      if !ok || !world.st.calls[c].tx.Snap? || KeyHeld(world.st, c) || !IdFree(world.st, row.id) {
        if ok {
          InsertHindered(world.st, c, row.id, world.drawable);
        }
        StatementMayFail(world.st, c);
        FailureKeepsObstacles(world.st, c, row.id);
        FailureLeads(world.st, c);
        world.Act(StatementFails(c), session);
        return Some(Failure("insert transaction"));
      }
      world.IsReachable();
      InsertLeads(world.st, c, input, a, row, before, after);
      var duplicate := SlotOf(world.st, input) >= 0;
      world.Act(Insert(c, row.id), session);
      return if duplicate then Some(Root(AlreadyProcessed)) else None;
    }

    method UpdateBalance(c: CallId, input: Input, a: nat, newBalance: int64, expectedVersion: int64,
                         row: Row, ghost before: Account, ghost after: Account, ghost session: Session)
      returns (err: Option<Error>)
      requires world.Valid() && world.IsFair(session) && session.me == Caller(c)
      requires At(world.st, c, input, InTx(a, ToUpdate))
      requires WorksOn(world.st.calls[c].tx, before, after)
      requires HasRow(world.st.calls[c].tx) ==> world.st.calls[c].tx.row == row
      requires newBalance == after.balance && expectedVersion == before.version
      modifies world
      ensures world.Valid() && world.IsFair(session) && old(world.trace) <= world.trace
      ensures world.others == Rest(old(world.others)) && world.luck == Rest(old(world.luck))
      ensures world.ids == old(world.ids) && (old(world.Calm()) ==> world.Calm())
      ensures old(world.Calm() && Enabled(world.st, Update(c))) ==> world.st == Next(old(world.st), Update(c))
      ensures match err
              case None =>
                && At(world.st, c, input, InTx(a, ToCommit)) && WorksOn(world.st.calls[c].tx, before, after)
                && world.st.calls[c].tx.Locked? && world.st.calls[c].tx.row == row
                && VersionMatches(world.st, input.user, expectedVersion)
                && world.st.calls[c].tx.image == Account(newBalance, expectedVersion + 1)
              case Some(e) =>
                || (Cause(e) == OptimisticLock && e.Root? && !VersionMatches(world.st, input.user, expectedVersion) &&
                    At(world.st, c, input, RollingBack(a, OptimisticLock)))
                || (Cause(e) == Unclassified && At(world.st, c, input, RollingBack(a, Unclassified)) &&
                    (Fortune(old(world.luck)) ==>
                       || !world.st.calls[c].tx.Pending? || RowHeld(world.st, c)
                       || (VersionMatches(world.st, input.user, expectedVersion) && expectedVersion == MAX_INT64)))
    {
      hide Recorded, Fair, Next, Enabled, KeyHeld, IdFree, RowHeld, OwnStep, Hindered;
      world.Interfere(session, Caller(c));
      var ok := world.Lucky(session);
      var matches := VersionMatches(world.st, input.user, expectedVersion);
      UpdateEnabled(world.st, c, before);
      if !ok || !world.st.calls[c].tx.Pending? || RowHeld(world.st, c) || (matches && expectedVersion == MAX_INT64) {
        if ok {
          UpdateHindered(world.st, c, before, world.drawable);
        }
        StatementMayFail(world.st, c);
        FailureKeepsObstacles(world.st, c, 0);
        FailureLeads(world.st, c);
        world.Act(StatementFails(c), session);
        return Some(Failure("update balance"));
      }
      UpdateLeads(world.st, c, input, a, before, after);
      world.Act(Update(c), session);
      return if matches then None else Some(Root(OptimisticLock));
    }

    /** Fetches one row more than asked for, and copies row by row. */
    method ListTransactions(user: string, cursor: Cursor, limit: nat)
      returns (result: seq<HistoryRow>, err: Option<Error>)
      requires world.Valid()
      modifies world
      ensures world.Valid() && old(world.trace) <= world.trace
      ensures world.others == Rest(old(world.others)) && world.luck == Rest(old(world.luck))
      ensures old(world.others) == [] ==> world.others == [] && world.st == old(world.st)
      ensures err.Some? <==> !Fortune(old(world.luck))
      ensures match err
              case Some(e) => Cause(e) == Unclassified && result == []
              case None =>
                && IsAnswer(HistoryOf(Log(world.st, user)), user, cursor, limit + 1, result)
                && forall i :: 0 <= i < |result| ==> IsCommitted(Log(world.st, user), user, result[i])
    {
      hide Recorded, Fair, IsAnswer, IsCommitted, Kept, Inv, Reachable;
      ghost var session := world.Open(Browser);
      world.Interfere(session, Browser);
      var ok := world.Lucky(session);
      if !ok {
        return [], Some(Failure("list transactions"));
      }
      world.IsReachable();
      ReachableTimesDistinct(world.st, user);
      var rows := Select(HistoryOf(Log(world.st, user)), user, cursor, limit + 1);
      var copy: seq<HistoryRow> := [];
      for i := 0 to |rows|
        invariant copy == rows[..i]
      {
        copy := copy + [rows[i]];
      }
      assert copy == rows;
      AnswerShowsLedger(Log(world.st, user), user, cursor, limit + 1, rows);
      return copy, None;
    }
  }
}
