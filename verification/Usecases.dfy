/** The use cases as imperative methods. Each is proved to be a run of the step machine: `Valid()` says
    that the state is the one that the recorded trace leads to, and the contracts tie every answer to
    where the machine then stands. */
module Usecases {
  import opened Domain
  import opened Machine
  import opened Invariant
  import opened LedgerTheorems
  import opened CacheTheorems
  import opened Environment
  import opened RedisCache
  import opened Repository
  import opened Refusals
  import opened Causes
  import opened Undisturbed

  datatype Output = Output(transactionID: nat, balance: int64, version: int64)

  function OutputOf(id: nat, a: Account): Output {
    Output(id, a.balance, a.version)
  }

  /** What `RunInTx` leaves behind when its attempt `a` fails with cause `e`. */
  predicate AttemptFailed(s: State, c: CallId, input: Input, a: nat, e: Err) {
    if e == OptimisticLock && a + 1 < MAX_RETRIES then At(s, c, input, Looping(a + 1)) else Ends(s, c, input, Failed(e))
  }

  /** The call has committed what it is about to report, and owes the DEL. */
  predicate OwesDelete(s: State, c: CallId, input: Input, output: Output) {
    At(s, c, input, Deleting(output.transactionID, Account(output.balance, output.version)))
  }

  /** What `Execute` answers is what the machine records. */
  predicate AnswersWith(s: State, c: CallId, input: Input, output: Option<Output>, err: Option<Error>) {
    match err
    case Some(e) => output == None && Ends(s, c, input, Failed(Cause(e)))
    case None =>
      && output.Some?
      && (var Output(id, balance, version) := output.value;
          || Ends(s, c, input, Fresh(id, Account(balance, version)))
          || Ends(s, c, input, Replayed(id, Account(balance, version))))
  }

  /** The contract of `Execute` towards its caller. A success names a committed row with exactly the caller's
      user, key, type and amount, below the reported version, and reports a pair the account really had. A definite
      error means that this call added nothing; giving up on conflicts means that three rows of
      other calls were committed, each during one of its attempts. */
  lemma AnswerMeans(s: State, c: CallId, input: Input, output: Option<Output>, err: Option<Error>)
    requires Reachable(s) && AnswersWith(s, c, input, output, err)
    ensures err == None ==>
              var Output(id, balance, version) := output.value;
              && Answers(Log(s, input.user), input, id, version)
              && Historical(Log(s, input.user), Account(balance, version))
    ensures err.Some? && Definite(Cause(err.value)) ==>
              forall u, k :: 0 <= k < |Log(s, u)| ==> Log(s, u)[k].writer != c
    ensures err.Some? && Cause(err.value) == OptimisticLock ==>
              && |s.calls[c].lost| == MAX_RETRIES && input.user in s.accounts
              && s.accounts[input.user].version >= s.calls[c].lost[0].version + 3
              && forall i :: 0 <= i < 3 ==> BeatenBy(s, c, i)
    ensures err.Some? ==> Cause(err.value) != NilDereference
  {
    CallFacts(s, c);
    if err == None {
      ReachesItself(s);
      var k := SuccessNamesLastingRow(s, c, s);
    } else {
      NeverPanics(s, c);
      if Definite(Cause(err.value)) {
        forall u, k | 0 <= k < |Log(s, u)| ensures Log(s, u)[k].writer != c {
          ReachesItself(s);
          DefiniteErrorMeansNoEffect(s, c, s, u, k);
        }
      }
      if Cause(err.value) == OptimisticLock {
        GivingUpMeansThreeCommits(s, c);
      }
    }
  }

  /** From `s`, the call has committed with its sequential result and deleted the cached entry. */
  predicate CleanRun(s: State, c: CallId, input: Input, id: nat, t: State, output: Option<Output>, err: Option<Error>) {
    && CanCommit(s, c, input, id)
    && err == None && output == Some(OutputOf(id, AfterwardsAccount(s, input)))
    && t == Next(Committed(s, c, input, id), Delete(c))
  }

  /** The domain refuses the operation on the account as it is. */
  predicate Refusable(s: State, input: Input) {
    || input.user !in s.accounts
    || (input.amount > 0 && input.kind == Redeem && s.accounts[input.user].balance < input.amount)
  }

  predicate RefusesFor(s: State, input: Input, err: Option<Error>) {
    Refusable(s, input) ==>
      err.Some? && Cause(err.value) == if input.user in s.accounts then InsufficientBalance else AccountNotFound
  }

  /** Exactly what a call answers when nobody interferes and nothing fails. Only another transaction left open on
      its account, a taken id, or a full version column can keep it from this. */
  predicate CleanAnswer(s: State, c: CallId, input: Input, id: nat, t: State, output: Option<Output>,
                        err: Option<Error>) {
    if input.amount <= 0 then err == Some(Root(BadAmount))
    else if input.key == "" then err == Some(Root(MissingKey))
    else if KeyUsedWithAmount(s, input) then
      && err == None && output.Some? && InLedger(s, RowFor(input, output.value.transactionID))
      && input.user in s.accounts && output.value.balance == s.accounts[input.user].balance
      && output.value.version == s.accounts[input.user].version
    else if KeyUsed(s, input) then err == Some(Root(IdempotencyConflict))
    else if Refusable(s, input) then RefusesFor(s, input, err)
    else
      Quiet(s, input.user) && IdFree(s, id) && s.accounts[input.user].version < MAX_INT64 ==>
        CleanRun(s, c, input, id, t, output, err)
  }

  lemma UnobstructedCanCommit(s: State, c: CallId, input: Input, id: nat)
    requires Reachable(s) && c !in s.calls && input.amount > 0 && input.key != "" && !KeyUsed(s, input)
    requires !Refusable(s, input)
    ensures Quiet(s, input.user) && IdFree(s, id) && s.accounts[input.user].version < MAX_INT64 ==>
              CanCommit(s, c, input, id)
  {
    hide Quiet, IdFree;
    SlotIffUsed(s, input);
    PerformDecides(input.kind, s.accounts[input.user], input.amount);
  }

  lemma CleanInvalid(s: State, c: CallId, input: Input, id: nat, t: State)
    ensures input.amount <= 0 ==> CleanAnswer(s, c, input, id, t, None, Some(Root(BadAmount)))
    ensures input.amount > 0 && input.key == "" ==> CleanAnswer(s, c, input, id, t, None, Some(Root(MissingKey)))
  {
  }

  /** The lookup found `row`, and the answer is the one that its amount asks for. */
  lemma CleanByRow(s: State, c: CallId, input: Input, id: nat, t: State, row: Row, output: Option<Output>,
                   err: Option<Error>)
    requires input.amount > 0 && input.key != "" && SameKey(row, RowFor(input, 0)) && InLedger(s, row)
    requires KeyUsed(s, input) && (row.amount == input.amount <==> KeyUsedWithAmount(s, input))
    requires if row.amount == input.amount
             then err == None && input.user in s.accounts && output == Some(OutputOf(row.id, s.accounts[input.user]))
             else err == Some(Root(IdempotencyConflict))
    ensures CleanAnswer(s, c, input, id, t, output, err)
  {
    hide KeyUsed, KeyUsedWithAmount, InLedger;
    RowOfInput(row, input);
  }

  /** The lookup found nothing. */
  lemma CleanByAttempts(s: State, c: CallId, input: Input, id: nat, t: State, output: Option<Output>,
                        err: Option<Error>)
    requires Reachable(s) && c !in s.calls && input.amount > 0 && input.key != "" && !KeyUsed(s, input)
    requires RefusesFor(s, input, err) && (CanCommit(s, c, input, id) ==> CleanRun(s, c, input, id, t, output, err))
    ensures CleanAnswer(s, c, input, id, t, output, err)
  {
    hide Quiet, IdFree, KeyUsed, CleanRun, CanCommit, Refusable;
    UsedWithAmountIsUsed(s, input);
    if !Refusable(s, input) {
      UnobstructedCanCommit(s, c, input, id);
    }
  }

  lemma RefusalPasses(s: State, t: State, input: Input, err: Option<Error>, later: Option<Error>)
    requires err.Some? ==> later.Some? && Cause(later.value) == Cause(err.value)
    ensures t.accounts == s.accounts && RefusesFor(t, input, err) ==> RefusesFor(s, input, later)
  {
  }

  lemma SameAccountsRefuseAlike(s: State, t: State, input: Input, err: Option<Error>)
    requires t.accounts == s.accounts && RefusesFor(t, input, err)
    ensures RefusesFor(s, input, err)
  {
  }

  lemma LedgerDecidesKeys(s: State, t: State, input: Input)
    requires t.ledger == s.ledger
    ensures KeyUsed(t, input) <==> KeyUsed(s, input)
    ensures KeyUsedWithAmount(t, input) <==> KeyUsedWithAmount(s, input)
    ensures forall row :: InLedger(t, row) <==> InLedger(s, row)
  {
    assert forall u :: Log(t, u) == Log(s, u);
  }

  lemma UsedWithAmountIsUsed(s: State, input: Input)
    ensures KeyUsedWithAmount(s, input) ==> KeyUsed(s, input)
  {
  }

  lemma RowOfInput(row: Row, input: Input)
    requires SameKey(row, RowFor(input, 0))
    ensures row.amount == input.amount ==> row == RowFor(input, row.id)
  {
  }

  lemma LastStageEndsCleanly(s: State, c: CallId, input: Input, id: nat, t: State, output: Output)
    requires AtStage(t, s, c, input, id, LAST_STAGE) && OwesDelete(t, c, input, output)
    ensures Enabled(t, Delete(c)) && CleanRun(s, c, input, id, Next(t, Delete(c)), Some(output), None)
  {
    hide Next;
  }

  lemma InvokeLeads(s: State, c: CallId, input: Input)
    requires Enabled(s, Invoke(c, input))
    ensures var t := Next(s, Invoke(c, input));
            if input.amount <= 0 then Ends(t, c, input, Failed(BadAmount))
            else if input.key == "" then Ends(t, c, input, Failed(MissingKey))
            else At(t, c, input, Looking)
    ensures Next(s, Invoke(c, input)).accounts == s.accounts && Next(s, Invoke(c, input)).ledger == s.ledger
  {
  }

  lemma FreshCallIsEnabled(s: State, c: CallId, input: Input)
    requires c !in s.calls
    ensures Enabled(s, Invoke(c, input))
  {
  }

  lemma BeginLeads(s: State, c: CallId)
    requires c in s.calls && s.calls[c].phase.Looping?
    ensures Enabled(s, Begin(c)) && Enabled(s, BeginFails(c))
    ensures At(Next(s, Begin(c)), c, s.calls[c].input, InTx(s.calls[c].phase.attempt, ToRead))
    ensures Next(s, Begin(c)).calls[c].tx == Open
    ensures Ends(Next(s, BeginFails(c)), c, s.calls[c].input, Failed(Unclassified))
    ensures Next(s, Begin(c)).accounts == s.accounts
  {
  }

  lemma RollbackLeads(s: State, c: CallId)
    requires c in s.calls && s.calls[c].phase.RollingBack?
    ensures Enabled(s, Rollback(c))
    ensures var t, call := Next(s, Rollback(c)), s.calls[c];
            AttemptFailed(t, c, call.input, call.phase.attempt, call.phase.err) && t.calls[c].tx == NoTx
  {
  }

  lemma CommitEnabled(s: State, c: CallId, drawable: set<nat>)
    requires Is(s, c, ToCommit)
    ensures Enabled(s, CommitFails(c)) && (Enabled(s, Commit(c)) <==> s.calls[c].tx.Locked?)
    ensures !s.calls[c].tx.Locked? ==> Hindered(s, CommitFails(c), drawable)
  {
  }

  lemma CommitLeads(s: State, c: CallId)
    requires Reachable(s) && Enabled(s, Commit(c))
    ensures var t, call := Next(s, Commit(c)), s.calls[c];
            var u, after := call.input.user, call.tx.work.after;
            && At(t, c, call.input, Deleting(call.tx.row.id, after))
            && u in t.accounts && t.accounts[u] == after
            && |Log(t, u)| == after.version && Log(t, u)[|Log(t, u)| - 1].row == call.tx.row
  {
    CallFacts(s, c);
  }

  lemma FailedCommitLeads(s: State, c: CallId)
    requires Enabled(s, CommitFails(c))
    ensures var t := Next(s, CommitFails(c));
            Ends(t, c, s.calls[c].input, Failed(Unclassified)) && t.calls[c].tx == s.calls[c].tx
  {
  }

  /** Grant and Redeem: one protocol, two domain operations. */
  class UpdateUsecase {
    const repo: MileageRepository
    const cache: Cache
    const world: World

    constructor (repo: MileageRepository, cache: Cache)
      ensures this.repo == repo && this.cache == cache && this.world == repo.world
    {
      this.repo := repo;
      this.cache := cache;
      this.world := repo.world;
    }

    ghost predicate Valid()
      reads this, world
    {
      repo.world == cache.world == world && world.Valid()
    }

    /** Nobody interferes, nothing fails, and the call is n steps after `start`. */
    ghost predicate Smooth(start: State, c: CallId, input: Input, id: nat, n: nat)
      reads this, world
    {
      world.Calm() && AtStage(world.st, start, c, input, id, n)
    }

    /** In an arbitrary world the answer is the one that the machine records. In a calm one, a call that can commit
        does, at its first attempt, and deletes the cached entry. */
    method Execute(c: CallId, input: Input) returns (output: Option<Output>, err: Option<Error>)
      requires Valid() && c !in world.st.calls
      modifies world
      ensures Valid() && old(world.trace) <= world.trace
      ensures world.IsFair(Session(Caller(c), |old(world.trace)|, false !in old(world.luck)))
      ensures AnswersWith(world.st, c, input, output, err)
      ensures err.Some? && Cause(err.value) == Unclassified ==>
                FailedWithCause(world.trace, world.draws, world.drawable, |old(world.trace)|, c,
                                false !in old(world.luck))
      ensures old(world.Calm()) ==>
                CleanAnswer(old(world.st), c, input, old(NextId(world.ids)), world.st, output, err)
    {
      hide Recorded, Fair, Next, Enabled, CanCommit, AtStage, OwnStep, Hindered, FailedWithCause, Began, CleanAnswer;
      ghost var start, id := world.st, NextId(world.ids);
      world.IsReachable();
      FirstStage(start, c, input, id);
      FreshCallIsEnabled(start, c, input);
      InvokeLeads(start, c, input);
      ghost var session := world.Open(Caller(c));
      ghost var began := world.trace;
      NothingBegan(session, c);
      world.Act(Invoke(c, input), session);
      CleanInvalid(start, c, input, id, world.st);
      if input.amount <= 0 {
        return None, Some(Root(BadAmount));
      }
      if input.key == "" {
        return None, Some(Root(MissingKey));
      }
      BeganEarlier(began, world.trace, session, c);
      output, err := Process(c, input, start, id, session);
    }

    /** The request is well-formed: the idempotency check, and then the replay or the attempts. */
    method Process(c: CallId, input: Input, ghost start: State, ghost id: nat, ghost session: Session)
      returns (output: Option<Output>, err: Option<Error>)
      requires Valid() && world.IsFair(session) && session.me == Caller(c)
      requires Began(world.trace, session, c) && At(world.st, c, input, Looking)
      requires input.amount > 0 && input.key != "" && id == NextId(world.ids)
      requires Reachable(start) && c !in start.calls
      requires world.st.accounts == start.accounts && world.st.ledger == start.ledger
      requires CanCommit(start, c, input, id) ==> AtStage(world.st, start, c, input, id, 1)
      modifies world
      ensures Valid() && world.IsFair(session) && old(world.trace) <= world.trace
      ensures AnswersWith(world.st, c, input, output, err)
      ensures err.Some? && Cause(err.value) == Unclassified ==>
                FailedWithCause(world.trace, world.draws, world.drawable, session.since, c, session.smooth)
      ensures old(world.Calm()) ==> CleanAnswer(start, c, input, id, world.st, output, err)
    {
      hide Recorded, Fair, Next, Enabled, CanCommit, AtStage, CleanRun, OwnStep, Hindered, FailedWithCause, Began;
      hide KeyUsed, KeyUsedWithAmount, InLedger, RefusesFor, CleanAnswer, Reachable;
      ghost var calm, began := world.Calm(), world.trace;
      NextStage(world.st, start, c, input, id, 1);
      var existing;
      existing, err := repo.FindTransactionByIdempotencyKey(c, input, session);
      if err.Some? {
        CauseKnown(began, session, c);
        return None, Some(Wrap("check idempotency", err.value));
      }
      if calm {
        LedgerDecidesKeys(start, world.st, input);
      }
      if existing.Some? {
        output, err := Replay(c, input, existing.value, session);
        CauseKnown(began, session, c);
        if calm {
          CleanByRow(start, c, input, id, world.st, existing.value, output, err);
        }
        return;
      }
      ghost var looked := world.st;
      BeganEarlier(began, world.trace, session, c);
      output, err := Proceed(c, input, start, id, session);
      if calm {
        SameAccountsRefuseAlike(start, looked, input, err);
        CleanByAttempts(start, c, input, id, world.st, output, err);
      }
    }

    /** The key is new: the retry loop, and after a commit the invalidation. */
    method Proceed(c: CallId, input: Input, ghost start: State, ghost id: nat, ghost session: Session)
      returns (output: Option<Output>, err: Option<Error>)
      requires Valid() && world.IsFair(session) && session.me == Caller(c)
      requires Began(world.trace, session, c) && At(world.st, c, input, Looping(0))
      modifies world
      ensures Valid() && world.IsFair(session) && old(world.trace) <= world.trace
      ensures AnswersWith(world.st, c, input, output, err)
      ensures err.Some? && Cause(err.value) == Unclassified ==>
                FailedWithCause(world.trace, world.draws, world.drawable, session.since, c, session.smooth)
      ensures old(world.Calm()) ==> RefusesFor(old(world.st), input, err)
      ensures old(Smooth(start, c, input, id, 2) && NextId(world.ids) == id) ==>
                CleanRun(start, c, input, id, world.st, output, err)
    {
      hide Recorded, Fair, Next, Enabled, CanCommit, AtStage, CleanRun, OwnStep, Hindered, FailedWithCause, Began;
      hide RefusesFor, Tally, Attempts;
      ghost var smooth := Smooth(start, c, input, id, 2) && NextId(world.ids) == id;
      output, err := Retry(c, input, start, id, session);
      if err.Some? {
        return None, err;
      }
      if smooth {
        LastStageEndsCleanly(start, c, input, id, world.st, output.value);
      }
      var account := Account(output.value.balance, output.value.version);
      var _ := cache.InvalidateBalance(c, input, output.value.transactionID, account, session);
    }

    lemma NothingBegan(session: Session, c: CallId)
      requires Valid() && session.since == |world.trace| && c !in world.st.calls
      ensures Began(world.trace, session, c)
    {
      StateAtEnd(world.trace, world.st);
    }

    /** An unclassified error of this session is known to have a cause. */
    lemma CauseKnown(began: seq<Step>, session: Session, c: CallId)
      requires Valid() && world.IsFair(session) && session.me == Caller(c)
      requires Began(began, session, c) && began <= world.trace
      ensures c in world.st.calls && StandsRefused(world.st.calls[c], Unclassified) ==>
                FailedWithCause(world.trace, world.draws, world.drawable, session.since, c, session.smooth)
    {
      hide Recorded, Fair, FailedWithCause, Began;
      BeganEarlier(began, world.trace, session, c);
      if c in world.st.calls && StandsRefused(world.st.calls[c], Unclassified) {
        UnclassifiedHasCause(world.st, world.trace, world.draws, world.ids, world.drawable, world.luck, world.pending,
                             session, c);
      }
    }

    method Replay(c: CallId, input: Input, existing: Row, ghost session: Session)
      returns (output: Option<Output>, err: Option<Error>)
      requires Valid() && world.IsFair(session) && session.me == Caller(c)
      requires c in world.st.calls && world.st.calls[c].input == input
      requires if existing.amount == input.amount
               then world.st.calls[c].phase.Replaying? && world.st.calls[c].phase.existing == existing
               else Ends(world.st, c, input, Failed(IdempotencyConflict))
      modifies world
      ensures Valid() && world.IsFair(session) && old(world.trace) <= world.trace
      ensures AnswersWith(world.st, c, input, output, err)
      ensures err == None ==> existing.amount == input.amount && output.value.transactionID == existing.id
      ensures existing.amount == input.amount ==> (err.Some? <==> !Fortune(old(world.luck)))
      ensures old(world.Calm()) && existing.amount == input.amount ==>
                && err == None && input.user in old(world.st.accounts)
                && output == Some(OutputOf(existing.id, old(world.st.accounts)[input.user]))
      ensures existing.amount != input.amount ==> err == Some(Root(IdempotencyConflict)) && world.st == old(world.st)
    {
      hide Recorded, Fair, Next, Enabled;
      if existing.amount == input.amount {
        var account;
        account, err := repo.GetAccountForReplay(c, input, existing, session);
        if err.Some? {
          return None, Some(Wrap("get account for idempotent response", err.value));
        }
        return Some(OutputOf(existing.id, account.value)), None;
      }
      return None, Some(Root(IdempotencyConflict));
    }

    /** The retry loop: at most three attempts, and a further one only after a conflict. */
    method Retry(c: CallId, input: Input, ghost start: State, ghost id: nat, ghost session: Session)
      returns (output: Option<Output>, err: Option<Error>)
      requires Valid() && world.IsFair(session) && session.me == Caller(c)
      requires Began(world.trace, session, c)
      requires At(world.st, c, input, Looping(0))
      modifies world
      ensures Valid() && world.IsFair(session) && old(world.trace) <= world.trace
      ensures old(Smooth(start, c, input, id, 2) && NextId(world.ids) == id) ==>
                err == None && Smooth(start, c, input, id, 7)
      ensures old(world.Calm()) ==> RefusesFor(old(world.st), input, err)
      ensures err.Some? && Cause(err.value) == Unclassified ==>
                FailedWithCause(world.trace, world.draws, world.drawable, session.since, c, session.smooth)
      ensures c in world.st.calls && Tally(Attempts(world.trace, c), world.st.calls[c])
      ensures match err
              case None => output.Some? && OwesDelete(world.st, c, input, output.value)
              case Some(e) => Ends(world.st, c, input, Failed(Cause(e)))
    {
      hide Fair, Inv, RunFrom, Tally, Attempts, FailedWithCause, Began, Refusable;
      ghost var began := world.trace;
      ghost var smooth := Smooth(start, c, input, id, 2) && NextId(world.ids) == id;
      output, err := None, None;
      var attempt := 0;
      while attempt < MAX_RETRIES
        invariant Valid() && world.IsFair(session) && old(world.trace) <= world.trace && 0 <= attempt <= MAX_RETRIES
        invariant attempt > 0 && old(world.Calm()) ==> !Refusable(old(world.st), input)
        invariant attempt > 0 ==> !smooth && c in world.st.calls && Tally(Attempts(world.trace, c), world.st.calls[c])
        invariant attempt == 0 ==>
                    world.st == old(world.st) && world.ids == old(world.ids) && world.Calm() == old(world.Calm())
        invariant attempt < MAX_RETRIES ==> At(world.st, c, input, Looping(attempt))
        invariant attempt == MAX_RETRIES ==> err.Some? && Ends(world.st, c, input, Failed(Cause(err.value)))
      {
        output, err := RunInTx(c, input, attempt, start, id, session);
        AttemptsFollowConflicts(world.trace, world.st, c);
        CauseKnown(began, session, c);
        if err == None {
          return;
        }
        if Cause(err.value) != OptimisticLock {
          return None, err;
        }
        attempt := attempt + 1;
      }
      CauseKnown(began, session, c);
      return None, Some(Wrap("failed after 3 retries", err.value));
    }

    /** Begin, the body, and then commit or rollback; every wrapping keeps the original cause. The
        captured output survives a failed commit and is then ignored by the caller. */
    method RunInTx(c: CallId, input: Input, a: nat, ghost start: State, ghost id: nat, ghost session: Session)
      returns (output: Option<Output>, err: Option<Error>)
      requires Valid() && world.IsFair(session) && session.me == Caller(c)
      requires At(world.st, c, input, Looping(a))
      modifies world
      ensures Valid() && world.IsFair(session) && old(world.trace) <= world.trace
      ensures old(Smooth(start, c, input, id, 2) && NextId(world.ids) == id) ==>
                err == None && Smooth(start, c, input, id, 7)
      ensures old(world.Calm()) ==> RefusesFor(old(world.st), input, err)
      ensures match err
              case None => output.Some? && OwesDelete(world.st, c, input, output.value)
              case Some(e) => AttemptFailed(world.st, c, input, a, Cause(e))
    {
      hide Recorded, Fair, Next, Enabled, AtStage, CanCommit, Stage, OwnStep, Hindered, RefusesFor;
      ghost var before := world.st;
      NextStage(world.st, start, c, input, id, 2);
      err := BeginTx(c, input, a, session);
      if err.Some? {
        return None, err;
      }
      ghost var begun := world.st;
      output, err := ExecuteInTx(c, input, a, start, id, session);
      if err.Some? {
        var rollbackErr := EndWithRollback(c, input, a, Cause(err.value), session);
        var wrapped := if rollbackErr then Some(Wrap("rollback failed", err.value)) else err;
        RefusalPasses(before, begun, input, err, wrapped);
        return None, wrapped;
      }
      NextStage(world.st, start, c, input, id, 6);
      err := EndWithCommit(c, input, a, output.value, session);
      RefusalPasses(before, begun, input, None, err);
    }

    method BeginTx(c: CallId, input: Input, a: nat, ghost session: Session) returns (err: Option<Error>)
      requires Valid() && world.IsFair(session) && session.me == Caller(c)
      requires At(world.st, c, input, Looping(a))
      modifies world
      ensures Valid() && world.IsFair(session) && old(world.trace) <= world.trace
      ensures world.others == Rest(old(world.others)) && world.luck == Rest(old(world.luck))
      ensures world.ids == old(world.ids) && (old(world.Calm()) ==> world.Calm())
      ensures old(world.Calm() && Enabled(world.st, Begin(c))) ==> world.st == Next(old(world.st), Begin(c))
      ensures err.Some? <==> !Fortune(old(world.luck))
      ensures old(world.Calm()) ==> err == None && world.st.accounts == old(world.st.accounts)
      ensures match err
              case None => At(world.st, c, input, InTx(a, ToRead)) && world.st.calls[c].tx == Open
              case Some(e) => Cause(e) == Unclassified && Ends(world.st, c, input, Failed(Unclassified))
    {
      hide Recorded, Fair, Next, Enabled, OwnStep, Hindered;
      world.Interfere(session, Caller(c));
      var ok := world.Lucky(session);
      BeginLeads(world.st, c);
      if !ok {
        world.Act(BeginFails(c), session);
        return Some(Failure("begin tx"));
      }
      world.Act(Begin(c), session);
      return None;
    }

    /** Rolls back. Whether the rollback reports an error makes no difference to the cause. */
    method EndWithRollback(c: CallId, input: Input, a: nat, e: Err, ghost session: Session) returns (failed: bool)
      requires Valid() && world.IsFair(session) && session.me == Caller(c)
      requires At(world.st, c, input, RollingBack(a, e))
      modifies world
      ensures Valid() && world.IsFair(session) && old(world.trace) <= world.trace
      ensures world.others == Rest(old(world.others)) && world.luck == Rest(old(world.luck))
      ensures world.ids == old(world.ids) && (old(world.Calm()) ==> world.Calm())
      ensures old(world.Calm() && Enabled(world.st, Rollback(c))) ==> world.st == Next(old(world.st), Rollback(c))
      ensures failed <==> !Fortune(old(world.luck))
      ensures AttemptFailed(world.st, c, input, a, e) && world.st.calls[c].tx == NoTx
    {
      hide Recorded, Fair, Next, Enabled, OwnStep, Hindered, AttemptFailed;
      world.Interfere(session, Caller(c));
      var ok := world.Lucky(session);
      RollbackLeads(world.st, c);
      world.Act(Rollback(c), session);
      return !ok;
    }

    method EndWithCommit(c: CallId, input: Input, a: nat, output: Output, ghost session: Session)
      returns (err: Option<Error>)
      requires Valid() && world.IsFair(session) && session.me == Caller(c)
      requires At(world.st, c, input, InTx(a, ToCommit))
      requires world.st.calls[c].tx.Locked? ==>
                 world.st.calls[c].tx.row == RowFor(input, output.transactionID) &&
                 world.st.calls[c].tx.work.after == Account(output.balance, output.version)
      modifies world
      ensures Valid() && world.IsFair(session) && old(world.trace) <= world.trace
      ensures world.others == Rest(old(world.others)) && world.luck == Rest(old(world.luck))
      ensures world.ids == old(world.ids) && (old(world.Calm()) ==> world.Calm())
      ensures old(world.Calm() && Enabled(world.st, Commit(c))) ==> world.st == Next(old(world.st), Commit(c))
      ensures err.Some? && Fortune(old(world.luck)) ==> c in world.st.calls && !world.st.calls[c].tx.Locked?
      ensures match err
              case None =>
                var account, log := Account(output.balance, output.version), Log(world.st, input.user);
                && At(world.st, c, input, Deleting(output.transactionID, account))
                && input.user in world.st.accounts && world.st.accounts[input.user] == account
                && |log| == output.version && log[|log| - 1].row == RowFor(input, output.transactionID)
              case Some(e) => Cause(e) == Unclassified && Ends(world.st, c, input, Failed(Unclassified))
    {
      hide Recorded, Fair, Next, Enabled, OwnStep, Hindered;
      world.Interfere(session, Caller(c));
      var ok := world.Lucky(session);
      CommitEnabled(world.st, c, world.drawable);
      if !ok || !world.st.calls[c].tx.Locked? {
        FailedCommitLeads(world.st, c);
        world.Act(CommitFails(c), session);
        return Some(Failure("commit tx"));
      }
      world.IsReachable();
      CommitLeads(world.st, c);
      world.Act(Commit(c), session);
      return None;
    }

    /** The body of the transaction: read, domain step, insert, conditional update. */
    method ExecuteInTx(c: CallId, input: Input, a: nat, ghost start: State, ghost drawn: nat, ghost session: Session)
      returns (output: Option<Output>, err: Option<Error>)
      requires Valid() && world.IsFair(session) && session.me == Caller(c)
      requires At(world.st, c, input, InTx(a, ToRead))
      modifies world
      ensures Valid() && world.IsFair(session) && old(world.trace) <= world.trace
      ensures old(Smooth(start, c, input, drawn, 3) && NextId(world.ids) == drawn) ==>
                err == None && Smooth(start, c, input, drawn, 6)
      ensures old(world.Calm() && world.st.calls[c].tx == Open) ==> RefusesFor(old(world.st), input, err)
      ensures err == None ==> output.Some? && output.value.transactionID == old(NextId(world.ids))
      ensures match err
              case Some(e) => At(world.st, c, input, RollingBack(a, Cause(e)))
              case None =>
                && output.Some? && At(world.st, c, input, InTx(a, ToCommit)) && world.st.calls[c].tx.Locked?
                && world.st.calls[c].tx.row == RowFor(input, output.value.transactionID)
                && world.st.calls[c].tx.work.after == Account(output.value.balance, output.value.version)
    {
      hide Recorded, Fair, Next, Enabled, AtStage, CanCommit, Stage, Perform, Fortune, Rest, Hindered;
      hide KeyUsed, KeyHeld, IdFree, RowHeld, VersionMatches;
      NextStage(world.st, start, c, input, drawn, 3);
      var read;
      read, err := repo.GetAccountInTx(c, input, a, session);
      if err.Some? {
        return None, Some(Wrap("get account", err.value));
      }
      if read == None {
        return None, Some(Root(AccountNotFound));
      }
      var account := new MileageAccount(input.user, read.value);
      var expectedVersion := account.version;
      PerformDecides(input.kind, read.value, input.amount);
      var refused := DomainStep(account, input);
      if refused.Some? {
        return None, Some(Root(refused.value));
      }
      output, err := Record(c, input, a, account, expectedVersion, read.value, start, drawn, session);
    }

    /** Its second half: the transaction record and the conditional update. */
    method Record(c: CallId, input: Input, a: nat, account: MileageAccount, expectedVersion: int64,
                  ghost before: Account, ghost start: State, ghost drawn: nat, ghost session: Session)
      returns (output: Option<Output>, err: Option<Error>)
      requires Valid() && world.IsFair(session) && session.me == Caller(c)
      requires At(world.st, c, input, InTx(a, ToInsert)) && WorksOn(world.st.calls[c].tx, before, account.Value())
      requires expectedVersion == before.version
      modifies world
      ensures Valid() && world.IsFair(session) && old(world.trace) <= world.trace
      ensures old(Smooth(start, c, input, drawn, 4) && NextId(world.ids) == drawn) ==>
                err == None && Smooth(start, c, input, drawn, 6)
      ensures err == None ==> output.Some? && output.value.transactionID == old(NextId(world.ids))
      ensures match err
              case Some(e) => At(world.st, c, input, RollingBack(a, Cause(e)))
              case None =>
                && output.Some? && At(world.st, c, input, InTx(a, ToCommit)) && world.st.calls[c].tx.Locked?
                && world.st.calls[c].tx.row == RowFor(input, output.value.transactionID)
                && world.st.calls[c].tx.work.after == Account(output.value.balance, output.value.version)
    {
      hide Recorded, Fair, Next, Enabled, AtStage, CanCommit, Stage, Fortune, Rest, Hindered, OwnStep;
      hide KeyUsed, KeyHeld, IdFree, RowHeld, VersionMatches;
      ghost var after := account.Value();
      var id := world.NewId();
      var row := RowFor(input, id);
      NextStage(world.st, start, c, input, drawn, 4);
      err := repo.InsertTransaction(c, input, a, row, before, after, session);
      if err.Some? {
        return None, if Cause(err.value) == AlreadyProcessed then err else Some(Wrap("insert transaction", err.value));
      }
      NextStage(world.st, start, c, input, drawn, 5);
      err := repo.UpdateBalance(c, input, a, account.balance, expectedVersion, row, before, after, session);
      if err.Some? {
        return None, err;
      }
      return Some(Output(id, account.balance, account.version)), None;
    }

    /** Here alone the two use cases differ. */
    method DomainStep(account: MileageAccount, input: Input) returns (refused: Option<Err>)
      modifies account
      ensures match Perform(input.kind, old(account.Value()), input.amount)
              case Ok(a) => refused == None && account.Value() == a
              case Error(e) => refused == Some(e) && account.Value() == old(account.Value())
    {
      if input.kind == Grant {
        refused := account.Grant(input.amount);
      } else {
        refused := account.Redeem(input.amount);
      }
    }
  }

  datatype BalanceOutput = BalanceOutput(userID: string, balance: int64, version: int64)

  lemma AskLeads(s: State, r: ReaderId, user: string)
    requires r !in s.readers
    ensures Enabled(s, Ask(r, user))
    ensures var t := Next(s, Ask(r, user)); SameData(s, t) && r in t.readers && t.readers[r] == Checking(user)
  {
  }

  /** An undisturbed query: a hit is answered from the cache; a miss from the database, and cached; without an
      account it is refused. */
  predicate CleanQuery(s: State, user: string, t: State, output: Option<BalanceOutput>, err: Option<Error>) {
    if CacheHit(s, user) then
      && err == None && t.cache == s.cache
      && output == Some(BalanceOutput(user, s.cache[user].account.balance, s.cache[user].account.version))
    else CleanMiss(s, user, t, output, err)
  }

  predicate CleanMiss(s: State, user: string, t: State, output: Option<BalanceOutput>, err: Option<Error>) {
    if user in s.accounts then
      && err == None && CacheHit(t, user) && t.cache[user].account == s.accounts[user]
      && output == Some(BalanceOutput(user, s.accounts[user].balance, s.accounts[user].version))
    else
      && err.Some? && Cause(err.value) == AccountNotFound && output == None && t.cache == s.cache
  }

  /** The answer is the committed account of one moment of the query. */
  ghost predicate ReadFrom(trace: seq<Step>, from: nat, user: string, output: BalanceOutput) {
    exists n :: from <= n && HeldAt(trace, n, user, Account(output.balance, output.version))
  }

  /** The answer is the unexpired entry of one moment of the query. */
  ghost predicate CachedFrom(trace: seq<Step>, from: nat, user: string, output: BalanceOutput) {
    exists n :: from <= n && CachedAt(trace, n, user, Account(output.balance, output.version))
  }

  ghost predicate MissingFrom(trace: seq<Step>, from: nat, user: string) {
    exists n :: from <= n && MissingAt(trace, n, user)
  }

  class BalanceUsecase {
    const repo: MileageRepository
    const cache: Cache
    const world: World

    constructor (repo: MileageRepository, cache: Cache)
      ensures this.repo == repo && this.cache == cache && this.world == repo.world
    {
      this.repo := repo;
      this.cache := cache;
      this.world := repo.world;
    }

    ghost predicate Valid()
      reads this, world
    {
      repo.world == cache.world == world && world.Valid()
    }

    /** Read-through: the cache first, then the database, then fill the cache. A failed GET costs nothing but the
        cache: the answer then comes from the database, and it fails only if the database read does. */
    method Execute(r: ReaderId, user: string) returns (output: Option<BalanceOutput>, err: Option<Error>)
      requires Valid() && r !in world.st.readers
      modifies world
      ensures Valid() && old(world.trace) <= world.trace && r in world.st.readers
      ensures world.IsFair(Session(Asker(r), |old(world.trace)|, false !in old(world.luck)))
      ensures match err
              case None =>
                output.Some? &&
                ((Fortune(Rest(old(world.luck))) &&
                  ReadFrom(world.trace, |old(world.trace)|, user, output.value)) ||
                 (Fortune(old(world.luck)) && CachedFrom(world.trace, |old(world.trace)|, user, output.value)))
              case Some(e) =>
                if Fortune(Rest(old(world.luck))) then
                  Cause(e) == AccountNotFound && MissingFrom(world.trace, |old(world.trace)|, user)
                else Cause(e) == Unclassified
      ensures old(world.Calm()) ==> CleanQuery(old(world.st), user, world.st, output, err)
      ensures match err
              case None =>
                && output.Some? && output.value.userID == user
                && world.st.readers[r] == Answered(user, Account(output.value.balance, output.value.version))
                && user in world.st.accounts
                && Historical(Log(world.st, user), Account(output.value.balance, output.value.version))
              case Some(e) => output == None && world.st.readers[r] == Refused(user, Cause(e))
    {
      hide Recorded, Fair, Next, Enabled, OwnStep, Hindered, Historical, HeldAt, CachedAt, MissingAt;
      AskLeads(world.st, r, user);
      ghost var session := world.Open(Asker(r));
      world.Act(Ask(r, user), session);
      var cached := cache.GetBalance(r, user, session);
      MomentNow(world.st, world.trace, world.draws, world.ids, world.drawable, user);
      if cached.Some? {
        AnsweredPairIsHistorical(world.st, r) by { world.IsReachable(); }
        return Some(BalanceOutput(user, cached.value.balance, cached.value.version)), None;
      }
      output, err := ReadThrough(r, user, session);
      if err == None {
        AnsweredPairIsHistorical(world.st, r) by { world.IsReachable(); }
      }
    }

    /** The miss: read the database, and fill the cache. */
    method ReadThrough(r: ReaderId, user: string, ghost session: Session)
      returns (output: Option<BalanceOutput>, err: Option<Error>)
      requires Valid() && world.IsFair(session) && session.me == Asker(r)
      requires r in world.st.readers && world.st.readers[r] == Missed(user)
      modifies world
      ensures Valid() && world.IsFair(session) && old(world.trace) <= world.trace && r in world.st.readers
      ensures match err
              case None =>
                && output.Some? && output.value.userID == user && Fortune(old(world.luck))
                && ReadFrom(world.trace, |old(world.trace)|, user, output.value)
                && world.st.readers[r] == Answered(user, Account(output.value.balance, output.value.version))
              case Some(e) =>
                && output == None && world.st.readers[r] == Refused(user, Cause(e))
                && if Fortune(old(world.luck)) then
                     Cause(e) == AccountNotFound && MissingFrom(world.trace, |old(world.trace)|, user)
                   else Cause(e) == Unclassified
      ensures old(world.Calm()) ==> CleanMiss(old(world.st), user, world.st, output, err)
    {
      hide Recorded, Fair, Next, Enabled, OwnStep, Hindered, HeldAt, CachedAt, MissingAt;
      var account;
      account, err := repo.GetAccountForQuery(r, user, session);
      if err.Some? {
        return None, Some(Wrap("get account", err.value));
      }
      MomentNow(world.st, world.trace, world.draws, world.ids, world.drawable, user);
      if account == None {
        return None, Some(Root(AccountNotFound));
      }
      ghost var read := world.trace;
      var _ := cache.SetBalance(r, user, account.value, session);
      MomentsStay(read, world.trace, |read|, user, account.value);
      return Some(BalanceOutput(user, account.value.balance, account.value.version)), None;
    }
  }

  lemma AnsweredPairIsHistorical(s: State, r: ReaderId)
    requires Reachable(s) && r in s.readers && s.readers[r].Answered?
    ensures s.readers[r].user in s.accounts && Historical(Log(s, s.readers[r].user), s.readers[r].account)
  {
    ReachesItself(s);
    AnswerIsAuthentic(s, r, s);
  }
}
