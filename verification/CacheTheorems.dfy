/** What the balance cache guarantees, and exactly when it is stale. */
module CacheTheorems {
  import opened Domain
  import opened Machine
  import opened Invariant
  import opened Preservation
  import opened Runs
  import opened LedgerTheorems

  // ---- Authenticity ------------------------------------------------------------------------------

  lemma CacheFacts(s: State, u: string)
    requires Reachable(s) && u in s.cache
    ensures CacheOk(s, u, s.cache[u]) && LogOk(s, u)
  {
    ReachableInv(s);
  }

  /** Every cached pair is one that the account really had, at the moment the filling reader read it;
      it is never ahead of the database, and at equal versions it is the account itself. */
  lemma CachedPairIsAuthentic(s: State, u: string)
    requires Reachable(s) && u in s.cache
    ensures u in s.accounts
    ensures var e, log := s.cache[u], Log(s, u);
            && 0 <= e.account.version <= s.accounts[u].version == |log|
            && Replay(log[..e.account.version]) == Ok(e.account)
            && CurrentAt(log, e.account, e.readAt)
            && (e.account.version == s.accounts[u].version <==> e.account == s.accounts[u])
  {
    CacheFacts(s, u);
    CacheOkUnfolds(s, u, s.cache[u]);
    if s.cache[u].account.version == s.accounts[u].version {
      CurrentVersionIsAccount(s, u, s.cache[u].account);
    }
  }

  lemma CacheOkUnfolds(s: State, u: string, e: CacheEntry)
    requires CacheOk(s, u, e) && LogOk(s, u)
    ensures u in s.accounts && s.accounts[u].version == |Log(s, u)| == |Fates(s, u)|
    ensures CurrentAt(Log(s, u), e.account, e.readAt)
    ensures e.readAt < e.setAt < s.now && e.setClock <= s.clock
    ensures forall k :: e.account.version <= k < |Log(s, u)| && Fates(s, u)[k].Deleted? ==> Fates(s, u)[k].at < e.setAt
  {
  }

  /** Whatever a balance query answers, from the cache or from the database, is a pair that the
      account really had, no newer than the database; and it stays in the history forever. */
  lemma AnswerIsAuthentic(s: State, r: ReaderId, t: State)
    requires Reachable(s) && r in s.readers && s.readers[r].Answered? && Reaches(s, t)
    ensures var Answered(u, a) := s.readers[r];
            && u in s.accounts && 0 <= a.version <= s.accounts[u].version == |Log(s, u)|
            && Replay(Log(s, u)[..a.version]) == Ok(a)
            && a.version <= |Log(t, u)| && Replay(Log(t, u)[..a.version]) == Ok(a)
  {
    var u := s.readers[r].user;
    assert ReaderOk(s, s.readers[r]) by { ReachableInv(s); }
    LogFacts(s, u);
    ReachesGrows(s, t);
    assert Extends(Log(s, u), Log(t, u), s.now);
    HistoricalStable(Log(s, u), Log(t, u), s.readers[r].account);
  }

  // ---- Staleness ------------------------------------------------------------------------------------

  predicate Stale(s: State, u: string) {
    u in s.cache && u in s.accounts && s.cache[u].account.version < s.accounts[u].version
  }

  /** Row k became visible after the database read behind the cached pair. */
  predicate Unseen(s: State, u: string, k: int) {
    u in s.cache && 0 <= k < |Log(s, u)| && k < |Fates(s, u)| && s.cache[u].readAt < Log(s, u)[k].committedAt
  }

  /** The writer of row k is between its commit and its DEL. */
  predicate DeleteStillOwed(s: State, u: string, k: int) {
    && Unseen(s, u, k) && Fates(s, u)[k].Owed?
    && Log(s, u)[k].writer in s.calls && s.calls[Log(s, u)[k].writer].phase.Deleting?
  }

  /** Since the entry was set, the DEL of row k failed, its writer died before the DEL, or the row was
      committed without its writer being told. */
  predicate DeleteLostSinceSet(s: State, u: string, k: int) {
    && Unseen(s, u, k)
    && (var f := Fates(s, u)[k]; (f.DeleteFailed? || f.WriterDied? || f.Unacknowledged?) && s.cache[u].setAt <= f.at)
  }

  /** A slow reader: it read before row k was committed and set the entry only after the invalidation that
      row k owed was over. */
  predicate SetAfterInvalidation(s: State, u: string, k: int) {
    && Unseen(s, u, k)
    && (var f := Fates(s, u)[k]; !f.Owed? && Log(s, u)[k].committedAt <= f.at < s.cache[u].setAt)
  }

  /** A row is missing from the cached pair exactly if it was committed after the filling read; and
      then exactly one of three things happened to its invalidation. In particular a DEL that
      succeeds after the entry was set removes the entry. */
  lemma UnseenRowHasOneCause(s: State, u: string, k: nat)
    requires Reachable(s) && u in s.cache && k < |Log(s, u)|
    ensures Unseen(s, u, k) <==> s.cache[u].account.version <= k
    ensures Unseen(s, u, k) <==>
            DeleteStillOwed(s, u, k) || DeleteLostSinceSet(s, u, k) || SetAfterInvalidation(s, u, k)
    ensures !(DeleteStillOwed(s, u, k) && DeleteLostSinceSet(s, u, k))
    ensures !(DeleteStillOwed(s, u, k) && SetAfterInvalidation(s, u, k))
    ensures !(DeleteLostSinceSet(s, u, k) && SetAfterInvalidation(s, u, k))
  {
    CacheFacts(s, u);
    CacheOkUnfolds(s, u, s.cache[u]);
    assert FateOk(s, Log(s, u)[k], Fates(s, u)[k]);
  }

  /** Staleness characterisation: the cached version is below the database version if and only if some
      row's invalidation is still owed, was lost since the entry was set, or was over before a slow reader
      set the entry. No other run makes the cache stale. */
  lemma StaleIffCause(s: State, u: string)
    requires Reachable(s) && u in s.cache
    ensures Stale(s, u) <==>
            exists k :: DeleteStillOwed(s, u, k) || DeleteLostSinceSet(s, u, k) || SetAfterInvalidation(s, u, k)
  {
    CachedPairIsAuthentic(s, u);
    LogFacts(s, u);
    if Stale(s, u) {
      var k := s.cache[u].account.version;
      UnseenRowHasOneCause(s, u, k);
      assert DeleteStillOwed(s, u, k) || DeleteLostSinceSet(s, u, k) || SetAfterInvalidation(s, u, k);
    }
    if k :| DeleteStillOwed(s, u, k) || DeleteLostSinceSet(s, u, k) || SetAfterInvalidation(s, u, k) {
      UnseenRowHasOneCause(s, u, k);
    }
  }

  // ---- Sequential runs ----------------------------------------------------------------------------------

  predicate Busy(call: Call) {
    !call.phase.Done?
  }

  predicate Asking(reader: Reader) {
    !reader.Answered? && !reader.Refused?
  }

  ghost predicate Idle(s: State) {
    && (forall c :: c in s.calls ==> !Busy(s.calls[c]))
    && (forall r :: r in s.readers ==> !Asking(s.readers[r]))
  }

  /** Use-case calls run one after the other, every DEL succeeds, and a failed commit has not been
      applied. Cache GETs and SETs may fail, entries may expire or be evicted, attempts may abort. */
  ghost predicate Sequential(s: State, step: Step) {
    && (step.Invoke? || step.Ask? ==> Idle(s))
    && !step.DeleteFails?
    && (step.CommitFails? ==> step.c in s.calls && s.calls[step.c].tx == NoTx)
    && (step.Die? ==> step.c in s.calls && !s.calls[step.c].tx.Locked? && !s.calls[step.c].phase.Deleting?)
  }

  ghost predicate SequentialRun(steps: seq<Step>, t: State)
    decreases |steps|
  {
    if |steps| == 0 then t == START
    else
      var last := steps[|steps| - 1];
      exists p ::
        SequentialRun(steps[..|steps| - 1], p) && Enabled(p, last) && Sequential(p, last) && t == Next(p, last)
  }

  ghost predicate OneAtATime(s: State) {
    && (forall c, d :: c in s.calls && d in s.calls && Busy(s.calls[c]) && Busy(s.calls[d]) ==> c == d)
    && (forall r, q :: r in s.readers && q in s.readers && Asking(s.readers[r]) && Asking(s.readers[q]) ==> r == q)
    && (forall c, r :: c in s.calls && r in s.readers ==> !(Busy(s.calls[c]) && Asking(s.readers[r])))
  }

  /** No commit is pending behind a client's back. */
  predicate NoneInDoubt(s: State) {
    forall c :: c in s.calls && s.calls[c].phase.Done? ==> !s.calls[c].tx.Locked?
  }

  ghost predicate AboutToDelete(s: State, u: string) {
    exists c :: c in s.calls && s.calls[c].phase.Deleting? && s.calls[c].input.user == u
  }

  /** The cache agrees with the database, unless the running call is about to delete the entry; and a
      reader that holds a pair holds the current one. */
  ghost predicate CacheAgrees(s: State) {
    && (forall u :: u in s.cache ==> u in s.accounts && (s.cache[u].account == s.accounts[u] || AboutToDelete(s, u)))
    && (forall r :: r in s.readers && s.readers[r].Holding? ==>
          s.readers[r].user in s.accounts && s.readers[r].account == s.accounts[s.readers[r].user])
  }

  ghost predicate Coherent(s: State) {
    OneAtATime(s) && NoneInDoubt(s) && CacheAgrees(s)
  }

  /** The call in `t` is settled if it was, and stands before its DEL if it did. */
  predicate StaysSettled(s: State, t: State, c: CallId) {
    && c in t.calls
    && (c in s.calls && Busy(t.calls[c]) ==> Busy(s.calls[c]))
    && (c in s.calls ==> t.calls[c].input == s.calls[c].input)
    && (t.calls[c].phase.Deleting? <==> c in s.calls && s.calls[c].phase.Deleting?)
    && (t.calls[c].phase.Done? ==> !t.calls[c].tx.Locked?)
  }

  lemma LookupStepEffect(s: State, step: Step)
    requires Enabled(s, step) && LookupStep(step)
    requires step.c in s.calls ==> PhaseOk(s, step.c, s.calls[step.c])
    ensures StaysSettled(s, Next(s, step), step.c) && (step.Invoke? <==> step.c !in s.calls)
  {
    hide OutcomeOk, OwnRow, Log, SlotOf;
  }

  lemma AttemptStepEffect(s: State, step: Step)
    requires Enabled(s, step) && AttemptStep(step)
    requires step.CommitFails? ==> s.calls[step.c].tx == NoTx
    requires step.c in s.calls ==>
               PhaseOk(s, step.c, s.calls[step.c]) && (s.calls[step.c].phase.Done? ==> !s.calls[step.c].tx.Locked?)
    ensures step.c in s.calls && StaysSettled(s, Next(s, step), step.c)
  {
    hide OutcomeOk, OwnRow, Log, SlotOf, Perform, KeyHeld, IdFree, RowHeld, VersionMatches;
  }

  lemma CallStepKeepsCoherent(s: State, step: Step)
    requires Coherent(s) && Enabled(s, step) && Sequential(s, step) && CallStep(step)
    requires step.c in s.calls ==> CallOk(s, step.c, s.calls[step.c])
    ensures Coherent(Next(s, step))
  {
    hide Enabled, Next, PhaseOk;
    CallStepMoves(s, step);
    if LookupStep(step) {
      LookupStepEffect(s, step);
    } else {
      AttemptStepEffect(s, step);
    }
    MoveKeepsCoherent(s, step.c, Next(s, step).calls[step.c]);
  }

  lemma MoveKeepsCoherent(s: State, c: CallId, call: Call)
    requires Coherent(s)
    requires if c in s.calls then (Busy(call) ==> Busy(s.calls[c])) && call.input == s.calls[c].input else Idle(s)
    requires call.phase.Deleting? <==> c in s.calls && s.calls[c].phase.Deleting?
    requires call.phase.Done? ==> !call.tx.Locked?
    ensures Coherent(Move(s, c, call))
  {
    var t := Move(s, c, call);
    forall u | u in t.cache ensures u in t.accounts && (t.cache[u].account == t.accounts[u] || AboutToDelete(t, u)) {
      if s.cache[u].account != s.accounts[u] {
        var d :| d in s.calls && s.calls[d].phase.Deleting? && s.calls[d].input.user == u;
        assert t.calls[d].phase.Deleting? && t.calls[d].input.user == u;
      }
    }
  }

  /** The running call commits: its own entry may now disagree, and it is about to delete it. */
  lemma CommitKeepsCoherent(s: State, c: CallId)
    requires Coherent(s) && Enabled(s, Commit(c))
    ensures Coherent(Next(s, Commit(c)))
  {
    var t, v := Next(s, Commit(c)), s.calls[c].input.user;
    assert t.calls[c].phase.Deleting? && Busy(s.calls[c]);
    assert OneAtATime(t) && NoneInDoubt(t);
    forall u | u in t.cache ensures u in t.accounts && (t.cache[u].account == t.accounts[u] || AboutToDelete(t, u)) {
      if u != v && s.cache[u].account != s.accounts[u] {
        var d :| d in s.calls && s.calls[d].phase.Deleting? && s.calls[d].input.user == u;
        assert Busy(s.calls[d]);
      }
    }
    assert forall r :: r in s.readers ==> !Asking(s.readers[r]);
  }

  lemma DeleteKeepsCoherent(s: State, c: CallId)
    requires Coherent(s) && Enabled(s, Delete(c)) && s.calls[c].tx == NoTx
    ensures Coherent(Next(s, Delete(c)))
  {
    var t := Next(s, Delete(c));
    assert Busy(s.calls[c]);
    assert OneAtATime(t) && NoneInDoubt(t);
    forall u | u in t.cache ensures u in t.accounts && t.cache[u].account == t.accounts[u] {
      if s.cache[u].account != s.accounts[u] {
        var d :| d in s.calls && s.calls[d].phase.Deleting? && s.calls[d].input.user == u;
        assert Busy(s.calls[d]);
      }
    }
  }

  lemma DieKeepsCoherent(s: State, c: CallId)
    requires Coherent(s) && Enabled(s, Die(c)) && Sequential(s, Die(c))
    ensures Coherent(Next(s, Die(c)))
  {
    MoveKeepsCoherent(s, c, Ended(s, s.calls[c], Failed(Died)));
  }

  lemma ReaderStepKeepsCoherent(s: State, r: ReaderId, reader: Reader)
    requires Coherent(s)
    requires if r in s.readers then Asking(s.readers[r]) || !Asking(reader) else Idle(s)
    requires reader.Holding? ==> reader.user in s.accounts && reader.account == s.accounts[reader.user]
    ensures Coherent(SetReader(s, r, reader))
  {
    SameCallsSameDebts(s, SetReader(s, r, reader));
  }

  lemma SameCallsSameDebts(s: State, t: State)
    requires t.calls == s.calls
    ensures forall u :: AboutToDelete(t, u) <==> AboutToDelete(s, u)
  {
  }

  lemma CacheSetKeepsCoherent(s: State, r: ReaderId, applied: bool)
    requires Coherent(s) && r in s.readers && s.readers[r].Holding?
    ensures Coherent(AfterCacheSet(s, r, applied))
  {
    SameCallsSameDebts(s, AfterCacheSet(s, r, applied));
  }

  lemma SequentialStepKeepsCoherent(s: State, step: Step)
    requires Inv(s) && Coherent(s) && Enabled(s, step) && Sequential(s, step)
    ensures Coherent(Next(s, step))
  {
    hide Inv, Coherent;
    if CallStep(step) {
      ActorFacts(s, step);
      CallStepKeepsCoherent(s, step);
    } else if WriteStep(step) {
      DeletingFacts(s, step.c);
      SequentialWriteKeepsCoherent(s, step);
    } else if ReaderStep(step) {
      if step.Ask? || step.CacheGet? || step.CacheGetFails? {
        LookKeepsCoherent(s, step);
      } else {
        FillKeepsCoherent(s, step);
      }
    } else {
      SequentialOtherKeepsCoherent(s, step);
    }
  }

  lemma ActorFacts(s: State, step: Step)
    requires Inv(s) && CallStep(step)
    ensures step.c in s.calls ==> CallOk(s, step.c, s.calls[step.c])
  {
  }

  lemma DeletingFacts(s: State, c: CallId)
    requires Inv(s) && c in s.calls
    ensures s.calls[c].phase.Deleting? ==> s.calls[c].tx == NoTx
  {
    assert CallOk(s, c, s.calls[c]);
  }

  lemma SequentialWriteKeepsCoherent(s: State, step: Step)
    requires Coherent(s) && Enabled(s, step) && Sequential(s, step) && WriteStep(step)
    requires step.Delete? ==> s.calls[step.c].tx == NoTx
    ensures Coherent(Next(s, step))
  {
    match step
    case Commit(c) => CommitKeepsCoherent(s, c);
    case Delete(c) => DeleteKeepsCoherent(s, c);
    case Die(c) => DieKeepsCoherent(s, c);
    case _ =>
  }

  lemma LookKeepsCoherent(s: State, step: Step)
    requires Coherent(s) && Enabled(s, step) && Sequential(s, step)
    requires step.Ask? || step.CacheGet? || step.CacheGetFails?
    ensures Coherent(Next(s, step))
  {
    hide Coherent, CacheHit, Idle;
    match step
    case Ask(r, u) => ReaderStepKeepsCoherent(s, r, Checking(u));
    case CacheGet(r) => ReaderStepKeepsCoherent(s, r, AfterCacheGet(s, r).readers[r]);
    case CacheGetFails(r) => ReaderStepKeepsCoherent(s, r, Missed(s.readers[r].user));
  }

  lemma FillKeepsCoherent(s: State, step: Step)
    requires Coherent(s) && Enabled(s, step)
    requires step.DbGet? || step.DbGetFails? || step.CacheSet? || step.CacheSetFails?
    ensures Coherent(Next(s, step))
  {
    hide Coherent;
    match step
    case DbGet(r) => ReaderStepKeepsCoherent(s, r, AfterDbGet(s, r).readers[r]);
    case DbGetFails(r) => ReaderStepKeepsCoherent(s, r, Refused(s.readers[r].user, Unclassified));
    case CacheSet(r) => CacheSetKeepsCoherent(s, r, true);
    case CacheSetFails(r, applied) => CacheSetKeepsCoherent(s, r, applied);
  }

  lemma SequentialOtherKeepsCoherent(s: State, step: Step)
    requires Coherent(s) && Enabled(s, step) && (step.CreateAccount? || step.Evict? || step.Tick?)
    ensures Coherent(Next(s, step))
  {
    SameCallsSameDebts(s, Next(s, step));
  }

  lemma {:induction false} SequentialRunsAreCoherent(steps: seq<Step>, t: State)
    requires SequentialRun(steps, t)
    ensures Coherent(t) && RunFrom(START, steps) == Some(t) && Inv(t)
  {
    if |steps| > 0 {
      var rest, last := steps[..|steps| - 1], steps[|steps| - 1];
      var p :| SequentialRun(rest, p) && Enabled(p, last) && Sequential(p, last) && t == Next(p, last);
      SequentialRunsAreCoherent(rest, p);
      SequentialStepKeepsCoherent(p, last);
      StepKeepsInv(p, last);
    }
  }

  /** While a query is running, no other call is about to delete an entry; so the entry is the account. */
  lemma HitIsExact(s: State, r: ReaderId)
    requires Coherent(s) && r in s.readers && Asking(s.readers[r]) && s.readers[r].user in s.cache
    ensures var u := s.readers[r].user;
            u in s.accounts && s.cache[u].account == s.accounts[u]
  {
    var u := s.readers[r].user;
    assert forall c :: c in s.calls ==> !Busy(s.calls[c]);
    assert !AboutToDelete(s, u);
  }

  /** The steps of a query that can end with an answer or a missing account. */
  predicate AnswersReader(step: Step, r: ReaderId) {
    (step.CacheGet? || step.DbGet? || step.CacheSet? || step.CacheSetFails?) && step.r == r
  }

  /** If the entry and a pair in hand are the account, so is the answer. */
  lemma CurrentPairsGiveCurrentAnswers(s: State, r: ReaderId, step: Step)
    requires Enabled(s, step) && r in s.readers && AnswersReader(step, r)
    requires var u := s.readers[r].user; u in s.cache ==> u in s.accounts && s.cache[u].account == s.accounts[u]
    requires s.readers[r].Holding? ==>
               s.readers[r].user in s.accounts && s.readers[r].account == s.accounts[s.readers[r].user]
    ensures r in Next(s, step).readers
    ensures var u, reader := s.readers[r].user, Next(s, step).readers[r];
            && (reader.Answered? ==> u in s.accounts && reader == Answered(u, s.accounts[u]))
            && (reader.Refused? ==> u !in s.accounts)
  {
    match step
    case CacheGet(_) => assert Next(s, step) == AfterCacheGet(s, r);
    case DbGet(_) => assert Next(s, step) == AfterDbGet(s, r);
    case CacheSet(_) => assert Next(s, step) == AfterCacheSet(s, r, true);
    case CacheSetFails(_, applied) => assert Next(s, step) == AfterCacheSet(s, r, applied);
  }

  lemma CoherentReaderAnswers(s: State, r: ReaderId, step: Step)
    requires Coherent(s) && Enabled(s, step) && r in s.readers && Asking(s.readers[r]) && AnswersReader(step, r)
    ensures r in Next(s, step).readers
    ensures var u, reader := s.readers[r].user, Next(s, step).readers[r];
            && (reader.Answered? ==> u in s.accounts && reader == Answered(u, s.accounts[u]))
            && (reader.Refused? ==> u !in s.accounts)
  {
    hide Enabled, Next, OneAtATime, NoneInDoubt;
    if s.readers[r].user in s.cache {
      HitIsExact(s, r);
    }
    CurrentPairsGiveCurrentAnswers(s, r, step);
  }

  /** Sequential refinement: when use cases run one after the other, with successful DELs and no ambiguous
      commit, a balance query answers exactly what a direct read of the account would, whatever expires and
      whichever cache GETs and SETs fail; it is refused for a missing account only if there is none. */
  lemma SequentialReadsAreExact(steps: seq<Step>, s: State, r: ReaderId, step: Step)
    requires SequentialRun(steps, s) && Enabled(s, step) && r in s.readers && Asking(s.readers[r])
    requires AnswersReader(step, r)
    ensures r in Next(s, step).readers
    ensures var u, reader := s.readers[r].user, Next(s, step).readers[r];
            && (reader.Answered? ==> u in s.accounts && reader == Answered(u, s.accounts[u]))
            && (reader.Refused? ==> u !in s.accounts)
  {
    hide Enabled, Next, Coherent, Inv;
    SequentialRunsAreCoherent(steps, s);
    CoherentReaderAnswers(s, r, step);
  }
}
