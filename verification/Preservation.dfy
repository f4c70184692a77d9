/** Every step preserves the invariant, so it holds in every reachable state. */
module Preservation {
  import opened Domain
  import opened Machine
  import opened Invariant

  // ---- Histories only grow -------------------------------------------------------------------

  /** `longer` is `log` followed by rows committed at `now` or later. */
  predicate Extends(log: seq<Entry>, longer: seq<Entry>, now: nat) {
    && log <= longer
    && (forall k :: |log| <= k < |longer| ==> longer[k].committedAt >= now)
  }

  ghost predicate Grows(s: State, t: State) {
    && (forall u :: Extends(Log(s, u), Log(t, u), s.now))
    && (forall u :: u in s.accounts ==> u in t.accounts)
    && s.now <= t.now && s.clock <= t.clock
  }

  lemma HistoricalStable(log: seq<Entry>, longer: seq<Entry>, a: Account)
    requires Historical(log, a) && log <= longer
    ensures Historical(longer, a)
  {
    assert longer[..a.version] == log[..a.version];
  }

  lemma CurrentAtStable(log: seq<Entry>, longer: seq<Entry>, now: nat, a: Account, at: nat)
    requires CurrentAt(log, a, at) && Extends(log, longer, now) && at < now
    ensures CurrentAt(longer, a, at)
  {
    HistoricalStable(log, longer, a);
  }

  /** The committed account is what a read at this moment returns. */
  lemma AccountIsCurrent(s: State, u: string)
    requires LogOk(s, u) && u in s.accounts
    ensures CurrentAt(Log(s, u), s.accounts[u], s.now)
  {
    assert Log(s, u)[..|Log(s, u)|] == Log(s, u);
    forall k | 0 <= k < |Log(s, u)|
      ensures Log(s, u)[k].committedAt < s.now
    {
      assert EntryOk(s, u, Log(s, u)[k]);
    }
  }

  lemma AnswersStable(log: seq<Entry>, longer: seq<Entry>, input: Input, id: nat, version: int64)
    requires Answers(log, input, id, version) && log <= longer
    ensures Answers(longer, input, id, version)
  {
    var k :| 0 <= k < |log| && k < version && log[k].row == RowFor(input, id);
    assert longer[k].row == RowFor(input, id);
  }

  lemma OutcomeStable(s: State, t: State, c: CallId, call: Call)
    requires Grows(s, t) && call.phase.Done? && OutcomeOk(s, c, call)
    ensures OutcomeOk(t, c, call)
  {
    var log, longer := Log(s, call.input.user), Log(t, call.input.user);
    assert Extends(log, longer, s.now);
    match call.phase.outcome
    case Fresh(id, account) => HistoricalStable(log, longer, account);
    case Replayed(id, account) =>
      CurrentAtStable(log, longer, s.now, account, call.phase.at);
      AnswersStable(log, longer, call.input, id, account.version);
    case Failed(_) =>
  }

  lemma LostStable(s: State, t: State, c: CallId, call: Call)
    requires Grows(s, t) && LostOk(s, c, call)
    ensures LostOk(t, c, call)
  {
    var log, longer := Log(s, call.input.user), Log(t, call.input.user);
    assert Extends(log, longer, s.now);
    forall i | 0 <= i < |call.lost|
      ensures Beaten(longer, c, call.lost[i]) && call.lost[i].lostAt < t.now
    {
      assert Beaten(log, c, call.lost[i]);
    }
  }

  lemma WorkStable(s: State, t: State, call: Call, w: Work)
    requires Grows(s, t) && WorkOk(s, call, w)
    ensures WorkOk(t, call, w)
  {
    var u := call.input.user;
    assert Extends(Log(s, u), Log(t, u), s.now);
    CurrentAtStable(Log(s, u), Log(t, u), s.now, w.before, w.readAt);
  }

  /** What other clients do leaves a call's own facts alone. */
  lemma CallStable(s: State, t: State, c: CallId, call: Call)
    requires Grows(s, t) && CallOk(s, c, call)
    requires call.tx.Locked? ==>
               call.input.user in t.accounts && t.accounts[call.input.user] == s.accounts[call.input.user]
    requires call.phase.Deleting? ==>
               var i, u := call.phase.account.version - 1, call.input.user;
               i < |Fates(t, u)| && Fates(t, u)[i] == Owed
    ensures CallOk(t, c, call)
  {
    var u := call.input.user;
    assert Extends(Log(s, u), Log(t, u), s.now);
    LostStable(s, t, c, call);
    if call.tx.Snap? || HasRow(call.tx) {
      WorkStable(s, t, call, call.tx.work);
    }
    if call.phase.Done? {
      OutcomeStable(s, t, c, call);
    } else if call.phase.Deleting? {
      HistoricalStable(Log(s, u), Log(t, u), call.phase.account);
    }
  }

  // ---- Steps of one call that write nothing ----------------------------------------------------

  lemma MoveGrows(s: State, c: CallId, call: Call)
    ensures Grows(s, Move(s, c, call))
  {
  }

  lemma MoveKeepsLogs(s: State, c: CallId, call: Call, u: string)
    requires LogOk(s, u)
    requires c in s.calls ==> !MayHaveWritten(s.calls[c])
    ensures LogOk(Move(s, c, call), u)
  {
    var t := Move(s, c, call);
    forall k | 0 <= k < |Log(t, u)|
      ensures EntryOk(t, u, Log(t, u)[k]) && FateOk(t, Log(t, u)[k], Fates(t, u)[k])
    {
      assert EntryOk(s, u, Log(s, u)[k]) && FateOk(s, Log(s, u)[k], Fates(s, u)[k]);
    }
  }

  lemma CacheStable(s: State, t: State, u: string)
    requires u in s.cache && CacheOk(s, u, s.cache[u])
    requires Log(t, u) == Log(s, u) && Fates(t, u) == Fates(s, u) && (u in s.accounts ==> u in t.accounts)
    requires s.now <= t.now && s.clock <= t.clock
    ensures CacheOk(t, u, s.cache[u])
  {
  }

  lemma ReaderStable(s: State, t: State, reader: Reader)
    requires Grows(s, t) && ReaderOk(s, reader)
    ensures ReaderOk(t, reader)
  {
    match reader
    case Holding(u, a, at) =>
      assert Extends(Log(s, u), Log(t, u), s.now);
      CurrentAtStable(Log(s, u), Log(t, u), s.now, a, at);
    case Answered(u, a) =>
      assert Extends(Log(s, u), Log(t, u), s.now);
      HistoricalStable(Log(s, u), Log(t, u), a);
    case _ =>
  }

  /** A step that changes one call and no table, cache entry or reader. */
  lemma MoveKeepsInv(s: State, c: CallId, call: Call)
    requires Inv(s)
    requires c in s.calls ==> !MayHaveWritten(s.calls[c])
    requires CallOk(Move(s, c, call), c, call)
    requires RowsDistinct(Move(s, c, call)) && LocksExclusive(Move(s, c, call))
    ensures Inv(Move(s, c, call))
  {
    hide LogOk, CacheOk, ReaderOk, MayHaveWritten, RowsDistinct, LocksExclusive;
    var t := Move(s, c, call);
    MoveGrows(s, c, call);
    forall u ensures LogOk(t, u) {
      MoveKeepsLogs(s, c, call, u);
    }
    forall d | d in t.calls && d != c ensures CallOk(t, d, t.calls[d]) {
      assert CallOk(s, d, s.calls[d]);
      CallStable(s, t, d, s.calls[d]);
    }
    forall u | u in t.cache ensures CacheOk(t, u, t.cache[u]) {
      CacheStable(s, t, u);
    }
    forall r | r in t.readers ensures ReaderOk(t, t.readers[r]) {
      ReaderStable(s, t, s.readers[r]);
    }
  }

  /** The common case: the call acquires neither an uncommitted row nor a lock. */
  lemma QuietMoveKeepsInv(s: State, c: CallId, call: Call)
    requires Inv(s)
    requires c in s.calls ==> !MayHaveWritten(s.calls[c])
    requires CallOk(Move(s, c, call), c, call)
    requires HasRow(call.tx) ==> c in s.calls && s.calls[c].tx == call.tx && s.calls[c].input == call.input
    ensures Inv(Move(s, c, call))
  {
    hide CallOk, LogOk, CacheOk, ReaderOk, MayHaveWritten;
    var t := Move(s, c, call);
    assert forall u :: Log(t, u) == Log(s, u);
    assert RowsDistinct(t);
    assert LocksExclusive(t);
    MoveKeepsInv(s, c, call);
  }

  // ---- One lemma per group of steps ------------------------------------------------------------

  lemma InvokeKeepsInv(s: State, c: CallId, input: Input)
    requires Inv(s) && Enabled(s, Invoke(c, input))
    ensures Inv(Next(s, Invoke(c, input)))
  {
    hide RowsDistinct, LocksExclusive, CacheOk, ReaderOk, LogOk;
    var t := Next(s, Invoke(c, input));
    QuietMoveKeepsInv(s, c, t.calls[c]);
  }

  /** Steps that end the call with a failure and leave its transaction to the server. */
  lemma FailureKeepsInv(s: State, c: CallId, e: Err)
    requires Inv(s) && c in s.calls && !s.calls[c].phase.Done? && !s.calls[c].phase.Deleting?
    requires e in {Unclassified, Died}
    ensures Inv(Move(s, c, Ended(s, s.calls[c], Failed(e))))
  {
    hide RowsDistinct, LocksExclusive, CacheOk, ReaderOk, LogOk;
    var call := s.calls[c];
    assert CallOk(s, c, call);
    MoveGrows(s, c, Ended(s, call, Failed(e)));
    LostStable(s, Move(s, c, Ended(s, call, Failed(e))), c, call);
    QuietMoveKeepsInv(s, c, Ended(s, call, Failed(e)));
  }

  lemma FindCallOk(s: State, c: CallId)
    requires Enabled(s, Find(c)) && CallOk(s, c, s.calls[c]) && LogOk(s, s.calls[c].input.user)
    ensures CallOk(AfterFind(s, c), c, AfterFind(s, c).calls[c])
  {
    var k, u := SlotOf(s, s.calls[c].input), s.calls[c].input.user;
    if k >= 0 {
      assert EntryOk(s, u, Log(s, u)[k]);
    }
  }

  lemma FindKeepsInv(s: State, c: CallId)
    requires Inv(s) && Enabled(s, Find(c))
    ensures Inv(Next(s, Find(c)))
  {
    hide CallOk, LogOk, RowsDistinct, LocksExclusive, CacheOk, ReaderOk;
    assert CallOk(s, c, s.calls[c]) && LogOk(s, s.calls[c].input.user);
    FindCallOk(s, c);
    FindStart(s, c);
    QuietMoveKeepsInv(s, c, AfterFind(s, c).calls[c]);
  }

  lemma FindStart(s: State, c: CallId)
    requires Enabled(s, Find(c)) && CallOk(s, c, s.calls[c])
    ensures s.calls[c].tx == NoTx
  {
  }

  lemma ReplayReadCallOk(s: State, c: CallId)
    requires Enabled(s, ReplayRead(c)) && CallOk(s, c, s.calls[c]) && LogOk(s, s.calls[c].input.user)
    ensures CallOk(AfterReplayRead(s, c), c, AfterReplayRead(s, c).calls[c])
  {
    var t, call := AfterReplayRead(s, c), s.calls[c];
    AccountIsCurrent(s, call.input.user);
    assert Log(t, call.input.user)[call.phase.slot].row == RowFor(call.input, call.phase.existing.id);
  }

  lemma ReplayReadKeepsInv(s: State, c: CallId)
    requires Inv(s) && Enabled(s, ReplayRead(c))
    ensures Inv(Next(s, ReplayRead(c)))
  {
    hide CallOk, LogOk, RowsDistinct, LocksExclusive, CacheOk, ReaderOk;
    assert CallOk(s, c, s.calls[c]) && LogOk(s, s.calls[c].input.user);
    ReplayReadCallOk(s, c);
    ReplayReadStart(s, c);
    QuietMoveKeepsInv(s, c, AfterReplayRead(s, c).calls[c]);
  }

  lemma ReplayReadStart(s: State, c: CallId)
    requires Enabled(s, ReplayRead(c)) && CallOk(s, c, s.calls[c])
    ensures s.calls[c].tx == NoTx
  {
  }

  /** A transaction that reads starts from the committed pair of this moment. */
  lemma ReadWorkOk(s: State, c: CallId)
    requires Enabled(s, Read(c)) && CallOk(s, c, s.calls[c]) && LogOk(s, s.calls[c].input.user)
    requires AfterRead(s, c).calls[c].tx.Snap?
    ensures var t := AfterRead(s, c);
            WorkOk(t, t.calls[c], t.calls[c].tx.work) && NewerThanLost(t.calls[c])
  {
    var call := s.calls[c];
    var u := call.input.user;
    AccountIsCurrent(s, u);
    forall i | 0 <= i < |call.lost|
      ensures call.lost[i].version < s.accounts[u].version && call.lost[i].lostAt < s.now
    {
      assert Beaten(Log(s, u), c, call.lost[i]);
    }
  }

  lemma ReadCallOk(s: State, c: CallId)
    requires Enabled(s, Read(c)) && CallOk(s, c, s.calls[c]) && LogOk(s, s.calls[c].input.user)
    ensures CallOk(AfterRead(s, c), c, AfterRead(s, c).calls[c])
  {
    hide LogOk;
    var t, call := AfterRead(s, c), s.calls[c];
    if t.calls[c].tx.Snap? {
      hide CurrentAt;
      ReadWorkOk(s, c);
    }
    MoveGrows(s, c, t.calls[c]);
    LostStable(s, t, c, call);
  }

  lemma ReadKeepsInv(s: State, c: CallId)
    requires Inv(s) && Enabled(s, Read(c))
    ensures Inv(Next(s, Read(c)))
  {
    hide RowsDistinct, LocksExclusive, CacheOk, ReaderOk;
    assert CallOk(s, c, s.calls[c]) && LogOk(s, s.calls[c].input.user);
    ReadCallOk(s, c);
    QuietMoveKeepsInv(s, c, AfterRead(s, c).calls[c]);
  }

  lemma InsertCallOk(s: State, c: CallId, id: nat)
    requires Enabled(s, Insert(c, id)) && CallOk(s, c, s.calls[c])
    ensures CallOk(AfterInsert(s, c, id), c, AfterInsert(s, c, id).calls[c])
  {
    var t, call := AfterInsert(s, c, id), s.calls[c];
    MoveGrows(s, c, t.calls[c]);
    LostStable(s, t, c, call);
    WorkStable(s, t, call, call.tx.work);
  }

  lemma InsertKeepsInv(s: State, c: CallId, id: nat)
    requires Inv(s) && Enabled(s, Insert(c, id))
    ensures Inv(Next(s, Insert(c, id)))
  {
    hide CallOk, LogOk, RowsDistinct, LocksExclusive, CacheOk, ReaderOk;
    assert CallOk(s, c, s.calls[c]);
    InsertCallOk(s, c, id);
    if SlotOf(s, s.calls[c].input) >= 0 {
      QuietMoveKeepsInv(s, c, AfterInsert(s, c, id).calls[c]);
    } else {
      InsertedRowIsDistinct(s, c, id);
      InsertKeepsLocks(s, c, id);
      MoveKeepsInv(s, c, AfterInsert(s, c, id).calls[c]);
    }
  }

  lemma InsertKeepsLocks(s: State, c: CallId, id: nat)
    requires Enabled(s, Insert(c, id)) && LocksExclusive(s)
    ensures LocksExclusive(AfterInsert(s, c, id))
  {
  }

  /** What the unique keys bring: the new uncommitted row clashes with no other row. */
  lemma InsertedRowIsDistinct(s: State, c: CallId, id: nat)
    requires Inv(s) && Enabled(s, Insert(c, id)) && SlotOf(s, s.calls[c].input) < 0
    ensures RowsDistinct(Next(s, Insert(c, id)))
  {
    var t, input := Next(s, Insert(c, id)), s.calls[c].input;
    var row := RowFor(input, id);
    forall d | d in s.calls && d != c && HasRow(s.calls[d].tx)
      ensures Distinct(row, s.calls[d].tx.row) && Distinct(s.calls[d].tx.row, row)
    {
    }
    forall u, k | 0 <= k < |Log(s, u)|
      ensures Distinct(row, Log(s, u)[k].row)
    {
      assert LogOk(s, u);
      assert EntryOk(s, u, Log(s, u)[k]);
      assert u in s.ledger && s.ledger[u][k].row.id != id;
    }
    assert forall u :: Log(t, u) == Log(s, u);
  }

  lemma WinningUpdateCallOk(s: State, c: CallId)
    requires Enabled(s, Update(c)) && CallOk(s, c, s.calls[c]) && LogOk(s, s.calls[c].input.user)
    requires VersionMatches(s, s.calls[c].input.user, s.calls[c].tx.work.before.version)
    ensures CallOk(AfterUpdate(s, c), c, AfterUpdate(s, c).calls[c])
  {
    var t, call := AfterUpdate(s, c), s.calls[c];
    MoveGrows(s, c, t.calls[c]);
    LostStable(s, t, c, call);
    WorkStable(s, t, call, call.tx.work);
    CurrentVersionIsAccount(s, call.input.user, call.tx.work.before);
  }

  lemma LosingUpdateCallOk(s: State, c: CallId)
    requires Inv(s) && Enabled(s, Update(c))
    requires !VersionMatches(s, s.calls[c].input.user, s.calls[c].tx.work.before.version)
    ensures CallOk(AfterUpdate(s, c), c, AfterUpdate(s, c).calls[c])
  {
    hide RowsDistinct, LocksExclusive, CacheOk, ReaderOk, LogOk;
    var t, call := AfterUpdate(s, c), s.calls[c];
    assert CallOk(s, c, call);
    LostAttemptWasBeaten(s, c);
    LosingUpdateExtendsLost(s, c);
  }

  lemma LosingUpdateExtendsLost(s: State, c: CallId)
    requires Enabled(s, Update(c)) && CallOk(s, c, s.calls[c])
    requires !VersionMatches(s, s.calls[c].input.user, s.calls[c].tx.work.before.version)
    requires var call := s.calls[c];
             Beaten(Log(s, call.input.user), c, Lost(call.tx.work.before.version, call.tx.work.readAt, s.now))
    ensures var t := AfterUpdate(s, c);
            LostOk(t, c, t.calls[c]) && TxOk(t, t.calls[c])
  {
    var t, call := AfterUpdate(s, c), s.calls[c];
    MoveGrows(s, c, t.calls[c]);
    LostStable(s, t, c, call);
    WorkStable(s, t, call, call.tx.work);
  }

  /** A historical pair of the newest version is the account itself. */
  lemma CurrentVersionIsAccount(s: State, u: string, a: Account)
    requires LogOk(s, u) && u in s.accounts && Historical(Log(s, u), a)
    requires a.version == s.accounts[u].version
    ensures a == s.accounts[u]
  {
    assert Log(s, u)[..|Log(s, u)|] == Log(s, u);
  }

  lemma SameRowsStayDistinct(s: State, t: State)
    requires RowsDistinct(s) && t.ledger == s.ledger
    requires forall c :: c in t.calls && HasRow(t.calls[c].tx) ==>
               c in s.calls && HasRow(s.calls[c].tx) && s.calls[c].tx.row == t.calls[c].tx.row
    ensures RowsDistinct(t)
  {
    hide Distinct;
    assert forall u :: Log(t, u) == Log(s, u);
  }

  lemma UpdateKeepsLocks(s: State, c: CallId)
    requires Enabled(s, Update(c)) && LocksExclusive(s)
    ensures LocksExclusive(AfterUpdate(s, c))
  {
  }

  lemma UpdateKeepsInv(s: State, c: CallId)
    requires Inv(s) && Enabled(s, Update(c))
    ensures Inv(Next(s, Update(c)))
  {
    hide CallOk, LogOk, RowsDistinct, LocksExclusive, CacheOk, ReaderOk;
    assert CallOk(s, c, s.calls[c]) && LogOk(s, s.calls[c].input.user);
    SameRowsStayDistinct(s, AfterUpdate(s, c));
    UpdateKeepsLocks(s, c);
    if VersionMatches(s, s.calls[c].input.user, s.calls[c].tx.work.before.version) {
      WinningUpdateCallOk(s, c);
    } else {
      LosingUpdateCallOk(s, c);
    }
    MoveKeepsInv(s, c, AfterUpdate(s, c).calls[c]);
  }

  /** The version differs only because another call's row was committed since the read. */
  lemma LostAttemptWasBeaten(s: State, c: CallId)
    requires Inv(s) && Enabled(s, Update(c))
    requires !VersionMatches(s, s.calls[c].input.user, s.calls[c].tx.work.before.version)
    ensures var call := s.calls[c];
            Beaten(Log(s, call.input.user), c, Lost(call.tx.work.before.version, call.tx.work.readAt, s.now))
  {
    hide RowsDistinct, LocksExclusive, CacheOk, ReaderOk;
    var call := s.calls[c];
    var u, w := call.input.user, call.tx.work;
    assert CallOk(s, c, call);
    assert LogOk(s, u);
    assert CurrentAt(Log(s, u), w.before, w.readAt);
    assert w.before.version < |Log(s, u)|;
    assert EntryOk(s, u, Log(s, u)[w.before.version]);
  }

  lemma RollbackCallOk(s: State, c: CallId)
    requires Enabled(s, Rollback(c)) && CallOk(s, c, s.calls[c])
    ensures CallOk(AfterRollback(s, c), c, AfterRollback(s, c).calls[c])
  {
    var t, call := AfterRollback(s, c), s.calls[c];
    MoveGrows(s, c, t.calls[c]);
    LostStable(s, t, c, call);
  }

  lemma RollbackKeepsInv(s: State, c: CallId)
    requires Inv(s) && Enabled(s, Rollback(c))
    ensures Inv(Next(s, Rollback(c)))
  {
    hide CallOk, LogOk, RowsDistinct, LocksExclusive, CacheOk, ReaderOk;
    assert CallOk(s, c, s.calls[c]);
    RollbackCallOk(s, c);
    QuietMoveKeepsInv(s, c, AfterRollback(s, c).calls[c]);
  }

  /** Begin, StatementFails and ServerAbort: the transaction is new, doomed or gone. */
  predicate TxMove(s: State, c: CallId, call: Call) {
    && c in s.calls
    && (var was := s.calls[c];
        || (was.phase.Looping? && call == was.(phase := InTx(was.phase.attempt, ToRead), tx := Open))
        || (was.phase.InTx? && was.phase.pc != ToCommit &&
            call == was.(phase := RollingBack(was.phase.attempt, Unclassified)))
        || (was.tx != NoTx && call == was.(tx := NoTx)))
  }

  lemma TxMoveCallOk(s: State, c: CallId, call: Call)
    requires TxMove(s, c, call) && CallOk(s, c, s.calls[c])
    ensures CallOk(Move(s, c, call), c, call)
  {
    var t, before := Move(s, c, call), s.calls[c];
    MoveGrows(s, c, call);
    LostStable(s, t, c, before);
    if before.phase.Done? {
      OutcomeStable(s, t, c, before);
    }
    if call.tx.Snap? || HasRow(call.tx) {
      WorkStable(s, t, before, call.tx.work);
    }
  }

  lemma TxMoveKeepsInv(s: State, c: CallId, call: Call)
    requires Inv(s) && TxMove(s, c, call)
    ensures Inv(Move(s, c, call))
  {
    hide CallOk, LogOk, RowsDistinct, LocksExclusive, CacheOk, ReaderOk;
    assert CallOk(s, c, s.calls[c]);
    TxMoveCallOk(s, c, call);
    TxMoveStart(s, c, call);
    QuietMoveKeepsInv(s, c, call);
  }

  lemma TxMoveStart(s: State, c: CallId, call: Call)
    requires TxMove(s, c, call) && CallOk(s, c, s.calls[c])
    ensures !MayHaveWritten(s.calls[c])
    ensures call.input == s.calls[c].input && (HasRow(call.tx) ==> s.calls[c].tx == call.tx)
  {
  }

  // ---- A commit becomes visible ------------------------------------------------------------------

  /** The two ways a locked transaction commits: acknowledged, or behind the client's back. */
  predicate InstallStep(s: State, c: CallId, fate: Fate, phase: Phase) {
    && c in s.calls && s.calls[c].tx.Locked?
    && (var call := s.calls[c];
        || (call.phase.InTx? && fate == Owed && phase == Deleting(call.tx.row.id, call.tx.work.after))
        || (call.phase.Done? && fate == Unacknowledged(s.now) && phase == call.phase))
  }

  function InstalledEntry(s: State, c: CallId): Entry
    requires c in s.calls && s.calls[c].tx.Locked?
  {
    var tx := s.calls[c].tx;
    Entry(tx.row, c, tx.work.readAt, tx.insertedAt, s.now)
  }

  lemma ReplayAppend(log: seq<Entry>, e: Entry)
    ensures Replay(log + [e]) == match Replay(log)
                                 case Error(x) => Error(x)
                                 case Ok(a) => Perform(e.row.kind, a, e.row.amount)
  {
    assert (log + [e])[..|log|] == log;
  }

  lemma InstallGrows(s: State, c: CallId, fate: Fate, phase: Phase)
    requires InstallStep(s, c, fate, phase)
    ensures Grows(s, Install(s, c, fate, phase))
  {
  }

  /** The new row comes after every committed row: its transaction read the newest version. */
  lemma InstalledEntryIsLast(s: State, c: CallId, k: int)
    requires Inv(s) && c in s.calls && s.calls[c].tx.Locked?
    requires 0 <= k < |Log(s, s.calls[c].input.user)|
    ensures Before(Log(s, s.calls[c].input.user)[k], InstalledEntry(s, c))
  {
    var call := s.calls[c];
    var u := call.input.user;
    assert CallOk(s, c, call) && LogOk(s, u);
    assert EntryOk(s, u, Log(s, u)[k]);
    assert CurrentAt(Log(s, u), call.tx.work.before, call.tx.work.readAt);
  }

  lemma InstalledAccountReplays(s: State, c: CallId, fate: Fate, phase: Phase)
    requires Inv(s) && InstallStep(s, c, fate, phase)
    ensures var t, u := Install(s, c, fate, phase), s.calls[c].input.user;
            && Log(t, u) == Log(s, u) + [InstalledEntry(s, c)]
            && t.accounts[u].version == |Log(t, u)|
            && Replay(Log(t, u)) == Ok(t.accounts[u])
  {
    var call := s.calls[c];
    assert CallOk(s, c, call) && LogOk(s, call.input.user);
    ReplayAppend(Log(s, call.input.user), InstalledEntry(s, c));
  }

  lemma InstallKeepsOldEntry(s: State, c: CallId, fate: Fate, phase: Phase, e: Entry, f: Fate)
    requires InstallStep(s, c, fate, phase)
    requires EntryOk(s, s.calls[c].input.user, e) && FateOk(s, e, f)
    ensures EntryOk(Install(s, c, fate, phase), s.calls[c].input.user, e)
    ensures FateOk(Install(s, c, fate, phase), e, f)
  {
    assert e.writer != c;
  }

  lemma InstallMakesEntry(s: State, c: CallId, fate: Fate, phase: Phase)
    requires InstallStep(s, c, fate, phase) && CallOk(s, c, s.calls[c])
    ensures EntryOk(Install(s, c, fate, phase), s.calls[c].input.user, InstalledEntry(s, c))
    ensures FateOk(Install(s, c, fate, phase), InstalledEntry(s, c), fate)
  {
  }

  lemma InstallKeepsOwnLog(s: State, c: CallId, fate: Fate, phase: Phase)
    requires Inv(s) && InstallStep(s, c, fate, phase)
    ensures LogOk(Install(s, c, fate, phase), s.calls[c].input.user)
  {
    hide RowsDistinct, LocksExclusive, CacheOk, ReaderOk, CallOk, EntryOk, FateOk;
    var t, u := Install(s, c, fate, phase), s.calls[c].input.user;
    InstalledAccountReplays(s, c, fate, phase);
    assert LogOk(s, u) && CallOk(s, c, s.calls[c]);
    InstallMakesEntry(s, c, fate, phase);
    forall k | 0 <= k < |Log(s, u)|
      ensures EntryOk(t, u, Log(s, u)[k]) && FateOk(t, Log(s, u)[k], Fates(s, u)[k])
    {
      InstallKeepsOldEntry(s, c, fate, phase, Log(s, u)[k], Fates(s, u)[k]);
    }
    forall j, k | 0 <= j < k < |Log(t, u)|
      ensures Before(Log(t, u)[j], Log(t, u)[k])
    {
      if k == |Log(s, u)| {
        InstalledEntryIsLast(s, c, j);
      } else {
        assert Before(Log(s, u)[j], Log(s, u)[k]);
      }
    }
  }

  lemma InstallKeepsOtherLogs(s: State, c: CallId, fate: Fate, phase: Phase, u: string)
    requires Inv(s) && InstallStep(s, c, fate, phase) && u != s.calls[c].input.user
    ensures LogOk(Install(s, c, fate, phase), u)
  {
    var t := Install(s, c, fate, phase);
    assert LogOk(s, u);
    forall k | 0 <= k < |Log(s, u)|
      ensures EntryOk(t, u, Log(t, u)[k]) && FateOk(t, Log(t, u)[k], Fates(t, u)[k])
    {
      assert EntryOk(s, u, Log(s, u)[k]) && FateOk(s, Log(s, u)[k], Fates(s, u)[k]);
    }
  }

  lemma InstallKeepsCalls(s: State, c: CallId, fate: Fate, phase: Phase, d: CallId)
    requires Inv(s) && InstallStep(s, c, fate, phase) && d in s.calls && d != c
    ensures CallOk(Install(s, c, fate, phase), d, s.calls[d])
  {
    hide RowsDistinct, CacheOk, ReaderOk;
    assert CallOk(s, d, s.calls[d]);
    InstallGrows(s, c, fate, phase);
    CallStable(s, Install(s, c, fate, phase), d, s.calls[d]);
  }

  lemma CommitMakesOwnRow(s: State, c: CallId, phase: Phase)
    requires Inv(s) && InstallStep(s, c, Owed, phase) && phase.Deleting?
    ensures var t := Install(s, c, Owed, phase);
            OwnRow(Log(t, s.calls[c].input.user), c, phase.id, phase.account)
  {
    var t, u := Install(s, c, Owed, phase), s.calls[c].input.user;
    assert CallOk(s, c, s.calls[c]) && LogOk(s, u);
    InstalledAccountReplays(s, c, Owed, phase);
    assert Log(t, u)[..|Log(t, u)|] == Log(t, u);
  }

  lemma InstallKeepsOwnCall(s: State, c: CallId, fate: Fate, phase: Phase)
    requires Inv(s) && InstallStep(s, c, fate, phase)
    ensures CallOk(Install(s, c, fate, phase), c, Install(s, c, fate, phase).calls[c])
  {
    hide RowsDistinct, LocksExclusive, CacheOk, ReaderOk;
    var t, call := Install(s, c, fate, phase), s.calls[c];
    assert CallOk(s, c, call);
    InstallGrows(s, c, fate, phase);
    LostStable(s, t, c, call);
    if phase.Deleting? {
      CommitMakesOwnRow(s, c, phase);
      assert LogOk(s, call.input.user);
    } else {
      OutcomeStable(s, t, c, call);
    }
  }

  lemma InstalledRowIsDistinct(s: State, c: CallId, fate: Fate, phase: Phase, d: CallId, v: string, k: nat)
    requires RowsDistinct(s) && InstallStep(s, c, fate, phase) && d in s.calls && d != c && HasRow(s.calls[d].tx)
    requires k < |Log(Install(s, c, fate, phase), v)|
    ensures Distinct(s.calls[d].tx.row, Log(Install(s, c, fate, phase), v)[k].row)
  {
    var t := Install(s, c, fate, phase);
    if k < |Log(s, v)| {
      assert Log(t, v)[k] == Log(s, v)[k];
    } else {
      assert Log(t, v)[k].row == s.calls[c].tx.row;
    }
  }

  lemma InstallKeepsRowsDistinct(s: State, c: CallId, fate: Fate, phase: Phase)
    requires RowsDistinct(s) && InstallStep(s, c, fate, phase)
    ensures RowsDistinct(Install(s, c, fate, phase))
  {
    hide Distinct;
    var t := Install(s, c, fate, phase);
    forall d, v, k | d in t.calls && HasRow(t.calls[d].tx) && 0 <= k < |Log(t, v)|
      ensures Distinct(t.calls[d].tx.row, Log(t, v)[k].row)
    {
      InstalledRowIsDistinct(s, c, fate, phase, d, v, k);
    }
    forall v, w, j, k | 0 <= j < |Log(t, v)| && 0 <= k < |Log(t, w)| && (v != w || j != k)
      ensures Log(t, v)[j].row.id != Log(t, w)[k].row.id
    {
      InstalledIdIsNew(s, c, fate, phase, v, j, w, k);
    }
  }

  lemma InstallKeepsLocks(s: State, c: CallId, fate: Fate, phase: Phase)
    requires LocksExclusive(s) && InstallStep(s, c, fate, phase)
    ensures LocksExclusive(Install(s, c, fate, phase))
  {
  }

  lemma InstalledIdIsNew(s: State, c: CallId, fate: Fate, phase: Phase, v: string, j: nat, w: string, k: nat)
    requires RowsDistinct(s) && InstallStep(s, c, fate, phase)
    requires var t := Install(s, c, fate, phase);
             j < |Log(t, v)| && k < |Log(t, w)| && (v != w || j != k)
    ensures var t := Install(s, c, fate, phase);
            Log(t, v)[j].row.id != Log(t, w)[k].row.id
  {
    var t, row := Install(s, c, fate, phase), s.calls[c].tx.row;
    if j < |Log(s, v)| && k < |Log(s, w)| {
      assert Log(t, v)[j] == Log(s, v)[j] && Log(t, w)[k] == Log(s, w)[k];
    } else if j < |Log(s, v)| {
      assert Log(t, v)[j] == Log(s, v)[j] && Log(t, w)[k].row == row;
      assert Distinct(row, Log(s, v)[j].row);
    } else if k < |Log(s, w)| {
      assert Log(t, w)[k] == Log(s, w)[k] && Log(t, v)[j].row == row;
      assert Distinct(row, Log(s, w)[k].row);
    }
  }

  lemma InstallKeepsCache(s: State, c: CallId, fate: Fate, phase: Phase, u: string, e: CacheEntry)
    requires InstallStep(s, c, fate, phase) && CacheOk(s, u, e)
    ensures CacheOk(Install(s, c, fate, phase), u, e)
  {
    var t := Install(s, c, fate, phase);
    CurrentAtStable(Log(s, u), Log(t, u), s.now, e.account, e.readAt);
  }

  lemma InstallKeepsInv(s: State, c: CallId, fate: Fate, phase: Phase)
    requires Inv(s) && InstallStep(s, c, fate, phase)
    ensures Inv(Install(s, c, fate, phase))
  {
    hide CallOk, LogOk, CacheOk, ReaderOk, RowsDistinct, LocksExclusive;
    var t := Install(s, c, fate, phase);
    forall u ensures LogOk(t, u) {
      if u == s.calls[c].input.user {
        InstallKeepsOwnLog(s, c, fate, phase);
      } else {
        InstallKeepsOtherLogs(s, c, fate, phase, u);
      }
    }
    forall d | d in t.calls ensures CallOk(t, d, t.calls[d]) {
      if d == c {
        InstallKeepsOwnCall(s, c, fate, phase);
      } else {
        InstallKeepsCalls(s, c, fate, phase, d);
      }
    }
    InstallKeepsRowsDistinct(s, c, fate, phase);
    InstallKeepsLocks(s, c, fate, phase);
    forall u | u in t.cache ensures CacheOk(t, u, t.cache[u]) {
      InstallKeepsCache(s, c, fate, phase, u, s.cache[u]);
    }
    InstallGrows(s, c, fate, phase);
    forall r | r in t.readers ensures ReaderOk(t, t.readers[r]) {
      ReaderStable(s, t, s.readers[r]);
    }
  }

  // ---- A writer stops owing its DEL ----------------------------------------------------------------

  predicate SettleStep(s: State, c: CallId, fate: Fate, dropped: bool, outcome: Outcome) {
    && c in s.calls && s.calls[c].phase.Deleting?
    && (var phase := s.calls[c].phase;
        || (fate == Deleted(s.now) && dropped && outcome == Fresh(phase.id, phase.account))
        || (fate == DeleteFailed(s.now) && outcome == Fresh(phase.id, phase.account))
        || (fate == WriterDied(s.now) && !dropped && outcome == Failed(Died)))
  }

  lemma SettleKeepsLogs(s: State, c: CallId, fate: Fate, dropped: bool, outcome: Outcome, u: string)
    requires Inv(s) && SettleStep(s, c, fate, dropped, outcome)
    ensures LogOk(Settle(s, c, fate, dropped, outcome), u)
  {
    var t, call := Settle(s, c, fate, dropped, outcome), s.calls[c];
    assert CallOk(s, c, call) && LogOk(s, u);
    forall k | 0 <= k < |Log(s, u)|
      ensures EntryOk(t, u, Log(s, u)[k]) && FateOk(t, Log(s, u)[k], Fates(t, u)[k])
    {
      assert EntryOk(s, u, Log(s, u)[k]) && FateOk(s, Log(s, u)[k], Fates(s, u)[k]);
      OwnSlotOnly(s, c, u, k);
    }
  }

  /** The row that a call in phase Deleting wrote is the only one of its writer. */
  lemma OwnSlotOnly(s: State, c: CallId, u: string, k: nat)
    requires Inv(s) && c in s.calls && s.calls[c].phase.Deleting? && k < |Log(s, u)|
    ensures Log(s, u)[k].writer == c <==> u == s.calls[c].input.user && k == s.calls[c].phase.account.version - 1
  {
    var call := s.calls[c];
    assert CallOk(s, c, call) && LogOk(s, u) && LogOk(s, call.input.user);
    assert EntryOk(s, u, Log(s, u)[k]);
    var own := call.phase.account.version - 1;
    if u == call.input.user && k != own {
      assert Before(Log(s, u)[if k < own then k else own], Log(s, u)[if k < own then own else k]);
    }
  }

  lemma SettleGrows(s: State, c: CallId, fate: Fate, dropped: bool, outcome: Outcome)
    requires SettleStep(s, c, fate, dropped, outcome)
    ensures Grows(s, Settle(s, c, fate, dropped, outcome))
  {
  }

  lemma SettleKeepsCalls(s: State, c: CallId, fate: Fate, dropped: bool, outcome: Outcome, d: CallId)
    requires Inv(s) && SettleStep(s, c, fate, dropped, outcome) && d in s.calls && d != c
    ensures CallOk(Settle(s, c, fate, dropped, outcome), d, s.calls[d])
  {
    var t, call := Settle(s, c, fate, dropped, outcome), s.calls[d];
    SettleGrows(s, c, fate, dropped, outcome);
    assert CallOk(s, d, call) && CallOk(s, c, s.calls[c]);
    if call.phase.Deleting? {
      OwnSlotOnly(s, c, call.input.user, call.phase.account.version - 1);
    }
    CallStable(s, t, d, call);
  }

  lemma SettleKeepsOwnCall(s: State, c: CallId, fate: Fate, dropped: bool, outcome: Outcome)
    requires SettleStep(s, c, fate, dropped, outcome)
    requires CallOk(s, c, s.calls[c]) && LogOk(s, s.calls[c].input.user)
    ensures CallOk(Settle(s, c, fate, dropped, outcome), c, Settle(s, c, fate, dropped, outcome).calls[c])
  {
    var t, call := Settle(s, c, fate, dropped, outcome), s.calls[c];
    SettleGrows(s, c, fate, dropped, outcome);
    LostStable(s, t, c, call);
    assert EntryOk(s, call.input.user, Log(s, call.input.user)[call.phase.account.version - 1]);
  }

  lemma SettleKeepsCache(s: State, c: CallId, fate: Fate, dropped: bool, outcome: Outcome, u: string, e: CacheEntry)
    requires SettleStep(s, c, fate, dropped, outcome) && CacheOk(s, u, e)
    requires dropped ==> u != s.calls[c].input.user
    ensures CacheOk(Settle(s, c, fate, dropped, outcome), u, e)
  {
  }

  lemma SettleKeepsRows(s: State, c: CallId, fate: Fate, dropped: bool, outcome: Outcome)
    requires RowsDistinct(s) && LocksExclusive(s) && SettleStep(s, c, fate, dropped, outcome)
    ensures RowsDistinct(Settle(s, c, fate, dropped, outcome))
    ensures LocksExclusive(Settle(s, c, fate, dropped, outcome))
  {
    hide RowsDistinct;
    SameRowsStayDistinct(s, Settle(s, c, fate, dropped, outcome));
  }

  lemma SettleKeepsInv(s: State, c: CallId, fate: Fate, dropped: bool, outcome: Outcome)
    requires Inv(s) && SettleStep(s, c, fate, dropped, outcome)
    ensures Inv(Settle(s, c, fate, dropped, outcome))
  {
    hide CallOk, LogOk, CacheOk, ReaderOk, RowsDistinct, LocksExclusive;
    var t := Settle(s, c, fate, dropped, outcome);
    forall u ensures LogOk(t, u) {
      SettleKeepsLogs(s, c, fate, dropped, outcome, u);
    }
    assert CallOk(s, c, s.calls[c]) && LogOk(s, s.calls[c].input.user);
    forall d | d in t.calls ensures CallOk(t, d, t.calls[d]) {
      if d == c {
        SettleKeepsOwnCall(s, c, fate, dropped, outcome);
      } else {
        SettleKeepsCalls(s, c, fate, dropped, outcome, d);
      }
    }
    SettleKeepsRows(s, c, fate, dropped, outcome);
    forall u | u in t.cache ensures CacheOk(t, u, t.cache[u]) {
      SettleKeepsCache(s, c, fate, dropped, outcome, u, s.cache[u]);
    }
    SettleGrows(s, c, fate, dropped, outcome);
    forall r | r in t.readers ensures ReaderOk(t, t.readers[r]) {
      ReaderStable(s, t, s.readers[r]);
    }
  }

  // ---- Accounts, readers, eviction, time -------------------------------------------------------------

  /** `t` differs from `s` in new accounts, the cache, the readers and time only. */
  ghost predicate Beside(s: State, t: State) {
    && t.calls == s.calls && t.ledger == s.ledger && t.fates == s.fates
    && t.now == s.now + 1 && s.clock <= t.clock
    && (forall u :: u in s.accounts ==> u in t.accounts && t.accounts[u] == s.accounts[u])
    && (forall u :: u in t.accounts && u !in s.accounts ==> t.accounts[u] == NEW_ACCOUNT)
  }

  lemma BesideKeepsLogs(s: State, t: State, u: string)
    requires LogOk(s, u) && Beside(s, t)
    ensures LogOk(t, u)
  {
    forall k | 0 <= k < |Log(s, u)|
      ensures EntryOk(t, u, Log(t, u)[k]) && FateOk(t, Log(t, u)[k], Fates(t, u)[k])
    {
      assert EntryOk(s, u, Log(s, u)[k]) && FateOk(s, Log(s, u)[k], Fates(s, u)[k]);
    }
  }

  lemma BesideKeepsInv(s: State, t: State)
    requires Inv(s) && Beside(s, t)
    requires forall u :: u in t.cache ==> (u in s.cache && t.cache[u] == s.cache[u]) || CacheOk(t, u, t.cache[u])
    requires forall r :: r in t.readers ==>
               (r in s.readers && t.readers[r] == s.readers[r]) || ReaderOk(t, t.readers[r])
    ensures Inv(t)
  {
    hide LogOk, CacheOk, ReaderOk;
    assert forall u :: Log(t, u) == Log(s, u);
    assert Grows(s, t);
    forall u ensures LogOk(t, u) {
      BesideKeepsLogs(s, t, u);
    }
    forall d | d in t.calls ensures CallOk(t, d, t.calls[d]) {
      assert CallOk(s, d, s.calls[d]);
      CallStable(s, t, d, s.calls[d]);
    }
    assert RowsDistinct(t) && LocksExclusive(t);
    forall u | u in t.cache ensures CacheOk(t, u, t.cache[u]) {
      if u in s.cache && t.cache[u] == s.cache[u] {
        assert CacheOk(s, u, s.cache[u]);
        CacheStable(s, t, u);
      }
    }
    forall r | r in t.readers ensures ReaderOk(t, t.readers[r]) {
      if r in s.readers && t.readers[r] == s.readers[r] {
        ReaderStable(s, t, s.readers[r]);
      }
    }
  }

  lemma SetReaderKeepsInv(s: State, r: ReaderId, reader: Reader)
    requires Inv(s) && ReaderOk(SetReader(s, r, reader), reader)
    ensures Inv(SetReader(s, r, reader))
  {
    BesideKeepsInv(s, SetReader(s, r, reader));
  }

  lemma CacheGetKeepsInv(s: State, r: ReaderId)
    requires Inv(s) && r in s.readers
    ensures Inv(AfterCacheGet(s, r))
  {
    var u := s.readers[r].user;
    if CacheHit(s, u) {
      assert CacheOk(s, u, s.cache[u]);
      SetReaderKeepsInv(s, r, Answered(u, s.cache[u].account));
    } else {
      SetReaderKeepsInv(s, r, Missed(u));
    }
  }

  lemma DbGetKeepsInv(s: State, r: ReaderId)
    requires Inv(s) && r in s.readers
    ensures Inv(AfterDbGet(s, r))
  {
    var u := s.readers[r].user;
    if u in s.accounts {
      assert LogOk(s, u);
      AccountIsCurrent(s, u);
      SetReaderKeepsInv(s, r, Holding(u, s.accounts[u], s.now));
    } else {
      SetReaderKeepsInv(s, r, Refused(u, AccountNotFound));
    }
  }

  lemma CacheSetMakesEntry(s: State, r: ReaderId)
    requires r in s.readers && s.readers[r].Holding? && ReaderOk(s, s.readers[r]) && LogOk(s, s.readers[r].user)
    ensures var t, u := AfterCacheSet(s, r, true), s.readers[r].user;
            CacheOk(t, u, t.cache[u])
  {
    var u := s.readers[r].user;
    forall k | 0 <= k < |Log(s, u)| && Fates(s, u)[k].Deleted?
      ensures Fates(s, u)[k].at < s.now
    {
      assert FateOk(s, Log(s, u)[k], Fates(s, u)[k]);
    }
  }

  lemma CacheSetKeepsInv(s: State, r: ReaderId, applied: bool)
    requires Inv(s) && r in s.readers && s.readers[r].Holding?
    ensures Inv(AfterCacheSet(s, r, applied))
  {
    hide LogOk, CallOk, RowsDistinct, LocksExclusive, CacheOk;
    assert ReaderOk(s, s.readers[r]) && LogOk(s, s.readers[r].user);
    if applied {
      CacheSetMakesEntry(s, r);
    }
    BesideKeepsInv(s, AfterCacheSet(s, r, applied));
  }

  lemma CreateAccountKeepsInv(s: State, u: string)
    requires Inv(s) && u !in s.accounts
    ensures Inv(s.(accounts := s.accounts[u := NEW_ACCOUNT], now := s.now + 1))
  {
    BesideKeepsInv(s, s.(accounts := s.accounts[u := NEW_ACCOUNT], now := s.now + 1));
  }

  // ---- All steps, all runs -------------------------------------------------------------------------

  /** Steps of a call before its first attempt. */
  predicate LookupStep(step: Step) {
    step.Invoke? || step.Find? || step.FindFails? || step.ReplayRead? || step.ReplayReadFails?
  }

  /** Steps of an attempt that is not committed. */
  predicate AttemptStep(step: Step) {
    step.Begin? || step.BeginFails? || step.Read? || step.Insert? || step.Update? || step.StatementFails? ||
    step.Rollback? || step.CommitFails? || step.ServerAbort?
  }

  /** Steps of a call that leave every table and the cache alone. */
  predicate CallStep(step: Step) {
    LookupStep(step) || AttemptStep(step)
  }

  /** Steps that commit a row or settle what a committed row owes. */
  predicate WriteStep(step: Step) {
    step.Commit? || step.ServerCommit? || step.Delete? || step.DeleteFails? || step.Die?
  }

  lemma LookupStepKeepsInv(s: State, step: Step)
    requires Inv(s) && Enabled(s, step) && LookupStep(step)
    ensures Inv(Next(s, step))
  {
    hide Inv;
    match step
    case Invoke(c, input) => InvokeKeepsInv(s, c, input);
    case Find(c) => FindKeepsInv(s, c);
    case FindFails(c) => FailureKeepsInv(s, c, Unclassified);
    case ReplayRead(c) => ReplayReadKeepsInv(s, c);
    case ReplayReadFails(c) => FailureKeepsInv(s, c, Unclassified);
  }

  lemma AttemptStepKeepsInv(s: State, step: Step)
    requires Inv(s) && Enabled(s, step) && AttemptStep(step)
    ensures Inv(Next(s, step))
  {
    hide Inv;
    match step
    case Begin(c) => TxMoveKeepsInv(s, c, Next(s, step).calls[c]);
    case BeginFails(c) => FailureKeepsInv(s, c, Unclassified);
    case Read(c) => ReadKeepsInv(s, c);
    case Insert(c, id) => InsertKeepsInv(s, c, id);
    case Update(c) => UpdateKeepsInv(s, c);
    case StatementFails(c) => TxMoveKeepsInv(s, c, Next(s, step).calls[c]);
    case Rollback(c) => RollbackKeepsInv(s, c);
    case CommitFails(c) => FailureKeepsInv(s, c, Unclassified);
    case ServerAbort(c) => TxMoveKeepsInv(s, c, Next(s, step).calls[c]);
  }

  lemma WriteStepKeepsInv(s: State, step: Step)
    requires Inv(s) && Enabled(s, step) && WriteStep(step)
    ensures Inv(Next(s, step))
  {
    hide Inv;
    var call := s.calls[step.c];
    match step
    case Commit(c) => InstallKeepsInv(s, c, Owed, Deleting(call.tx.row.id, call.tx.work.after));
    case ServerCommit(c) => InstallKeepsInv(s, c, Unacknowledged(s.now), call.phase);
    case Delete(c) => SettleKeepsInv(s, c, Deleted(s.now), true, Fresh(call.phase.id, call.phase.account));
    case DeleteFails(c, applied) =>
      SettleKeepsInv(s, c, DeleteFailed(s.now), applied, Fresh(call.phase.id, call.phase.account));
    case Die(c) =>
      if call.phase.Deleting? {
        SettleKeepsInv(s, c, WriterDied(s.now), false, Failed(Died));
      } else {
        FailureKeepsInv(s, c, Died);
      }
  }

  predicate ReaderStep(step: Step) {
    step.Ask? || step.CacheGet? || step.CacheGetFails? || step.DbGet? || step.DbGetFails? || step.CacheSet? ||
    step.CacheSetFails?
  }

  lemma ReaderStepKeepsInv(s: State, step: Step)
    requires Inv(s) && Enabled(s, step) && ReaderStep(step)
    ensures Inv(Next(s, step))
  {
    hide Inv;
    match step
    case Ask(r, u) => SetReaderKeepsInv(s, r, Checking(u));
    case CacheGet(r) => CacheGetKeepsInv(s, r);
    case CacheGetFails(r) => SetReaderKeepsInv(s, r, Missed(s.readers[r].user));
    case DbGet(r) => DbGetKeepsInv(s, r);
    case DbGetFails(r) => SetReaderKeepsInv(s, r, Refused(s.readers[r].user, Unclassified));
    case CacheSet(r) => CacheSetKeepsInv(s, r, true);
    case CacheSetFails(r, applied) => CacheSetKeepsInv(s, r, applied);
  }

  lemma EvictKeepsInv(s: State, u: string)
    requires Inv(s)
    ensures Inv(s.(cache := s.cache - {u}, now := s.now + 1))
  {
    BesideKeepsInv(s, s.(cache := s.cache - {u}, now := s.now + 1));
  }

  lemma TickKeepsInv(s: State, d: nat)
    requires Inv(s)
    ensures Inv(s.(clock := s.clock + d, now := s.now + 1))
  {
    BesideKeepsInv(s, s.(clock := s.clock + d, now := s.now + 1));
  }

  lemma StepKeepsInv(s: State, step: Step)
    requires Inv(s) && Enabled(s, step)
    ensures Inv(Next(s, step))
  {
    hide Inv;
    if LookupStep(step) {
      LookupStepKeepsInv(s, step);
    } else if AttemptStep(step) {
      AttemptStepKeepsInv(s, step);
    } else if WriteStep(step) {
      WriteStepKeepsInv(s, step);
    } else if ReaderStep(step) {
      ReaderStepKeepsInv(s, step);
    } else {
      match step
      case CreateAccount(u) => CreateAccountKeepsInv(s, u);
      case Evict(u) => EvictKeepsInv(s, u);
      case Tick(d) => TickKeepsInv(s, d);
    }
  }

  lemma {:induction false} RunKeepsInv(s: State, steps: seq<Step>, t: State)
    requires Inv(s) && RunFrom(s, steps) == Some(t)
    ensures Inv(t)
  {
    if |steps| > 0 {
      var p := RunFrom(s, steps[..|steps| - 1]).value;
      RunKeepsInv(s, steps[..|steps| - 1], p);
      StepKeepsInv(p, steps[|steps| - 1]);
    }
  }

  lemma ReachableInv(s: State)
    requires Reachable(s)
    ensures Inv(s)
  {
    var steps :| RunFrom(START, steps) == Some(s);
    RunKeepsInv(START, steps, s);
  }
}
