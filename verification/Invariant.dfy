/** What holds in every reachable state of the machine. */
module Invariant {
  import opened Domain
  import opened Machine

  /** The sequential history: plain `Grant` and `Redeem` applied to a new account, one committed
      row after the other in version order. */
  function Replay(log: seq<Entry>): Result<Account>
  {
    if |log| == 0 then Ok(NEW_ACCOUNT)
    else
      match Replay(log[..|log| - 1])
      case Error(e) => Error(e)
      case Ok(a) => Perform(log[|log| - 1].row.kind, a, log[|log| - 1].row.amount)
  }

  /** The account really had the value `a` after its first `a.version` commits. */
  predicate Historical(log: seq<Entry>, a: Account) {
    0 <= a.version <= |log| && Replay(log[..a.version]) == Ok(a)
  }

  /** `a` was the committed value of the account at time `at`. */
  predicate CurrentAt(log: seq<Entry>, a: Account, at: nat) {
    && Historical(log, a)
    && (forall k :: 0 <= k < |log| ==> if k < a.version then log[k].committedAt < at else at < log[k].committedAt)
  }

  /** A call in this situation may be the writer of a committed row; no other call can be. */
  predicate MayHaveWritten(call: Call) {
    && call.tx == NoTx
    && (call.phase.Deleting? ||
        (call.phase.Done? &&
         (call.phase.outcome.Fresh? || call.phase.outcome in {Failed(Unclassified), Failed(Died)})))
  }

  predicate EntryOk(s: State, u: string, e: Entry) {
    && e.writer in s.calls
    && (var call := s.calls[e.writer];
        && call.input.user == u
        && e.row == RowFor(call.input, e.row.id)
        && call.startedAt < e.readAt
        && MayHaveWritten(call))
    && e.readAt < e.insertedAt < e.committedAt < s.now
  }

  predicate FateOk(s: State, e: Entry, fate: Fate) {
    match fate
    case Owed => e.writer in s.calls && s.calls[e.writer].phase.Deleting?
    case Unacknowledged(t) => t == e.committedAt
    case _ => e.committedAt < fate.at < s.now
  }

  predicate LogOk(s: State, u: string) {
    var log, fates := Log(s, u), Fates(s, u);
    && |fates| == |log|
    && (if u in s.accounts then s.accounts[u].version == |log| && Replay(log) == Ok(s.accounts[u]) else |log| == 0)
    && (forall k :: 0 <= k < |log| ==> EntryOk(s, u, log[k]))
    && (forall k :: 0 <= k < |log| ==> FateOk(s, log[k], fates[k]))
    && (forall j, k :: 0 <= j < k < |log| ==> Before(log[j], log[k]))
  }

  /** Two committed rows of one account: their spans from read to commit do not overlap, and
      they come from different calls under different keys. */
  predicate Before(e: Entry, f: Entry) {
    e.committedAt < f.readAt && e.writer != f.writer && !SameKey(e.row, f.row)
  }

  /** The committed row that call `c` wrote and reports. */
  predicate OwnRow(log: seq<Entry>, c: CallId, id: nat, account: Account) {
    && 1 <= account.version
    && Historical(log, account)
    && log[account.version - 1].writer == c
    && log[account.version - 1].row.id == id
  }

  predicate WorkOk(s: State, call: Call, w: Work) {
    && call.input.user in s.accounts
    && CurrentAt(Log(s, call.input.user), w.before, w.readAt)
    && Perform(call.input.kind, w.before, call.input.amount) == Ok(w.after)
    && call.startedAt < w.readAt < s.now
  }

  /** A running attempt reads a newer version than every attempt before it. */
  predicate NewerThanLost(call: Call) {
    call.tx.Snap? || HasRow(call.tx) ==>
      forall i :: 0 <= i < |call.lost| ==>
        call.lost[i].version < call.tx.work.before.version && call.lost[i].lostAt < call.tx.work.readAt
  }

  predicate TxOk(s: State, call: Call) {
    && (call.tx.Snap? || HasRow(call.tx) ==> WorkOk(s, call, call.tx.work))
    && (HasRow(call.tx) ==>
          && call.tx.row == RowFor(call.input, call.tx.row.id)
          && call.tx.work.readAt < call.tx.insertedAt < s.now)
    && (call.tx.Locked? ==>
          && call.tx.work.before == s.accounts[call.input.user]
          && call.tx.image == call.tx.work.after
          && call.tx.work.before.version < MAX_INT64)
  }

  /** Each lost attempt was beaten by another call's row, committed while the attempt ran. */
  predicate LostOk(s: State, c: CallId, call: Call) {
    var log := Log(s, call.input.user);
    && (forall i :: 0 <= i < |call.lost| ==> Beaten(log, c, call.lost[i]) && call.lost[i].lostAt < s.now)
    && (forall i, j :: 0 <= i < j < |call.lost| ==>
          call.lost[i].version < call.lost[j].version && call.lost[i].lostAt < call.lost[j].readAt)
  }

  predicate Beaten(log: seq<Entry>, c: CallId, l: Lost) {
    && 0 <= l.version < |log|
    && log[l.version].writer != c
    && l.readAt < log[l.version].committedAt < l.lostAt
  }

  predicate PcOk(pc: Pc, tx: Tx) {
    tx == NoTx ||
    match pc
    case ToRead => tx.Open?
    case ToInsert => tx.Snap?
    case ToUpdate => tx.Pending?
    case ToCommit => tx.Locked?
  }

  predicate Answers(log: seq<Entry>, input: Input, id: nat, version: int64) {
    exists k :: 0 <= k < |log| && k < version && log[k].row == RowFor(input, id)
  }

  predicate OutcomeOk(s: State, c: CallId, call: Call) 
    requires call.phase.Done?
  {
    var log, at := Log(s, call.input.user), call.phase.at;
    && call.startedAt <= at < s.now
    && match call.phase.outcome
       case Fresh(id, account) =>
         call.tx == NoTx && OwnRow(log, c, id, account) && log[account.version - 1].committedAt < at
       case Replayed(id, account) =>
         && call.tx == NoTx && |call.lost| == 0 && call.startedAt < at
         && CurrentAt(log, account, at)
         && Answers(log, call.input, id, account.version)
       case Failed(e) =>
         && e != NilDereference && e != InvalidAmount
         && (e !in {Unclassified, Died} ==> call.tx == NoTx)
         && (e == OptimisticLock ==> |call.lost| == MAX_RETRIES)
  }

  predicate PhaseOk(s: State, c: CallId, call: Call) {
    && (!call.phase.Done? ==> call.input.amount > 0 && call.input.key != "")
    && match call.phase
       case Looking => call.tx == NoTx && |call.lost| == 0
       case Replaying(row, k) =>
         && call.tx == NoTx && |call.lost| == 0
         && k < |Log(s, call.input.user)| && Log(s, call.input.user)[k].row == row == RowFor(call.input, row.id)
       case Looping(a) => call.tx == NoTx && |call.lost| == a < MAX_RETRIES
       case InTx(a, pc) => PcOk(pc, call.tx) && |call.lost| == a < MAX_RETRIES && NewerThanLost(call)
       case RollingBack(a, e) =>
         && !call.tx.Locked? && a < MAX_RETRIES
         && |call.lost| == (if e == OptimisticLock then a + 1 else a)
         && e in {AccountNotFound, InsufficientBalance, AlreadyProcessed, OptimisticLock, Unclassified}
       case Deleting(id, account) =>
         && call.tx == NoTx && OwnRow(Log(s, call.input.user), c, id, account)
         && account.version <= |Fates(s, call.input.user)|
         && Fates(s, call.input.user)[account.version - 1] == Owed
       case Done(_, _) => OutcomeOk(s, c, call)
  }

  predicate CallOk(s: State, c: CallId, call: Call) {
    call.startedAt < s.now && LostOk(s, c, call) && TxOk(s, call) && PhaseOk(s, c, call)
  }

  /** No two rows, committed or not, share a primary key or an idempotency key. */
  predicate Distinct(r: Row, q: Row) {
    r.id != q.id && !SameKey(r, q)
  }

  ghost predicate RowsDistinct(s: State) {
    && (forall c, d :: c in s.calls && d in s.calls && c != d && HasRow(s.calls[c].tx) && HasRow(s.calls[d].tx) ==>
          Distinct(s.calls[c].tx.row, s.calls[d].tx.row))
    && (forall c, u, k :: c in s.calls && HasRow(s.calls[c].tx) && 0 <= k < |Log(s, u)| ==>
          Distinct(s.calls[c].tx.row, Log(s, u)[k].row))
    && (forall u, v, j, k :: 0 <= j < |Log(s, u)| && 0 <= k < |Log(s, v)| && (u != v || j != k) ==>
          Log(s, u)[j].row.id != Log(s, v)[k].row.id)
  }

  predicate LocksExclusive(s: State) {
    forall c, d :: c in s.calls && d in s.calls && c != d && s.calls[c].tx.Locked? && s.calls[d].tx.Locked? ==>
      s.calls[c].input.user != s.calls[d].input.user
  }

  /** Every DEL that succeeded after the commit of a row the entry has not seen came before its SET. */
  predicate UnseenDeletesPrecede(log: seq<Entry>, fates: seq<Fate>, e: CacheEntry)
    requires |log| == |fates|
  {
    forall k :: 0 <= k < |log| && e.account.version <= k && fates[k].Deleted? ==> fates[k].at < e.setAt
  }

  predicate CacheOk(s: State, u: string, e: CacheEntry) {
    && u in s.accounts
    && CurrentAt(Log(s, u), e.account, e.readAt)
    && e.readAt < e.setAt < s.now && e.setClock <= s.clock
    && |Fates(s, u)| == |Log(s, u)|
    && UnseenDeletesPrecede(Log(s, u), Fates(s, u), e)
  }

  predicate ReaderOk(s: State, reader: Reader) {
    match reader
    case Holding(u, a, t) => u in s.accounts && CurrentAt(Log(s, u), a, t) && t < s.now
    case Answered(u, a) => u in s.accounts && Historical(Log(s, u), a)
    case _ => true
  }

  ghost predicate Inv(s: State) {
    && (forall u :: LogOk(s, u))
    && (forall c :: c in s.calls ==> CallOk(s, c, s.calls[c]))
    && RowsDistinct(s)
    && LocksExclusive(s)
    && (forall u :: u in s.cache ==> CacheOk(s, u, s.cache[u]))
    && (forall r :: r in s.readers ==> ReaderOk(s, s.readers[r]))
  }
}
