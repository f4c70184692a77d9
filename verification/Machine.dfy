/** The protocol as a step machine: MySQL (accounts, ledger, open transactions), the balance cache,
    and any number of interleaved Grant/Redeem calls and balance reads. One step is one
    database or cache round trip together with the client code that runs on its answer. */
module Machine {
  import opened Domain

  const MAX_RETRIES := 3
  const CACHE_TTL := 300  // seconds

  type CallId = nat
  type ReaderId = nat

  /** What a caller passes to `Execute`; reason and request id are stored but never read back. */
  datatype Input = Input(kind: Kind, user: string, amount: int64, key: string)

  /** A row of mileage_transactions. */
  datatype Row = Row(id: nat, user: string, amount: int64, kind: Kind, key: string)

  function RowFor(input: Input, id: nat): Row {
    Row(id, input.user, input.amount, input.kind, input.key)
  }

  /** Equality under uk_transactions_idempotency. */
  predicate SameKey(r: Row, q: Row) {
    r.user == q.user && r.key == q.key && r.kind == q.kind
  }

  /** A committed row. The entry at index k of a user's log is the row of version k + 1.
      Everything but `row` is bookkeeping: the call that wrote it and when. */
  datatype Entry = Entry(row: Row, writer: CallId, readAt: nat, insertedAt: nat, committedAt: nat)

  /** What became of the cache invalidation that a committed row owes. */
  datatype Fate =
    | Owed                   // its writer is between commit and DEL
    | Deleted(at: nat)
    | DeleteFailed(at: nat)  // the DEL returned an error
    | WriterDied(at: nat)    // the process stopped before the DEL
    | Unacknowledged(at: nat)  // committed, although the client was told of a failure or is gone

  /** What one attempt works on: the committed pair it read and what the domain step made of it. */
  datatype Work = Work(before: Account, after: Account, readAt: nat)

  /** A database transaction as the server sees it. */
  datatype Tx =
    | NoTx
    | Open
    | Snap(work: Work)
    | Pending(work: Work, row: Row, insertedAt: nat)                  // uncommitted row inserted
    | Locked(work: Work, row: Row, insertedAt: nat, image: Account)   // and account row updated

  datatype Pc = ToRead | ToInsert | ToUpdate | ToCommit

  datatype Outcome =
    | Fresh(id: nat, account: Account)
    | Replayed(id: nat, account: Account)
    | Failed(err: Err)

  /** Where the client code of one `Execute` call stands. */
  datatype Phase =
    | Looking                                // before FindTransactionByIdempotencyKey
    | Replaying(existing: Row, slot: nat)    // found a row of the same amount
    | Looping(attempt: nat)                  // before BeginTxx
    | InTx(attempt: nat, pc: Pc)
    | RollingBack(attempt: nat, err: Err)
    | Deleting(id: nat, account: Account)    // committed, before the cache DEL
    | Done(outcome: Outcome, at: nat)

  /** An attempt that ended in ErrOptimisticLock. */
  datatype Lost = Lost(version: int64, readAt: nat, lostAt: nat)

  datatype Call = Call(input: Input, startedAt: nat, lost: seq<Lost>, phase: Phase, tx: Tx)

  datatype CacheEntry = CacheEntry(account: Account, readAt: nat, setAt: nat, setClock: nat)

  datatype Reader =
    | Checking(user: string)                                // before the cache GET
    | Missed(user: string)                                  // before GetAccount
    | Holding(user: string, account: Account, readAt: nat)  // before the cache SET
    | Answered(user: string, account: Account)
    | Refused(user: string, err: Err)

  /** `now` counts steps and so stamps each step uniquely; `clock` is wall time in seconds. */
  datatype State = State(
    accounts: map<string, Account>,
    ledger: map<string, seq<Entry>>,
    fates: map<string, seq<Fate>>,
    calls: map<CallId, Call>,
    cache: map<string, CacheEntry>,
    readers: map<ReaderId, Reader>,
    now: nat,
    clock: nat)

  const START := State(map[], map[], map[], map[], map[], map[], 0, 0)

  /** One user's committed rows in version order. */
  function Log(s: State, user: string): seq<Entry> {
    if user in s.ledger then s.ledger[user] else []
  }

  function Fates(s: State, user: string): seq<Fate> {
    if user in s.fates then s.fates[user] else []
  }

  datatype Step =
    | CreateAccount(user: string)
    // Grant and Redeem, client side
    | Invoke(c: CallId, input: Input)
    | Find(c: CallId)
    | FindFails(c: CallId)
    | ReplayRead(c: CallId)
    | ReplayReadFails(c: CallId)
    | Begin(c: CallId)
    | BeginFails(c: CallId)
    | Read(c: CallId)
    | Insert(c: CallId, id: nat)
    | Update(c: CallId)
    | StatementFails(c: CallId)
    | Rollback(c: CallId)
    | Commit(c: CallId)
    | CommitFails(c: CallId)
    | Delete(c: CallId)
    | DeleteFails(c: CallId, applied: bool)
    | Die(c: CallId)
    // the database server on its own
    | ServerAbort(c: CallId)
    | ServerCommit(c: CallId)
    // BalanceUsecase
    | Ask(r: ReaderId, user: string)
    | CacheGet(r: ReaderId)
    | CacheGetFails(r: ReaderId)
    | DbGet(r: ReaderId)
    | DbGetFails(r: ReaderId)
    | CacheSet(r: ReaderId)
    | CacheSetFails(r: ReaderId, applied: bool)
    // Redis and time
    | Evict(user: string)
    | Tick(seconds: nat)

  predicate Is(s: State, c: CallId, pc: Pc) {
    c in s.calls && s.calls[c].phase.InTx? && s.calls[c].phase.pc == pc
  }

  predicate HasRow(tx: Tx) {
    tx.Pending? || tx.Locked?
  }

  /** Another open transaction holds an uncommitted row under the key that `c` wants to insert. */
  predicate KeyHeld(s: State, c: CallId)
    requires c in s.calls
  {
    exists d :: d in s.calls && d != c && HasRow(s.calls[d].tx) &&
                SameKey(s.calls[d].tx.row, RowFor(s.calls[c].input, 0))
  }

  /** Another open transaction holds the lock on the account row of `c`. */
  predicate RowHeld(s: State, c: CallId)
    requires c in s.calls
  {
    exists d :: d in s.calls && d != c && s.calls[d].tx.Locked? && s.calls[d].input.user == s.calls[c].input.user
  }

  /** The primary key admits `id`: no committed or uncommitted row has it. */
  predicate IdFree(s: State, id: nat) {
    && (forall u, k :: u in s.ledger && 0 <= k < |s.ledger[u]| ==> s.ledger[u][k].row.id != id)
    && (forall d :: d in s.calls && HasRow(s.calls[d].tx) ==> s.calls[d].tx.row.id != id)
  }

  /** The UPDATE ... WHERE version = ? finds its row. */
  predicate VersionMatches(s: State, user: string, version: int64) {
    user in s.accounts && s.accounts[user].version == version
  }

  /** FindTransactionByIdempotencyKey: the index of the row with this key and type, or -1. */
  function FindSlot(log: seq<Entry>, kind: Kind, key: string): (k: int)
    ensures -1 <= k < |log|
    ensures k >= 0 ==> log[k].row.kind == kind && log[k].row.key == key
    ensures k == -1 ==> forall j :: 0 <= j < |log| ==> log[j].row.kind != kind || log[j].row.key != key
  {
    if |log| == 0 then -1
    else
      var e := log[|log| - 1];
      if e.row.kind == kind && e.row.key == key then |log| - 1
      else FindSlot(log[..|log| - 1], kind, key)
  }

  function SlotOf(s: State, input: Input): int {
    FindSlot(Log(s, input.user), input.kind, input.key)
  }

  predicate CacheHit(s: State, user: string) {
    user in s.cache && s.clock < s.cache[user].setClock + CACHE_TTL
  }

  predicate Enabled(s: State, step: Step) {
    match step
    case CreateAccount(u) => u !in s.accounts
    case Invoke(c, input) => c !in s.calls
    case Find(c) => c in s.calls && s.calls[c].phase.Looking?
    case FindFails(c) => c in s.calls && s.calls[c].phase.Looking?
    case ReplayRead(c) => c in s.calls && s.calls[c].phase.Replaying?
    case ReplayReadFails(c) => c in s.calls && s.calls[c].phase.Replaying?
    case Begin(c) => c in s.calls && s.calls[c].phase.Looping?
    case BeginFails(c) => c in s.calls && s.calls[c].phase.Looping?
    case Read(c) => Is(s, c, ToRead) && s.calls[c].tx.Open?
    case Insert(c, id) => Is(s, c, ToInsert) && s.calls[c].tx.Snap? && !KeyHeld(s, c) && IdFree(s, id)
    case Update(c) =>
      && Is(s, c, ToUpdate) && s.calls[c].tx.Pending? && !RowHeld(s, c)
      && (var before := s.calls[c].tx.work.before;
          VersionMatches(s, s.calls[c].input.user, before.version) ==> before.version < MAX_INT64)
    case StatementFails(c) => c in s.calls && s.calls[c].phase.InTx? && s.calls[c].phase.pc != ToCommit
    case Rollback(c) => c in s.calls && s.calls[c].phase.RollingBack?
    case Commit(c) => Is(s, c, ToCommit) && s.calls[c].tx.Locked?
    case CommitFails(c) => Is(s, c, ToCommit)
    case Delete(c) => c in s.calls && s.calls[c].phase.Deleting?
    case DeleteFails(c, _) => c in s.calls && s.calls[c].phase.Deleting?
    case Die(c) => c in s.calls && !s.calls[c].phase.Done?
    case ServerAbort(c) => c in s.calls && s.calls[c].tx != NoTx
    case ServerCommit(c) => c in s.calls && s.calls[c].phase.Done? && s.calls[c].tx.Locked?
    case Ask(r, u) => r !in s.readers
    case CacheGet(r) => r in s.readers && s.readers[r].Checking?
    case CacheGetFails(r) => r in s.readers && s.readers[r].Checking?
    case DbGet(r) => r in s.readers && s.readers[r].Missed?
    case DbGetFails(r) => r in s.readers && s.readers[r].Missed?
    case CacheSet(r) => r in s.readers && s.readers[r].Holding?
    case CacheSetFails(r, _) => r in s.readers && s.readers[r].Holding?
    case Evict(u) => u in s.cache
    case Tick(_) => true
  }

  /** The state with one call moved on and the step counter advanced. */
  function Move(s: State, c: CallId, call: Call): State {
    s.(calls := s.calls[c := call], now := s.now + 1)
  }

  function Ended(s: State, call: Call, outcome: Outcome): Call {
    call.(phase := Done(outcome, s.now))
  }

  /** The account row and the ledger row of `c` become visible together. */
  function Install(s: State, c: CallId, fate: Fate, phase: Phase): State
    requires c in s.calls && s.calls[c].tx.Locked?
  {
    var call := s.calls[c];
    var u := call.input.user;
    var entry := Entry(call.tx.row, c, call.tx.work.readAt, call.tx.insertedAt, s.now);
    Move(s, c, call.(phase := phase, tx := NoTx)).(
      accounts := s.accounts[u := call.tx.image],
      ledger := s.ledger[u := Log(s, u) + [entry]],
      fates := s.fates[u := Fates(s, u) + [fate]])
  }

  /** Settles the invalidation that the call's own row owes. */
  function Resolve(fates: seq<Fate>, version: int, fate: Fate): seq<Fate> {
    if 1 <= version <= |fates| then fates[version - 1 := fate] else fates
  }

  /** A writer stops owing a DEL: the entry of its row gets `fate` and the key may be gone. */
  function Settle(s: State, c: CallId, fate: Fate, dropped: bool, outcome: Outcome): State
    requires c in s.calls && s.calls[c].phase.Deleting?
  {
    var call := s.calls[c];
    var u := call.input.user;
    Move(s, c, Ended(s, call, outcome)).(
      fates := s.fates[u := Resolve(Fates(s, u), call.phase.account.version, fate)],
      cache := if dropped then s.cache - {u} else s.cache)
  }

  function AfterInvoke(s: State, c: CallId, input: Input): State {
    var call := Call(input, s.now, [], Looking, NoTx);
    Move(s, c,
         if input.amount <= 0 then Ended(s, call, Failed(BadAmount))
         else if input.key == "" then Ended(s, call, Failed(MissingKey))
         else call)
  }

  function AfterFind(s: State, c: CallId): State
    requires c in s.calls
  {
    var call := s.calls[c];
    var k := SlotOf(s, call.input);
    Move(s, c,
         if k < 0 then call.(phase := Looping(0))
         else if Log(s, call.input.user)[k].row.amount == call.input.amount
         then call.(phase := Replaying(Log(s, call.input.user)[k].row, k))
         else Ended(s, call, Failed(IdempotencyConflict)))
  }

  function AfterReplayRead(s: State, c: CallId): State
    requires c in s.calls && s.calls[c].phase.Replaying?
  {
    var call := s.calls[c];
    var u := call.input.user;
    Move(s, c, Ended(s, call,
                     if u in s.accounts then Replayed(call.phase.existing.id, s.accounts[u])
                     else Failed(NilDereference)))
  }

  function AfterRead(s: State, c: CallId): State
    requires c in s.calls && s.calls[c].phase.InTx?
  {
    var call := s.calls[c];
    var a := call.phase.attempt;
    var u := call.input.user;
    Move(s, c,
         if u !in s.accounts then call.(phase := RollingBack(a, AccountNotFound))
         else
           match Perform(call.input.kind, s.accounts[u], call.input.amount)
           case Error(e) => call.(phase := RollingBack(a, e))
           case Ok(after) => call.(phase := InTx(a, ToInsert), tx := Snap(Work(s.accounts[u], after, s.now))))
  }

  function AfterInsert(s: State, c: CallId, id: nat): State
    requires c in s.calls && s.calls[c].phase.InTx? && s.calls[c].tx.Snap?
  {
    var call := s.calls[c];
    var a := call.phase.attempt;
    Move(s, c,
         if SlotOf(s, call.input) >= 0 then call.(phase := RollingBack(a, AlreadyProcessed))
         else call.(phase := InTx(a, ToUpdate), tx := Pending(call.tx.work, RowFor(call.input, id), s.now)))
  }

  function AfterUpdate(s: State, c: CallId): State
    requires Enabled(s, Update(c))
  {
    var call := s.calls[c];
    var a := call.phase.attempt;
    var u := call.input.user;
    var Pending(work, row, insertedAt) := call.tx;
    Move(s, c,
         if VersionMatches(s, u, work.before.version) then
           var image := Account(work.after.balance, s.accounts[u].version + 1);
           call.(phase := InTx(a, ToCommit), tx := Locked(work, row, insertedAt, image))
         else
           call.(phase := RollingBack(a, OptimisticLock),
                 lost := call.lost + [Lost(work.before.version, work.readAt, s.now)]))
  }

  function AfterRollback(s: State, c: CallId): State
    requires c in s.calls && s.calls[c].phase.RollingBack?
  {
    var call := s.calls[c];
    var RollingBack(a, e) := call.phase;
    Move(s, c,
         if e == OptimisticLock && a + 1 < MAX_RETRIES then call.(phase := Looping(a + 1), tx := NoTx)
         else Ended(s, call.(tx := NoTx), Failed(e)))
  }

  function AfterDie(s: State, c: CallId): State
    requires c in s.calls
  {
    var call := s.calls[c];
    if call.phase.Deleting? then Settle(s, c, WriterDied(s.now), false, Failed(Died))
    else Move(s, c, Ended(s, call, Failed(Died)))
  }

  function SetReader(s: State, r: ReaderId, reader: Reader): State {
    s.(readers := s.readers[r := reader], now := s.now + 1)
  }

  function AfterCacheGet(s: State, r: ReaderId): State
    requires r in s.readers
  {
    var u := s.readers[r].user;
    SetReader(s, r, if CacheHit(s, u) then Answered(u, s.cache[u].account) else Missed(u))
  }

  function AfterDbGet(s: State, r: ReaderId): State
    requires r in s.readers
  {
    var u := s.readers[r].user;
    SetReader(s, r, if u in s.accounts then Holding(u, s.accounts[u], s.now) else Refused(u, AccountNotFound))
  }

  function AfterCacheSet(s: State, r: ReaderId, applied: bool): State
    requires r in s.readers && s.readers[r].Holding?
  {
    var Holding(u, account, readAt) := s.readers[r];
    var t := SetReader(s, r, Answered(u, account));
    if applied then t.(cache := s.cache[u := CacheEntry(account, readAt, s.now, s.clock)]) else t
  }

  function Next(s: State, step: Step): State
    requires Enabled(s, step)
  {
    match step
    case CreateAccount(u) => s.(accounts := s.accounts[u := NEW_ACCOUNT], now := s.now + 1)
    case Invoke(c, input) => AfterInvoke(s, c, input)
    case Find(c) => AfterFind(s, c)
    case FindFails(c) => Move(s, c, Ended(s, s.calls[c], Failed(Unclassified)))
    case ReplayRead(c) => AfterReplayRead(s, c)
    case ReplayReadFails(c) => Move(s, c, Ended(s, s.calls[c], Failed(Unclassified)))
    case Begin(c) => Move(s, c, s.calls[c].(phase := InTx(s.calls[c].phase.attempt, ToRead), tx := Open))
    case BeginFails(c) => Move(s, c, Ended(s, s.calls[c], Failed(Unclassified)))
    case Read(c) => AfterRead(s, c)
    case Insert(c, id) => AfterInsert(s, c, id)
    case Update(c) => AfterUpdate(s, c)
    case StatementFails(c) => Move(s, c, s.calls[c].(phase := RollingBack(s.calls[c].phase.attempt, Unclassified)))
    case Rollback(c) => AfterRollback(s, c)
    case Commit(c) => Install(s, c, Owed, Deleting(s.calls[c].tx.row.id, s.calls[c].tx.work.after))
    case CommitFails(c) => Move(s, c, Ended(s, s.calls[c], Failed(Unclassified)))
    case Delete(c) => Settle(s, c, Deleted(s.now), true, Fresh(s.calls[c].phase.id, s.calls[c].phase.account))
    case DeleteFails(c, applied) =>
      Settle(s, c, DeleteFailed(s.now), applied, Fresh(s.calls[c].phase.id, s.calls[c].phase.account))
    case Die(c) => AfterDie(s, c)
    case ServerAbort(c) => Move(s, c, s.calls[c].(tx := NoTx))
    case ServerCommit(c) => Install(s, c, Unacknowledged(s.now), s.calls[c].phase)
    case Ask(r, u) => SetReader(s, r, Checking(u))
    case CacheGet(r) => AfterCacheGet(s, r)
    case CacheGetFails(r) => SetReader(s, r, Missed(s.readers[r].user))
    case DbGet(r) => AfterDbGet(s, r)
    case DbGetFails(r) => SetReader(s, r, Refused(s.readers[r].user, Unclassified))
    case CacheSet(r) => AfterCacheSet(s, r, true)
    case CacheSetFails(r, applied) => AfterCacheSet(s, r, applied)
    case Evict(u) => s.(cache := s.cache - {u}, now := s.now + 1)
    case Tick(d) => s.(clock := s.clock + d, now := s.now + 1)
  }

  /** The state that a sequence of steps leads to from `s`, if every step is enabled in turn. */
  function RunFrom(s: State, steps: seq<Step>): Option<State>
  {
    if |steps| == 0 then Some(s)
    else
      match RunFrom(s, steps[..|steps| - 1])
      case None => None
      case Some(p) =>
        var step := steps[|steps| - 1];
        if Enabled(p, step) then Some(Next(p, step)) else None
  }

  ghost predicate Reaches(s: State, t: State) {
    exists steps :: RunFrom(s, steps) == Some(t)
  }

  ghost predicate Reachable(s: State) {
    Reaches(START, s)
  }
}
