# Mileage ledger: a verified model

The system keeps one mileage account per user in MySQL, with an optimistic lock (`version`), an append-only table of
transactions with a unique idempotency key, a balance cache in Redis, and a cursor-paged history. Any number of `Grant`
and `Redeem` calls and balance queries run concurrently. This project models that protocol and proves what it guarantees
over every interleaving, and exactly where its guarantees end.

Check it with `dafny verify dfyconfig.toml` (Dafny 4.11).

## How the model is built

| file | content |
|---|---|
| `Domain.dfy` | int64 arithmetic that wraps as Go's does, the sentinel errors, the account as a value and as the mutable aggregate root |
| `Machine.dfy` | the protocol as a step machine: committed accounts, the ledger, open transactions with their row locks, every running call with its retry counter, cache entries, balance queries |
| `Invariant.dfy`, `Preservation.dfy` | what holds in every reachable state, and that each of the 29 kinds of step preserves it |
| `Runs.dfy` | what no run can undo: histories grow at the end only, answers are final, only commits write |
| `LedgerTheorems.dfy` | serializability, conservation, idempotency, all-or-nothing, progress |
| `Refusals.dfy`, `Linearizability.dfy` | what an error means, how attempts follow conflicts, what a racing caller can be told; and the one step at which each answer takes effect |
| `Waiting.dfy`, `Isolated.dfy` | who waits for whom, and why the waits of this model form no cycle; a call whose account nobody else touches is never held up |
| `CacheTheorems.dfy`, `CacheAge.dfy` | authenticity of cached pairs, the exact causes of staleness and a bound on it, exact reads in sequential runs |
| `Undisturbed.dfy` | the course of a call that meets no other open transaction on its account |
| `Environment.dfy`, `Repository.dfy`, `RedisCache.dfy`, `Usecases.dfy` | the imperative code, with everybody else's steps between any two round trips; each method is a run of the machine |
| `Causes.dfy` | what an unclassified answer is due to |
| `Pagination.dfy`, `LedgerHistory.dfy` | what the history query may answer, the page, walks that follow `NextCursor`; and what the running ledger guarantees about them |
| `Transactions.dfy` | the history use case and the client loop, with commits between two requests |
| `Witnesses.dfy` | concrete runs: every cause of staleness occurs, the limits of the guarantees are real |

One step is one database or cache round trip together with the client code that runs on its answer. `now` counts steps
and stamps them; `clock` is wall time and matters only for the cache TTL. Everything that two processes could interleave
is a step of its own: lookup, begin, read, insert, update, rollback, commit, DEL, and for a query GET, read, SET.

`World` in `Environment.dfy` holds a machine state together with four arbitrary scripts: what everybody else does
before each round trip, whether the round trip succeeds, whether a failing write is applied nevertheless, and which ids
are drawn. `World.Valid()` says that the state is
the one to which the recorded trace of steps leads. So a contract that ends in `Valid()` and names where the machine
stands afterwards says that the method, whatever the others do, is a run of the machine; and the theorems about
all runs then apply to it.

A method cannot make up a failure. It may take a failing step (`Fails`) only after an unlucky draw for that round trip,
or if the server stands in its way (`Hindered`: the transaction is gone, another one holds the key or the row, an id
that may be drawn is taken, or the version column is full); `World.Act` demands it, and `Fair` records it for every step
of the use case since it began. The contracts then say what an error is due to in every world, and what happens exactly
in a calm one, in which nobody interferes and nothing fails (`CleanAnswer`, `CleanQuery`).

### Assumptions about MySQL, Redis and ids, stated as step rules

- A transaction runs at the default isolation level and its first statement is `GetAccount`, so it works on one committed
  (balance, version) pair (`AfterRead`). Reads outside a transaction see the committed state.
- The conditional UPDATE tests the latest committed version and takes the row lock, which is held to the end of the
  transaction; it waits for another holder (`RowHeld`), and a lock wait that times out is a failing statement. It changes
  the row whenever it matches, so it affects no row exactly when the version differs or the row is missing. At version
  2^63-1 it fails, because the column would overflow.
- An insert waits for another transaction's uncommitted row with the same key (`KeyHeld`) and fails on a committed one.
  When the holder rolls back, one waiter at a time gets the key. InnoDB first grants all of them a shared lock, and where
  two then block each other it aborts one; the model has that abort as a step (`ServerAbort`), but not the shared lock.
  The primary key admits no id twice (`IdFree`); such a collision is a failing statement.
- Any statement may fail, and the server may abort any transaction at any time (`StatementFails`, `ServerAbort`).
- A COMMIT that returns an error may still be applied, at any later time (`CommitFails`, then `ServerCommit`). A process
  may stop at any point, a COMMIT in flight included (`Die`).
- A transaction that is rolled back holds no locks afterwards, even if the rollback reports an error.
- A SET or DEL that returns an error may or may not have been applied. An entry may vanish at any time, and it expires
  300 seconds after it was set.
- Accounts come only from `CreateAccount`, with balance 0 and version 0, and are never deleted.
- Key equality is one equality, the same in the lookup and in the unique index.
- Ids are ranks in the collation order of the ULIDs, so `<` is the order of `id < ?`. They are drawn arbitrarily. Only
  the results on paging while others commit assume that of two rows of one user the one inserted later has the larger
  id (`IdsFollowClock`). `created_at` is the time of the insert; the critical intervals of one account are disjoint, so
  no two rows of a user have the same one (`ReachableTimesDistinct`).

### Where the code does less than its documentation says

The model follows the code. The exact extent of each gap is proved.

- docs/processing_flow.md:237 says that `ErrAlreadyProcessed` is answered with the original result. The use cases return
  the error (`RaceLoserIsRefused`). A call sees it if and only if the key was unused when it looked and used when it
  inserted (`AlreadyProcessedMeansLostRace`, `InsertRefusedIffCommittedSince`); one that looks later replays
  (`RepeatedCallReplays`). A redeem that looked before the other's commit can also be told that the balance is
  insufficient, since that check comes first (`RaceLoserLacksBalance`); `RacingCallAnswers` gives all that such a caller
  can be told.
- docs/processing_flow.md:264 promises the same result for the same key and content. A replay returns the same
  transaction id, with the account's current balance and version (`ReplayReportsLaterPair`); it repeats the original
  ones if and only if no other row of the account was committed since (`ReplayIsOriginalIffLast`).
- The row that names the next page is excluded from it by `id < ?`, so a walk through the pages never shows one row per
  page boundary. Every row of the user is shown if and only if they fit on one page, whatever the orders
  (`WalkCompleteIffOnePage`). Of n rows that a walk names, as an item or as a cursor, it shows n - n / (limit + 1); where
  it names each row of the user exactly once, n is the number of those rows (`RowsNeverShown`).
- The query orders by `created_at` and cuts by id. The pages with the cursor rows put back are the ledger in descending
  order if and only if the two orders agree (`HistoryIffOrdersAgree`). They name every row exactly once, in whatever
  order, if and only if each row on a page boundary divides the timeline: all newer rows have larger ids, all older ones
  smaller ids (`WalkWorksOutIff`). Otherwise a walk shows a row twice or misses one altogether, and a reachable ledger
  does both (`DisagreeingOrdersLoseRows`).
- `Grant` adds without an overflow check. The balance is exact if and only if no committed grant took it past 2^63-1,
  and is short by 2^64 for each that did (`Conservation`, `GrantsCanOverflow`). A caller can check this before granting.
- The cache can be stale. It is stale if and only if one of three things happened to the invalidation that a newer row
  owed (`StaleIffCause`), and each of them does occur. The TTL alone does not bound the age of what a hit answers: a
  reader that pauses between its database read and its SET can make it any age (`StaleBySlowReader`). The bound is 300
  seconds plus the length of that pause (`UnseenRowsAreRecent`).

## Model

| member | source | states |
|---|---|---|
| Domain.Wrap | internal/domain/mileage/account.go:30 | the int64 result is congruent to the exact one modulo 2^64, and equal to it in range |
| Domain.PerformDecides | internal/domain/mileage/account.go:26-46 | an operation succeeds if and only if the amount is positive and a redeem is covered; each of the two errors has its exact condition; a success moves the version on by one |
| Domain.PerformIsExactIffInRange | internal/domain/mileage/account.go:26-46 | an operation is exact if and only if it is not a grant past 2^63-1, which is short by 2^64 and leaves a negative balance; a redeem never does |
| Domain.MileageAccount.Grant | internal/domain/mileage/account.go:26-33 | succeeds if and only if the amount is positive; adds it modulo 2^64 and counts the version in place, and changes nothing on an error; agrees with the sequential specification |
| Domain.MileageAccount.Redeem | internal/domain/mileage/account.go:36-46 | a positive amount up to the balance is taken off exactly; a larger one is the insufficient-balance error and changes nothing; agrees with the sequential specification |
| Domain.MileageAccount.CanRedeem | internal/domain/mileage/account.go:49-51 | true exactly for a positive amount up to the balance, which is when `Redeem` would succeed |
| Machine.FindSlot | internal/infra/mysql/mileage_repository.go:132-146 | finds a row of the given key and type, or there is none |
| Preservation.StepKeepsInv | internal/usecase/grant.go:120-165 | every step of every call, query, server and clock keeps the whole invariant |
| Preservation.ReachableInv | internal/usecase/grant.go:54-168 | the invariant holds after every run |
| Preservation.LostAttemptWasBeaten | internal/infra/mysql/mileage_repository.go:106-108 | an update that affects no row means that another call committed a row between this attempt's read and this update |
| Preservation.InstallKeepsRowsDistinct | migrations/001_create_tables.up.sql:31 | a commit keeps keys and ids unique over all rows, committed or not |
| Runs.RunGrows | internal/infra/mysql/mileage_repository.go:113-129 | along any run committed rows stay in place, new rows come after them, accounts stay, answers are final |
| Runs.OnlyCommitsWrite | internal/infra/mysql/tx.go:32-41 | no step but an applied commit changes a stored balance or the ledger: aborted attempts leave no trace |
| Runs.ForeignStepKeepsCall | internal/infra/mysql/tx.go:24-43 | all that others and the server can do to a running call is end its transaction |
| LedgerTheorems.Serializable | internal/usecase/grant.go:117-168 | every reachable account is the result of its committed operations run one at a time in version order, and its version is their number |
| LedgerTheorems.FreshResultIsSequential | internal/usecase/grant.go:159-163 | a fresh success at version k returns the sequential result of the first k rows, and row k is its own with exactly its input |
| LedgerTheorems.CriticalIntervalsDisjoint | internal/infra/mysql/mileage_repository.go:92-110 | the spans from read to commit of two committed operations on one account never overlap; insertion order is version order |
| LedgerTheorems.RealTimeOrder | internal/usecase/grant.go:54-115 | a call that starts after another has answered reports at least its version, and a strictly newer one if it wrote |
| LedgerTheorems.BalanceEquation | internal/domain/mileage/account.go:26-46 | after every prefix, grants minus redeems is the balance plus 2^64 for every grant that overflowed |
| LedgerTheorems.BalanceExact | internal/domain/mileage/account.go:26-46 | without an overflowing grant the balance after every prefix is exactly that sum and not negative |
| LedgerTheorems.ExactIffNeverOverflowed | internal/domain/mileage/account.go:26-46 | exact at every point if and only if no grant overflowed; never negative if and only if none did |
| LedgerTheorems.Conservation | internal/infra/mysql/mileage_repository.go:92-129 | the same equation for every reachable account; its balance is exact if and only if no committed grant overflowed |
| LedgerTheorems.SumCoversBalance | internal/domain/mileage/account.go:36-46 | no prefix of a history sums below zero or below the stored balance |
| LedgerTheorems.NoOverdraft | internal/usecase/redeem.go:116-153 | never are more miles spent than granted, at any point of any concurrent history, with or without overflow |
| LedgerTheorems.AtMostOnce | migrations/001_create_tables.up.sql:31 | one row at most per user, key and type, and per id |
| LedgerTheorems.OneFreshSuccessPerKey | internal/usecase/grant.go:62-98 | two fresh successes under one user, key and type are the same call |
| LedgerTheorems.LookupDecides | internal/usecase/grant.go:63-82 | the lookup goes on, replays or refuses exactly by whether the key is used and with which amount |
| LedgerTheorems.InsertFailsIffUsed | internal/infra/mysql/mileage_repository.go:113-129 | the insert is refused as already processed exactly when a row of that user, key and type is committed |
| LedgerTheorems.RepeatedCallReplays | internal/usecase/grant.go:62-82 | a call that looks a used key up never writes: a success returns that row's id for that very input, a conflict means another amount, and it never sees `ErrAlreadyProcessed` |
| LedgerTheorems.CommitsAtMostOneAttempt | internal/usecase/grant.go:84-101 | one call has at most one committed row, whatever its retries and ambiguous commits |
| LedgerTheorems.DefiniteErrorMeansNoEffect | internal/usecase/grant.go:91-101 | a definite error means that the call added nothing, now or later |
| LedgerTheorems.RunningCallHasNoEffect | internal/infra/mysql/tx.go:32-37 | between and during attempts nothing of a call is committed |
| LedgerTheorems.NeverPanics | internal/usecase/grant.go:70-78 | the replay path never dereferences a missing account, and the domain never sees a bad amount |
| LedgerTheorems.SuccessNamesLastingRow | internal/usecase/grant.go:67-79 | fresh or replayed, a success names a committed row with exactly the caller's input, at or below the reported version, and the row is the same in every later state |
| LedgerTheorems.ReplayIsSafe | internal/usecase/grant.go:69-78 | a replay finds its account, changes nothing else, and reports the current pair, which counts the replayed row |
| LedgerTheorems.ReplayIsOriginalIffLast | internal/usecase/grant.go:70-78 | a replay repeats the original pair if and only if the row is still the account's last |
| LedgerTheorems.LostAttemptsHaveWinners | internal/usecase/grant.go:86-98 | each conflict is due to a different call's commit during that attempt, and the versions read rise strictly |
| LedgerTheorems.GivingUpMeansThreeCommits | internal/usecase/grant.go:86-101 | giving up after three conflicts means three rows of other calls, one committed during each attempt, and an account at least three versions beyond the first read |
| LedgerTheorems.OwnStepLowersRank | internal/usecase/grant.go:84-101 | each step of a call brings it closer to its answer |
| LedgerTheorems.CallsTakeBoundedSteps | internal/usecase/grant.go:54-115 | in every run a call takes at most 18 steps of its own, its invocation included |
| LedgerTheorems.LaterRowsAreNewer | internal/usecase/grant.go:120-157 | every row that becomes visible later was inserted after all rows visible before |
| Refusals.RefusalsAreSequential | internal/usecase/redeem.go:116-153 | insufficient balance, a missing account, a key conflict and `ErrAlreadyProcessed` are each the sequential answer of the committed tables at one moment between invocation and answer |
| Refusals.AlreadyProcessedMeansLostRace | internal/usecase/grant.go:147-150 | `ErrAlreadyProcessed` means that the key was unused at the lookup and used at the insert |
| Refusals.InsertRefusedIffCommittedSince | internal/infra/mysql/mileage_repository.go:119-127 | a call that found its key unused is refused at its insert if and only if a row of that key was committed in between |
| Refusals.RacingCallAnswers | internal/usecase/grant.go:120-157 | a call that looked a key up before another's commit under it never succeeds and never writes; it is told `ErrAlreadyProcessed`, or insufficient balance if it is a redeem, or fails, or finishes rolling back with the error it already had |
| Refusals.AttemptsFollowConflicts | internal/usecase/grant.go:86-98 | in every run a call begins at most three attempts, and every one but the last was lost to a conflict |
| Linearizability.EachAnswerTakesEffectOnce | internal/usecase/grant.go:54-168 | each call that answered with a success or a refusal has one step between invocation and answer at which its answer is that of the operation run alone on the committed tables; a fresh success writes its row and balance at that step, any other such answer writes nothing |
| Waiting.WaitChainsAreShort | internal/usecase/grant.go:147-157 | in this model a chain of calls each waiting for the next has at most three members, so waits form no cycle |
| Waiting.SomeHolderGoesOn | internal/infra/mysql/tx.go:32-42 | in this model whoever waits, waits for a call that is held up by nobody, or for one that waits for such a call |
| CacheTheorems.CachedPairIsAuthentic | internal/infra/redis/cache.go:52-79 | every cached pair is one the account had when the filling reader read it, never ahead of the database |
| CacheTheorems.AnswerIsAuthentic | internal/usecase/balance.go:37-70 | every answered pair is a pair of the account's history, and stays one in every later state |
| CacheTheorems.UnseenRowHasOneCause | internal/usecase/grant.go:103-106 | a row is missing from the entry exactly if it was committed after the filling read, and then exactly one of three causes applies |
| CacheTheorems.StaleIffCause | internal/usecase/balance.go:37-70 | an entry is stale if and only if some row's DEL is still owed, was lost since the entry was set, or was over before a slow reader set it |
| CacheTheorems.SequentialStepKeepsCoherent | internal/usecase/grant.go:103-106 | in a sequential run with successful DELs the entry differs from the account only while the writer is about to delete it |
| CacheTheorems.SequentialReadsAreExact | internal/usecase/balance.go:37-70 | in such a run a query answers exactly what a direct read would, whatever expires and whichever GETs and SETs fail |
| CacheAge.StampsAreExact | internal/infra/mysql/tx.go:39-42 | the stamp of a committed row is the step of the run that made it visible |
| CacheAge.EntryLastsFiveMinutes | internal/infra/redis/cache.go:69-79 | after a SET the entry, unless some step deletes, evicts or replaces it, stays, and is a hit exactly while fewer than five minutes have passed |
| CacheAge.UnseenRowsAreRecent | internal/infra/redis/cache.go:69-79 | every row that a hit has not seen was committed less than 300 seconds ago, plus the time from the filling reader's database read to its SET |
| Undisturbed.StageStep | internal/usecase/grant.go:117-168 | for a call that meets no other open transaction on its account each of its seven steps to the commit is enabled in turn |
| Undisturbed.UndisturbedCallCommits | internal/usecase/grant.go:54-98 | such a call commits at its first attempt with the sequential result of its own operation, whatever is under way on other accounts |
| Isolated.IsolatedCallCommits | internal/usecase/grant.go:54-157 | in every run in which the others act on other accounts and the call does not fail, its next step is always enabled, and seven steps commit the sequential result at the first attempt |
| Environment.World.Interfere | internal/usecase/grant.go:120-157 | between two round trips any number of foreign steps may happen; they leave the call's own record alone, its transaction apart |
| Environment.World.Act | internal/infra/mysql/tx.go:24-43 | the use case takes one enabled step of the machine, a failing one only after an unlucky draw for it or when the server stands in its way |
| Causes.UnclassifiedHasCause | internal/usecase/grant.go:54-101 | a call that is to answer with a driver error took a failing step of its own since it began, after an unlucky draw or with the server in its way; with no unlucky draw in its script it was the server |
| Repository.MileageRepository.CreateAccount | internal/infra/mysql/mileage_repository.go:79-89 | a success added a new empty account for this user and no other as its last step; a failure means that there is an account, perhaps another's doing in between, or a driver error, after which the account may exist |
| Repository.MileageRepository.FindTransactionByIdempotencyKey | internal/infra/mysql/mileage_repository.go:132-146 | returns a row exactly if the key is used, and the call stands where that row's amount puts it; an error only from the driver |
| Repository.MileageRepository.GetAccountForReplay | internal/infra/mysql/mileage_repository.go:58-77 | outside a transaction: returns the current account and never misses it |
| Repository.MileageRepository.GetAccountInTx | internal/infra/mysql/mileage_repository.go:58-77 | inside: fixes the pair on which the transaction works |
| Repository.MileageRepository.InsertTransaction | internal/infra/mysql/mileage_repository.go:113-129 | inserts the row of an unused key, or fails with the bare duplicate sentinel exactly on a used key, or with another error whose cause is the driver, an abort, a blocking row or a taken id |
| Repository.MileageRepository.UpdateBalance | internal/infra/mysql/mileage_repository.go:92-110 | locks the row with the new balance and the next version if the version is the expected one, and otherwise is a bare conflict; another error only by the driver, an abort, a held lock or a full version column |
| Repository.MileageRepository.GetAccountForQuery | internal/infra/mysql/mileage_repository.go:58-77 | for a balance query: the committed account or that there is none; an error only from the driver |
| Repository.MileageRepository.ListTransactions | internal/infra/mysql/mileage_repository.go:149-176 | an admissible answer of limit + 1 rows at most from the ledger of that moment, each one a committed row of the user with its id, type, amount and insert time; an error only from the driver |
| RedisCache.Cache.GetBalance | internal/infra/redis/cache.go:52-66 | a hit is the unexpired entry; a miss means that there is none or that the GET failed |
| RedisCache.Cache.SetBalance | internal/infra/redis/cache.go:69-79 | a successful SET makes the pair a hit with a fresh TTL; the answer is the pair in either case |
| RedisCache.Cache.InvalidateBalance | internal/infra/redis/cache.go:82-87 | a successful DEL removes the entry; a failed one does not change the answer |
| Usecases.AnswerMeans | internal/usecase/grant.go:54-115 | what `Execute` owes its caller: a success names a committed row of that input and a true pair; a definite error means no effect; giving up means three rows of other calls, one during each attempt; never a panic |
| Usecases.UpdateUsecase.Execute | internal/usecase/grant.go:54-115 | in every world a run of the machine that ends with exactly the answer given, and an unclassified error has an unlucky draw or an obstacle behind it; in a calm world the exact answer: either validation error, a replay with the stored id and the current pair, the conflict on another amount, a missing account, an insufficient balance, and otherwise, unless another transaction is open on the account, the id is taken or the version full, the sequential result, with the entry deleted |
| Usecases.UpdateUsecase.Process | internal/usecase/grant.go:62-115 | the same from the idempotency check on |
| Usecases.UpdateUsecase.Proceed | internal/usecase/grant.go:84-115 | under a new key: after a commit the entry's deletion is tried before the answer; in a calm world a refusal is exactly the account's |
| Usecases.UpdateUsecase.Replay | internal/usecase/grant.go:67-82 | the same amount is answered under the stored id with the current pair, and fails exactly if its read does; another amount is the conflict error, with no further step |
| Usecases.UpdateUsecase.Retry | internal/usecase/grant.go:84-101 | at most three attempts, every one but the last lost to a conflict, and after a conflict a further one unless a round trip fails for cause; ends committed with the DEL still owed, or with the error of the last attempt; in a calm world the first attempt commits, or is refused exactly as the account asks for |
| Usecases.UpdateUsecase.RunInTx | internal/infra/mysql/tx.go:24-43 | commits what the body did, or rolls back; every wrapping keeps the cause, so a conflict is retried even if the rollback failed |
| Usecases.UpdateUsecase.BeginTx | internal/infra/mysql/tx.go:25-28 | opens a transaction, or ends the call |
| Usecases.UpdateUsecase.EndWithRollback | internal/infra/mysql/tx.go:32-37 | the attempt leaves no transaction, and its cause decides between retry and answer |
| Usecases.UpdateUsecase.EndWithCommit | internal/infra/mysql/tx.go:39-42 | account row and ledger row appear together and are the ones that the output reports |
| Usecases.UpdateUsecase.ExecuteInTx | internal/usecase/redeem.go:116-161 | read, domain step, insert, conditional update: ends ready to commit what it will report, or ready to roll back with its cause; in a calm world the refusals are exactly the account's |
| Usecases.UpdateUsecase.Record | internal/usecase/redeem.go:132-161 | the insert and the update: locks the account row with the new pair and holds the transaction row under the reported id |
| Usecases.UpdateUsecase.DomainStep | internal/usecase/redeem.go:126-130 | the aggregate changes as its operation's sequential specification says, and not at all on a refusal |
| Usecases.BalanceUsecase.Execute | internal/usecase/balance.go:37-70 | a success is the committed account of one moment of the query or, if the GET went well, the unexpired entry of one, and a pair from the account's history; without a hit the database read decides: if it fails so does the query, and if it went well the answer is the account, or an account missing at that moment; in a calm world a hit is the cached pair, a miss the account, then cached |
| Usecases.BalanceUsecase.ReadThrough | internal/usecase/balance.go:48-70 | after a miss or a failed GET: the committed account, whatever becomes of the SET; an error other than a missing account if and only if the database read fails |
| Pagination.Normalise | internal/usecase/transactions.go:44-46 | a limit from 1 to 100 is kept, any other becomes 50 |
| Pagination.Select | internal/infra/mysql/mileage_repository.go:153-169 | evaluates the query: matching rows only, newest first, none twice, nothing newer left out |
| Pagination.AnswerIsTop | internal/infra/mysql/mileage_repository.go:161-164 | with agreeing orders an answer descends strictly and everything left out is below its end |
| Pagination.PageWalkEquation | internal/usecase/transactions.go:57-70 | following `NextCursor`, the pages with each cursor's row put back are exactly the ledger, newest first, none twice |
| Pagination.HistoryIffOrdersAgree | internal/infra/mysql/mileage_repository.go:161-164 | the restored pages are the ledger in descending order if and only if id order and `created_at` order agree |
| Pagination.WalkNamesEachOnceIff | internal/infra/mysql/mileage_repository.go:161-164 | a walk from any cursor names every row below it exactly once if and only if each row on a page boundary divides the timeline, and then the restored pages are the timeline |
| Pagination.WalkWorksOutIff | internal/usecase/transactions.go:57-61 | the same condition on the table, known before the walk, when no two rows of the user have the same time |
| Pagination.WalkCompleteIffOnePage | internal/usecase/transactions.go:58-61 | on every fixed ledger a walk shows all rows of the user if and only if they fit on one page; in descending order if and only if, besides, the orders agree |
| Pagination.RowsNeverShown | internal/usecase/transactions.go:58-61 | of n named rows a walk shows n - n / (limit + 1); where it names every row of the user once, n is the number of those rows |
| Pagination.HistoryUnique | internal/infra/mysql/mileage_repository.go:153-164 | the matching rows, newest first and none twice, form one sequence only |
| Pagination.WalkUnaffectedByCommits | internal/infra/mysql/mileage_repository.go:161-164 | a walk during which rows with larger ids appear is a walk over the ledger of its first page |
| Pagination.NextCursorDescends | internal/usecase/transactions.go:57-61 | each cursor is below the one that fetched it and fewer rows remain, with no assumption on orders |
| LedgerHistory.ReachableOrdersAgree | internal/usecase/grant.go:137-147 | in every reachable state the two orders agree as soon as ids follow the clock |
| LedgerHistory.ReachableHistoryGrowsAbove | internal/usecase/grant.go:120-157 | later commits add rows with larger ids only |
| LedgerHistory.ReachableTimesDistinct | internal/usecase/grant.go:120-157 | no two rows of one user in a reachable ledger have the same `created_at` or id |
| LedgerHistory.AnswerShowsLedger | internal/infra/mysql/mileage_repository.go:34-50 | every row that the history query may return has the id, user, type, amount and insert time of one committed ledger row |
| LedgerHistory.ReachableWalkWorksOutIff | internal/usecase/transactions.go:57-61 | over every reachable ledger, whatever ids were drawn, both exact conditions of a walk hold |
| LedgerHistory.DisagreeingOrdersLoseRows | internal/infra/mysql/mileage_repository.go:161-164 | a reachable ledger whose walk shows one row twice and another neither as an item nor as a cursor |
| LedgerHistory.PagingWhileCommitting | internal/usecase/transactions.go:43-73 | a client that pages while others commit sees, up to one row per boundary, the ledger of its first page |
| Transactions.TransactionsUsecase.Execute | internal/usecase/transactions.go:43-73 | the page is cut from an admissible answer over the ledger of that moment: its first `limit` rows, and the one after them names the next page; each item shows a committed row of the user, its id, type, amount and insert time, and the cursor is the id of one; an error exactly if the query fails |
| Transactions.TransactionsUsecase.WalkAll | internal/usecase/transactions.go:57-70 | the client loop ends whatever ids are drawn and whatever others commit in between, and collects exactly the pages of a walk along that run; it stops early only at the first request that fails |
| Transactions.UndisturbedWalkIsFixed | internal/usecase/transactions.go:57-70 | when nobody commits in between it is a walk over a fixed ledger |
| Transactions.WalkedHistory | internal/usecase/transactions.go:57-70 | when ids follow the clock such a client has named exactly the ledger of its first page and was shown all but one row per boundary |
| Witnesses.StaleBetweenCommitAndDelete | internal/usecase/grant.go:99-106 | after every such commit a cached entry is stale until the DEL |
| Witnesses.StaleAfterLostDelete | internal/usecase/grant.go:103-106 | a successful DEL removes it; a failed one, or a death before it, leaves it stale |
| Witnesses.StaleBySlowReader | internal/usecase/balance.go:52-63 | a reader that read before the commit and sets after the DEL leaves a stale entry, and a hit on it, any time after the commit |
| Witnesses.StaleAfterUnacknowledgedCommit | internal/infra/mysql/tx.go:39-41 | a commit reported as an error can take effect, and then leaves the entry stale |
| Witnesses.CachedAccountReachable | internal/usecase/balance.go:60-63 | the starting points of the four lemmas above are reachable |
| Witnesses.ReplayReportsLaterPair | internal/usecase/grant.go:69-78 | a repeated call is answered under its own id with the pair of a later operation |
| Witnesses.GrantsCanOverflow | internal/domain/mileage/account.go:26-33 | two grants can make the stored balance negative |
| Witnesses.SameKeyBothKinds | migrations/001_create_tables.up.sql:31 | a grant and a redeem under one key both take effect |
| Witnesses.RaceLoserIsRefused | internal/usecase/grant.go:147-150 | of two concurrent calls with equal input, one can be told `ErrAlreadyProcessed` |
| Witnesses.RaceLoserLacksBalance | internal/usecase/redeem.go:126-130 | of two concurrent redeems with equal input, one can be told that the balance is insufficient because the other has spent it |

## Left out

- `grant.go` and `redeem.go` repeat the same protocol; `UpdateUsecase` models both, with the operation as a parameter of the input.
- `RunInTx` takes a function; here it calls `ExecuteInTx` directly, and `GetAccount` appears once for each place it is called from, because `GetTx` and `GetQuerier` only choose between the transaction and the pool.
- The imperative methods run one use case at a time; all other calls are steps of the script between its round trips, so two use-case objects never run inside one another.
- A SET that Redis applies only after the reader has answered: in the model a SET takes effect, if at all, no later than the answer.
- Waiting.SomeHolderGoesOn: does not cover the shared locks that InnoDB grants to several inserts waiting for one key when its holder rolls back; two of them can block each other until the server aborts one.
- A lock that outlives a failed rollback until MySQL notices the lost connection: the model releases it at once, which only allows more interleavings.
- Rows are never removed and no tool writes the tables past the use cases.
- The reason, the request id and the `updated_at` column are stored but take no part in any decision.
- Signup, users, achievements and rate limiting, except that `CreateAccount` is a step; that every user has an account is not claimed.
- HTTP handlers, the mapping of errors to status codes, JWT, logging, metrics and configuration.
- JSON encoding, string collation, column lengths, and cursors that are not the id of a row of this system.
- ULID generation: ids are arbitrary, and that they follow the clock is an assumption where it is needed.
- Transactions.TransactionsUsecase.WalkAll: the client stops at a failed request and does not repeat it.
- Undisturbed.UndisturbedCallCommits: no fairness or liveness under contention is claimed, since a call may lose three times and give up.
