/** What the ledger protocol guarantees over every interleaving. */
module LedgerTheorems {
  import opened Domain
  import opened Machine
  import opened Invariant
  import opened Preservation
  import opened Runs

  /** The invariant, one log or one call at a time. */
  lemma LogFacts(s: State, u: string)
    requires Reachable(s)
    ensures LogOk(s, u)
  {
    ReachableInv(s);
  }

  lemma CallFacts(s: State, c: CallId)
    requires Reachable(s) && c in s.calls
    ensures CallOk(s, c, s.calls[c]) && LogOk(s, s.calls[c].input.user)
  {
    ReachableInv(s);
  }

  /** Two different committed rows have different writers, keys and ids. */
  lemma EntriesDiffer(s: State, u: string, j: nat, v: string, k: nat)
    requires Reachable(s) && j < |Log(s, u)| && k < |Log(s, v)|
    ensures EntryOk(s, u, Log(s, u)[j]) && EntryOk(s, v, Log(s, v)[k])
    ensures u != v || j != k ==>
              && Log(s, u)[j].writer != Log(s, v)[k].writer
              && Log(s, u)[j].row.id != Log(s, v)[k].row.id
              && !SameKey(Log(s, u)[j].row, Log(s, v)[k].row)
  {
    hide LocksExclusive, CallOk, CacheOk, ReaderOk;
    ReachableInv(s);
    assert LogOk(s, u) && LogOk(s, v);
    if u == v && j != k {
      assert if j < k then Before(Log(s, u)[j], Log(s, u)[k]) else Before(Log(s, u)[k], Log(s, u)[j]);
    }
  }

  // ---- Serializability -----------------------------------------------------------------------

  /** Every reachable state equals a sequential history: the account is what plain `Grant` and
      `Redeem`, applied one after the other to the committed rows in version order, produce. */
  lemma Serializable(s: State, u: string)
    requires Reachable(s) && u in s.accounts
    ensures Replay(Log(s, u)) == Ok(s.accounts[u])
    ensures s.accounts[u].version == |Log(s, u)|
  {
    LogFacts(s, u);
  }

  /** A fresh success that reports version k returns exactly the sequential result of the first k
      rows, and row k is its own: its user, key, type and amount under the id it returned. */
  lemma FreshResultIsSequential(s: State, c: CallId)
    requires Reachable(s) && c in s.calls && s.calls[c].phase.Done? && s.calls[c].phase.outcome.Fresh?
    ensures var call := s.calls[c];
            var Fresh(id, a), log := call.phase.outcome, Log(s, call.input.user);
            && 1 <= a.version <= |log|
            && Replay(log[..a.version]) == Ok(a)
            && log[a.version - 1].row == RowFor(call.input, id)
            && log[a.version - 1].writer == c
  {
    var call := s.calls[c];
    CallFacts(s, c);
    assert EntryOk(s, call.input.user, Log(s, call.input.user)[call.phase.outcome.account.version - 1]);
  }

  /** For two committed operations on one account, the spans from read to commit never overlap;
      so the order of insertion is the version order, although a row is inserted before its
      version check. */
  lemma CriticalIntervalsDisjoint(s: State, u: string, j: nat, k: nat)
    requires Reachable(s) && j < |Log(s, u)| && k < |Log(s, u)| && j != k
    ensures var e, f := Log(s, u)[j], Log(s, u)[k];
            && e.readAt < e.insertedAt < e.committedAt
            && (e.committedAt < f.readAt || f.committedAt < e.readAt)
            && (j < k <==> e.committedAt < f.readAt)
            && (j < k <==> e.insertedAt < f.insertedAt)
  {
    LogFacts(s, u);
    assert EntryOk(s, u, Log(s, u)[j]) && EntryOk(s, u, Log(s, u)[k]);
    assert if j < k then Before(Log(s, u)[j], Log(s, u)[k]) else Before(Log(s, u)[k], Log(s, u)[j]);
  }

  /** The version that a successful call reports. */
  function Reported(call: Call): (v: int)
    requires call.phase.Done? && !call.phase.outcome.Failed?
  {
    call.phase.outcome.account.version
  }

  predicate Succeeded(s: State, c: CallId) {
    c in s.calls && s.calls[c].phase.Done? && !s.calls[c].phase.outcome.Failed?
  }

  lemma ReportedRowsPrecedeAnswer(s: State, c: CallId)
    requires Succeeded(s, c) && CallOk(s, c, s.calls[c]) && LogOk(s, s.calls[c].input.user)
    ensures var log := Log(s, s.calls[c].input.user);
            && 0 <= Reported(s.calls[c]) <= |log|
            && forall k :: 0 <= k < Reported(s.calls[c]) ==> log[k].committedAt < s.calls[c].phase.at
  {
    var call := s.calls[c];
    var log := Log(s, call.input.user);
    var i := call.phase.outcome.account.version - 1;
    if call.phase.outcome.Fresh? {
      assert EntryOk(s, call.input.user, log[i]);
      forall k | 0 <= k < i ensures log[k].committedAt < call.phase.at {
        assert Before(log[k], log[i]);
      }
    }
  }

  /** Real-time order: a call that starts after another has answered reports a version at least
      as new, and a strictly newer one if it committed a row of its own. */
  lemma RealTimeOrder(s: State, a: CallId, b: CallId)
    requires Reachable(s) && Succeeded(s, a) && Succeeded(s, b)
    requires s.calls[a].input.user == s.calls[b].input.user
    requires s.calls[a].phase.at <= s.calls[b].startedAt
    ensures Reported(s.calls[a]) <= Reported(s.calls[b])
    ensures s.calls[b].phase.outcome.Fresh? ==> Reported(s.calls[a]) < Reported(s.calls[b])
  {
    CallFacts(s, a);
    CallFacts(s, b);
    ReportedRowsPrecedeAnswer(s, a);
    var call := s.calls[b];
    if call.phase.outcome.Fresh? {
      assert EntryOk(s, call.input.user, Log(s, call.input.user)[Reported(call) - 1]);
    }
  }

  // ---- Conservation and overdraft --------------------------------------------------------------

  /** Grants minus redeems, over the unbounded integers. */
  function Sum(log: seq<Entry>): int
  {
    if |log| == 0 then 0
    else Sum(log[..|log| - 1]) + Delta(log[|log| - 1].row.kind, log[|log| - 1].row.amount)
  }

  lemma {:induction false} PrefixReplays(log: seq<Entry>, k: nat)
    requires Replay(log).Ok? && k <= |log|
    ensures Replay(log[..k]).Ok?
  {
    if k == |log| {
      assert log[..k] == log;
    } else {
      PrefixReplays(log[..|log| - 1], k);
      assert log[..|log| - 1][..k] == log[..k];
    }
  }

  /** One more row: the definitions of `Replay` and `Sum` read forwards. */
  lemma PrefixStep(log: seq<Entry>, k: nat)
    requires Replay(log).Ok? && k < |log|
    ensures Replay(log[..k]).Ok? && Replay(log[..k + 1]).Ok?
    ensures Replay(log[..k + 1]) == Perform(log[k].row.kind, Replay(log[..k]).value, log[k].row.amount)
    ensures Sum(log[..k + 1]) == Sum(log[..k]) + Delta(log[k].row.kind, log[k].row.amount)
  {
    PrefixReplays(log, k);
    PrefixReplays(log, k + 1);
    assert log[..k + 1][..k] == log[..k];
  }

  /** No committed grant ever took the balance past 2^63-1. A caller can check the condition
      of its own grant beforehand: balance + amount must not exceed 2^63-1. */
  predicate NeverOverflowed(log: seq<Entry>) {
    forall k :: 0 <= k < |log| ==>
      Replay(log[..k]).Ok? ==> !Overflows(log[k].row.kind, Replay(log[..k]).value, log[k].row.amount)
  }

  /** The balance after the first k rows. */
  function BalanceAt(log: seq<Entry>, k: nat): int
    requires k <= |log| && Replay(log[..k]).Ok?
  {
    Replay(log[..k]).value.balance
  }

  /** How many grants of a history overflowed. */
  function OverflowCount(log: seq<Entry>): nat
  {
    if |log| == 0 then 0
    else
      var rest, last := log[..|log| - 1], log[|log| - 1].row;
      OverflowCount(rest) +
      (if Replay(rest).Ok? && Overflows(last.kind, Replay(rest).value, last.amount) then 1 else 0)
  }

  /** One more row: the definition of `OverflowCount` read forwards. */
  lemma OverflowCountStep(log: seq<Entry>, k: nat)
    requires Replay(log).Ok? && k < |log|
    ensures Replay(log[..k]).Ok?
    ensures OverflowCount(log[..k + 1]) ==
            OverflowCount(log[..k]) +
            (if Overflows(log[k].row.kind, Replay(log[..k]).value, log[k].row.amount) then 1 else 0)
  {
    PrefixReplays(log, k);
    assert log[..k + 1][..k] == log[..k];
  }

  /** What was granted minus what was redeemed is the stored balance plus 2^64 for every grant that overflowed. */
  lemma {:induction false} BalanceEquation(log: seq<Entry>, k: nat)
    requires Replay(log).Ok? && k <= |log|
    ensures Replay(log[..k]).Ok? && Sum(log[..k]) == BalanceAt(log, k) + TWO_TO_THE_64 * OverflowCount(log[..k])
  {
    hide Perform, Delta, Overflows;
    PrefixReplays(log, k);
    if k > 0 {
      BalanceEquation(log, k - 1);
      PrefixStep(log, k - 1);
      OverflowCountStep(log, k - 1);
      PerformIsExactIffInRange(log[k - 1].row.kind, Replay(log[..k - 1]).value, log[k - 1].row.amount);
    }
  }

  lemma {:induction false} NoOverflowsCounted(log: seq<Entry>, k: nat)
    requires Replay(log).Ok? && k <= |log|
    ensures OverflowCount(log[..k]) == 0 <==>
            forall i :: 0 <= i < k ==>
              Replay(log[..i]).Ok? ==> !Overflows(log[i].row.kind, Replay(log[..i]).value, log[i].row.amount)
  {
    hide Replay, Overflows;
    if k > 0 {
      NoOverflowsCounted(log, k - 1);
      OverflowCountStep(log, k - 1);
    }
  }

  lemma BalanceExact(log: seq<Entry>, k: nat)
    requires Replay(log).Ok? && k <= |log| && NeverOverflowed(log)
    ensures Replay(log[..k]).Ok? && BalanceAt(log, k) == Sum(log[..k]) >= 0
  {
    hide Replay, Sum, Overflows;
    BalanceEquation(log, k);
    NoOverflowsCounted(log, k);
    SumCoversBalance(log, k);
  }

  lemma FirstWrongBalance(log: seq<Entry>, k: nat)
    requires Replay(log).Ok? && k < |log| && Replay(log[..k]).Ok?
    requires Overflows(log[k].row.kind, Replay(log[..k]).value, log[k].row.amount)
    ensures Replay(log[..k + 1]).Ok? && BalanceAt(log, k + 1) < 0
    ensures BalanceAt(log, k) != Sum(log[..k]) || BalanceAt(log, k + 1) != Sum(log[..k + 1])
  {
    PrefixStep(log, k);
    PerformIsExactIffInRange(log[k].row.kind, Replay(log[..k]).value, log[k].row.amount);
  }

  /** The balance is exact at every point of a history if and only if no grant overflowed; and it is negative at some
      point exactly when one did. */
  lemma ExactIffNeverOverflowed(log: seq<Entry>)
    requires Replay(log).Ok?
    ensures NeverOverflowed(log) <==>
            forall k :: 0 <= k <= |log| ==> Replay(log[..k]).Ok? && BalanceAt(log, k) == Sum(log[..k])
    ensures NeverOverflowed(log) <==> forall k :: 0 <= k <= |log| ==> Replay(log[..k]).Ok? && BalanceAt(log, k) >= 0
  {
    hide Replay, Sum, Overflows;
    if NeverOverflowed(log) {
      forall k | 0 <= k <= |log|
        ensures Replay(log[..k]).Ok? && BalanceAt(log, k) == Sum(log[..k]) && BalanceAt(log, k) >= 0
      {
        BalanceExact(log, k);
      }
    } else {
      var k :| 0 <= k < |log| && Replay(log[..k]).Ok? &&
               Overflows(log[k].row.kind, Replay(log[..k]).value, log[k].row.amount);
      FirstWrongBalance(log, k);
    }
  }

  /** Ledger conservation in every reachable state: what was granted minus what was redeemed is the stored balance
      plus 2^64 for every grant that overflowed; so the balance is exact if and only if no committed grant
      overflowed. */
  lemma Conservation(s: State, u: string)
    requires Reachable(s) && u in s.accounts
    ensures var log := Log(s, u);
            && Sum(log) == s.accounts[u].balance + TWO_TO_THE_64 * OverflowCount(log)
            && (s.accounts[u].balance == Sum(log) <==> NeverOverflowed(log))
  {
    hide Replay, Sum, Overflows;
    Serializable(s, u);
    var log := Log(s, u);
    assert log[..|log|] == log;
    BalanceEquation(log, |log|);
    NoOverflowsCounted(log, |log|);
  }

  /** No prefix of a history sums below zero, nor below the balance stored at that point. */
  lemma {:induction false} SumCoversBalance(log: seq<Entry>, k: nat)
    requires Replay(log).Ok? && k <= |log|
    ensures Replay(log[..k]).Ok? && Sum(log[..k]) >= 0 && Sum(log[..k]) >= BalanceAt(log, k)
  {
    PrefixReplays(log, k);
    if k > 0 {
      SumCoversBalance(log, k - 1);
      PrefixStep(log, k - 1);
      PerformIsExactIffInRange(log[k - 1].row.kind, Replay(log[..k - 1]).value, log[k - 1].row.amount);
    }
  }

  /** No overdraft at any point in history: although each redeem checked only its own snapshot, never more
      miles were spent than granted, not even when grants overflow; and the stored balance is negative
      somewhere in the history exactly when some grant did overflow. */
  lemma NoOverdraft(s: State, u: string)
    requires Reachable(s) && u in s.accounts
    ensures var log := Log(s, u);
            && (forall k :: 0 <= k <= |log| ==> Sum(log[..k]) >= 0)
            && s.accounts[u].balance <= Sum(log)
            && (NeverOverflowed(log) <==>
                forall k :: 0 <= k <= |log| ==> Replay(log[..k]).Ok? && BalanceAt(log, k) >= 0)
  {
    hide Replay, Sum, NeverOverflowed;
    Serializable(s, u);
    var log := Log(s, u);
    assert log[..|log|] == log;
    SumCoversBalance(log, |log|);
    ExactIffNeverOverflowed(log);
    forall k | 0 <= k <= |log| ensures Sum(log[..k]) >= 0 {
      SumCoversBalance(log, k);
    }
  }

  // ---- Idempotency -------------------------------------------------------------------------------

  /** At most one row, hence one balance change, per user, key and type, over all calls, retries,
      aborts and ambiguous commits; and ids name rows uniquely across all users. */
  lemma AtMostOnce(s: State, u: string, j: nat, v: string, k: nat)
    requires Reachable(s) && j < |Log(s, u)| && k < |Log(s, v)|
    requires SameKey(Log(s, u)[j].row, Log(s, v)[k].row) || Log(s, u)[j].row.id == Log(s, v)[k].row.id
    ensures u == v && j == k
  {
    EntriesDiffer(s, u, j, v, k);
  }

  /** Two calls that both report a fresh success under one user, key and type are the same call. */
  lemma OneFreshSuccessPerKey(s: State, c: CallId, d: CallId)
    requires Reachable(s) && Succeeded(s, c) && Succeeded(s, d)
    requires s.calls[c].phase.outcome.Fresh? && s.calls[d].phase.outcome.Fresh?
    requires SameKey(RowFor(s.calls[c].input, 0), RowFor(s.calls[d].input, 0))
    ensures c == d
  {
    FreshResultIsSequential(s, c);
    FreshResultIsSequential(s, d);
    AtMostOnce(s, s.calls[c].input.user, Reported(s.calls[c]) - 1, s.calls[d].input.user, Reported(s.calls[d]) - 1);
  }

  /** A row of this user, key and type is committed. */
  predicate KeyUsed(s: State, input: Input) {
    exists k :: 0 <= k < |Log(s, input.user)| && SameKey(Log(s, input.user)[k].row, RowFor(input, 0))
  }

  lemma SameLedgerSameKeys(s: State, t: State, input: Input)
    requires t.ledger == s.ledger
    ensures KeyUsed(t, input) <==> KeyUsed(s, input)
  {
    assert Log(t, input.user) == Log(s, input.user);
  }

  lemma SlotIffUsed(s: State, input: Input)
    requires Reachable(s)
    ensures SlotOf(s, input) >= 0 <==> KeyUsed(s, input)
  {
    LogFacts(s, input.user);
    if SlotOf(s, input) >= 0 {
      assert EntryOk(s, input.user, Log(s, input.user)[SlotOf(s, input)]);
      assert SameKey(Log(s, input.user)[SlotOf(s, input)].row, RowFor(input, 0));
    }
  }

  /** The lookup decides exactly: a call with an unused key goes on to its first attempt; with a
      used key it replays if the amount is the same and is refused as a conflict if it is not.
      Rows of the other type under the same key play no part. */
  lemma LookupDecides(s: State, c: CallId)
    requires Reachable(s) && Enabled(s, Find(c))
    ensures var input, next := s.calls[c].input, Next(s, Find(c)).calls[c].phase;
            && (next == Looping(0) <==> !KeyUsed(s, input))
            && (next.Replaying? <==> KeyUsedWithAmount(s, input))
            && (next.Done? <==> KeyUsed(s, input) && !KeyUsedWithAmount(s, input))
            && (next.Done? ==> next.outcome == Failed(IdempotencyConflict))
  {
    SlotIffUsed(s, s.calls[c].input);
    SlotIffReplayable(s, s.calls[c].input);
  }

  /** The committed row of this user, key and type has this amount too. */
  predicate KeyUsedWithAmount(s: State, input: Input) {
    exists k :: 0 <= k < |Log(s, input.user)| &&
                Log(s, input.user)[k].row == RowFor(input, Log(s, input.user)[k].row.id)
  }

  lemma SlotIffReplayable(s: State, input: Input)
    requires Reachable(s)
    ensures KeyUsedWithAmount(s, input) <==>
            SlotOf(s, input) >= 0 && Log(s, input.user)[SlotOf(s, input)].row.amount == input.amount
  {
    LogFacts(s, input.user);
    var log, j := Log(s, input.user), SlotOf(s, input);
    if j >= 0 {
      assert EntryOk(s, input.user, log[j]);
      assert log[j].row.amount == input.amount ==> log[j].row == RowFor(input, log[j].row.id);
      forall k | 0 <= k < |log| && log[k].row == RowFor(input, log[k].row.id) ensures k == j {
        EntriesDiffer(s, input.user, j, input.user, k);
      }
    }
  }

  /** The insert fails as already processed exactly when a row of the same user, key and type is
      committed, whatever is stored under the key with the other type. */
  lemma InsertFailsIffUsed(s: State, c: CallId, id: nat)
    requires Reachable(s) && Enabled(s, Insert(c, id))
    ensures var call, next := s.calls[c], Next(s, Insert(c, id)).calls[c];
            && (KeyUsed(s, call.input) <==> next.phase == RollingBack(call.phase.attempt, AlreadyProcessed))
            && (!KeyUsed(s, call.input) <==> next.tx.Pending? && next.tx.row == RowFor(call.input, id))
  {
    SlotIffUsed(s, s.calls[c].input);
  }

  /** Where a call may stand if `row` was committed under its user, key and type before its lookup. */
  predicate RepeatOf(row: Row, call: Call) {
    SameKey(row, RowFor(call.input, 0)) ==>
      match call.phase
      case Looking => true
      case Replaying(existing, _) => existing == row && row.amount == call.input.amount
      case Done(Replayed(id, _), _) => id == row.id && row.amount == call.input.amount
      case Done(Failed(e), _) =>
        || e in {BadAmount, MissingKey, Unclassified, Died}
        || (e == IdempotencyConflict && row.amount != call.input.amount)
      case _ => false
  }

  /** The lookup finds the only row of its key. */
  lemma LookupFindsRow(s: State, u: string, k: nat, input: Input)
    requires Reachable(s) && k < |Log(s, u)| && SameKey(Log(s, u)[k].row, RowFor(input, 0))
    ensures input.user == u && SlotOf(s, input) == k
  {
    EntriesDiffer(s, u, k, u, k);
    if SlotOf(s, input) >= 0 {
      EntriesDiffer(s, u, k, u, SlotOf(s, input));
    }
  }

  lemma FindRepeats(s: State, c: CallId, u: string, k: nat)
    requires Reachable(s) && Enabled(s, Find(c)) && k < |Log(s, u)|
    ensures RepeatOf(Log(s, u)[k].row, Next(s, Find(c)).calls[c])
  {
    hide Reachable;
    if SameKey(Log(s, u)[k].row, RowFor(s.calls[c].input, 0)) {
      LookupFindsRow(s, u, k, s.calls[c].input);
    }
  }

  lemma ReplayReadRepeats(s: State, c: CallId, row: Row)
    requires Reachable(s) && Enabled(s, ReplayRead(c)) && RepeatOf(row, s.calls[c])
    ensures RepeatOf(row, Next(s, ReplayRead(c)).calls[c])
  {
    hide Reachable;
    ReplayIsSafe(s, c);
  }

  lemma LookupStepRepeats(s: State, step: Step, c: CallId, row: Row)
    requires Enabled(s, step) && CallerStep(step, c) && LookupStep(step) && !step.Find? && !step.ReplayRead?
    requires c in s.calls ==> RepeatOf(row, s.calls[c])
    ensures c in Next(s, step).calls && RepeatOf(row, Next(s, step).calls[c])
  {
  }

  /** A repeated call makes no attempt. */
  lemma AttemptStepRepeats(s: State, step: Step, c: CallId, row: Row)
    requires Enabled(s, step) && CallerStep(step, c) && AttemptStep(step)
    requires c in s.calls ==> RepeatOf(row, s.calls[c])
    ensures c in Next(s, step).calls && RepeatOf(row, Next(s, step).calls[c])
  {
    hide SlotOf, Log, Perform, KeyHeld, IdFree, RowHeld, VersionMatches;
  }

  lemma WriteStepRepeats(s: State, step: Step, c: CallId, row: Row)
    requires Enabled(s, step) && CallerStep(step, c) && WriteStep(step)
    requires c in s.calls ==> RepeatOf(row, s.calls[c])
    ensures c in Next(s, step).calls && RepeatOf(row, Next(s, step).calls[c])
  {
    hide Log, Fates, Resolve;
    if step.Die? {
      assert Next(s, step).calls[c] == Ended(s, s.calls[c], Failed(Died));
    }
  }

  lemma OwnStepRepeats(s: State, step: Step, c: CallId, u: string, k: nat)
    requires Reachable(s) && Enabled(s, step) && CallerStep(step, c) && k < |Log(s, u)|
    requires c in s.calls ==> RepeatOf(Log(s, u)[k].row, s.calls[c])
    ensures c in Next(s, step).calls && RepeatOf(Log(s, u)[k].row, Next(s, step).calls[c])
  {
    hide Reachable, Next, RepeatOf;
    if step.Find? {
      CallStepMoves(s, step);
      FindRepeats(s, c, u, k);
    } else if step.ReplayRead? {
      CallStepMoves(s, step);
      ReplayReadRepeats(s, c, Log(s, u)[k].row);
    } else if LookupStep(step) {
      LookupStepRepeats(s, step, c, Log(s, u)[k].row);
    } else if AttemptStep(step) {
      AttemptStepRepeats(s, step, c, Log(s, u)[k].row);
    } else {
      WriteStepRepeats(s, step, c, Log(s, u)[k].row);
    }
  }

  lemma {:induction false} RunRepeats(s: State, steps: seq<Step>, t: State, c: CallId, u: string, k: nat)
    requires Reachable(s) && RunFrom(s, steps) == Some(t) && k < |Log(s, u)|
    requires c in s.calls ==> RepeatOf(Log(s, u)[k].row, s.calls[c])
    ensures c in t.calls ==> RepeatOf(Log(s, u)[k].row, t.calls[c])
  {
    hide Enabled, Next, CallerStep, RepeatOf, Inv;
    if |steps| > 0 {
      var p, step := RunFrom(s, steps[..|steps| - 1]).value, steps[|steps| - 1];
      RunRepeats(s, steps[..|steps| - 1], p, c, u, k);
      assert Reaches(s, p);
      ReachesReachable(s, p);
      ReachesGrows(s, p);
      assert Extends(Log(s, u), Log(p, u), s.now);
      if CallerStep(step, c) {
        OwnStepRepeats(p, step, c, u, k);
      } else {
        ForeignStepKeepsCall(p, step, c);
        ForeignStepRepeats(p, Next(p, step), c, Log(s, u)[k].row);
      }
    }
  }

  lemma ForeignStepRepeats(s: State, t: State, c: CallId, row: Row)
    requires CallKept(s, t, c) && (c in s.calls ==> RepeatOf(row, s.calls[c]))
    ensures c in t.calls ==> RepeatOf(row, t.calls[c])
  {
  }

  /** Idempotency in time: once a row is committed, every call under its user, key and type whose lookup is still
      to come never writes. If it succeeds, it has the same amount and returns the id of that very row; it is
      refused as a conflict only for another amount; and it never sees ErrAlreadyProcessed, which only a call that
      looked before the commit can. */
  lemma RepeatedCallReplays(s: State, u: string, k: nat, c: CallId, t: State)
    requires Reachable(s) && k < |Log(s, u)| && (c in s.calls ==> s.calls[c].phase.Looking?)
    requires Reaches(s, t) && c in t.calls && t.calls[c].phase.Done?
    requires SameKey(Log(s, u)[k].row, RowFor(t.calls[c].input, 0))
    ensures var row, call := Log(s, u)[k].row, t.calls[c];
            match call.phase.outcome
            case Fresh(_, _) => false
            case Replayed(id, _) => id == row.id && row == RowFor(call.input, id)
            case Failed(e) =>
              && e in {BadAmount, MissingKey, IdempotencyConflict, Unclassified, Died}
              && (e == IdempotencyConflict ==> row.amount != call.input.amount)
  {
    var steps :| RunFrom(s, steps) == Some(t);
    RunRepeats(s, steps, t, c, u, k);
  }

  // ---- All or nothing ------------------------------------------------------------------------------

  predicate WroteAt(s: State, c: CallId, u: string, k: int) {
    0 <= k < |Log(s, u)| && Log(s, u)[k].writer == c
  }

  /** One call commits at most one of its attempts. */
  lemma CommitsAtMostOneAttempt(s: State, c: CallId, u: string, j: nat, v: string, k: nat)
    requires Reachable(s) && WroteAt(s, c, u, j) && WroteAt(s, c, v, k)
    ensures u == v && j == k
  {
    EntriesDiffer(s, u, j, v, k);
  }

  /** Every error but a bare driver failure and the death of the process. */
  predicate Definite(e: Err) {
    e != Unclassified && e != Died
  }

  /** A definite error means that the call added nothing, now or at any later time: no attempt of
      it is committed, and none is left for the server to commit. */
  lemma DefiniteErrorMeansNoEffect(s: State, c: CallId, t: State, u: string, k: nat)
    requires Reachable(s) && c in s.calls && s.calls[c].phase.Done? && s.calls[c].phase.outcome.Failed?
    requires Definite(s.calls[c].phase.outcome.err)
    requires Reaches(s, t) && k < |Log(t, u)|
    ensures Log(t, u)[k].writer != c
  {
    ReachesReachable(s, t);
    ReachesGrows(s, t);
    LogFacts(t, u);
    assert AnswerKept(s, t, c);
    assert EntryOk(t, u, Log(t, u)[k]);
  }

  /** While a call is between attempts or inside one, none of its attempts is committed. */
  lemma RunningCallHasNoEffect(s: State, c: CallId, u: string, k: nat)
    requires Reachable(s) && c in s.calls && !s.calls[c].phase.Done? && !s.calls[c].phase.Deleting?
    requires k < |Log(s, u)|
    ensures Log(s, u)[k].writer != c
  {
    LogFacts(s, u);
    assert EntryOk(s, u, Log(s, u)[k]);
  }

  /** The process never dereferences a missing account, and the domain never sees a bad amount. */
  lemma NeverPanics(s: State, c: CallId)
    requires Reachable(s) && c in s.calls && s.calls[c].phase.Done?
    ensures s.calls[c].phase.outcome != Failed(NilDereference)
    ensures s.calls[c].phase.outcome != Failed(InvalidAmount)
  {
    CallFacts(s, c);
  }

  // ---- Success names a real effect -------------------------------------------------------------------

  /** Fresh or replayed, a success returns the id of a committed row with exactly the caller's user,
      key, type and amount, at or below the reported version; the reported pair is one that the account really had;
      and in every later state the same row is still there. */
  lemma SuccessNamesLastingRow(s: State, c: CallId, t: State) returns (k: nat)
    requires Reachable(s) && Succeeded(s, c) && Reaches(s, t)
    ensures var call := s.calls[c];
            && k < Reported(call) && k < |Log(s, call.input.user)| && k < |Log(t, call.input.user)|
            && Log(s, call.input.user)[k].row == RowFor(call.input, call.phase.outcome.id)
            && Log(t, call.input.user)[k] == Log(s, call.input.user)[k]
            && Historical(Log(s, call.input.user), call.phase.outcome.account)
            && (call.phase.outcome.Fresh? ==> Log(s, call.input.user)[k].writer == c)
  {
    CallFacts(s, c);
    ReachesGrows(s, t);
    var call := s.calls[c];
    var log := Log(s, call.input.user);
    assert Extends(log, Log(t, call.input.user), s.now);
    if call.phase.outcome.Fresh? {
      FreshResultIsSequential(s, c);
      k := Reported(call) - 1;
    } else {
      k :| 0 <= k < |log| && k < Reported(call) && log[k].row == RowFor(call.input, call.phase.outcome.id);
    }
  }

  /** A replay always finds its account, changes nothing, and answers with the account as it is at
      that moment, which already counts the replayed row. */
  lemma ReplayIsSafe(s: State, c: CallId)
    requires Reachable(s) && Enabled(s, ReplayRead(c))
    ensures var call, t := s.calls[c], Next(s, ReplayRead(c));
            && call.input.user in s.accounts
            && t == s.(calls := s.calls[c := t.calls[c]], now := s.now + 1)
            && t.calls[c].phase == Done(Replayed(call.phase.existing.id, s.accounts[call.input.user]), s.now)
            && call.phase.existing == RowFor(call.input, call.phase.existing.id)
            && call.phase.slot < s.accounts[call.input.user].version == |Log(s, call.input.user)|
            && Log(s, call.input.user)[call.phase.slot].row == call.phase.existing
  {
    CallFacts(s, c);
  }

  /** A replay, which answers with the account as it is now, repeats the original balance and version if and only if no
      other row of the account was committed after the replayed one; otherwise it reports a newer pair. */
  lemma ReplayIsOriginalIffLast(s: State, c: CallId)
    requires Reachable(s) && Enabled(s, ReplayRead(c))
    ensures var call := s.calls[c];
            var u, log, slot := call.input.user, Log(s, call.input.user), call.phase.slot;
            && u in s.accounts && slot < |log| && Replay(log[..slot + 1]).Ok?
            && Next(s, ReplayRead(c)).calls[c].phase.outcome == Replayed(call.phase.existing.id, s.accounts[u])
            && (s.accounts[u] == Replay(log[..slot + 1]).value <==> slot + 1 == |log|)
            && slot + 1 <= s.accounts[u].version
  {
    CallFacts(s, c);
    ReplayIsSafe(s, c);
    var log, slot := Log(s, s.calls[c].input.user), s.calls[c].phase.slot;
    assert log[..|log|] == log;
    ReplayCountsRows(log, slot + 1);
  }

  /** Versions count rows, as long as they are int64 values. */
  lemma {:induction false} ReplayCountsRows(log: seq<Entry>, k: nat)
    requires Replay(log).Ok? && k <= |log| <= MAX_INT64
    ensures Replay(log[..k]).Ok? && Replay(log[..k]).value.version == k
  {
    PrefixReplays(log, k);
    if k > 0 {
      ReplayCountsRows(log, k - 1);
      PrefixStep(log, k - 1);
    }
  }

  // ---- System progress ---------------------------------------------------------------------------------

  /** Attempt i lost to a row of another call that was committed between this attempt's read and its update. */
  predicate BeatenBy(s: State, c: CallId, i: nat)
    requires c in s.calls && i < |s.calls[c].lost|
  {
    var l := s.calls[c].lost[i];
    && Beaten(Log(s, s.calls[c].input.user), c, l)
    && (i > 0 ==> s.calls[c].lost[i - 1].version < l.version && s.calls[c].lost[i - 1].lostAt < l.readAt)
  }

  /** Each attempt lost to an optimistic lock conflict was beaten by a row that a different call committed between
      this attempt's read and its update; the versions read rise strictly from attempt to attempt, so
      the winners are all different. */
  lemma LostAttemptsHaveWinners(s: State, c: CallId, i: nat)
    requires Reachable(s) && c in s.calls && i < |s.calls[c].lost|
    ensures BeatenBy(s, c, i)
  {
    CallFacts(s, c);
    assert Beaten(Log(s, s.calls[c].input.user), c, s.calls[c].lost[i]);
  }

  /** A call that gives up after three conflicts read an account at least three versions older than the
      one it leaves behind. */
  lemma GivingUpMeansThreeCommits(s: State, c: CallId)
    requires Reachable(s) && c in s.calls && s.calls[c].phase.Done?
    requires s.calls[c].phase.outcome == Failed(OptimisticLock)
    ensures var call := s.calls[c];
            && |call.lost| == MAX_RETRIES && call.input.user in s.accounts
            && s.accounts[call.input.user].version >= call.lost[0].version + 3
            && forall i :: 0 <= i < 3 ==> BeatenBy(s, c, i)
  {
    CallFacts(s, c);
    var lost := s.calls[c].lost;
    assert lost[0].version < lost[1].version < lost[2].version;
    forall i | 0 <= i < 3 ensures BeatenBy(s, c, i) {
      LostAttemptsHaveWinners(s, c, i);
    }
    assert Beaten(Log(s, s.calls[c].input.user), c, lost[2]);
  }

  /** How many steps of its own a call may still take. */
  function Rank(call: Call): nat {
    match call.phase
    case Looking => 17
    case Replaying(_, _) => 1
    case Looping(a) => 5 * Left(a) + 1
    case InTx(a, ToCommit) => 2
    case InTx(a, pc) =>
      if a >= MAX_RETRIES then 2
      else 5 * Left(a) - (match pc case ToRead => 0 case ToInsert => 1 case _ => 2)
    case RollingBack(a, _) => if a >= MAX_RETRIES then 2 else 5 * Left(a) - 3
    case Deleting(_, _) => 1
    case Done(_, _) => 0
  }

  function Left(attempt: nat): nat {
    if attempt >= MAX_RETRIES then 0 else MAX_RETRIES - attempt
  }

  predicate AttemptInRange(call: Call) {
    call.phase.Looping? || call.phase.InTx? || call.phase.RollingBack? ==> call.phase.attempt < MAX_RETRIES
  }

  /** A step of its own brings a call closer to its answer. */
  lemma OwnStepLowersRank(s: State, step: Step, c: CallId)
    requires Enabled(s, step) && CallerStep(step, c)
    requires c in s.calls ==> AttemptInRange(s.calls[c])
    ensures c in Next(s, step).calls
    ensures if c in s.calls then Rank(Next(s, step).calls[c]) < Rank(s.calls[c]) else Rank(Next(s, step).calls[c]) <= 17
  {
    hide Enabled, Next, Rank;
    if WriteStep(step) {
      OwnWriteStepLowersRank(s, step, c);
    } else if LookupStep(step) {
      LookupStepLowersRank(s, step, c);
    } else {
      AttemptStepLowersRank(s, step, c);
    }
  }

  lemma LookupStepLowersRank(s: State, step: Step, c: CallId)
    requires Enabled(s, step) && CallerStep(step, c)
    requires LookupStep(step)
    ensures c in Next(s, step).calls
    ensures if c in s.calls then Rank(Next(s, step).calls[c]) < Rank(s.calls[c]) else Rank(Next(s, step).calls[c]) <= 17
  {
    hide SlotOf, Log;
  }

  lemma AttemptStepLowersRank(s: State, step: Step, c: CallId)
    requires Enabled(s, step) && CallerStep(step, c) && AttemptStep(step)
    requires c in s.calls ==> AttemptInRange(s.calls[c])
    ensures c in s.calls && c in Next(s, step).calls && Rank(Next(s, step).calls[c]) < Rank(s.calls[c])
  {
    hide SlotOf, Log, Perform, KeyHeld, IdFree, RowHeld, VersionMatches;
  }

  lemma OwnWriteStepLowersRank(s: State, step: Step, c: CallId)
    requires Enabled(s, step) && CallerStep(step, c) && WriteStep(step)
    requires c in s.calls ==> AttemptInRange(s.calls[c])
    ensures c in s.calls && c in Next(s, step).calls && Rank(Next(s, step).calls[c]) < Rank(s.calls[c])
  {
    hide Log, Fates, Resolve;
    if step.Die? {
      assert Next(s, step).calls[c] == Ended(s, s.calls[c], Failed(Died));
    }
  }

  lemma AttemptsInRange(s: State, c: CallId)
    requires Reachable(s) && c in s.calls
    ensures AttemptInRange(s.calls[c])
  {
    CallFacts(s, c);
  }

  function OwnSteps(steps: seq<Step>, c: CallId): nat {
    if |steps| == 0 then 0
    else OwnSteps(steps[..|steps| - 1], c) + (if CallerStep(steps[|steps| - 1], c) then 1 else 0)
  }

  /** Wait-freedom of the client code: in every run, whatever all others do, a call takes at most 18 steps of
      its own, its invocation included. */
  lemma {:induction false} CallsTakeBoundedSteps(steps: seq<Step>, s: State, c: CallId)
    requires RunFrom(START, steps) == Some(s)
    ensures OwnSteps(steps, c) + (if c in s.calls then Rank(s.calls[c]) else 18) <= 18
  {
    hide Enabled, Next, CallerStep, Rank, Inv;
    if |steps| > 0 {
      var p, step := RunFrom(START, steps[..|steps| - 1]).value, steps[|steps| - 1];
      CallsTakeBoundedSteps(steps[..|steps| - 1], p, c);
      if CallerStep(step, c) {
        if c in p.calls {
          AttemptsInRange(p, c) by { assert Reaches(START, p); }
        }
        OwnStepLowersRank(p, step, c);
      } else {
        ForeignStepKeepsRank(p, step, c);
      }
    }
  }

  lemma ForeignStepKeepsRank(s: State, step: Step, c: CallId)
    requires Enabled(s, step) && !CallerStep(step, c)
    ensures c in s.calls <==> c in Next(s, step).calls
    ensures c in s.calls ==> Rank(Next(s, step).calls[c]) == Rank(s.calls[c])
  {
    ForeignStepKeepsCall(s, step, c);
  }

  // ---- What pagination may rely on ----------------------------------------------------------------------

  /** Rows of one user become visible in the order in which they were inserted: every row that a later
      state adds was inserted after every row that is already there. */
  lemma LaterRowsAreNewer(s: State, t: State, u: string, j: nat, k: nat)
    requires Reachable(s) && Reaches(s, t) && j < |Log(s, u)| <= k < |Log(t, u)|
    ensures Log(t, u)[j] == Log(s, u)[j]
    ensures Log(t, u)[j].insertedAt < Log(t, u)[k].insertedAt
  {
    ReachesReachable(s, t);
    ReachesGrows(s, t);
    assert Extends(Log(s, u), Log(t, u), s.now);
    CriticalIntervalsDisjoint(t, u, j, k);
  }
}
