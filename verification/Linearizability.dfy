/** Each answered call takes effect at one step of the run between its invocation and its answer. */
module Linearizability {
  import opened Domain
  import opened Machine
  import opened Invariant
  import opened Preservation
  import opened Runs
  import opened LedgerTheorems
  import opened Refusals
  import opened CacheAge

  /** An answer about the tables: every success, and every refusal. */
  predicate Decided(outcome: Outcome) {
    outcome.Failed? ==> IsRefusal(outcome.err)
  }

  /** What the operation, run alone with its idempotency check on the tables of `p`, may answer. */
  predicate AnswersAt(p: State, input: Input, outcome: Outcome) {
    match outcome
    case Fresh(_, a) =>
      && !KeyUsed(p, input) && input.user in p.accounts
      && Perform(input.kind, p.accounts[input.user], input.amount) == Ok(a)
    case Replayed(id, a) =>
      && input.user in p.accounts && p.accounts[input.user] == a
      && exists k :: 0 <= k < |Log(p, input.user)| && Log(p, input.user)[k].row == RowFor(input, id)
    case Failed(e) => RefusedAt(p, input, e)
  }

  /** The step from `p` to `q` writes the answer into the tables: one more row and its balance. */
  predicate Writes(p: State, q: State, input: Input, id: nat, a: Account) {
    var u := input.user;
    && u in q.accounts && q.accounts[u] == a
    && |Log(q, u)| == |Log(p, u)| + 1 && Log(q, u)[..|Log(p, u)|] == Log(p, u)
    && Log(q, u)[|Log(p, u)|].row == RowFor(input, id)
  }

  lemma StateAtFacts(steps: seq<Step>, s: State, n: nat)
    requires RunFrom(START, steps) == Some(s) && n <= |steps|
    ensures RunFrom(START, steps[..n]) == Some(StateAt(steps, n)) && StateAt(steps, n).now == n
    ensures Reachable(StateAt(steps, n))
    ensures Grows(StateAt(steps, n), s) && AnswersFinal(StateAt(steps, n), s)
  {
    hide Next, Enabled, Grows, AnswersFinal;
    PrefixRuns(steps, n);
    NowCountsSteps(steps[..n], StateAt(steps, n));
    RunGrows(StateAt(steps, n), steps[n..], s);
  }

  lemma StepAtFacts(steps: seq<Step>, s: State, n: nat)
    requires RunFrom(START, steps) == Some(s) && n < |steps|
    ensures Enabled(StateAt(steps, n), steps[n]) && StateAt(steps, n + 1) == Next(StateAt(steps, n), steps[n])
  {
    hide Next, Enabled;
    PrefixRuns(steps, n + 1);
    var first := steps[..n + 1];
    assert first[..n] == steps[..n] && first[n] == steps[n];
  }

  /** As many rows are visible at step n as have smaller stamps. */
  lemma RowsAt(steps: seq<Step>, s: State, u: string, n: nat, v: nat)
    requires RunFrom(START, steps) == Some(s) && n <= |steps| && v <= |Log(s, u)|
    requires forall k :: 0 <= k < v ==> Log(s, u)[k].committedAt < n
    requires v < |Log(s, u)| ==> Log(s, u)[v].committedAt >= n
    ensures Log(StateAt(steps, n), u) == Log(s, u)[..v]
  {
    hide AnswersFinal;
    StateAtFacts(steps, s, n);
    assert Extends(Log(StateAt(steps, n), u), Log(s, u), n);
    if v > 0 {
      StampsAreExact(steps, s, u, v - 1, n);
    }
    if v < |Log(s, u)| {
      StampsAreExact(steps, s, u, v, n);
    }
  }

  /** The step that makes a row visible is a commit of its writer. */
  lemma RowAppearsByCommit(p: State, step: Step, u: string)
    requires Enabled(p, step) && |Log(Next(p, step), u)| > |Log(p, u)|
    ensures step.Commit? || step.ServerCommit?
    ensures step.c in p.calls && p.calls[step.c].tx.Locked? && p.calls[step.c].input.user == u
    ensures step.Commit? ==> Is(p, step.c, ToCommit)
    ensures step.ServerCommit? ==> p.calls[step.c].phase.Done?
    ensures |Log(Next(p, step), u)| == |Log(p, u)| + 1 && Log(Next(p, step), u)[|Log(p, u)|].writer == step.c
  {
    if !step.Commit? && !step.ServerCommit? {
      hide Next, Enabled;
      OnlyCommitsWrite(p, step);
    }
  }

  /** A fresh success takes effect at its own commit. */
  lemma FreshTakesEffectAtCommit(steps: seq<Step>, s: State, c: CallId) returns (n: nat)
    requires RunFrom(START, steps) == Some(s) && c in s.calls
    requires s.calls[c].phase.Done? && s.calls[c].phase.outcome.Fresh?
    ensures var call := s.calls[c];
            && call.startedAt < n < call.phase.at && n < |steps| && steps[n] == Commit(c)
            && AnswersAt(StateAt(steps, n), call.input, call.phase.outcome)
            && Writes(StateAt(steps, n), StateAt(steps, n + 1), call.input,
                      call.phase.outcome.id, call.phase.outcome.account)
  {
    hide Next, Enabled, CallOk, AnswersAt, Writes, AnswersFinal, Grows;
    var call := s.calls[c];
    var u, v := call.input.user, call.phase.outcome.account.version - 1;
    n := FreshStamp(steps, s, c);
    RowsAt(steps, s, u, n, v);
    RowsAt(steps, s, u, n + 1, v + 1);
    StateAtFacts(steps, s, n);
    StateAtFacts(steps, s, n + 1);
    StepAtFacts(steps, s, n);
    var p, q := StateAt(steps, n), StateAt(steps, n + 1);
    RowAppearsByCommit(p, steps[n], u);
    assert Log(s, u)[..v + 1][v].writer == c;
    CommitIsAcknowledged(p, s, c, steps[n]);
    assert Reaches(START, s);
    AnswerOf(p, s, c);
    FreshAnswerIsSequential(s, p, q, c);
  }

  /** The stamp of the call's own row lies in the call's span and divides the ledger at that row. */
  lemma FreshStamp(steps: seq<Step>, s: State, c: CallId) returns (n: nat)
    requires RunFrom(START, steps) == Some(s) && c in s.calls
    requires s.calls[c].phase.Done? && s.calls[c].phase.outcome.Fresh?
    ensures var call := s.calls[c];
            var log, v := Log(s, call.input.user), call.phase.outcome.account.version - 1;
            && 0 <= v < |log| && n == log[v].committedAt && log[v].writer == c
            && call.startedAt < n < call.phase.at && n < |steps|
            && (forall k :: 0 <= k < v ==> log[k].committedAt < n)
            && (v + 1 < |log| ==> log[v + 1].committedAt > n)
  {
    assert Reaches(START, s);
    NowCountsSteps(steps, s);
    CallFacts(s, c);
    var call := s.calls[c];
    var u, v := call.input.user, call.phase.outcome.account.version - 1;
    var log := Log(s, u);
    n := log[v].committedAt;
    assert EntryOk(s, u, log[v]);
    forall k | 0 <= k < v ensures log[k].committedAt < n {
      assert Before(log[k], log[v]);
    }
    if v + 1 < |log| {
      assert Before(log[v], log[v + 1]) && EntryOk(s, u, log[v + 1]);
    }
  }

  /** A call that later answers with success committed while it was running. */
  lemma CommitIsAcknowledged(p: State, s: State, c: CallId, step: Step)
    requires Reachable(p) && AnswersFinal(p, s) && (step.Commit? || step.ServerCommit?) && step.c == c
    requires c in p.calls && c in s.calls && s.calls[c].phase.Done? && p.now < s.calls[c].phase.at
    requires step.ServerCommit? ==> p.calls[c].phase.Done?
    ensures step == Commit(c)
  {
    CallFacts(p, c);
    assert AnswerKept(p, s, c);
  }

  lemma FreshAnswerIsSequential(s: State, p: State, q: State, c: CallId)
    requires Reachable(s) && Reachable(p) && Reachable(q) && Enabled(p, Commit(c)) && q == Next(p, Commit(c))
    requires c in s.calls && s.calls[c].phase.Done? && s.calls[c].phase.outcome.Fresh? && AnswerKept(p, s, c)
    requires var log, v := Log(s, s.calls[c].input.user), s.calls[c].phase.outcome.account.version - 1;
             && 0 <= v < |log|
             && Log(p, s.calls[c].input.user) == log[..v] && Log(q, s.calls[c].input.user) == log[..v + 1]
    ensures var call := s.calls[c];
            && AnswersAt(p, call.input, call.phase.outcome)
            && Writes(p, q, call.input, call.phase.outcome.id, call.phase.outcome.account)
  {
    hide Reachable, KeyUsed, Perform, Replay;
    var call := s.calls[c];
    var u, v := call.input.user, call.phase.outcome.account.version - 1;
    FreshResultIsSequential(s, c);
    CommitterHasAccount(p, c);
    AccountStays(p, q, Commit(c), u);
    hide Next, Enabled;
    Serializable(p, u);
    Serializable(q, u);
    ReplaySplits(Log(s, u), v);
    KeyUnusedBefore(s, p, u, v, call.input);
  }

  /** The definition of `Replay` at one row of a history. */
  lemma ReplaySplits(log: seq<Entry>, v: nat)
    requires v < |log| && Replay(log[..v + 1]).Ok?
    ensures Replay(log[..v]).Ok?
    ensures Replay(log[..v + 1]) == Perform(log[v].row.kind, Replay(log[..v]).value, log[v].row.amount)
  {
    assert log[..v + 1][..v] == log[..v];
  }

  /** Before the row of a key is there, the key is unused. */
  lemma KeyUnusedBefore(s: State, p: State, u: string, v: nat, input: Input)
    requires Reachable(s) && v < |Log(s, u)| && Log(p, u) == Log(s, u)[..v] && input.user == u
    requires SameKey(Log(s, u)[v].row, RowFor(input, 0))
    ensures !KeyUsed(p, input)
  {
    forall k | 0 <= k < |Log(p, u)| ensures !SameKey(Log(p, u)[k].row, RowFor(input, 0)) {
      assert Log(p, u)[k] == Log(s, u)[k];
      EntriesDiffer(s, u, k, u, v);
    }
  }

  lemma AnswerOf(p: State, s: State, c: CallId)
    requires AnswersFinal(p, s)
    ensures AnswerKept(p, s, c)
  {
  }

  lemma CommitterHasAccount(p: State, c: CallId)
    requires Reachable(p) && Enabled(p, Commit(c))
    ensures p.calls[c].input.user in p.accounts
  {
    CallFacts(p, c);
  }

  lemma AccountStays(p: State, q: State, step: Step, u: string)
    requires Enabled(p, step) && q == Next(p, step) && u in p.accounts
    ensures u in q.accounts
  {
    hide Next, Enabled;
    StepGrows(p, step);
  }

  /** A replay takes effect at its read of the account. */
  lemma ReplayTakesEffectAtRead(steps: seq<Step>, s: State, c: CallId) returns (n: nat)
    requires RunFrom(START, steps) == Some(s) && c in s.calls
    requires s.calls[c].phase.Done? && s.calls[c].phase.outcome.Replayed?
    ensures var call := s.calls[c];
            && call.startedAt < n <= call.phase.at && n < |steps|
            && AnswersAt(StateAt(steps, n), call.input, call.phase.outcome)
  {
    hide Next, Enabled;
    assert Reaches(START, s);
    NowCountsSteps(steps, s);
    CallFacts(s, c);
    var call := s.calls[c];
    var u, a, log := call.input.user, call.phase.outcome.account, Log(s, call.input.user);
    n := call.phase.at;
    RowsAt(steps, s, u, n, a.version);
    StateAtFacts(steps, s, n);
    var k :| 0 <= k < |log| && k < a.version && log[k].row == RowFor(call.input, call.phase.outcome.id);
    assert log[..a.version][k] == log[k];
    LogFacts(StateAt(steps, n), u);
  }

  /** Linearizability. Each call that has answered with a success or a refusal took effect at one step between its
      invocation and its answer: there its answer is what the operation, run alone with its idempotency check,
      answers on the committed tables; a fresh success writes its row and balance at that very step, and every
      other decided answer writes nothing at any step. */
  lemma EachAnswerTakesEffectOnce(steps: seq<Step>, s: State, c: CallId) returns (n: nat)
    requires RunFrom(START, steps) == Some(s) && c in s.calls && s.calls[c].phase.Done?
    requires Decided(s.calls[c].phase.outcome)
    ensures var call := s.calls[c];
            && call.startedAt < n <= call.phase.at && n < |steps|
            && AnswersAt(StateAt(steps, n), call.input, call.phase.outcome)
            && (match call.phase.outcome
                case Fresh(id, a) =>
                  steps[n] == Commit(c) && Writes(StateAt(steps, n), StateAt(steps, n + 1), call.input, id, a)
                case _ => forall u, k :: 0 <= k < |Log(s, u)| ==> Log(s, u)[k].writer != c)
  {
    hide AnswersAt, Writes, Next, Enabled;
    var call := s.calls[c];
    assert Reaches(START, s);
    match call.phase.outcome
    case Fresh(_, _) =>
      n := FreshTakesEffectAtCommit(steps, s, c);
    case Replayed(_, _) =>
      n := ReplayTakesEffectAtRead(steps, s, c);
      DecidedWithoutWriting(s, c);
    case Failed(e) =>
      n := RefusalsAreSequential(steps, s, c, e);
      RefusalAnswers(steps, n, c, call.input, e);
      StateAtFacts(steps, s, n);
      assert AnswerKept(StateAt(steps, n), s, c);
      DecidedWithoutWriting(s, c);
  }

  lemma RefusalAnswers(steps: seq<Step>, n: nat, c: CallId, input: Input, e: Err)
    requires MomentOfRefusal(steps, n, c, input, e)
    ensures n < |steps| && AnswersAt(StateAt(steps, n), input, Failed(e))
    ensures StateAt(steps, n).calls.Keys >= {c} && StateAt(steps, n).calls[c].startedAt < n
  {
  }

  lemma DecidedWithoutWriting(s: State, c: CallId)
    requires Reachable(s) && c in s.calls && s.calls[c].phase.Done? && Decided(s.calls[c].phase.outcome)
    requires !s.calls[c].phase.outcome.Fresh?
    ensures forall u, k :: 0 <= k < |Log(s, u)| ==> Log(s, u)[k].writer != c
  {
    forall u, k | 0 <= k < |Log(s, u)| ensures Log(s, u)[k].writer != c {
      LogFacts(s, u);
      assert EntryOk(s, u, Log(s, u)[k]);
    }
  }
}
