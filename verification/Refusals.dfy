/** What an error tells the caller: every refusal is the answer that the sequential specification gives at one
    moment between the call and its answer; and every attempt but the last was lost to a conflict. */
module Refusals {
  import opened Domain
  import opened Machine
  import opened Invariant
  import opened Preservation
  import opened Runs
  import opened LedgerTheorems

  /** The operation, run alone on the tables of `p`, is refused with `e`. */
  predicate RefusedAt(p: State, input: Input, e: Err) {
    match e
    case AccountNotFound => input.user !in p.accounts
    case InsufficientBalance =>
      input.user in p.accounts && input.kind == Redeem && p.accounts[input.user].balance < input.amount
    case AlreadyProcessed => KeyUsed(p, input)
    case IdempotencyConflict => KeyUsed(p, input) && !KeyUsedWithAmount(p, input)
    case _ => false
  }

  predicate IsRefusal(e: Err) {
    e in {AccountNotFound, InsufficientBalance, AlreadyProcessed, IdempotencyConflict}
  }

  /** The call is about to answer `e`, or has. */
  predicate StandsRefused(call: Call, e: Err) {
    match call.phase
    case RollingBack(_, cause) => cause == e
    case Done(outcome, _) => outcome == Failed(e)
    case _ => false
  }

  // ---- One step ----------------------------------------------------------------------------------

  /** The step at which a call turns to `e` is its own, and `e` is the sequential answer at that moment. */
  predicate TurnsDown(s: State, step: Step, c: CallId, e: Err) {
    && CallerStep(step, c) && c in s.calls && !s.calls[c].phase.Done? && RefusedAt(s, s.calls[c].input, e)
    && (e == AlreadyProcessed ==> step.Insert?)
  }

  lemma LookupStepRefuses(s: State, step: Step, c: CallId, e: Err)
    requires Reachable(s) && Enabled(s, step) && CallerStep(step, c) && LookupStep(step) && IsRefusal(e)
    requires StandsRefused(Next(s, step).calls[c], e)
    ensures TurnsDown(s, step, c, e)
  {
    hide Reachable, SlotOf, KeyUsed, KeyUsedWithAmount;
    if step.Find? {
      LookupDecides(s, c);
    } else if step.ReplayRead? {
      ReplayIsSafe(s, c);
    }
  }

  lemma AttemptStepRefuses(s: State, step: Step, c: CallId, e: Err)
    requires Reachable(s) && Enabled(s, step) && CallerStep(step, c) && AttemptStep(step) && IsRefusal(e)
    requires AmountPositive(s, c)
    requires StandsRefused(Next(s, step).calls[c], e) && !StandsRefused(s.calls[c], e)
    ensures TurnsDown(s, step, c, e)
  {
    hide Reachable, SlotOf, KeyUsed, KeyHeld, IdFree, RowHeld;
    if step.Insert? {
      InsertFailsIffUsed(s, c, step.id);
    }
  }

  predicate AmountPositive(s: State, c: CallId) {
    c in s.calls && !s.calls[c].phase.Done? ==> s.calls[c].input.amount > 0
  }

  lemma RunningAmountPositive(s: State, c: CallId)
    requires Reachable(s)
    ensures AmountPositive(s, c)
  {
    if c in s.calls {
      CallFacts(s, c);
    }
  }

  lemma WriteStepRefusesNothing(s: State, step: Step, c: CallId, e: Err)
    requires Enabled(s, step) && CallerStep(step, c) && WriteStep(step) && IsRefusal(e)
    ensures c in s.calls && c in Next(s, step).calls && !StandsRefused(Next(s, step).calls[c], e)
  {
    hide Log, Fates, Resolve;
    if step.Die? {
      assert Next(s, step).calls[c] == Ended(s, s.calls[c], Failed(Died));
    }
  }

  lemma ForeignStepRefusesNothing(s: State, step: Step, c: CallId, e: Err)
    requires Enabled(s, step) && !CallerStep(step, c) && c in Next(s, step).calls
    ensures c in s.calls && (StandsRefused(Next(s, step).calls[c], e) <==> StandsRefused(s.calls[c], e))
  {
    hide Enabled, Next, CallerStep;
    ForeignStepKeepsCall(s, step, c);
  }

  lemma StepRefuses(s: State, step: Step, c: CallId, e: Err)
    requires Reachable(s) && Enabled(s, step) && IsRefusal(e)
    requires c in Next(s, step).calls && StandsRefused(Next(s, step).calls[c], e)
    ensures (c in s.calls && StandsRefused(s.calls[c], e)) || TurnsDown(s, step, c, e)
  {
    hide Reachable, Enabled, Next, StandsRefused, TurnsDown, IsRefusal;
    if !CallerStep(step, c) {
      ForeignStepRefusesNothing(s, step, c, e);
    } else if LookupStep(step) {
      LookupStepRefuses(s, step, c, e);
    } else if AttemptStep(step) {
      RunningAmountPositive(s, c);
      if !(c in s.calls && StandsRefused(s.calls[c], e)) {
        AttemptStepActs(s, step, c);
        AttemptStepRefuses(s, step, c, e);
      }
    } else {
      WriteStepRefusesNothing(s, step, c, e);
    }
  }

  lemma AttemptStepActs(s: State, step: Step, c: CallId)
    requires Enabled(s, step) && CallerStep(step, c) && AttemptStep(step)
    ensures c in s.calls
  {
  }

  // ---- All runs ------------------------------------------------------------------------------------

  /** Step n of the run is the moment at which call `c` is turned down. */
  ghost predicate MomentOfRefusal(steps: seq<Step>, n: nat, c: CallId, input: Input, e: Err) {
    && n < |steps| && RunFrom(START, steps[..n]).Some?
    && var p := RunFrom(START, steps[..n]).value;
       && TurnsDown(p, steps[n], c, e) && Enabled(p, steps[n])
       && p.calls[c].input == input && p.calls[c].startedAt < p.now == n
  }

  lemma {:induction false} NowCountsSteps(steps: seq<Step>, s: State)
    requires RunFrom(START, steps) == Some(s)
    ensures s.now == |steps|
  {
    hide Enabled, Next;
    if |steps| > 0 {
      var p, step := RunFrom(START, steps[..|steps| - 1]).value, steps[|steps| - 1];
      NowCountsSteps(steps[..|steps| - 1], p);
      StepCounts(p, step);
    }
  }

  lemma StepCounts(s: State, step: Step)
    requires Enabled(s, step)
    ensures Next(s, step).now == s.now + 1
  {
    if CallStep(step) {
      CallStepMoves(s, step);
    } else if WriteStep(step) {
      WriteStepCounts(s, step);
    }
  }

  lemma WriteStepCounts(s: State, step: Step)
    requires Enabled(s, step) && WriteStep(step)
    ensures Next(s, step).now == s.now + 1
  {
  }

  /** Refusals are linearizable too: a call that answers with insufficient balance, a missing account, a key conflict
      or `ErrAlreadyProcessed` was refused so by the committed tables at one moment between its invocation and its
      answer. */
  lemma {:induction false} RefusalsAreSequential(steps: seq<Step>, s: State, c: CallId, e: Err) returns (n: nat)
    requires RunFrom(START, steps) == Some(s) && c in s.calls && IsRefusal(e) && StandsRefused(s.calls[c], e)
    ensures MomentOfRefusal(steps, n, c, s.calls[c].input, e)
    ensures s.calls[c].phase.Done? ==> n <= s.calls[c].phase.at
  {
    hide Enabled, Next, TurnsDown, IsRefusal, CallOk, Inv;
    var rest, last := steps[..|steps| - 1], steps[|steps| - 1];
    var p := RunFrom(START, rest).value;
    assert Reaches(START, p);
    NowCountsSteps(rest, p);
    StepRefuses(p, last, c, e);
    if c in p.calls && StandsRefused(p.calls[c], e) {
      n := RefusalsAreSequential(rest, p, c, e);
      assert rest[..n] == steps[..n];
      StepKeepsAnswers(p, last);
      assert AnswerKept(p, s, c);
      AnswersComeLater(p, last, c);
    } else {
      n := |rest|;
      TurnedDownCall(p, last, c, e);
      AnswersComeLater(p, last, c);
    }
  }

  lemma TurnedDownCall(p: State, step: Step, c: CallId, e: Err)
    requires Reachable(p) && Enabled(p, step) && TurnsDown(p, step, c, e)
    ensures c in p.calls && c in Next(p, step).calls && Next(p, step).calls[c].input == p.calls[c].input
    ensures p.calls[c].startedAt < p.now
  {
    hide Next, Enabled;
    CallFacts(p, c);
    StepKeepsAnswers(p, step);
    assert AnswerKept(p, Next(p, step), c);
  }

  /** The step that answers stamps the answer. */
  lemma AnswersComeLater(p: State, step: Step, c: CallId)
    requires Reachable(p) && Enabled(p, step) && c in p.calls && c in Next(p, step).calls
    ensures Next(p, step).calls[c].phase.Done? ==>
              Next(p, step).calls[c].phase == p.calls[c].phase || Next(p, step).calls[c].phase.at == p.now
  {
    hide Reachable, Enabled, Next;
    if !CallerStep(step, c) {
      ForeignStepKeepsCall(p, step, c);
    } else if LookupStep(step) {
      LookupAnswersNow(p, step, c);
    } else if AttemptStep(step) {
      AttemptAnswersNow(p, step, c);
    } else {
      WriteAnswersNow(p, step, c);
    }
  }

  lemma LookupAnswersNow(p: State, step: Step, c: CallId)
    requires Enabled(p, step) && CallerStep(step, c) && LookupStep(step) && c in Next(p, step).calls
    ensures Next(p, step).calls[c].phase.Done? ==> Next(p, step).calls[c].phase.at == p.now
  {
    hide SlotOf, Log;
  }

  lemma AttemptAnswersNow(p: State, step: Step, c: CallId)
    requires Enabled(p, step) && CallerStep(step, c) && AttemptStep(step) && c in Next(p, step).calls
    ensures Next(p, step).calls[c].phase.Done? ==> Next(p, step).calls[c].phase.at == p.now
  {
    hide SlotOf, Log, Perform, KeyHeld, IdFree, RowHeld, VersionMatches;
  }

  lemma WriteAnswersNow(p: State, step: Step, c: CallId)
    requires Enabled(p, step) && CallerStep(step, c) && WriteStep(step) && c in Next(p, step).calls
    ensures Next(p, step).calls[c].phase.Done? ==> Next(p, step).calls[c].phase.at == p.now
  {
    hide Log, Fates, Resolve;
    if step.Die? {
      assert Next(p, step).calls[c] == Ended(p, p.calls[c], Failed(Died));
    }
  }

  // ---- The lost race -------------------------------------------------------------------------------

  predicate PastLookup(phase: Phase) {
    phase.Looping? || phase.InTx? || phase.RollingBack? || phase.Deleting?
  }

  lemma StepPassesLookup(s: State, step: Step, c: CallId)
    requires Reachable(s) && Enabled(s, step) && c in Next(s, step).calls && PastLookup(Next(s, step).calls[c].phase)
    ensures c in s.calls && (PastLookup(s.calls[c].phase) || (step == Find(c) && !KeyUsed(s, s.calls[c].input)))
  {
    hide Reachable, Enabled, Next, PastLookup;
    if !CallerStep(step, c) {
      ForeignStepKeepsCall(s, step, c);
    } else if LookupStep(step) {
      LookupPassesOnlyByFind(s, step, c);
    } else if AttemptStep(step) {
      AttemptIsPastLookup(s, step, c);
    } else {
      WriteIsPastLookup(s, step, c);
    }
  }

  lemma LookupPassesOnlyByFind(s: State, step: Step, c: CallId)
    requires Reachable(s) && Enabled(s, step) && CallerStep(step, c) && LookupStep(step)
    requires c in Next(s, step).calls && PastLookup(Next(s, step).calls[c].phase)
    ensures c in s.calls && step == Find(c) && !KeyUsed(s, s.calls[c].input)
  {
    hide Reachable, SlotOf, KeyUsed, KeyUsedWithAmount;
    if step.Find? {
      LookupDecides(s, c);
    }
  }

  lemma AttemptIsPastLookup(s: State, step: Step, c: CallId)
    requires Enabled(s, step) && CallerStep(step, c) && AttemptStep(step)
    ensures c in s.calls && PastLookup(s.calls[c].phase)
  {
    hide KeyHeld, IdFree, RowHeld, VersionMatches;
  }

  lemma WriteIsPastLookup(s: State, step: Step, c: CallId)
    requires Enabled(s, step) && CallerStep(step, c) && WriteStep(step)
    ensures c in s.calls && c in Next(s, step).calls
    ensures PastLookup(Next(s, step).calls[c].phase) ==> PastLookup(s.calls[c].phase)
  {
    hide Log, Fates, Resolve;
    if step.Die? {
      assert Next(s, step).calls[c] == Ended(s, s.calls[c], Failed(Died));
    }
  }

  /** A call that is past its lookup looked, and found its key unused. */
  ghost predicate LookedInVain(steps: seq<Step>, m: nat, c: CallId, input: Input) {
    && m < |steps| && steps[m] == Find(c) && RunFrom(START, steps[..m]).Some?
    && !KeyUsed(RunFrom(START, steps[..m]).value, input)
  }

  lemma {:induction false} LookupCameFirst(steps: seq<Step>, s: State, c: CallId) returns (m: nat)
    requires RunFrom(START, steps) == Some(s) && c in s.calls && PastLookup(s.calls[c].phase)
    ensures LookedInVain(steps, m, c, s.calls[c].input)
  {
    hide Enabled, Next, PastLookup, KeyUsed;
    var rest, last := steps[..|steps| - 1], steps[|steps| - 1];
    var p := RunFrom(START, rest).value;
    assert Reaches(START, p);
    StepPassesLookup(p, last, c);
    StepKeepsAnswers(p, last);
    assert AnswerKept(p, s, c);
    if PastLookup(p.calls[c].phase) {
      m := LookupCameFirst(rest, p, c);
      assert rest[..m] == steps[..m];
    } else {
      m := |rest|;
    }
  }

  /** `ErrAlreadyProcessed` means a lost race: the key was unused when the call looked it up and used when it
      inserted. */
  lemma AlreadyProcessedMeansLostRace(steps: seq<Step>, s: State, c: CallId) returns (m: nat, n: nat)
    requires RunFrom(START, steps) == Some(s) && c in s.calls && StandsRefused(s.calls[c], AlreadyProcessed)
    ensures m < n && LookedInVain(steps, m, c, s.calls[c].input)
    ensures MomentOfRefusal(steps, n, c, s.calls[c].input, AlreadyProcessed)
  {
    hide Next, KeyUsed;
    n := RefusalsAreSequential(steps, s, c, AlreadyProcessed);
    var p := RunFrom(START, steps[..n]).value;
    m := LookupCameFirst(steps[..n], p, c);
    assert steps[..n][..m] == steps[..m];
  }

  /** And it is the race exactly: a call that found its key unused is refused at its insert if and only if a row
      of that key was committed in between. */
  lemma InsertRefusedIffCommittedSince(p: State, c: CallId, q: State, id: nat)
    requires Reachable(p) && Enabled(p, Find(c)) && !KeyUsed(p, p.calls[c].input)
    requires Reaches(Next(p, Find(c)), q) && Enabled(q, Insert(c, id))
    ensures var call, u := q.calls[c], p.calls[c].input.user;
            && call.input == p.calls[c].input
            && (Next(q, Insert(c, id)).calls[c].phase == RollingBack(call.phase.attempt, AlreadyProcessed) <==>
                exists k :: |Log(p, u)| <= k < |Log(q, u)| && SameKey(Log(q, u)[k].row, RowFor(call.input, 0)))
  {
    var next, u := Next(p, Find(c)), p.calls[c].input.user;
    FindKeepsReachable(p, c);
    ReachesReachable(next, q);
    ReachesGrows(next, q);
    assert AnswerKept(next, q, c) && Extends(Log(next, u), Log(q, u), next.now);
    InsertFailsIffUsed(q, c, id);
    assert forall k :: 0 <= k < |Log(p, u)| ==> Log(p, u)[k] == Log(q, u)[k];
  }

  lemma FindKeepsReachable(p: State, c: CallId)
    requires Reachable(p) && Enabled(p, Find(c))
    ensures Reachable(Next(p, Find(c))) && Next(p, Find(c)).ledger == p.ledger
    ensures c in Next(p, Find(c)).calls && Next(p, Find(c)).calls[c].input == p.calls[c].input
  {
    var steps :| RunFrom(START, steps) == Some(p);
    assert (steps + [Find(c)])[..|steps|] == steps;
    assert RunFrom(START, steps + [Find(c)]) == Some(Next(p, Find(c)));
  }

  /** Where a call may stand that looked a key up before another call committed a row under it; `stood` is the
      error, if any, that it was rolling back with at that moment. */
  predicate Racing(call: Call, stood: Option<Err>) {
    match call.phase
    case Looping(_) => true
    case InTx(_, _) => true
    case RollingBack(_, e) => e in {AlreadyProcessed, InsufficientBalance, Unclassified} || stood == Some(e)
    case Done(Failed(e), _) => e in {AlreadyProcessed, InsufficientBalance, Unclassified, Died} || stood == Some(e)
    case _ => false
  }

  function Stood(phase: Phase): Option<Err> {
    match phase
    case RollingBack(_, e) => Some(e)
    case _ => None
  }

  /** The row of the key is committed, so this call has inserted none. */
  lemma RacerHoldsNoRow(s: State, u: string, k: nat, c: CallId)
    requires Reachable(s) && k < |Log(s, u)| && c in s.calls && SameKey(Log(s, u)[k].row, RowFor(s.calls[c].input, 0))
    ensures !HasRow(s.calls[c].tx) && KeyUsed(s, s.calls[c].input) && s.calls[c].input.user in s.accounts
  {
    ReachableInv(s);
    LogFacts(s, u);
    EntriesDiffer(s, u, k, u, k);
    CallFacts(s, c);
    assert HasRow(s.calls[c].tx) ==> Distinct(s.calls[c].tx.row, Log(s, u)[k].row);
  }

  lemma RacerAttempts(s: State, step: Step, c: CallId, stood: Option<Err>)
    requires Reachable(s) && Enabled(s, step) && CallerStep(step, c) && AttemptStep(step)
    requires c in s.calls && !HasRow(s.calls[c].tx) && KeyUsed(s, s.calls[c].input)
    requires s.calls[c].input.user in s.accounts
    requires AmountPositive(s, c) && Racing(s.calls[c], stood)
    ensures c in Next(s, step).calls && Racing(Next(s, step).calls[c], stood)
  {
    hide Reachable, SlotOf, KeyUsed, KeyHeld, IdFree, RowHeld;
    if step.Insert? {
      InsertFailsIffUsed(s, c, step.id);
    }
  }

  lemma RacerLooksNoMore(s: State, step: Step, c: CallId, stood: Option<Err>)
    requires Enabled(s, step) && CallerStep(step, c) && c in s.calls && Racing(s.calls[c], stood)
    ensures !LookupStep(step)
  {
  }

  lemma RacerWrites(s: State, step: Step, c: CallId, stood: Option<Err>)
    requires Enabled(s, step) && CallerStep(step, c) && WriteStep(step)
    requires c in s.calls && !HasRow(s.calls[c].tx) && Racing(s.calls[c], stood)
    ensures c in Next(s, step).calls && Racing(Next(s, step).calls[c], stood)
  {
    hide Log, Fates, Resolve;
    if step.Die? {
      assert Next(s, step).calls[c] == Ended(s, s.calls[c], Failed(Died));
    }
  }

  lemma RacerSteps(s: State, step: Step, u: string, k: nat, c: CallId, stood: Option<Err>)
    requires Reachable(s) && Enabled(s, step) && k < |Log(s, u)|
    requires c in s.calls && SameKey(Log(s, u)[k].row, RowFor(s.calls[c].input, 0)) && Racing(s.calls[c], stood)
    ensures c in Next(s, step).calls && Racing(Next(s, step).calls[c], stood)
  {
    hide Reachable, Enabled, Next, Racing;
    RacerHoldsNoRow(s, u, k, c);
    RunningAmountPositive(s, c);
    if !CallerStep(step, c) {
      ForeignStepKeepsCall(s, step, c);
      SamePhaseRaces(s.calls[c], Next(s, step).calls[c], stood);
    } else if AttemptStep(step) {
      RacerAttempts(s, step, c, stood);
    } else {
      RacerLooksNoMore(s, step, c, stood);
      RacerWrites(s, step, c, stood);
    }
  }

  lemma SamePhaseRaces(call: Call, kept: Call, stood: Option<Err>)
    requires Racing(call, stood) && kept.phase == call.phase
    ensures Racing(kept, stood)
  {
  }

  lemma {:induction false} RunRaces(s: State, steps: seq<Step>, t: State, u: string, k: nat, c: CallId,
                                    stood: Option<Err>)
    requires Reachable(s) && RunFrom(s, steps) == Some(t) && k < |Log(s, u)|
    requires c in s.calls && SameKey(Log(s, u)[k].row, RowFor(s.calls[c].input, 0)) && Racing(s.calls[c], stood)
    ensures c in t.calls && t.calls[c].input == s.calls[c].input && Racing(t.calls[c], stood)
  {
    hide Enabled, Next, Racing;
    if |steps| > 0 {
      var p, step := RunFrom(s, steps[..|steps| - 1]).value, steps[|steps| - 1];
      RunRaces(s, steps[..|steps| - 1], p, u, k, c, stood);
      assert Reaches(s, p);
      ReachesReachable(s, p);
      ReachesGrows(s, p);
      assert Extends(Log(s, u), Log(p, u), s.now);
      RacerSteps(p, step, u, k, c, stood);
      StepKeepsAnswers(p, step);
      assert AnswerKept(p, t, c);
    }
  }

  /** The answers of a racing caller: once another call's row is committed under its key, a call that had looked
      before never succeeds and never writes. It is told `ErrAlreadyProcessed`; or insufficient balance, since the
      balance check comes before the insert; or a driver error, or it dies; or it finishes rolling back with the
      error that it already had. */
  lemma RacingCallAnswers(s: State, u: string, k: nat, c: CallId, t: State)
    requires Reachable(s) && k < |Log(s, u)| && c in s.calls && SameKey(Log(s, u)[k].row, RowFor(s.calls[c].input, 0))
    requires s.calls[c].phase.Looping? || s.calls[c].phase.InTx? || s.calls[c].phase.RollingBack?
    requires Reaches(s, t) && c in t.calls && t.calls[c].phase.Done?
    ensures t.calls[c].phase.outcome.Failed?
    ensures var e := t.calls[c].phase.outcome.err;
            && (e in {AlreadyProcessed, InsufficientBalance, Unclassified, Died} || Stood(s.calls[c].phase) == Some(e))
            && (e == InsufficientBalance ==> t.calls[c].input.kind == Redeem)
    ensures forall v, j :: 0 <= j < |Log(t, v)| ==> Log(t, v)[j].writer != c
  {
    var first :| RunFrom(START, first) == Some(s);
    var second :| RunFrom(s, second) == Some(t);
    RunRaces(s, second, t, u, k, c, Stood(s.calls[c].phase));
    if t.calls[c].phase.outcome == Failed(InsufficientBalance) {
      RunsCompose(START, first, s, second, t);
      var n := RefusalsAreSequential(first + second, t, c, InsufficientBalance);
    }
    RacerNeverWrites(s, u, k, c, t);
  }

  lemma RacerNeverWrites(s: State, u: string, k: nat, c: CallId, t: State)
    requires Reachable(s) && k < |Log(s, u)| && c in s.calls && SameKey(Log(s, u)[k].row, RowFor(s.calls[c].input, 0))
    requires !s.calls[c].phase.Done? && !s.calls[c].phase.Deleting? && Reaches(s, t)
    ensures forall v, j :: 0 <= j < |Log(t, v)| ==> Log(t, v)[j].writer != c
  {
    ReachesReachable(s, t);
    ReachesGrows(s, t);
    assert AnswerKept(s, t, c) && Extends(Log(s, u), Log(t, u), s.now);
    RunningCallHasNoEffect(s, c, u, k);
    forall v, j | 0 <= j < |Log(t, v)| ensures Log(t, v)[j].writer != c {
      EntriesDiffer(t, v, j, u, k);
    }
  }

  // ---- Attempts --------------------------------------------------------------------------------------

  /** How many attempts a call has begun in a run. */
  function Attempts(steps: seq<Step>, c: CallId): nat {
    if |steps| == 0 then 0
    else Attempts(steps[..|steps| - 1], c) + (if steps[|steps| - 1] in {Begin(c), BeginFails(c)} then 1 else 0)
  }

  /** Of n attempts, at most three, every one but the last was lost to a conflict; the last was too if the call
      gives up. */
  predicate Tally(n: nat, call: Call) {
    && n <= MAX_RETRIES
    && match call.phase
       case Looking => n == |call.lost| == 0
       case Replaying(_, _) => n == |call.lost| == 0
       case Looping(a) => n == |call.lost| == a < MAX_RETRIES
       case InTx(a, _) => n == |call.lost| + 1 == a + 1
       case RollingBack(a, e) => n == a + 1 && |call.lost| == (if e == OptimisticLock then n else n - 1)
       case Deleting(_, _) => n == |call.lost| + 1
       case Done(Fresh(_, _), _) => n == |call.lost| + 1
       case Done(Replayed(_, _), _) => n == |call.lost| == 0
       case Done(Failed(OptimisticLock), _) => n == |call.lost| == MAX_RETRIES
       case Done(Failed(_), _) => |call.lost| <= n <= |call.lost| + 1
  }

  function Begun(step: Step): nat {
    if step.Begin? || step.BeginFails? then 1 else 0
  }

  lemma LookupStepTallies(s: State, step: Step, c: CallId, n: nat)
    requires Enabled(s, step) && CallerStep(step, c) && LookupStep(step)
    requires if c in s.calls then Tally(n, s.calls[c]) else n == 0
    ensures c in Next(s, step).calls && Tally(n, Next(s, step).calls[c])
  {
    hide SlotOf, Log;
  }

  lemma AttemptStepTallies(s: State, step: Step, c: CallId, n: nat)
    requires Enabled(s, step) && CallerStep(step, c) && AttemptStep(step)
    requires c in s.calls ==> Tally(n, s.calls[c])
    ensures c in Next(s, step).calls && Tally(n + Begun(step), Next(s, step).calls[c])
  {
    hide SlotOf, Log, KeyHeld, IdFree, RowHeld, VersionMatches;
  }

  lemma WriteStepTallies(s: State, step: Step, c: CallId, n: nat)
    requires Enabled(s, step) && CallerStep(step, c) && WriteStep(step)
    requires c in s.calls ==> Tally(n, s.calls[c])
    ensures c in Next(s, step).calls && Tally(n, Next(s, step).calls[c])
  {
    hide Log, Fates, Resolve;
    if step.Die? {
      assert Next(s, step).calls[c] == Ended(s, s.calls[c], Failed(Died));
    }
  }

  lemma ForeignStepTallies(s: State, t: State, c: CallId, n: nat)
    requires CallKept(s, t, c) && (if c in s.calls then Tally(n, s.calls[c]) else n == 0)
    ensures if c in t.calls then Tally(n, t.calls[c]) else n == 0
  {
  }

  lemma StepTallies(s: State, step: Step, c: CallId, n: nat)
    requires Enabled(s, step) && CallerStep(step, c) && (if c in s.calls then Tally(n, s.calls[c]) else n == 0)
    ensures c in Next(s, step).calls && Tally(n + Begun(step), Next(s, step).calls[c])
  {
    hide Enabled, Next, Tally;
    if LookupStep(step) {
      LookupStepTallies(s, step, c, n);
    } else if AttemptStep(step) {
      AttemptStepActs(s, step, c);
      AttemptStepTallies(s, step, c, n);
    } else {
      WriteStepRefusesNothing(s, step, c, AlreadyProcessed);
      WriteStepTallies(s, step, c, n);
    }
  }

  /** In every run: at most three attempts, and a further one only after a conflict. */
  lemma {:induction false} AttemptsFollowConflicts(steps: seq<Step>, s: State, c: CallId)
    requires RunFrom(START, steps) == Some(s)
    ensures if c in s.calls then Tally(Attempts(steps, c), s.calls[c]) else Attempts(steps, c) == 0
  {
    hide Enabled, Next, Tally;
    if |steps| > 0 {
      var rest, step := steps[..|steps| - 1], steps[|steps| - 1];
      var p := RunFrom(START, rest).value;
      AttemptsFollowConflicts(rest, p, c);
      if CallerStep(step, c) {
        StepTallies(p, step, c, Attempts(rest, c));
      } else {
        ForeignStepKeepsCall(p, step, c);
        ForeignStepTallies(p, s, c, Attempts(rest, c));
      }
    }
  }
}
