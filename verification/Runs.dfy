/** What every run of the machine leaves standing: histories are append-only, answers are final,
    and only a commit writes the tables. */
module Runs {
  import opened Domain
  import opened Machine
  import opened Invariant
  import opened Preservation

  lemma StepGrows(s: State, step: Step)
    requires Enabled(s, step)
    ensures Grows(s, Next(s, step))
  {
    hide Grows;
    if CallStep(step) {
      var t := Next(s, step);
      CallStepMoves(s, step);
      MoveGrows(s, step.c, t.calls[step.c]);
    } else if WriteStep(step) {
      WriteStepGrows(s, step);
    } else {
      OtherStepGrows(s, step);
    }
  }

  /** Lookups, uncommitted attempts and the server's abort write no table and no cache entry. */
  lemma CallStepMoves(s: State, step: Step)
    requires Enabled(s, step) && CallStep(step)
    ensures step.c in Next(s, step).calls && Next(s, step) == Move(s, step.c, Next(s, step).calls[step.c])
  {
    hide Enabled, Next;
    if LookupStep(step) {
      LookupStepMoves(s, step);
    } else {
      AttemptStepMoves(s, step);
    }
  }

  lemma LookupStepMoves(s: State, step: Step)
    requires Enabled(s, step) && LookupStep(step)
    ensures step.c in Next(s, step).calls && Next(s, step) == Move(s, step.c, Next(s, step).calls[step.c])
  {
    hide SlotOf, Log;
  }

  lemma AttemptStepMoves(s: State, step: Step)
    requires Enabled(s, step) && AttemptStep(step)
    ensures step.c in Next(s, step).calls && Next(s, step) == Move(s, step.c, Next(s, step).calls[step.c])
  {
    hide SlotOf, Log, Perform, KeyHeld, IdFree, RowHeld, VersionMatches;
  }

  lemma WriteStepGrows(s: State, step: Step)
    requires Enabled(s, step) && WriteStep(step)
    ensures Grows(s, Next(s, step))
  {
    var call := s.calls[step.c];
    match step
    case Commit(c) => InstallGrows(s, c, Owed, Deleting(call.tx.row.id, call.tx.work.after));
    case ServerCommit(c) => InstallGrows(s, c, Unacknowledged(s.now), call.phase);
    case Delete(c) => SettleGrows(s, c, Deleted(s.now), true, Fresh(call.phase.id, call.phase.account));
    case DeleteFails(c, applied) =>
      SettleGrows(s, c, DeleteFailed(s.now), applied, Fresh(call.phase.id, call.phase.account));
    case Die(c) =>
      if call.phase.Deleting? {
        SettleGrows(s, c, WriterDied(s.now), false, Failed(Died));
      }
  }

  lemma OtherStepGrows(s: State, step: Step)
    requires Enabled(s, step) && !CallStep(step) && !WriteStep(step)
    ensures Grows(s, Next(s, step)) && Next(s, step).ledger == s.ledger && Next(s, step).calls == s.calls
  {
  }

  /** What a call was asked, and what it answered, never changes afterwards. */
  ghost predicate AnswersFinal(s: State, t: State) {
    forall c :: AnswerKept(s, t, c)
  }

  lemma StepKeepsAnswers(s: State, step: Step)
    requires Enabled(s, step)
    ensures AnswersFinal(s, Next(s, step))
  {
    hide AnswersFinal;
    if CallStep(step) {
      CallStepKeepsAnswers(s, step);
    } else if WriteStep(step) {
      WriteStepKeepsAnswers(s, step);
    } else {
      OtherStepGrows(s, step);
      SameCallsSameAnswers(s, Next(s, step));
    }
  }

  lemma SameCallsSameAnswers(s: State, t: State)
    requires t.calls == s.calls
    ensures AnswersFinal(s, t)
  {
  }

  lemma CallStepKeepsAnswers(s: State, step: Step)
    requires Enabled(s, step) && CallStep(step)
    ensures AnswersFinal(s, Next(s, step))
  {
    hide Enabled, Next;
    CallStepMoves(s, step);
    if LookupStep(step) {
      LookupStepKeepsAnswer(s, step);
    } else {
      AttemptStepKeepsAnswer(s, step);
    }
  }

  predicate AnswerKept(s: State, t: State, c: CallId) {
    c in s.calls ==>
      && c in t.calls && t.calls[c].input == s.calls[c].input && t.calls[c].startedAt == s.calls[c].startedAt
      && (s.calls[c].phase.Done? ==> t.calls[c].phase == s.calls[c].phase)
  }

  lemma LookupStepKeepsAnswer(s: State, step: Step)
    requires Enabled(s, step) && LookupStep(step)
    ensures AnswerKept(s, Next(s, step), step.c)
  {
    hide SlotOf, Log;
  }

  lemma AttemptStepKeepsAnswer(s: State, step: Step)
    requires Enabled(s, step) && AttemptStep(step)
    ensures AnswerKept(s, Next(s, step), step.c)
  {
    hide SlotOf, Log, Perform, KeyHeld, IdFree, RowHeld, VersionMatches;
  }

  lemma WriteStepKeepsAnswers(s: State, step: Step)
    requires Enabled(s, step) && WriteStep(step)
    ensures AnswersFinal(s, Next(s, step))
  {
  }

  /** Along any run, committed rows stay where they are and new rows are newer, accounts are never
      deleted, and answers are final. */
  lemma {:induction false} RunGrows(s: State, steps: seq<Step>, t: State)
    requires RunFrom(s, steps) == Some(t)
    ensures Grows(s, t) && AnswersFinal(s, t)
  {
    hide Grows, AnswersFinal, Enabled, Next;
    if |steps| == 0 {
      GrowsReflexive(s);
    } else {
      var p := RunFrom(s, steps[..|steps| - 1]).value;
      RunGrows(s, steps[..|steps| - 1], p);
      StepGrows(p, steps[|steps| - 1]);
      StepKeepsAnswers(p, steps[|steps| - 1]);
      GrowsTransitive(s, p, t);
      AnswersFinalTransitive(s, p, t);
    }
  }

  lemma GrowsReflexive(s: State)
    ensures Grows(s, s) && AnswersFinal(s, s)
  {
  }

  lemma AnswersFinalTransitive(s: State, p: State, t: State)
    requires AnswersFinal(s, p) && AnswersFinal(p, t)
    ensures AnswersFinal(s, t)
  {
    forall c ensures AnswerKept(s, t, c) {
      assert AnswerKept(s, p, c) && AnswerKept(p, t, c);
    }
  }

  lemma GrowsTransitive(s: State, p: State, t: State)
    requires Grows(s, p) && Grows(p, t)
    ensures Grows(s, t)
  {
    forall u ensures Extends(Log(s, u), Log(t, u), s.now) {
      assert Extends(Log(s, u), Log(p, u), s.now) && Extends(Log(p, u), Log(t, u), p.now);
    }
  }

  lemma {:induction false} RunsCompose(r: State, first: seq<Step>, s: State, second: seq<Step>, t: State)
    requires RunFrom(r, first) == Some(s) && RunFrom(s, second) == Some(t)
    ensures RunFrom(r, first + second) == Some(t)
  {
    if |second| == 0 {
      assert first + second == first;
    } else {
      var n := |second| - 1;
      RunsCompose(r, first, s, second[..n], RunFrom(s, second[..n]).value);
      assert (first + second)[..|first + second| - 1] == first + second[..n];
    }
  }

  /** A run is any of its prefixes followed by the rest. */
  lemma {:induction false} PrefixRuns(steps: seq<Step>, n: nat)
    requires RunFrom(START, steps).Some? && n <= |steps|
    ensures RunFrom(START, steps[..n]).Some?
    ensures RunFrom(RunFrom(START, steps[..n]).value, steps[n..]) == RunFrom(START, steps)
  {
    hide Enabled, Next;
    if n == |steps| {
      assert steps[..n] == steps && steps[n..] == [];
    } else {
      var rest := steps[..|steps| - 1];
      PrefixRuns(rest, n);
      assert rest[..n] == steps[..n];
      assert steps[n..][..|steps[n..]| - 1] == rest[n..];
    }
  }

  /** The state in which step n of a run is taken. */
  function StateAt(steps: seq<Step>, n: nat): State
    requires n <= |steps|
  {
    match RunFrom(START, steps[..n])
    case Some(p) => p
    case None => START
  }

  lemma LaterInRunReached(first: seq<Step>, s: State, steps: seq<Step>, t: State)
    requires RunFrom(START, first) == Some(s) && RunFrom(START, steps) == Some(t) && first <= steps
    ensures Reaches(s, t)
  {
    PrefixRuns(steps, |first|);
    assert steps[..|first|] == first;
  }

  lemma ReachesReachable(s: State, t: State)
    requires Reachable(s) && Reaches(s, t)
    ensures Reachable(t)
  {
    var first :| RunFrom(START, first) == Some(s);
    var second :| RunFrom(s, second) == Some(t);
    RunsCompose(START, first, s, second, t);
  }

  lemma ReachesGrows(s: State, t: State)
    requires Reaches(s, t)
    ensures Grows(s, t) && AnswersFinal(s, t)
  {
    var steps :| RunFrom(s, steps) == Some(t);
    RunGrows(s, steps, t);
  }

  /** The only steps that change a stored balance or the ledger: an acknowledged commit and a commit
      that the client was not told of. Whatever else an attempt does leaves no trace in the tables. */
  lemma OnlyCommitsWrite(s: State, step: Step)
    requires Enabled(s, step) && !step.Commit? && !step.ServerCommit?
    ensures Next(s, step).ledger == s.ledger
    ensures forall u :: u in s.accounts ==> u in Next(s, step).accounts && Next(s, step).accounts[u] == s.accounts[u]
  {
    if CallStep(step) {
      CallStepMoves(s, step);
    } else if WriteStep(step) {
      SettlesWriteNothing(s, step);
    } else {
      OthersKeepAccounts(s, step);
    }
  }

  lemma SettlesWriteNothing(s: State, step: Step)
    requires Enabled(s, step) && (step.Delete? || step.DeleteFails? || step.Die?)
    ensures Next(s, step).ledger == s.ledger && Next(s, step).accounts == s.accounts
  {
  }

  lemma OthersKeepAccounts(s: State, step: Step)
    requires Enabled(s, step) && !CallStep(step) && !WriteStep(step)
    ensures Next(s, step).ledger == s.ledger
    ensures forall u :: u in s.accounts ==> u in Next(s, step).accounts && Next(s, step).accounts[u] == s.accounts[u]
  {
  }

  /** The step is one that the client code of call `c` takes. */
  predicate CallerStep(step: Step, c: CallId) {
    (CallStep(step) || WriteStep(step)) && !step.ServerAbort? && !step.ServerCommit? && step.c == c
  }

  /** The call in `t` is the one in `s`, except that its transaction may be gone. */
  predicate CallKept(s: State, t: State, c: CallId) {
    && (c in s.calls <==> c in t.calls)
    && (c in s.calls ==> t.calls[c] == s.calls[c] || t.calls[c] == s.calls[c].(tx := NoTx))
  }

  /** Interference: what everybody else and the server do to a call is at most to end its transaction. */
  lemma ForeignStepKeepsCall(s: State, step: Step, c: CallId)
    requires Enabled(s, step) && !CallerStep(step, c)
    ensures CallKept(s, Next(s, step), c)
  {
    if CallStep(step) {
      ForeignCallStep(s, step, c);
    } else if WriteStep(step) {
      ForeignWriteStep(s, step, c);
    } else {
      OtherStepGrows(s, step);
    }
  }

  lemma ForeignCallStep(s: State, step: Step, c: CallId)
    requires Enabled(s, step) && !CallerStep(step, c) && CallStep(step)
    ensures CallKept(s, Next(s, step), c)
  {
    hide Enabled, Next;
    CallStepMoves(s, step);
    if step.c == c {
      AbortEndsTransaction(s, c);
    }
  }

  lemma AbortEndsTransaction(s: State, c: CallId)
    requires Enabled(s, ServerAbort(c))
    ensures Next(s, ServerAbort(c)) == Move(s, c, s.calls[c].(tx := NoTx)) && c in s.calls
  {
  }

  lemma ForeignWriteStep(s: State, step: Step, c: CallId)
    requires Enabled(s, step) && !CallerStep(step, c) && WriteStep(step)
    ensures CallKept(s, Next(s, step), c)
  {
  }
}
