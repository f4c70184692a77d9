/** What an unclassified error is due to: a round trip of the call itself that failed, and not without an excuse. */
module Causes {
  import opened Domain
  import opened Machine
  import opened Preservation
  import opened Runs
  import opened LedgerTheorems
  import opened Environment
  import opened Refusals

  lemma LookupTurnsUnclassified(s: State, step: Step, c: CallId)
    requires Enabled(s, step) && CallerStep(step, c) && LookupStep(step) && c in Next(s, step).calls
    ensures StandsRefused(Next(s, step).calls[c], Unclassified) ==> Fails(step)
  {
    hide SlotOf, Log;
  }

  lemma AttemptTurnsUnclassified(s: State, step: Step, c: CallId)
    requires Enabled(s, step) && CallerStep(step, c) && AttemptStep(step) && c in s.calls && c in Next(s, step).calls
    ensures StandsRefused(Next(s, step).calls[c], Unclassified) ==>
              StandsRefused(s.calls[c], Unclassified) || Fails(step)
  {
    hide SlotOf, Log, KeyHeld, IdFree, RowHeld, VersionMatches;
  }

  /** A call turns to an unclassified error only by a failing step of its own. */
  lemma StepTurnsUnclassified(s: State, step: Step, c: CallId)
    requires Enabled(s, step) && c in Next(s, step).calls && StandsRefused(Next(s, step).calls[c], Unclassified)
    ensures (c in s.calls && StandsRefused(s.calls[c], Unclassified)) || (CallerStep(step, c) && Fails(step))
  {
    hide Enabled, Next, StandsRefused, Fails;
    if !CallerStep(step, c) {
      ForeignStepRefusesNothing(s, step, c, Unclassified);
    } else if LookupStep(step) {
      LookupTurnsUnclassified(s, step, c);
    } else if AttemptStep(step) {
      AttemptStepActs(s, step, c);
      AttemptTurnsUnclassified(s, step, c);
    } else {
      WriteTurnsNothingUnclassified(s, step, c);
    }
  }

  lemma WriteTurnsNothingUnclassified(s: State, step: Step, c: CallId)
    requires Enabled(s, step) && CallerStep(step, c) && WriteStep(step)
    ensures c in Next(s, step).calls && !StandsRefused(Next(s, step).calls[c], Unclassified)
  {
    hide Log, Fates, Resolve;
    if step.Die? {
      assert Next(s, step).calls[c] == Ended(s, s.calls[c], Failed(Died));
    }
  }

  /** The call had not begun when the session did. */
  predicate Began(trace: seq<Step>, session: Session, c: CallId) {
    session.since <= |trace| && c !in StateAt(trace, session.since).calls
  }

  lemma BeganEarlier(trace: seq<Step>, longer: seq<Step>, session: Session, c: CallId)
    requires Began(trace, session, c) && trace <= longer
    ensures Began(longer, session, c)
  {
    assert longer[..session.since] == trace[..session.since];
  }

  lemma {:induction false} UnclassifiedHasFailure(trace: seq<Step>, s: State, session: Session, c: CallId)
    returns (n: nat)
    requires RunFrom(START, trace) == Some(s) && c in s.calls && StandsRefused(s.calls[c], Unclassified)
    requires Began(trace, session, c)
    ensures session.since <= n < |trace| && CallerStep(trace[n], c) && Fails(trace[n])
    decreases |trace|
  {
    hide Enabled, Next, StandsRefused, Fails, CallerStep;
    StateAtEnd(trace, s);
    assert session.since < |trace|;
    var rest, last := trace[..|trace| - 1], trace[|trace| - 1];
    var p := RunFrom(START, rest).value;
    StepTurnsUnclassified(p, last, c);
    if c in p.calls && StandsRefused(p.calls[c], Unclassified) {
      assert rest[..session.since] == trace[..session.since];
      n := UnclassifiedHasFailure(rest, p, session, c);
    } else {
      n := |rest|;
    }
  }

  /** So an unclassified error of a fair session has a cause. */
  lemma UnclassifiedHasCause(s: State, trace: seq<Step>, draws: seq<bool>, ids: seq<nat>, drawable: set<nat>,
                             luck: seq<bool>, pending: bool, session: Session, c: CallId)
    requires Recorded(s, trace, draws, ids, drawable) && Fair(session, trace, draws, drawable, luck, pending)
    requires session.me == Caller(c) && Began(trace, session, c)
    requires c in s.calls && StandsRefused(s.calls[c], Unclassified)
    ensures FailedWithCause(trace, draws, drawable, session.since, c, session.smooth)
  {
    hide StandsRefused, Hindered, Fails, CallerStep;
    var n := UnclassifiedHasFailure(trace, s, session, c);
    assert OwnStep(trace[n], session.me);
    assert Excused(trace, draws, drawable, n);
  }
}
