/** How old a cached answer can be: step stamps read on the wall clock. */
module CacheAge {
  import opened Domain
  import opened Machine
  import opened Invariant
  import opened Preservation
  import opened Runs
  import opened LedgerTheorems
  import opened CacheTheorems
  import opened Refusals

  /** The wall clock when step n of a run was taken. */
  function ClockAt(steps: seq<Step>, n: nat): nat
    requires n <= |steps|
  {
    match RunFrom(START, steps[..n])
    case Some(p) => p.clock
    case None => 0
  }

  /** The clock does not run backwards. */
  lemma ClockIsMonotone(steps: seq<Step>, m: nat, n: nat)
    requires RunFrom(START, steps).Some? && m <= n <= |steps|
    ensures ClockAt(steps, m) <= ClockAt(steps, n) <= RunFrom(START, steps).value.clock
  {
    PrefixRuns(steps, n);
    PrefixRuns(steps[..n], m);
    assert steps[..n][..m] == steps[..m];
    RunGrows(RunFrom(START, steps[..m]).value, steps[..n][m..], RunFrom(START, steps[..n]).value);
    RunGrows(RunFrom(START, steps[..n]).value, steps[n..], RunFrom(START, steps).value);
  }

  /** The stamp of a row is the step that made it visible: after n steps the row is there exactly if n is larger. */
  lemma StampsAreExact(steps: seq<Step>, s: State, u: string, k: nat, n: nat)
    requires RunFrom(START, steps) == Some(s) && k < |Log(s, u)| && n <= |steps|
    ensures RunFrom(START, steps[..n]).Some?
    ensures k < |Log(RunFrom(START, steps[..n]).value, u)| <==> Log(s, u)[k].committedAt < n
  {
    PrefixRuns(steps, n);
    var p := RunFrom(START, steps[..n]).value;
    NowCountsSteps(steps[..n], p);
    RunGrows(p, steps[n..], s);
    assert Extends(Log(p, u), Log(s, u), p.now);
    assert Reaches(START, p);
    LogFacts(p, u);
    if k < |Log(p, u)| {
      assert EntryOk(p, u, Log(p, u)[k]) && Log(p, u)[k] == Log(s, u)[k];
    }
  }

  predicate StampedOk(steps: seq<Step>, e: CacheEntry) {
    e.setAt < |steps| && ClockAt(steps, e.setAt) == e.setClock
  }

  /** An entry's TTL starts at the clock of the step that set it. */
  lemma {:induction false} EntriesAreStamped(steps: seq<Step>, s: State, u: string)
    requires RunFrom(START, steps) == Some(s) && u in s.cache
    ensures StampedOk(steps, s.cache[u])
  {
    hide Enabled, Next, StampedOk;
    var rest, last := steps[..|steps| - 1], steps[|steps| - 1];
    var p := RunFrom(START, rest).value;
    assert rest + [last] == steps;
    NowCountsSteps(rest, p);
    StepKeepsOrSets(p, last, u);
    if u in p.cache && s.cache[u] == p.cache[u] {
      EntriesAreStamped(rest, p, u);
      StampsExtend(rest, last, s.cache[u]);
    } else {
      assert StampedOk(steps, s.cache[u]) by { FreshStamp(rest, last, p, s.cache[u]); }
    }
  }

  lemma StampsExtend(rest: seq<Step>, last: Step, e: CacheEntry)
    requires StampedOk(rest, e)
    ensures StampedOk(rest + [last], e)
  {
    assert (rest + [last])[..e.setAt] == rest[..e.setAt];
  }

  lemma FreshStamp(rest: seq<Step>, last: Step, p: State, e: CacheEntry)
    requires RunFrom(START, rest) == Some(p) && e.setAt == |rest| && e.setClock == p.clock
    ensures StampedOk(rest + [last], e)
  {
    assert (rest + [last])[..|rest|] == rest;
  }

  lemma StepKeepsOrSets(p: State, step: Step, u: string)
    requires Enabled(p, step) && u in Next(p, step).cache
    ensures var e := Next(p, step).cache[u];
            (u in p.cache && e == p.cache[u]) || (e.setAt == p.now && e.setClock == p.clock)
  {
    if CallStep(step) {
      CallStepMoves(p, step);
    } else if WriteStep(step) {
      WriteStepSetsNothing(p, step, u);
    }
  }

  lemma WriteStepSetsNothing(p: State, step: Step, u: string)
    requires Enabled(p, step) && WriteStep(step) && u in Next(p, step).cache
    ensures u in p.cache && Next(p, step).cache[u] == p.cache[u]
  {
  }

  /** The step may delete, evict or replace the entry of `u`. */
  predicate Touches(p: State, step: Step, u: string) {
    match step
    case Delete(c) => c in p.calls && p.calls[c].input.user == u
    case DeleteFails(c, applied) => applied && c in p.calls && p.calls[c].input.user == u
    case CacheSet(r) => r in p.readers && p.readers[r].user == u
    case CacheSetFails(r, applied) => applied && r in p.readers && p.readers[r].user == u
    case Evict(v) => v == u
    case _ => false
  }

  /** No step of the run does. */
  predicate Untouched(s: State, steps: seq<Step>, u: string) {
    forall n :: 0 <= n < |steps| ==>
      match RunFrom(s, steps[..n])
      case Some(p) => !Touches(p, steps[n], u)
      case None => true
  }

  lemma UntouchedStepKeepsEntry(p: State, step: Step, u: string)
    requires Enabled(p, step) && !Touches(p, step, u) && u in p.cache
    ensures u in Next(p, step).cache && Next(p, step).cache[u] == p.cache[u]
  {
    if CallStep(step) {
      CallStepMoves(p, step);
    } else if WriteStep(step) {
      UntouchedWriteKeepsEntry(p, step, u);
    }
  }

  lemma UntouchedWriteKeepsEntry(p: State, step: Step, u: string)
    requires Enabled(p, step) && WriteStep(step) && !Touches(p, step, u) && u in p.cache
    ensures u in Next(p, step).cache && Next(p, step).cache[u] == p.cache[u]
  {
    hide Log, Fates, Resolve;
  }

  lemma {:induction false} UntouchedRunKeepsEntry(s: State, steps: seq<Step>, t: State, u: string)
    requires RunFrom(s, steps) == Some(t) && Untouched(s, steps, u) && u in s.cache
    ensures u in t.cache && t.cache[u] == s.cache[u]
  {
    hide Enabled, Next, Touches;
    if |steps| > 0 {
      var rest := steps[..|steps| - 1];
      var p := RunFrom(s, rest).value;
      forall n | 0 <= n < |rest|
        ensures match RunFrom(s, rest[..n]) case Some(q) => !Touches(q, rest[n], u) case None => true
      {
        assert rest[..n] == steps[..n];
      }
      UntouchedRunKeepsEntry(s, rest, p, u);
      UntouchedStepKeepsEntry(p, steps[|steps| - 1], u);
    }
  }

  /** The TTL: after a SET the entry, unless it is deleted, evicted or replaced, stays, and it is a hit exactly while
      fewer than five minutes have passed. */
  lemma EntryLastsFiveMinutes(s: State, r: ReaderId, steps: seq<Step>, t: State)
    requires Enabled(s, CacheSet(r)) && RunFrom(Next(s, CacheSet(r)), steps) == Some(t)
    requires Untouched(Next(s, CacheSet(r)), steps, s.readers[r].user)
    ensures var u := s.readers[r].user;
            && u in t.cache && t.cache[u].account == s.readers[r].account
            && t.clock >= s.clock && (CacheHit(t, u) <==> t.clock - s.clock < 5 * 60)
  {
    RunGrows(Next(s, CacheSet(r)), steps, t);
    UntouchedRunKeepsEntry(Next(s, CacheSet(r)), steps, t, s.readers[r].user);
  }

  /** The bound on staleness: every row that a hit has not seen was committed less than 300 seconds ago, plus the
      time that the filling reader took from its database read to its SET. */
  lemma UnseenRowsAreRecent(steps: seq<Step>, s: State, u: string, k: nat)
    requires RunFrom(START, steps) == Some(s) && CacheHit(s, u) && Unseen(s, u, k)
    ensures var e, committed := s.cache[u], Log(s, u)[k].committedAt;
            && e.readAt < committed < |steps| && e.readAt < e.setAt < |steps|
            && ClockAt(steps, e.readAt) <= ClockAt(steps, e.setAt) <= s.clock
            && s.clock - ClockAt(steps, committed) < 300 + (ClockAt(steps, e.setAt) - ClockAt(steps, e.readAt))
  {
    assert Reaches(START, s);
    CacheFacts(s, u);
    CacheOkUnfolds(s, u, s.cache[u]);
    NowCountsSteps(steps, s);
    assert EntryOk(s, u, Log(s, u)[k]);
    EntriesAreStamped(steps, s, u);
    ClockIsMonotone(steps, s.cache[u].readAt, Log(s, u)[k].committedAt);
    ClockIsMonotone(steps, s.cache[u].readAt, s.cache[u].setAt);
  }
}
