/** A call whose account nobody else touches: whatever runs on all other accounts, interleaved in any way, it
    never waits and commits at its first attempt. */
module Isolated {
  import opened Domain
  import opened Machine
  import opened Preservation
  import opened Runs
  import opened LedgerTheorems
  import opened Undisturbed

  /** A foreign step that leaves the user's account alone. */
  predicate ActsElsewhere(p: State, step: Step, c: CallId, user: string) {
    CallStep(step) || WriteStep(step) ==>
      && step.c != c
      && (step.Invoke? ==> step.input.user != user)
      && (step.c in p.calls ==> p.calls[step.c].input.user != user)
  }

  /** A step of the call that is no failure. */
  predicate GoesOn(step: Step, c: CallId, input: Input) {
    step in {Invoke(c, input), Find(c), Begin(c), Read(c), Update(c), Commit(c)} || (step.Insert? && step.c == c)
  }

  /** In the run from `s` to `t`, the call takes no failing step, and all others act elsewhere. */
  ghost predicate IsolatedRun(s: State, steps: seq<Step>, t: State, c: CallId, input: Input)
    decreases |steps|
  {
    if |steps| == 0 then t == s
    else
      var last := steps[|steps| - 1];
      exists p ::
        && IsolatedRun(s, steps[..|steps| - 1], p, c, input) && Enabled(p, last) && t == Next(p, last)
        && (GoesOn(last, c, input) || ActsElsewhere(p, last, c, input.user))
  }

  /** What the call starts from: an existing account and a key that is unused in its log. */
  datatype Ground = Ground(account: Account, log: seq<Entry>)

  predicate Ready(g: Ground, input: Input) {
    && input.amount > 0 && input.key != "" && FindSlot(g.log, input.kind, input.key) < 0
    && g.account.version < MAX_INT64 && Perform(input.kind, g.account, input.amount).Ok?
  }

  /** No other open transaction holds a row of this user. */
  predicate QuietBut(t: State, c: CallId, user: string) {
    forall d :: d in t.calls && d != c && HasRow(t.calls[d].tx) ==>
      t.calls[d].input.user != user && t.calls[d].tx.row.user != user
  }

  /** The transaction works on the ground and on what the operation makes of it. */
  predicate WorksOnGround(tx: Tx, g: Ground, input: Input)
    requires Ready(g, input)
  {
    && (tx.Snap? || HasRow(tx))
    && tx.work.before == g.account && tx.work.after == Perform(input.kind, g.account, input.amount).value
    && (HasRow(tx) ==> tx.row == RowFor(input, tx.row.id))
    && (tx.Locked? ==> tx.image == tx.work.after)
  }

  /** Where the call stands after n steps of its own. */
  predicate CallAt(call: Call, g: Ground, input: Input, n: nat)
    requires Ready(g, input)
  {
    && call.input == input && call.lost == []
    && match n
       case 1 => call.phase == Looking && call.tx == NoTx
       case 2 => call.phase == Looping(0) && call.tx == NoTx
       case 3 => call.phase == InTx(0, ToRead) && call.tx == Open
       case 4 => call.phase == InTx(0, ToInsert) && call.tx.Snap? && WorksOnGround(call.tx, g, input)
       case 5 => call.phase == InTx(0, ToUpdate) && call.tx.Pending? && WorksOnGround(call.tx, g, input)
       case 6 => call.phase == InTx(0, ToCommit) && call.tx.Locked? && WorksOnGround(call.tx, g, input)
       case _ => call.phase.Deleting? && call.phase.account == Perform(input.kind, g.account, input.amount).value &&
                 call.tx == NoTx
  }

  predicate OnTrack(t: State, c: CallId, input: Input, g: Ground, n: nat)
    requires Ready(g, input)
  {
    && n <= LAST_STAGE && QuietBut(t, c, input.user) && input.user in t.accounts
    && (c in t.calls <==> n > 0) && (n > 0 ==> CallAt(t.calls[c], g, input, n))
    && if n < LAST_STAGE then t.accounts[input.user] == g.account && Log(t, input.user) == g.log
       else
         && t.accounts[input.user] == Perform(input.kind, g.account, input.amount).value
         && |Log(t, input.user)| == |g.log| + 1 && Log(t, input.user)[..|g.log|] == g.log
         && Log(t, input.user)[|g.log|].row == RowFor(input, t.calls[c].phase.id)
         && Log(t, input.user)[|g.log|].writer == c
  }

  // ---- The call's own steps ------------------------------------------------------------------------

  lemma LookupOnTrack(t: State, step: Step, c: CallId, input: Input, g: Ground, n: nat)
    requires Ready(g, input) && OnTrack(t, c, input, g, n) && Enabled(t, step)
    requires step in {Invoke(c, input), Find(c), Begin(c)}
    ensures n < LAST_STAGE && OnTrack(Next(t, step), c, input, g, n + 1)
  {
    hide Perform;
  }

  lemma ReadOnTrack(t: State, c: CallId, input: Input, g: Ground, n: nat)
    requires Ready(g, input) && OnTrack(t, c, input, g, n) && Enabled(t, Read(c))
    ensures n < LAST_STAGE && OnTrack(Next(t, Read(c)), c, input, g, n + 1)
  {
    hide Perform;
  }

  lemma InsertOnTrack(t: State, c: CallId, id: nat, input: Input, g: Ground, n: nat)
    requires Ready(g, input) && OnTrack(t, c, input, g, n) && Enabled(t, Insert(c, id))
    ensures n < LAST_STAGE && OnTrack(Next(t, Insert(c, id)), c, input, g, n + 1)
  {
    hide Perform, KeyHeld, IdFree;
  }

  lemma UpdateOnTrack(t: State, c: CallId, input: Input, g: Ground, n: nat)
    requires Ready(g, input) && OnTrack(t, c, input, g, n) && Enabled(t, Update(c))
    ensures n < LAST_STAGE && OnTrack(Next(t, Update(c)), c, input, g, n + 1)
  {
    VersionGoesUp(input.kind, g.account, input.amount);
    hide Perform, RowHeld;
  }

  lemma VersionGoesUp(kind: Kind, a: Account, amount: int64)
    requires Perform(kind, a, amount).Ok? && a.version < MAX_INT64
    ensures Perform(kind, a, amount).value.version == a.version + 1
  {
  }

  lemma CommitOnTrack(t: State, c: CallId, input: Input, g: Ground, n: nat)
    requires Ready(g, input) && OnTrack(t, c, input, g, n) && Enabled(t, Commit(c))
    ensures n < LAST_STAGE && OnTrack(Next(t, Commit(c)), c, input, g, n + 1)
  {
    hide Perform;
  }

  lemma OwnStepOnTrack(t: State, step: Step, c: CallId, input: Input, g: Ground, n: nat)
    requires Ready(g, input) && OnTrack(t, c, input, g, n) && Enabled(t, step) && GoesOn(step, c, input)
    ensures n < LAST_STAGE && OnTrack(Next(t, step), c, input, g, n + 1)
  {
    hide OnTrack, Ready, Enabled, Next;
    if step.Read? {
      ReadOnTrack(t, c, input, g, n);
    } else if step.Insert? {
      InsertOnTrack(t, c, step.id, input, g, n);
    } else if step.Update? {
      UpdateOnTrack(t, c, input, g, n);
    } else if step.Commit? {
      CommitOnTrack(t, c, input, g, n);
    } else {
      LookupOnTrack(t, step, c, input, g, n);
    }
  }

  // ---- Everybody else's ------------------------------------------------------------------------------

  /** The tables of this user and the record of `c` are the same, and still nobody else holds a row of the user. */
  predicate LeavesAlone(s: State, t: State, c: CallId, user: string) {
    && (c in s.calls <==> c in t.calls) && (c in s.calls ==> t.calls[c] == s.calls[c])
    && (user in s.accounts ==> user in t.accounts && t.accounts[user] == s.accounts[user])
    && Log(t, user) == Log(s, user) && (QuietBut(s, c, user) ==> QuietBut(t, c, user))
  }

  lemma ForeignCallStepLeavesAlone(t: State, step: Step, c: CallId, user: string)
    requires Enabled(t, step) && CallStep(step) && ActsElsewhere(t, step, c, user)
    ensures LeavesAlone(t, Next(t, step), c, user)
  {
    CallStepMoves(t, step);
    if LookupStep(step) {
      LookupTakesNoRow(t, step);
    } else {
      AttemptTakesOwnRow(t, step);
    }
    hide Next, Enabled;
  }

  /** The row of a transaction is the row of its call. */
  predicate OwnRowOnly(s: State, t: State, d: CallId) {
    && d in t.calls
    && (HasRow(t.calls[d].tx) ==>
          && d in s.calls && t.calls[d].input == s.calls[d].input
          && (t.calls[d].tx.row.user == s.calls[d].input.user ||
              (HasRow(s.calls[d].tx) && t.calls[d].tx.row == s.calls[d].tx.row)))
  }

  lemma LookupTakesNoRow(t: State, step: Step)
    requires Enabled(t, step) && LookupStep(step)
    ensures OwnRowOnly(t, Next(t, step), step.c)
  {
    hide SlotOf, Log;
  }

  lemma AttemptTakesOwnRow(t: State, step: Step)
    requires Enabled(t, step) && AttemptStep(step)
    ensures OwnRowOnly(t, Next(t, step), step.c)
  {
    hide SlotOf, Log, Perform, KeyHeld, IdFree, RowHeld, VersionMatches;
  }

  lemma InstallLeavesAlone(t: State, d: CallId, fate: Fate, phase: Phase, c: CallId, user: string)
    requires d in t.calls && t.calls[d].tx.Locked? && d != c && t.calls[d].input.user != user
    ensures LeavesAlone(t, Install(t, d, fate, phase), c, user)
  {
  }

  lemma SettleLeavesAlone(t: State, d: CallId, fate: Fate, dropped: bool, outcome: Outcome, c: CallId, user: string)
    requires d in t.calls && t.calls[d].phase.Deleting? && d != c && t.calls[d].input.user != user
    ensures LeavesAlone(t, Settle(t, d, fate, dropped, outcome), c, user)
  {
    hide Resolve;
  }

  lemma EndLeavesAlone(t: State, d: CallId, outcome: Outcome, c: CallId, user: string)
    requires d in t.calls && d != c
    ensures LeavesAlone(t, Move(t, d, Ended(t, t.calls[d], outcome)), c, user)
  {
  }

  lemma ForeignWriteStepLeavesAlone(t: State, step: Step, c: CallId, user: string)
    requires Enabled(t, step) && WriteStep(step) && ActsElsewhere(t, step, c, user)
    ensures LeavesAlone(t, Next(t, step), c, user)
  {
    hide LeavesAlone, Install, Settle;
    var call := t.calls[step.c];
    match step
    case Commit(d) => InstallLeavesAlone(t, d, Owed, Deleting(call.tx.row.id, call.tx.work.after), c, user);
    case ServerCommit(d) => InstallLeavesAlone(t, d, Unacknowledged(t.now), call.phase, c, user);
    case Delete(d) =>
      SettleLeavesAlone(t, d, Deleted(t.now), true, Fresh(call.phase.id, call.phase.account), c, user);
    case DeleteFails(d, applied) =>
      SettleLeavesAlone(t, d, DeleteFailed(t.now), applied, Fresh(call.phase.id, call.phase.account), c, user);
    case Die(d) =>
      if call.phase.Deleting? {
        SettleLeavesAlone(t, d, WriterDied(t.now), false, Failed(Died), c, user);
      } else {
        EndLeavesAlone(t, d, Failed(Died), c, user);
      }
  }

  lemma OtherStepLeavesAlone(t: State, step: Step, c: CallId, user: string)
    requires Enabled(t, step) && !CallStep(step) && !WriteStep(step)
    ensures LeavesAlone(t, Next(t, step), c, user)
  {
    OtherStepGrows(t, step);
    OthersKeepAccounts(t, step);
    hide Next, Enabled;
  }

  lemma ForeignStepLeavesAlone(t: State, step: Step, c: CallId, user: string)
    requires Enabled(t, step) && ActsElsewhere(t, step, c, user)
    ensures LeavesAlone(t, Next(t, step), c, user)
  {
    hide LeavesAlone, ActsElsewhere, Next, Enabled;
    if CallStep(step) {
      ForeignCallStepLeavesAlone(t, step, c, user);
    } else if WriteStep(step) {
      ForeignWriteStepLeavesAlone(t, step, c, user);
    } else {
      OtherStepLeavesAlone(t, step, c, user);
    }
  }

  lemma LeftAloneStaysOnTrack(s: State, t: State, c: CallId, input: Input, g: Ground, n: nat)
    requires Ready(g, input) && OnTrack(s, c, input, g, n) && LeavesAlone(s, t, c, input.user)
    ensures OnTrack(t, c, input, g, n)
  {
    hide Perform, CallAt, QuietBut;
  }

  // ---- All runs ----------------------------------------------------------------------------------------

  lemma {:induction false} IsolatedRunStaysOnTrack(s: State, steps: seq<Step>, t: State, c: CallId, input: Input,
                                                   g: Ground)
    requires Ready(g, input) && OnTrack(s, c, input, g, 0) && IsolatedRun(s, steps, t, c, input)
    ensures OnTrack(t, c, input, g, OwnSteps(steps, c)) && RunFrom(s, steps) == Some(t)
  {
    hide Ready, OnTrack, Enabled, Next, LeavesAlone;
    if |steps| > 0 {
      var rest, last := steps[..|steps| - 1], steps[|steps| - 1];
      var p :| IsolatedRun(s, rest, p, c, input) && Enabled(p, last) && t == Next(p, last) &&
               (GoesOn(last, c, input) || ActsElsewhere(p, last, c, input.user));
      IsolatedRunStaysOnTrack(s, rest, p, c, input, g);
      if GoesOn(last, c, input) {
        OwnStepOnTrack(p, last, c, input, g, OwnSteps(rest, c));
      } else {
        ForeignStepLeavesAlone(p, last, c, input.user);
        LeftAloneStaysOnTrack(p, t, c, input, g, OwnSteps(rest, c));
      }
    }
  }

  /** On track, nothing holds the call up: its next step is enabled, with any id that is free. */
  lemma NeverHeldUp(t: State, c: CallId, input: Input, g: Ground, n: nat, id: nat)
    requires Ready(g, input) && OnTrack(t, c, input, g, n) && n < LAST_STAGE && IdFree(t, id)
    ensures Enabled(t, StepAt(c, input, id, n))
  {
    hide Perform, IdFree;
  }

  predicate MayStart(s: State, c: CallId, input: Input) {
    && c !in s.calls && Quiet(s, input.user) && input.user in s.accounts
    && Ready(Ground(s.accounts[input.user], Log(s, input.user)), input)
  }

  /** Isolation: in every run in which the others act on other accounts only and the call itself does not fail,
      it is held up by nothing; and after seven steps of its own it has committed the sequential result of its
      operation, at its first attempt. */
  lemma IsolatedCallCommits(s: State, steps: seq<Step>, t: State, c: CallId, input: Input)
    requires MayStart(s, c, input) && IsolatedRun(s, steps, t, c, input)
    ensures OwnSteps(steps, c) <= LAST_STAGE
    ensures OwnSteps(steps, c) < LAST_STAGE ==>
              forall id :: IdFree(t, id) ==> Enabled(t, StepAt(c, input, id, OwnSteps(steps, c)))
    ensures OwnSteps(steps, c) == LAST_STAGE ==>
              && c in t.calls && t.calls[c].phase.Deleting? && t.calls[c].lost == []
              && t.calls[c].phase.account == AfterwardsAccount(s, input)
              && input.user in t.accounts && t.accounts[input.user] == AfterwardsAccount(s, input)
              && |Log(t, input.user)| == |Log(s, input.user)| + 1
              && Log(t, input.user)[|Log(s, input.user)|].row == RowFor(input, t.calls[c].phase.id)
  {
    hide IdFree, Enabled, Next;
    var g, n := Ground(s.accounts[input.user], Log(s, input.user)), OwnSteps(steps, c);
    IsolatedRunStaysOnTrack(s, steps, t, c, input, g);
    if n < LAST_STAGE {
      forall id | IdFree(t, id) ensures Enabled(t, StepAt(c, input, id, n)) {
        NeverHeldUp(t, c, input, g, n, id);
      }
    }
  }
}
