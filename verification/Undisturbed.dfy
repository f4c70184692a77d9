/** The course of a call that meets no other open transaction on its account. */
module Undisturbed {
  import opened Domain
  import opened Machine

  /** No open transaction holds a row or a lock of this user; those of other users may be at any point. */
  predicate Quiet(s: State, user: string) {
    forall d :: d in s.calls && HasRow(s.calls[d].tx) ==>
      s.calls[d].input.user != user && s.calls[d].tx.row.user != user
  }

  /** A call that nothing stands in the way of: a fresh key, enough balance, an existing account. */
  predicate CanCommit(s: State, c: CallId, input: Input, id: nat) {
    && c !in s.calls && Quiet(s, input.user) && IdFree(s, id)
    && input.amount > 0 && input.key != "" && SlotOf(s, input) < 0
    && input.user in s.accounts && s.accounts[input.user].version < MAX_INT64
    && Perform(input.kind, s.accounts[input.user], input.amount).Ok?
  }

  function AfterwardsAccount(s: State, input: Input): Account
    requires input.user in s.accounts && Perform(input.kind, s.accounts[input.user], input.amount).Ok?
  {
    Perform(input.kind, s.accounts[input.user], input.amount).value
  }

  /** The state in which `c` stands at `phase` with transaction `tx`, n steps after `s`. */
  function During(s: State, c: CallId, input: Input, phase: Phase, tx: Tx, n: nat): State {
    s.(calls := s.calls[c := Call(input, s.now, [], phase, tx)], now := s.now + n)
  }

  function WorkOf(s: State, input: Input): Work
    requires input.user in s.accounts && Perform(input.kind, s.accounts[input.user], input.amount).Ok?
  {
    Work(s.accounts[input.user], AfterwardsAccount(s, input), s.now + 3)
  }

  /** The transaction right before its COMMIT. */
  function AboutToCommit(s: State, input: Input, id: nat): (locked: Tx)
    requires input.user in s.accounts && Perform(input.kind, s.accounts[input.user], input.amount).Ok?
    ensures locked.Locked?
  {
    Locked(WorkOf(s, input), RowFor(input, id), s.now + 4, AfterwardsAccount(s, input))
  }

  function CommittedEntry(s: State, c: CallId, input: Input, id: nat): Entry {
    Entry(RowFor(input, id), c, s.now + 3, s.now + 4, s.now + 6)
  }

  /** The state right after the commit. */
  function Committed(s: State, c: CallId, input: Input, id: nat): State
    requires CanCommit(s, c, input, id)
  {
    var u, after := input.user, AfterwardsAccount(s, input);
    During(s, c, input, Deleting(id, after), NoTx, 7).(
      accounts := s.accounts[u := after],
      ledger := s.ledger[u := Log(s, u) + [CommittedEntry(s, c, input, id)]],
      fates := s.fates[u := Fates(s, u) + [Owed]])
  }

  const LAST_STAGE := 7

  /** The state n steps after `s`. */
  function Stage(s: State, c: CallId, input: Input, id: nat, n: nat): State
    requires CanCommit(s, c, input, id)
  {
    match n
    case 0 => s
    case 1 => During(s, c, input, Looking, NoTx, 1)
    case 2 => During(s, c, input, Looping(0), NoTx, 2)
    case 3 => During(s, c, input, InTx(0, ToRead), Open, 3)
    case 4 => During(s, c, input, InTx(0, ToInsert), Snap(WorkOf(s, input)), 4)
    case 5 => During(s, c, input, InTx(0, ToUpdate), Pending(WorkOf(s, input), RowFor(input, id), s.now + 4), 5)
    case 6 => During(s, c, input, InTx(0, ToCommit), AboutToCommit(s, input, id), 6)
    case _ => Committed(s, c, input, id)
  }

  /** `s` is the state n steps after `start`, from where nothing stood in the way. */
  predicate AtStage(s: State, start: State, c: CallId, input: Input, id: nat, n: nat) {
    CanCommit(start, c, input, id) && s == Stage(start, c, input, id, n)
  }

  /** The step that leads from stage n to the next. */
  function StepAt(c: CallId, input: Input, id: nat, n: nat): Step {
    match n
    case 0 => Invoke(c, input)
    case 1 => Find(c)
    case 2 => Begin(c)
    case 3 => Read(c)
    case 4 => Insert(c, id)
    case 5 => Update(c)
    case _ => Commit(c)
  }

  lemma InvokeStep(s: State, c: CallId, input: Input, id: nat)
    requires CanCommit(s, c, input, id)
    ensures Enabled(Stage(s, c, input, id, 0), Invoke(c, input))
    ensures Next(Stage(s, c, input, id, 0), Invoke(c, input)) == Stage(s, c, input, id, 1)
  {
    hide Quiet, IdFree, SlotOf;
  }

  lemma FindStep(s: State, c: CallId, input: Input, id: nat)
    requires CanCommit(s, c, input, id)
    ensures Enabled(Stage(s, c, input, id, 1), Find(c))
    ensures Next(Stage(s, c, input, id, 1), Find(c)) == Stage(s, c, input, id, 2)
  {
    hide Quiet, IdFree;
  }

  lemma BeginStep(s: State, c: CallId, input: Input, id: nat)
    requires CanCommit(s, c, input, id)
    ensures Enabled(Stage(s, c, input, id, 2), Begin(c))
    ensures Next(Stage(s, c, input, id, 2), Begin(c)) == Stage(s, c, input, id, 3)
  {
    hide Quiet, IdFree, SlotOf, Perform;
  }

  lemma ReadStep(s: State, c: CallId, input: Input, id: nat)
    requires CanCommit(s, c, input, id)
    ensures Enabled(Stage(s, c, input, id, 3), Read(c))
    ensures Next(Stage(s, c, input, id, 3), Read(c)) == Stage(s, c, input, id, 4)
  {
    hide Quiet, IdFree, SlotOf;
  }

  lemma InsertStep(s: State, c: CallId, input: Input, id: nat)
    requires CanCommit(s, c, input, id)
    ensures Enabled(Stage(s, c, input, id, 4), Insert(c, id))
    ensures Next(Stage(s, c, input, id, 4), Insert(c, id)) == Stage(s, c, input, id, 5)
  {
    assert !KeyHeld(Stage(s, c, input, id, 4), c) && IdFree(Stage(s, c, input, id, 4), id);
  }

  lemma UpdateStep(s: State, c: CallId, input: Input, id: nat)
    requires CanCommit(s, c, input, id)
    ensures Enabled(Stage(s, c, input, id, 5), Update(c))
    ensures Next(Stage(s, c, input, id, 5), Update(c)) == Stage(s, c, input, id, 6)
  {
    assert !RowHeld(Stage(s, c, input, id, 5), c);
  }

  lemma CommitStep(s: State, c: CallId, input: Input, id: nat)
    requires CanCommit(s, c, input, id)
    ensures Enabled(Stage(s, c, input, id, 6), Commit(c))
    ensures Next(Stage(s, c, input, id, 6), Commit(c)) == Stage(s, c, input, id, 7)
  {
  }

  /** Each step is enabled in turn and leads to the next stage. */
  lemma StageStep(s: State, c: CallId, input: Input, id: nat, n: nat)
    requires CanCommit(s, c, input, id) && n < LAST_STAGE
    ensures Enabled(Stage(s, c, input, id, n), StepAt(c, input, id, n))
    ensures Next(Stage(s, c, input, id, n), StepAt(c, input, id, n)) == Stage(s, c, input, id, n + 1)
  {
    hide CanCommit, Stage, Enabled, Next;
    match n
    case 0 => InvokeStep(s, c, input, id);
    case 1 => FindStep(s, c, input, id);
    case 2 => BeginStep(s, c, input, id);
    case 3 => ReadStep(s, c, input, id);
    case 4 => InsertStep(s, c, input, id);
    case 5 => UpdateStep(s, c, input, id);
    case _ => CommitStep(s, c, input, id);
  }

  /** A call at stage n takes its next step and stays on course: it is not rolled back and does not end. */
  lemma NextStage(s: State, start: State, c: CallId, input: Input, id: nat, n: nat)
    requires n < LAST_STAGE
    ensures AtStage(s, start, c, input, id, n) ==>
              && Enabled(s, StepAt(c, input, id, n))
              && AtStage(Next(s, StepAt(c, input, id, n)), start, c, input, id, n + 1)
              && OnCourse(Next(s, StepAt(c, input, id, n)), c, n + 1)
  {
    hide CanCommit, Stage, Enabled, Next;
    if AtStage(s, start, c, input, id, n) {
      StageStep(start, c, input, id, n);
      StageIsOnCourse(start, c, input, id, n + 1);
    }
  }

  /** Where the call stands at stage n. */
  predicate OnCourse(s: State, c: CallId, n: nat) {
    && c in s.calls
    && match n
       case 1 => s.calls[c].phase.Looking?
       case 2 => s.calls[c].phase.Looping?
       case 7 => s.calls[c].phase.Deleting?
       case _ => s.calls[c].phase.InTx?
  }

  lemma StageIsOnCourse(start: State, c: CallId, input: Input, id: nat, n: nat)
    requires CanCommit(start, c, input, id) && 1 <= n <= LAST_STAGE
    ensures OnCourse(Stage(start, c, input, id, n), c, n)
  {
    hide CanCommit, WorkOf, AboutToCommit, AfterwardsAccount, CommittedEntry, Log, Fates;
  }

  lemma FirstStage(start: State, c: CallId, input: Input, id: nat)
    ensures CanCommit(start, c, input, id) ==>
              && input.amount > 0 && input.key != ""
              && AtStage(Next(start, Invoke(c, input)), start, c, input, id, 1)
  {
    if CanCommit(start, c, input, id) {
      NextStage(start, start, c, input, id, 0);
    }
  }

  lemma ReachesNext(s: State, p: State, step: Step)
    requires Reaches(s, p) && Enabled(p, step)
    ensures Reaches(s, Next(p, step))
  {
    var steps :| RunFrom(s, steps) == Some(p);
    assert (steps + [step])[..|steps|] == steps;
    assert RunFrom(s, steps + [step]) == Some(Next(p, step));
  }

  lemma ReachesItself(s: State)
    ensures Reaches(s, s)
  {
    assert RunFrom(s, []) == Some(s);
  }

  lemma {:induction false} ReachesStage(s: State, c: CallId, input: Input, id: nat, n: nat)
    requires CanCommit(s, c, input, id) && n <= LAST_STAGE
    ensures Reaches(s, Stage(s, c, input, id, n))
  {
    hide CanCommit, Enabled, Next, Reaches;
    if n == 0 {
      ReachesItself(s);
    } else {
      ReachesStage(s, c, input, id, n - 1);
      StageStep(s, c, input, id, n - 1);
      ReachesNext(s, Stage(s, c, input, id, n - 1), StepAt(c, input, id, n - 1));
    }
  }

  /** Obstruction freedom: a call that meets no other open transaction on its account commits at its first attempt,
      with the sequential result of its own operation, whatever is under way on all other accounts. */
  lemma UndisturbedCallCommits(s: State, c: CallId, input: Input, id: nat)
    requires CanCommit(s, c, input, id)
    ensures Reaches(s, Committed(s, c, input, id))
  {
    ReachesStage(s, c, input, id, LAST_STAGE);
  }
}
