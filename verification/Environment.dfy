/** The shared world in which the use cases run: the machine's state, what everybody else does
    between two round trips of the running use case, and how its own round trips turn out.
    Since the contracts below hold for every script, they hold for every interleaving. */
module Environment {
  import opened Domain
  import opened Machine
  import opened Invariant
  import opened Preservation
  import opened Runs

  /** Go errors: a root cause under any number of `%w` wrappings. */
  datatype Error = Root(err: Err) | Wrap(message: string, inner: Error)

  /** The root that `errors.Is` finds at the end of the chain. */
  function Cause(e: Error): Err {
    match e
    case Root(err) => err
    case Wrap(_, inner) => Cause(inner)
  }

  /** A call, a balance query, or a reader of the history, which keeps no record in the machine. */
  datatype Actor = Caller(c: CallId) | Asker(r: ReaderId) | Browser

  /** The step is one that `me` takes; the database server and everybody else take the others. */
  predicate OwnStep(step: Step, me: Actor) {
    match me
    case Caller(c) => CallerStep(step, c)
    case Asker(r) => ReaderStep(step) && step.r == r
    case Browser => false
  }

  /** The record of `me` in `t` is the one in `s`, except that its transaction may be gone. */
  predicate Kept(s: State, t: State, me: Actor) {
    match me
    case Caller(c) => CallKept(s, t, c)
    case Asker(r) => (r in s.readers <==> r in t.readers) && (r in s.readers ==> t.readers[r] == s.readers[r])
    case Browser => true
  }

  lemma ForeignStepKeeps(s: State, step: Step, me: Actor)
    requires Enabled(s, step) && !OwnStep(step, me)
    ensures Kept(s, Next(s, step), me)
  {
    match me
    case Caller(c) => ForeignStepKeepsCall(s, step, c);
    case Asker(r) => ForeignStepKeepsReader(s, step, r);
    case Browser =>
  }

  lemma KeptTransitive(s: State, p: State, t: State, me: Actor)
    requires Kept(s, p, me) && Kept(p, t, me)
    ensures Kept(s, t, me)
  {
  }

  lemma ForeignStepKeepsReader(s: State, step: Step, r: ReaderId)
    requires Enabled(s, step) && !(ReaderStep(step) && step.r == r)
    ensures Kept(s, Next(s, step), Asker(r))
  {
    if CallStep(step) {
      CallStepMoves(s, step);
    } else if WriteStep(step) {
      WriteStepKeepsReaders(s, step);
    }
  }

  lemma WriteStepKeepsReaders(s: State, step: Step)
    requires Enabled(s, step) && WriteStep(step)
    ensures Next(s, step).readers == s.readers
  {
  }

  /** In the state after n steps of the run, `a` was the committed account. */
  predicate HeldAt(trace: seq<Step>, n: nat, user: string, a: Account) {
    && n <= |trace|
    && match RunFrom(START, trace[..n])
       case None => false
       case Some(p) => user in p.accounts && p.accounts[user] == a
  }

  /** In the state after n steps of the run, `a` was the unexpired entry. */
  predicate CachedAt(trace: seq<Step>, n: nat, user: string, a: Account) {
    && n <= |trace|
    && match RunFrom(START, trace[..n])
       case None => false
       case Some(p) => CacheHit(p, user) && p.cache[user].account == a
  }

  /** In the state after n steps of the run, there was no account. */
  predicate MissingAt(trace: seq<Step>, n: nat, user: string) {
    && n <= |trace|
    && match RunFrom(START, trace[..n])
       case None => false
       case Some(p) => user !in p.accounts
  }

  /** What held at a moment of a run holds at that moment of every longer one. */
  lemma MomentsStay(trace: seq<Step>, longer: seq<Step>, n: nat, user: string, a: Account)
    requires trace <= longer && n <= |trace|
    ensures HeldAt(trace, n, user, a) ==> HeldAt(longer, n, user, a)
  {
    assert longer[..n] == trace[..n];
  }

  /** The next outcome of a script that has run dry is a success, and the next id is 0. */
  predicate Fortune(luck: seq<bool>) {
    |luck| == 0 || luck[0]
  }

  function NextId(ids: seq<nat>): nat {
    if |ids| == 0 then 0 else ids[0]
  }

  function Rest<T>(script: seq<T>): seq<T> {
    if |script| == 0 then [] else script[1..]
  }

  /** The failing outcomes of a round trip, and the end of the process. */
  predicate Fails(step: Step) {
    step.FindFails? || step.ReplayReadFails? || step.BeginFails? || step.StatementFails? || step.CommitFails? ||
    step.DeleteFails? || step.Die? || step.CacheGetFails? || step.DbGetFails? || step.CacheSetFails?
  }

  /** The server itself stands in the way of this round trip: the transaction is gone, another one holds the key or
      the row, an id that may be drawn is taken, or the version column is full. */
  predicate Hindered(s: State, step: Step, drawable: set<nat>) {
    match step
    case StatementFails(c) =>
      c in s.calls &&
      (match s.calls[c].phase
       case InTx(_, ToRead) => !s.calls[c].tx.Open?
       case InTx(_, ToInsert) => !s.calls[c].tx.Snap? || KeyHeld(s, c) || exists id :: id in drawable && !IdFree(s, id)
       case InTx(_, ToUpdate) =>
         || !s.calls[c].tx.Pending? || RowHeld(s, c)
         || (var before := s.calls[c].tx.work.before;
             VersionMatches(s, s.calls[c].input.user, before.version) && before.version == MAX_INT64)
       case _ => false)
    case CommitFails(c) => c in s.calls && !s.calls[c].tx.Locked?
    case _ => false
  }

  /** Step n of the run may have failed: its draw was unlucky, or the server stood in its way. */
  predicate Excused(trace: seq<Step>, draws: seq<bool>, drawable: set<nat>, n: nat)
    requires n < |trace| == |draws|
  {
    !trace[n].Die? && (!draws[n] || Hindered(StateAt(trace, n), trace[n], drawable))
  }

  /** One use case at work: who it is, since which step, and whether no unlucky draw lies ahead of it. */
  datatype Session = Session(me: Actor, since: nat, smooth: bool)

  /** Since the session began, no step of its own failed without an excuse. */
  ghost predicate Fair(session: Session, trace: seq<Step>, draws: seq<bool>, drawable: set<nat>, luck: seq<bool>,
                       pending: bool) {
    && session.since <= |trace| == |draws|
    && (forall n :: session.since <= n < |trace| && OwnStep(trace[n], session.me) && Fails(trace[n]) ==>
          Excused(trace, draws, drawable, n) && (session.smooth ==> draws[n]))
    && (session.smooth ==> pending && false !in luck)
  }

  lemma FairExtends(session: Session, trace: seq<Step>, draws: seq<bool>, drawable: set<nat>, luck: seq<bool>,
                    pending: bool, step: Step, draw: bool)
    requires Fair(session, trace, draws, drawable, luck, pending)
    requires OwnStep(step, session.me) && Fails(step) ==>
               && !step.Die? && (!draw || Hindered(StateAt(trace, |trace|), step, drawable))
               && (session.smooth ==> draw)
    ensures Fair(session, trace + [step], draws + [draw], drawable, luck, true)
  {
    hide Hindered, OwnStep, Fails, StateAt;
    var longer, drawn := trace + [step], draws + [draw];
    forall n | session.since <= n < |longer| && OwnStep(longer[n], session.me) && Fails(longer[n])
      ensures Excused(longer, drawn, drawable, n) && (session.smooth ==> drawn[n])
    {
      SameStateAt(trace, step, n);
    }
  }

  lemma SameStateAt(trace: seq<Step>, step: Step, n: nat)
    requires n <= |trace|
    ensures StateAt(trace + [step], n) == StateAt(trace, n)
  {
    assert (trace + [step])[..n] == trace[..n];
  }

  /** A round trip of `c` since step `from` failed, and not without an excuse; in a session without unlucky draws,
      because the server stood in its way. */
  ghost predicate FailedWithCause(trace: seq<Step>, draws: seq<bool>, drawable: set<nat>, from: nat, c: CallId,
                                  smooth: bool) {
    exists n :: from <= n < |trace| == |draws| && CallerStep(trace[n], c) && Fails(trace[n]) &&
                Excused(trace, draws, drawable, n) && (smooth ==> Hindered(StateAt(trace, n), trace[n], drawable))
  }

  /** The state is the one to which the recorded steps lead. */
  ghost predicate Recorded(s: State, trace: seq<Step>, draws: seq<bool>, ids: seq<nat>, drawable: set<nat>) {
    && RunFrom(START, trace) == Some(s) && Inv(s) && |draws| == |trace|
    && 0 in drawable && forall id :: id in ids ==> id in drawable
  }

  /** What is so now was so at the last moment of the run. */
  lemma MomentNow(s: State, trace: seq<Step>, draws: seq<bool>, ids: seq<nat>, drawable: set<nat>, user: string)
    requires Recorded(s, trace, draws, ids, drawable)
    ensures if user in s.accounts then HeldAt(trace, |trace|, user, s.accounts[user])
            else MissingAt(trace, |trace|, user)
    ensures CacheHit(s, user) ==> CachedAt(trace, |trace|, user, s.cache[user].account)
  {
    assert trace[..|trace|] == trace;
  }

  class World {
    var st: State
    var others: seq<seq<Step>>  // one batch of foreign steps before each round trip
    var luck: seq<bool>         // does the next round trip succeed, if the server lets it
    var whims: seq<bool>        // is the next failing write applied nevertheless
    var ids: seq<nat>           // the ULIDs that will be drawn
    ghost const drawable: set<nat>
    ghost var trace: seq<Step>  // every step taken so far
    ghost var draws: seq<bool>  // the draw that each of them was taken with
    ghost var pending: bool     // the draw of the present round trip

    ghost predicate Valid()
      reads this
    {
      Recorded(st, trace, draws, ids, drawable)
    }

    ghost predicate IsFair(session: Session)
      reads this
    {
      Fair(session, trace, draws, drawable, luck, pending)
    }

    /** Nobody interferes any more and nothing fails. */
    predicate Calm()
      reads this
    {
      others == [] && luck == []
    }

    constructor (others: seq<seq<Step>>, luck: seq<bool>, whims: seq<bool>, ids: seq<nat>)
      ensures Valid() && st == START
    {
      this.others, this.luck, this.whims, this.ids := others, luck, whims, ids;
      st, trace, draws, pending := START, [], [], true;
      drawable := (set id | id in ids) + {0};
    }

    lemma IsReachable()
      requires Valid()
      ensures Reachable(st)
    {
    }

    /** A use case begins. */
    ghost method Open(me: Actor) returns (session: Session)
      requires Valid()
      modifies this`pending
      ensures session == Session(me, |trace|, false !in luck) && IsFair(session) && pending
    {
      session := Session(me, |trace|, false !in luck);
      pending := true;
    }

    /** The running use case takes a step; it may fail only after an unlucky draw, or if it is hindered. */
    method Act(step: Step, ghost session: Session)
      requires Valid() && Enabled(st, step) && IsFair(session)
      requires OwnStep(step, session.me) && Fails(step) ==> !step.Die? && (!pending || Hindered(st, step, drawable))
      modifies this`st, this`trace, this`draws, this`pending
      ensures Valid() && st == Next(old(st), step) && trace == old(trace) + [step] && IsFair(session)
    {
      hide Fair, Hindered, Fails, OwnStep;
      ghost var draw := pending;
      StateAtEnd(trace, st);
      SmoothIsLucky(session, trace, draws, drawable, luck, pending);
      FairExtends(session, trace, draws, drawable, luck, pending, step, draw);
      Take(step, draw);
    }

    method Take(step: Step, ghost draw: bool)
      requires Valid() && Enabled(st, step)
      modifies this`st, this`trace, this`draws, this`pending
      ensures Valid() && st == Next(old(st), step)
      ensures trace == old(trace) + [step] && draws == old(draws) + [draw] && pending
    {
      StepKeepsInv(st, step);
      assert (trace + [step])[..|trace|] == trace;
      st := Next(st, step);
      trace, draws, pending := trace + [step], draws + [draw], true;
    }

    /** Everybody else's turn. */
    method Interfere(ghost session: Session, me: Actor)
      requires Valid() && IsFair(session) && session.me == me
      modifies this
      ensures Valid() && old(trace) <= trace && Kept(old(st), st, me) && IsFair(session)
      ensures forall i :: |old(trace)| <= i < |trace| ==> !OwnStep(trace[i], me)
      ensures others == Rest(old(others)) && luck == old(luck) && ids == old(ids)
      ensures old(others) == [] ==> st == old(st) && trace == old(trace)
    {
      hide Recorded;
      pending := true;
      if |others| == 0 {
        return;
      }
      var batch := others[0];
      others := others[1..];
      for i := 0 to |batch|
        invariant Valid() && old(trace) <= trace && Kept(old(st), st, me) && IsFair(session)
        invariant others == Rest(old(others)) && luck == old(luck) && ids == old(ids)
        invariant forall i :: |old(trace)| <= i < |trace| ==> !OwnStep(trace[i], me)
      {
        hide Fair, OwnStep, Fails, Kept, Enabled, Next;
        if !OwnStep(batch[i], me) && Enabled(st, batch[i]) {
          ForeignStepKeeps(st, batch[i], me);
          KeptTransitive(old(st), st, Next(st, batch[i]), me);
          FairExtends(session, trace, draws, drawable, luck, pending, batch[i], true);
          Take(batch[i], true);
        }
      }
    }

    method Lucky(ghost session: Session) returns (b: bool)
      requires IsFair(session)
      modifies this`luck, this`pending
      ensures b == Fortune(old(luck)) && luck == Rest(old(luck)) && pending == b && IsFair(session)
    {
      b := Fortune(luck);
      luck := Rest(luck);
      pending := b;
    }

    method Whim() returns (b: bool)
      modifies this`whims
    {
      b := Fortune(whims);
      whims := Rest(whims);
    }

    method NewId() returns (id: nat)
      requires Valid()
      modifies this`ids
      ensures Valid() && id == NextId(old(ids)) && ids == Rest(old(ids)) && id in drawable
    {
      id := NextId(ids);
      ids := Rest(ids);
    }
  }

  lemma StateAtEnd(trace: seq<Step>, s: State)
    requires RunFrom(START, trace) == Some(s)
    ensures StateAt(trace, |trace|) == s
  {
    assert trace[..|trace|] == trace;
  }

  lemma SmoothIsLucky(session: Session, trace: seq<Step>, draws: seq<bool>, drawable: set<nat>, luck: seq<bool>,
                      pending: bool)
    requires Fair(session, trace, draws, drawable, luck, pending)
    ensures session.smooth ==> pending
  {
  }
}
