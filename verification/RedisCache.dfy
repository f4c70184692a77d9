/** The Redis side: the balance cache as a store with one entry per user, a TTL, and calls that may fail. */
module RedisCache {
  import opened Domain
  import opened Machine
  import opened Invariant
  import opened Environment
  import opened Repository

  lemma SetLeads(s: State, r: ReaderId, step: Step)
    requires r in s.readers && s.readers[r].Holding? && (step.CacheSet? || step.CacheSetFails?) && step.r == r
    ensures Enabled(s, step)
    ensures var t, u, a := Next(s, step), s.readers[r].user, s.readers[r].account;
            && r in t.readers && t.readers[r] == Answered(u, a) && t.accounts == s.accounts && t.clock == s.clock
            && (step.CacheSet? ==> u in t.cache && t.cache[u].account == a && t.cache[u].setClock == s.clock)
  {
  }

  lemma GetLeads(s: State, r: ReaderId)
    requires r in s.readers && s.readers[r].Checking?
    ensures Enabled(s, CacheGet(r)) && Enabled(s, CacheGetFails(r))
    ensures Next(s, CacheGetFails(r)) == SetReader(s, r, Missed(s.readers[r].user))
    ensures var t, u := Next(s, CacheGet(r)), s.readers[r].user;
            SameData(s, t) && r in t.readers &&
            t.readers[r] == if CacheHit(s, u) then Answered(u, s.cache[u].account) else Missed(u)
  {
  }

  lemma DeleteLeads(s: State, c: CallId, applied: bool)
    requires c in s.calls && s.calls[c].phase.Deleting?
    ensures Enabled(s, Delete(c)) && Enabled(s, DeleteFails(c, applied))
    ensures var call := s.calls[c];
            && Ends(Next(s, Delete(c)), c, call.input, Fresh(call.phase.id, call.phase.account))
            && Ends(Next(s, DeleteFails(c, applied)), c, call.input, Fresh(call.phase.id, call.phase.account))
            && call.input.user !in Next(s, Delete(c)).cache
  {
    hide Resolve;
  }

  class Cache {
    const world: World

    constructor (world: World)
      ensures this.world == world
    {
      this.world := world;
    }

    /** A failed GET counts as a miss. */
    method GetBalance(r: ReaderId, user: string, ghost session: Session) returns (cached: Option<Account>)
      requires world.Valid() && world.IsFair(session) && session.me == Asker(r)
      requires r in world.st.readers && world.st.readers[r] == Checking(user)
      modifies world
      ensures world.Valid() && world.IsFair(session) && old(world.trace) <= world.trace && r in world.st.readers
      ensures world.others == Rest(old(world.others)) && world.luck == Rest(old(world.luck))
      ensures old(world.Calm()) ==> world.Calm() && SameData(old(world.st), world.st)
      ensures cached == None && Fortune(old(world.luck)) ==> !CacheHit(world.st, user)
      ensures cached.Some? ==> Fortune(old(world.luck))
      ensures world.st.readers[r] == if cached.Some? then Answered(user, cached.value) else Missed(user)
      ensures cached.Some? ==> CacheHit(world.st, user) && world.st.cache[user].account == cached.value
    {
      hide Recorded, Fair, Next, Enabled, OwnStep, Hindered;
      world.Interfere(session, Asker(r));
      var ok := world.Lucky(session);
      GetLeads(world.st, r);
      if !ok {
        world.Act(CacheGetFails(r), session);
        return None;
      }
      cached := if CacheHit(world.st, user) then Some(world.st.cache[user].account) else None;
      world.Act(CacheGet(r), session);
    }

    /** A failed SET may or may not have been applied; the caller only logs it. */
    method SetBalance(r: ReaderId, user: string, account: Account, ghost session: Session) returns (ok: bool)
      requires world.Valid() && world.IsFair(session) && session.me == Asker(r)
      requires r in world.st.readers && world.st.readers[r].Holding?
      requires world.st.readers[r].user == user && world.st.readers[r].account == account
      modifies world
      ensures world.Valid() && world.IsFair(session) && old(world.trace) <= world.trace && r in world.st.readers
      ensures world.others == Rest(old(world.others)) && world.luck == Rest(old(world.luck))
      ensures old(world.Calm()) ==> world.Calm() && world.st.accounts == old(world.st.accounts)
      ensures ok <==> Fortune(old(world.luck))
      ensures world.st.readers[r] == Answered(user, account)
      ensures ok ==> CacheHit(world.st, user) && world.st.cache[user].account == account &&
                     world.st.cache[user].setClock == world.st.clock
    {
      hide Recorded, Fair, Next, Enabled, OwnStep, Hindered;
      world.Interfere(session, Asker(r));
      ok := world.Lucky(session);
      if ok {
        SetLeads(world.st, r, CacheSet(r));
        world.Act(CacheSet(r), session);
      } else {
        var applied := world.Whim();
        SetLeads(world.st, r, CacheSetFails(r, applied));
        world.Act(CacheSetFails(r, applied), session);
      }
    }

    /** A failed DEL may or may not have been applied; the caller only logs it. */
    method InvalidateBalance(c: CallId, input: Input, id: nat, account: Account, ghost session: Session)
      returns (ok: bool)
      requires world.Valid() && world.IsFair(session) && session.me == Caller(c)
      requires At(world.st, c, input, Deleting(id, account))
      modifies world
      ensures world.Valid() && world.IsFair(session) && old(world.trace) <= world.trace
      ensures world.others == Rest(old(world.others)) && world.luck == Rest(old(world.luck))
      ensures world.ids == old(world.ids) && (old(world.Calm()) ==> world.Calm())
      ensures old(world.Calm() && Enabled(world.st, Delete(c))) ==> world.st == Next(old(world.st), Delete(c))
      ensures ok <==> Fortune(old(world.luck))
      ensures Ends(world.st, c, input, Fresh(id, account))
      ensures ok ==> input.user !in world.st.cache
    {
      hide Recorded, Fair, Next, Enabled, OwnStep, Hindered;
      world.Interfere(session, Caller(c));
      ok := world.Lucky(session);
      if ok {
        DeleteLeads(world.st, c, false);
        world.Act(Delete(c), session);
      } else {
        var applied := world.Whim();
        DeleteLeads(world.st, c, applied);
        world.Act(DeleteFails(c, applied), session);
      }
    }
  }
}
