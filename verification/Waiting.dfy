/** Who waits for whom: the waits of this model, in which one waiter at a time gets a key, form no cycle, and
    whoever blocks another can go on. */
module Waiting {
  import opened Domain
  import opened Machine
  import opened Invariant
  import opened LedgerTheorems

  /** The insert of `c` waits for the uncommitted row of `d`. */
  predicate WaitsForKey(s: State, c: CallId, d: CallId) {
    && c in s.calls && d in s.calls && d != c
    && Is(s, c, ToInsert) && s.calls[c].tx.Snap?
    && HasRow(s.calls[d].tx) && SameKey(s.calls[d].tx.row, RowFor(s.calls[c].input, 0))
  }

  /** The update of `c` waits for the row lock of `d`. */
  predicate WaitsForLock(s: State, c: CallId, d: CallId) {
    && c in s.calls && d in s.calls && d != c
    && Is(s, c, ToUpdate) && s.calls[c].tx.Pending?
    && s.calls[d].tx.Locked? && s.calls[d].input.user == s.calls[c].input.user
  }

  predicate WaitsFor(s: State, c: CallId, d: CallId) {
    WaitsForKey(s, c, d) || WaitsForLock(s, c, d)
  }

  /** These are all the waits: an insert or update of a live transaction is held up exactly by such a call. */
  lemma HeldUpIffWaiting(s: State, c: CallId)
    requires c in s.calls
    ensures Is(s, c, ToInsert) && s.calls[c].tx.Snap? ==> (KeyHeld(s, c) <==> exists d :: WaitsFor(s, c, d))
    ensures Is(s, c, ToUpdate) && s.calls[c].tx.Pending? ==> (RowHeld(s, c) <==> exists d :: WaitsFor(s, c, d))
  {
    if Is(s, c, ToInsert) && s.calls[c].tx.Snap? && KeyHeld(s, c) {
      var d :| d in s.calls && d != c && HasRow(s.calls[d].tx) &&
               SameKey(s.calls[d].tx.row, RowFor(s.calls[c].input, 0));
      assert WaitsFor(s, c, d);
    }
    if Is(s, c, ToUpdate) && s.calls[c].tx.Pending? && RowHeld(s, c) {
      var d :| d in s.calls && d != c && s.calls[d].tx.Locked? && s.calls[d].input.user == s.calls[c].input.user;
      assert WaitsFor(s, c, d);
    }
  }

  /** How long a chain of waits can still be. */
  function Depth(call: Call): nat {
    if call.tx.Snap? then 2 else if call.tx.Pending? then 1 else 0
  }

  /** Along a wait the depth decreases; so there is no cycle of waits, and no chain of more than two. */
  lemma WaitingDescends(s: State, c: CallId, d: CallId)
    requires WaitsFor(s, c, d)
    ensures Depth(s.calls[d]) < Depth(s.calls[c]) <= 2
  {
  }

  /** Chains of waits have at most three members, so none of them closes. */
  lemma {:induction false} WaitChainsAreShort(s: State, chain: seq<CallId>)
    requires |chain| > 0 && forall i :: 0 <= i < |chain| ==> chain[i] in s.calls
    requires forall i :: 0 <= i < |chain| - 1 ==> WaitsFor(s, chain[i], chain[i + 1])
    ensures |chain| + Depth(s.calls[chain[|chain| - 1]]) <= Depth(s.calls[chain[0]]) + 1
    ensures |chain| <= 3
  {
    if |chain| > 1 {
      var n := |chain| - 1;
      WaitChainsAreShort(s, chain[..n]);
      WaitingDescends(s, chain[n - 1], chain[n]);
    }
  }

  /** The account has seen 2^63-1 commits: the conditional update does not wait but fails at once. */
  predicate FailsAtOnce(s: State, c: CallId) {
    Is(s, c, ToUpdate) && s.calls[c].tx.Pending? && s.calls[c].tx.work.before.version == MAX_INT64
  }

  /** The call is held up by nobody: it can update, commit or roll back, or its update fails at once; if its client
      is gone, the server can end its transaction. */
  predicate CanGoOn(s: State, c: CallId) {
    && c in s.calls
    && if s.calls[c].phase.Done? then Enabled(s, ServerAbort(c))
       else Enabled(s, Update(c)) || Enabled(s, Commit(c)) || Enabled(s, Rollback(c)) || FailsAtOnce(s, c)
  }

  /** The holder of a row lock can always commit. */
  lemma LockHolderGoesOn(s: State, c: CallId)
    requires Reachable(s) && c in s.calls && s.calls[c].tx.Locked?
    ensures CanGoOn(s, c) && (!s.calls[c].phase.Done? ==> Enabled(s, Commit(c)))
  {
    CallFacts(s, c);
  }

  /** No deadlock among these waits: whoever waits, waits for a call that can go on, or for one that waits for such
      a call. */
  lemma SomeHolderGoesOn(s: State, c: CallId, d: CallId) returns (h: CallId)
    requires Reachable(s) && WaitsFor(s, c, d)
    ensures CanGoOn(s, h) && HasRow(s.calls[h].tx) && (h == d || WaitsFor(s, d, h))
  {
    hide Reachable;
    CallFacts(s, d);
    if s.calls[d].tx.Locked? {
      h := d;
      LockHolderGoesOn(s, d);
    } else if Is(s, d, ToUpdate) && RowHeld(s, d) {
      h :| h in s.calls && h != d && s.calls[h].tx.Locked? && s.calls[h].input.user == s.calls[d].input.user;
      LockHolderGoesOn(s, h);
    } else {
      h := d;
      PendingHolderGoesOn(s, d);
    }
  }

  lemma PendingHolderGoesOn(s: State, c: CallId)
    requires c in s.calls && s.calls[c].tx.Pending? && CallOk(s, c, s.calls[c])
    requires !(Is(s, c, ToUpdate) && RowHeld(s, c))
    ensures CanGoOn(s, c)
  {
    hide LostOk, TxOk, OutcomeOk;
  }
}
