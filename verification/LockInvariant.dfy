/** In every run the lock table records exactly what the threads hold, and a writer excludes everyone else. */
module LockInvariant {
  import opened CStrings
  import opened Chains
  import opened LockProtocol

  ghost predicate HeldBy(s: State, l: nat, t: Tid, reading: bool) {
    t in s.threads && Reading(s.threads[t].req) == reading && Holds(s.threads[t], l)
  }

  /** The lock records its holders, and a writer is alone. */
  ghost predicate LockMatches(s: State, l: nat)
    requires l < |s.locks|
  {
    && (forall t :: t in s.locks[l].readers <==> HeldBy(s, l, t, true))
    && (forall t: Tid :: s.locks[l].writer == Some(t) <==> HeldBy(s, l, t, false))
    && (s.locks[l].writer.Some? ==> s.locks[l].readers == {})
  }

  ghost predicate LocksMatch(s: State) {
    Shape(s) && forall l | 0 <= l < NUM_LOCKS :: LockMatches(s, l)
  }

  /** Two threads hold the same lock only when both read. */
  lemma Exclusion(s: State, l: nat, t: Tid, u: Tid)
    requires LocksMatch(s) && t != u && t in s.threads && u in s.threads
    requires Holds(s.threads[t], l) && Holds(s.threads[u], l)
    ensures Reading(s.threads[t].req) && Reading(s.threads[u].req)
  {
    LocksInRange(s.threads[t].req);
    LocksInRange(s.threads[u].req);
    assert LockMatches(s, l);
    assert HeldBy(s, l, t, Reading(s.threads[t].req));
    assert HeldBy(s, l, u, Reading(s.threads[u].req));
  }

  /** A step of thread `t` that does not touch lock `l` and leaves what `t` holds of it alone. */
  lemma Untouched(s: State, s': State, l: nat, t: Tid)
    requires l < |s.locks| == |s'.locks| && LockMatches(s, l)
    requires s'.locks[l] == s.locks[l]
    requires forall u | u != t :: (u in s.threads <==> u in s'.threads) && (u in s.threads ==> s.threads[u] == s'.threads[u])
    requires forall reading :: HeldBy(s, l, t, reading) <==> HeldBy(s', l, t, reading)
    ensures LockMatches(s', l)
  {
    forall u, reading
      ensures HeldBy(s, l, u, reading) <==> HeldBy(s', l, u, reading)
    {
    }
  }

  lemma TakeMatches(s: State, s': State, l: nat, t: Tid)
    requires l < |s.locks| == |s'.locks| && LockMatches(s, l) && t in s.threads && t in s'.threads
    requires !Holds(s.threads[t], l) && Holds(s'.threads[t], l)
    requires s'.threads[t].req == s.threads[t].req
    requires s.locks[l].writer.None? && (Reading(s.threads[t].req) || s.locks[l].readers == {})
    requires s'.locks[l] == Take(s.locks[l], t, Reading(s.threads[t].req))
    requires forall u | u != t :: (u in s.threads <==> u in s'.threads) && (u in s.threads ==> s.threads[u] == s'.threads[u])
    ensures LockMatches(s', l)
  {
    forall u, reading | u != t
      ensures HeldBy(s, l, u, reading) <==> HeldBy(s', l, u, reading)
    {
    }
    assert forall u: Tid :: s.locks[l].writer != Some(u);
  }

  lemma DropMatches(s: State, s': State, l: nat, t: Tid)
    requires l < |s.locks| == |s'.locks| && LockMatches(s, l) && t in s.threads
    requires Holds(s.threads[t], l)
    requires t in s'.threads ==> !Holds(s'.threads[t], l)
    requires s'.locks[l] == Drop(s.locks[l], t, Reading(s.threads[t].req))
    requires forall u | u != t :: (u in s.threads <==> u in s'.threads) && (u in s.threads ==> s.threads[u] == s'.threads[u])
    ensures LockMatches(s', l)
  {
    forall u, reading | u != t
      ensures HeldBy(s, l, u, reading) <==> HeldBy(s', l, u, reading)
    {
    }
    assert HeldBy(s, l, t, Reading(s.threads[t].req));
  }

  lemma DoMatches(s: State, a: Action)
    requires LocksMatch(s) && Enabled(s, a)
    ensures LocksMatch(Do(s, a))
  {
    hide WorkFits, Access, LockMatches;
    DoShape(s, a);
    var s' := Do(s, a);
    var t := a.tid;
    forall l | 0 <= l < NUM_LOCKS
      ensures LockMatches(s', l)
    {
      assert LockMatches(s, l);
      if a.Move? {
        var th := s.threads[t];
        LocksInRange(th.req);
        if th.phase.Acquiring? && l == th.phase.next {
          TakeMatches(s, s', l, t);
        } else if th.phase.Releasing? && l == th.phase.next {
          DropMatches(s, s', l, t);
        } else {
          if th.phase.Working? {
            AccessKeepsHold(s, t, l);
          }
          Untouched(s, s', l, t);
        }
      } else {
        Untouched(s, s', l, t);
      }
    }
  }

  lemma AccessKeepsHold(s: State, t: Tid, l: nat)
    requires Shape(s) && t in s.threads && s.threads[t].phase.Working?
    ensures Holds(Step(s, t).threads[t], l) <==> Holds(s.threads[t], l)
    ensures Step(s, t).threads[t].req == s.threads[t].req
  {
    AccessShape(s.store, s.threads[t].req, s.threads[t].phase.work);
  }
}
