/**
 * The lock protocol cannot get stuck: locks are taken in ascending order, never twice, and all given back.
 * Whenever a call is under way some thread can move, and a call under way moves only boundedly often.
 */
module Progress {
  import opened CStrings
  import opened Djb2
  import opened Chains
  import opened Snapshots
  import opened Requests
  import opened LockProtocol
  import opened LockInvariant
  import opened Linearization

  /** Some thread waits to write lock `l`. */
  ghost predicate WriterWaits(s: State, l: nat) {
    exists t :: Waiting(s, t) && !Reading(s.threads[t].req) && s.threads[t].phase.next == l
  }

  /** The thread can move even if the lock implementation makes readers queue behind waiting writers. */
  ghost predicate CanMove(s: State, t: Tid, writersFirst: bool) {
    && Enabled(s, Move(t))
    && (writersFirst && Waiting(s, t) && Reading(s.threads[t].req) ==> !WriterWaits(s, s.threads[t].phase.next))
  }

  /** Among waiting threads, one that waits for the highest lock. */
  lemma {:induction false} Furthest(s: State, ts: set<Tid>) returns (t: Tid)
    requires ts != {} && forall u | u in ts :: Waiting(s, u)
    ensures t in ts && Waiting(s, t)
    ensures forall u | u in ts :: Waiting(s, u) && s.threads[u].phase.next <= s.threads[t].phase.next
    decreases |ts|
  {
    var one :| one in ts;
    var rest := ts - {one};
    t := one;
    if rest != {} {
      var far := Furthest(s, rest);
      if s.threads[far].phase.next > s.threads[one].phase.next {
        t := far;
      }
    }
    forall u | u in ts
      ensures s.threads[u].phase.next <= s.threads[t].phase.next
    {
      assert u == one || u in rest;
    }
  }

  /** When everybody waits, the highest lock waited for is free: its holder would wait for a higher one. */
  lemma HighestIsFree(s: State, t: Tid)
    requires LocksMatch(s) && Waiting(s, t)
    requires forall u | u in s.threads :: Waiting(s, u) && s.threads[u].phase.next <= s.threads[t].phase.next
    ensures s.threads[t].phase.next < NUM_LOCKS
    ensures s.locks[s.threads[t].phase.next] == Lock({}, None)
  {
    var l := s.threads[t].phase.next;
    assert ThreadShape(s.threads[t]);
    LocksInRange(s.threads[t].req);
    assert LockMatches(s, l);
    forall u, reading
      ensures !HeldBy(s, l, u, reading)
    {
    }
    assert forall u: Tid :: u !in s.locks[l].readers;
    assert forall u: Tid :: s.locks[l].writer != Some(u);
  }

  /**
   * Deadlock freedom, for any number of threads, in every state of every run and under either queueing policy:
   * if a call is under way, some thread can move.
   */
  lemma DeadlockFree(s: State, writersFirst: bool)
    requires LocksMatch(s) && s.threads != map[]
    ensures exists t :: CanMove(s, t, writersFirst)
  {
    if t :| t in s.threads && !Waiting(s, t) {
      assert CanMove(s, t, writersFirst);
    } else {
      var some :| some in s.threads;
      assert some in s.threads.Keys;
      var t := Furthest(s, s.threads.Keys);
      HighestIsFree(s, t);
      if WriterWaits(s, s.threads[t].phase.next) {
        var w :| Waiting(s, w) && !Reading(s.threads[w].req) && s.threads[w].phase.next == s.threads[t].phase.next;
        assert CanMove(s, w, writersFirst);
      } else {
        assert CanMove(s, t, writersFirst);
      }
    }
  }

  /** No run ever reaches a state in which calls are under way and nobody can move. */
  lemma RunsNeverDeadlock(init: Store, actions: seq<Action>, writersFirst: bool)
    requires Storable(init)
    ensures Shape(Initial(init))
    ensures Run(Initial(init), actions).threads != map[] ==>
              exists t :: CanMove(Run(Initial(init), actions), t, writersFirst)
  {
    RunLinear(init, actions);
    if Run(Initial(init), actions).threads != map[] {
      DeadlockFree(Run(Initial(init), actions), writersFirst);
    }
  }

  // ---- who waits for whom ----

  /** The request works on bucket `b` of database `d`. */
  ghost predicate Touches(r: Request, d: nat, b: nat) {
    match r
    case Get(db, k) => db == d && BucketOf(k) == b
    case Set(db, k, _) => db == d && BucketOf(k) == b
    case Del(db, k) => db == d && BucketOf(k) == b
    case Incr(db, k) => db == d && BucketOf(k) == b
    case SaveAll => true
    case LoadAll(_) => true
  }

  /** Two requests that meet in a bucket, and are not both a GET or a SAVE. */
  ghost predicate Conflict(q: Request, r: Request) {
    && !((q.Get? || q.SaveAll?) && (r.Get? || r.SaveAll?))
    && exists d: nat, b: nat :: d < 16 && b < 256 && Touches(q, d, b) && Touches(r, d, b)
  }

  lemma LockTouched(th: Thread, l: nat)
    requires ThreadShape(th) && Lo(th.req) <= l < Hi(th.req)
    ensures l / 256 < 16 && l % 256 < 256 && Touches(th.req, l / 256, l % 256)
  {
    LocksInRange(th.req);
  }

  /** A call waits only for a call it conflicts with: readers share, and no bucket waits for another. */
  lemma WaitsAreConflicts(s: State, t: Tid) returns (u: Tid)
    requires LocksMatch(s) && Waiting(s, t) && !Granted(s, t)
    ensures u != t && u in s.threads && Conflict(s.threads[t].req, s.threads[u].req)
  {
    var l := s.threads[t].phase.next;
    assert ThreadShape(s.threads[t]);
    LockTouched(s.threads[t], l);
    assert LockMatches(s, l);
    if s.locks[l].writer.Some? {
      u := s.locks[l].writer.value;
      assert HeldBy(s, l, u, false);
    } else {
      u :| u in s.locks[l].readers;
      assert HeldBy(s, l, u, true);
    }
    assert ThreadShape(s.threads[u]);
    LockTouched(s.threads[u], l);
  }

  /** In every run. */
  lemma RunsWaitForConflicts(init: Store, actions: seq<Action>, t: Tid)
    requires Storable(init)
    ensures Shape(Initial(init))
    ensures var s := Run(Initial(init), actions);
            Waiting(s, t) && !Granted(s, t) ==>
              exists u :: u != t && u in s.threads && Conflict(s.threads[t].req, s.threads[u].req)
  {
    RunLinear(init, actions);
    var s := Run(Initial(init), actions);
    if Waiting(s, t) && !Granted(s, t) {
      var u := WaitsAreConflicts(s, t);
    }
  }

  // ---- bounded work ----

  function WorkLeft(r: Request, w: Work): nat
    requires WorkFits(r, w)
  {
    match w
    case Fresh => 2
    case Fetched(_) => 1
    case Counting(db, b, _, _) => 516 * (NUM_DBS - db) + 1 - (if db < NUM_DBS then b else 0)
    case Dumping(db, b, _) => 516 * (NUM_DBS - db) - 256 - b
    case Loading(i) => |r.puts| - i + 1
  }

  /** Steps the call can still take. */
  function Left(th: Thread): nat
    requires ThreadShape(th)
  {
    LocksInRange(th.req);
    var locks := Hi(th.req) - Lo(th.req);
    match th.phase
    case Acquiring(next) => Hi(th.req) - next + WorkLeft(th.req, StartWork(th.req)) + locks
    case Working(w) => WorkLeft(th.req, w) + locks
    case Releasing(next, _) => Hi(th.req) - next
  }

  ghost function Total(threads: map<Tid, Thread>): nat
    requires forall t | t in threads :: ThreadShape(threads[t])
    decreases |threads|
  {
    if threads == map[] then 0
    else
      var t :| t in threads;
      assert (threads - {t}).Keys == threads.Keys - {t};
      Left(threads[t]) + Total(threads - {t})
  }

  lemma {:induction false} TotalRemove(threads: map<Tid, Thread>, t: Tid)
    requires forall u | u in threads :: ThreadShape(threads[u])
    requires t in threads
    ensures Total(threads) == Left(threads[t]) + Total(threads - {t})
    decreases |threads|
  {
    var q :| q in threads && Total(threads) == Left(threads[q]) + Total(threads - {q});
    if q != t {
      assert (threads - {q}).Keys == threads.Keys - {q};
      TotalRemove(threads - {q}, t);
      assert (threads - {t}).Keys == threads.Keys - {t};
      TotalRemove(threads - {t}, q);
      assert threads - {q} - {t} == threads - {t} - {q};
    }
  }

  lemma {:induction false} AccessShortens(s: Store, r: Request, w: Work)
    requires Storable(s) && RequestOk(r) && WorkFits(r, w)
    ensures var p := Access(s, r, w).phase;
            match p
            case Working(w') => WorkFits(r, w') && WorkLeft(r, w') < WorkLeft(r, w)
            case Releasing(next, _) => next == Lo(r) && WorkLeft(r, w) > 0
            case Acquiring(_) => false
  {
    AccessShape(s, r, w);
  }

  lemma OthersStay(s: State, t: Tid)
    requires Shape(s) && Enabled(s, Move(t))
    ensures Do(s, Move(t)).threads - {t} == s.threads - {t}
  {
    var threads := Do(s, Move(t)).threads;
    assert threads == s.threads - {t} || (t in threads && threads == s.threads[t := threads[t]]);
  }

  lemma {:induction false} StepShortens(s: State, t: Tid)
    requires Shape(s) && t in s.threads && s.threads[t].phase.Working?
    ensures t in Step(s, t).threads && ThreadShape(Step(s, t).threads[t])
    ensures Left(Step(s, t).threads[t]) < Left(s.threads[t])
  {
    var th := s.threads[t];
    StepShape(s, t);
    AccessShortens(s.store, th.req, th.phase.work);
  }

  lemma {:induction false} GrantShortens(s: State, t: Tid)
    requires Shape(s) && Waiting(s, t) && Granted(s, t)
    ensures t in Grant(s, t).threads && ThreadShape(Grant(s, t).threads[t])
    ensures Left(Grant(s, t).threads[t]) < Left(s.threads[t])
  {
  }

  lemma {:induction false} ReleaseShortens(s: State, t: Tid)
    requires Shape(s) && t in s.threads && s.threads[t].phase.Releasing? && s.threads[t].phase.next < NUM_LOCKS
    ensures t in Release(s, t).threads ==>
              ThreadShape(Release(s, t).threads[t]) && Left(Release(s, t).threads[t]) < Left(s.threads[t])
  {
  }

  lemma {:induction false} MoveShortens(s: State, t: Tid)
    requires Shape(s) && Enabled(s, Move(t))
    ensures t in Do(s, Move(t)).threads ==>
              ThreadShape(Do(s, Move(t)).threads[t]) && Left(Do(s, Move(t)).threads[t]) < Left(s.threads[t])
    ensures Left(s.threads[t]) > 0
  {
    LocksInRange(s.threads[t].req);
    assert ThreadShape(s.threads[t]);
    match s.threads[t].phase
    case Acquiring(_) => GrantShortens(s, t);
    case Working(_) => StepShortens(s, t);
    case Releasing(_, _) => ReleaseShortens(s, t);
  }

  /** Every move uses up some of a finite amount of work. */
  lemma MoveMakesProgress(s: State, t: Tid)
    requires Shape(s) && Enabled(s, Move(t))
    ensures Shape(Do(s, Move(t)))
    ensures Total(Do(s, Move(t)).threads) < Total(s.threads)
  {
    var s' := Do(s, Move(t));
    DoShape(s, Move(t));
    MoveShortens(s, t);
    OthersStay(s, t);
    TotalRemove(s.threads, t);
    if t in s'.threads {
      TotalRemove(s'.threads, t);
    } else {
      assert s'.threads - {t} == s'.threads;
    }
  }

  ghost predicate OnlyMoves(actions: seq<Action>) {
    forall i | 0 <= i < |actions| :: actions[i].Move?
  }

  lemma {:induction false} RunFront(s: State, a: Action, actions: seq<Action>)
    requires Shape(s) && Enabled(s, a)
    ensures Shape(Do(s, a)) && Run(s, [a] + actions) == Run(Do(s, a), actions)
    decreases |actions|
  {
    DoShape(s, a);
    var all := [a] + actions;
    if actions == [] {
      assert all[..0] == [];
    } else {
      var n := |actions| - 1;
      RunFront(s, a, actions[..n]);
      assert all[..n + 1] == [a] + actions[..n];
    }
  }

  /** From every state the calls under way can all be brought to their end, and then every lock is free. */
  lemma {:induction false} EverybodyCanReturn(s: State) returns (actions: seq<Action>)
    requires LocksMatch(s)
    ensures OnlyMoves(actions) && |actions| <= Total(s.threads)
    ensures Run(s, actions).threads == map[]
    ensures LocksMatch(Run(s, actions))
    ensures forall l | 0 <= l < NUM_LOCKS :: Run(s, actions).locks[l] == Lock({}, None)
    decreases Total(s.threads)
  {
    if s.threads == map[] {
      actions := [];
      forall l | 0 <= l < NUM_LOCKS
        ensures s.locks[l] == Lock({}, None)
      {
        assert LockMatches(s, l);
        assert forall u: Tid :: u !in s.locks[l].readers;
        assert forall u: Tid :: s.locks[l].writer != Some(u);
      }
    } else {
      DeadlockFree(s, false);
      var t :| CanMove(s, t, false);
      MoveMakesProgress(s, t);
      DoMatches(s, Move(t));
      var rest := EverybodyCanReturn(Do(s, Move(t)));
      RunFront(s, Move(t), rest);
      actions := [Move(t)] + rest;
    }
  }
}
