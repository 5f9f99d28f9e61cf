/**
 * The theorems about runs, for any number of threads and any interleaving:
 * linearizability over sixteen maps, consistency of snapshots, exactly-once calls.
 */
module Concurrency {
  import opened Djb2
  import opened Chains
  import opened Codec
  import opened Snapshots
  import opened Requests
  import opened LockProtocol
  import opened LockInvariant
  import opened Linearization
  import opened Calls

  /** The log executed one request at a time on sixteen plain maps. */
  function ReplayMaps(m: Dicts, log: seq<Event>): (r: Dicts)
    requires |m| == NUM_DBS && LogOk(log)
    ensures |r| == NUM_DBS
  {
    if log == [] then m
    else ExecMaps(ReplayMaps(m, log[..|log| - 1]), log[|log| - 1].req).0
  }

  lemma {:induction false} ReplayRefines(init: Store, log: seq<Event>)
    requires Storable(init) && LogOk(log)
    ensures Dictionaries(Replay(init, log)) == ReplayMaps(Dictionaries(init), log)
  {
    if log != [] {
      var front := log[..|log| - 1];
      ReplayRefines(init, front);
      ExecRefines(Replay(init, front), log[|log| - 1].req);
    }
  }

  /** Entry `i` returned what the entries before it, executed in order on maps, make it return. */
  ghost predicate Explained(m: Dicts, log: seq<Event>, i: nat)
    requires |m| == NUM_DBS && LogOk(log) && i < |log|
  {
    var before := ReplayMaps(m, log[..i]);
    && OutcomeAgrees(log[i].outcome, ExecMaps(before, log[i].req).1)
    && (log[i].req.SaveAll? ==> log[i].outcome.File? && FileHolds(log[i].outcome.bytes, before))
  }

  lemma ExplainedAt(init: Store, s: State, i: nat)
    requires Linear(init, s) && i < |s.log|
    ensures Storable(init) && LogOk(s.log) && Explained(Dictionaries(init), s.log, i)
  {
    assert OutcomeMatches(init, s.log, i);
    assert LogOk(s.log[..i]);
    ReplayRefines(init, s.log[..i]);
    ExecRefines(Replay(init, s.log[..i]), s.log[i].req);
  }

  /**
   * Linearizability. After any run there is one sequential order, the log, such that the tables are what it leaves
   * (unless a LOAD is half done), every outcome is what it gives, every call that returned has its place in it
   * between its start and its return, and calls that do not overlap keep their order.
   */
  lemma Linearizable(init: Store, actions: seq<Action>)
    requires Storable(init)
    ensures Shape(Initial(init))
    ensures var s := Run(Initial(init), actions);
            && LogOk(s.log)
            && (forall i | 0 <= i < |s.log| :: Explained(Dictionaries(init), s.log, i))
            && ((forall t | t in s.threads :: !AtLoad(s.threads[t]))
                ==> Dictionaries(s.store) == ReplayMaps(Dictionaries(init), s.log))
            && (forall j | 0 <= j < |s.answers| :: AnswerOk(s.log, s.answers[j]))
            && (forall j, k | 0 <= j < |s.answers| && 0 <= k < |s.answers| && s.answers[j].until <= s.answers[k].since ::
                  s.answers[j].at < s.answers[k].at)
  {
    RunLinear(init, actions);
    var s := Run(Initial(init), actions);
    forall i | 0 <= i < |s.log|
      ensures Explained(Dictionaries(init), s.log, i)
    {
      ExplainedAt(init, s, i);
    }
    ReplayRefines(init, s.log);
    forall j, k | 0 <= j < |s.answers| && 0 <= k < |s.answers| && s.answers[j].until <= s.answers[k].since
      ensures s.answers[j].at < s.answers[k].at
    {
      assert AnswerOk(s.log, s.answers[j]) && AnswerOk(s.log, s.answers[k]);
    }
  }

  /** Some returned call has log position `i`. */
  ghost predicate AnsweredAt(s: State, i: nat) {
    exists j :: 0 <= j < |s.answers| && s.answers[j].at == i
  }

  lemma OneToOne(s: State)
    requires CallsOk(s) && s.threads == map[]
    requires forall j | 0 <= j < |s.answers| :: AnswerOk(s.log, s.answers[j])
    ensures forall i | 0 <= i < |s.log| :: AnsweredAt(s, i)
    ensures forall j, k | 0 <= j < k < |s.answers| :: s.answers[j].at != s.answers[k].at
  {
    forall i | 0 <= i < |s.log|
      ensures AnsweredAt(s, i)
    {
      assert Accounted(s, s.log[i].ticket);
      var j :| 0 <= j < |s.answers| && s.answers[j].ticket == s.log[i].ticket;
      assert AnswerOk(s.log, s.answers[j]);
    }
    forall j, k | 0 <= j < k < |s.answers|
      ensures s.answers[j].at != s.answers[k].at
    {
      assert AnswerOk(s.log, s.answers[j]) && AnswerOk(s.log, s.answers[k]);
    }
  }

  /** Once all threads have returned, log entries and returned calls correspond one to one. */
  lemma ExactlyOnce(init: Store, actions: seq<Action>)
    requires Storable(init)
    ensures Shape(Initial(init))
    ensures var s := Run(Initial(init), actions);
            s.threads == map[] ==>
              && (forall i | 0 <= i < |s.log| :: AnsweredAt(s, i))
              && (forall j, k | 0 <= j < k < |s.answers| :: s.answers[j].at != s.answers[k].at)
  {
    RunLinear(init, actions);
    RunCalls(init, actions);
    if Run(Initial(init), actions).threads == map[] {
      OneToOne(Run(Initial(init), actions));
    }
  }

  /** No two calls point to the same log entry, in any state of a run. */
  lemma AnswersApart(init: Store, actions: seq<Action>)
    requires Storable(init)
    ensures Shape(Initial(init))
    ensures var s := Run(Initial(init), actions);
            forall j, k | 0 <= j < k < |s.answers| :: s.answers[j].at != s.answers[k].at
  {
    RunLinear(init, actions);
    RunCalls(init, actions);
    var s := Run(Initial(init), actions);
    forall j, k | 0 <= j < k < |s.answers|
      ensures s.answers[j].at != s.answers[k].at
    {
      assert AnswerOk(s.log, s.answers[j]) && AnswerOk(s.log, s.answers[k]);
    }
  }

  // ---- snapshots ----

  /** While a thread holds a bucket's lock, no other thread changes the bucket, and a reader does not either. */
  lemma {:induction false} HeldBucketStands(s: State, a: Action, u: Tid, db: nat, b: nat)
    requires LocksMatch(s) && Enabled(s, a) && u in s.threads && db < NUM_DBS && b < NUM_BUCKETS
    requires Holds(s.threads[u], db * NUM_BUCKETS + b)
    requires a.tid != u || Reading(s.threads[u].req)
    ensures |Do(s, a).store| == NUM_DBS && |Do(s, a).store[db]| == NUM_BUCKETS
    ensures Do(s, a).store[db][b] == s.store[db][b]
  {
    DoShape(s, a);
    if a.Move? && s.threads[a.tid].phase.Working? {
      var r := s.threads[a.tid].req;
      LocksInRange(r);
      if a.tid != u && Holds(s.threads[a.tid], db * NUM_BUCKETS + b) {
        Exclusion(s, db * NUM_BUCKETS + b, a.tid, u);
      }
      AccessFrame(s.store, r, s.threads[a.tid].phase.work, db, b);
    }
  }

  /** All locks of the call are held: it works, or has not begun to give them back. */
  predicate HoldsAll(th: Thread) {
    th.phase.Working? || (th.phase.Releasing? && th.phase.next == Lo(th.req))
  }

  /** From the grant of its last lock to its first unlock, no step of any thread changes the store under a SAVE. */
  lemma SaveFreezesStore(s: State, a: Action, u: Tid)
    requires LocksMatch(s) && Enabled(s, a) && u in s.threads
    requires s.threads[u].req.SaveAll? && HoldsAll(s.threads[u])
    ensures Do(s, a).store == s.store
  {
    DoShape(s, a);
    forall db | 0 <= db < NUM_DBS
      ensures Do(s, a).store[db] == s.store[db]
    {
      forall b | 0 <= b < NUM_BUCKETS
        ensures Do(s, a).store[db][b] == s.store[db][b]
      {
        HeldBucketStands(s, a, u, db, b);
      }
    }
  }

  /**
   * The k-th action is the one that grants the call with this ticket, a SAVE, the last of its read locks, and the file
   * is the dump of the store as it stands then.
   */
  ghost predicate TakenAt(start: State, actions: seq<Action>, ticket: nat, file: Outcome, k: nat)
    requires Shape(start)
  {
    && k < |actions| && actions[k].Move?
    && var s, t := Run(start, actions[..k]), actions[k].tid;
    && Waiting(s, t) && Granted(s, t)
    && s.threads[t].ticket == ticket && s.threads[t].req.SaveAll? && s.threads[t].phase.next == NUM_LOCKS - 1
    && file == File(Save(s.store))
  }

  ghost predicate IsSnapshot(start: State, actions: seq<Action>, ticket: nat, file: Outcome)
    requires Shape(start)
  {
    exists k: nat :: TakenAt(start, actions, ticket, file, k)
  }

  lemma SnapshotStays(start: State, actions: seq<Action>, ticket: nat, file: Outcome)
    requires Shape(start) && actions != [] && IsSnapshot(start, actions[..|actions| - 1], ticket, file)
    ensures IsSnapshot(start, actions, ticket, file)
  {
    var front := actions[..|actions| - 1];
    var k: nat :| TakenAt(start, front, ticket, file, k);
    assert front[..k] == actions[..k];
    assert TakenAt(start, actions, ticket, file, k);
  }

  /** An entry of a SAVE in the log names a snapshot. */
  ghost predicate EntryIsSnapshot(start: State, actions: seq<Action>, e: Event)
    requires Shape(start)
  {
    e.req.SaveAll? ==> IsSnapshot(start, actions, e.ticket, e.outcome)
  }

  lemma LogOnlyGrows(s: State, a: Action)
    requires Shape(s) && Enabled(s, a)
    ensures s.log <= Do(s, a).log && |Do(s, a).log| <= |s.log| + 1
  {
  }

  lemma SaveEnters(s: State, a: Action)
    requires Shape(s) && Enabled(s, a)
    requires |Do(s, a).log| > |s.log| && Do(s, a).log[|s.log|].req.SaveAll?
    ensures a.Move? && Waiting(s, a.tid) && Granted(s, a.tid)
    ensures var th := s.threads[a.tid];
            && th.req.SaveAll? && th.phase.next == NUM_LOCKS - 1
            && Do(s, a).log[|s.log|] == Event(th.ticket, SaveAll, File(Save(s.store)))
  {
    LocksInRange(s.threads[a.tid].req);
  }

  lemma EntriesStep(start: State, actions: seq<Action>, i: nat)
    requires Shape(start) && actions != [] && i < |Run(start, actions).log|
    requires var before := Run(start, actions[..|actions| - 1]);
             i < |before.log| ==> EntryIsSnapshot(start, actions[..|actions| - 1], before.log[i])
    ensures EntryIsSnapshot(start, actions, Run(start, actions).log[i])
  {
    var n := |actions| - 1;
    var before, s := Run(start, actions[..n]), Run(start, actions);
    if Enabled(before, actions[n]) {
      LogOnlyGrows(before, actions[n]);
    }
    if s.log[i].req.SaveAll? {
      if i < |before.log| {
        SnapshotStays(start, actions, s.log[i].ticket, s.log[i].outcome);
      } else {
        SaveEnters(before, actions[n]);
        assert TakenAt(start, actions, s.log[i].ticket, s.log[i].outcome, n);
      }
    }
  }

  lemma {:induction false} EntriesAreSnapshots(init: Store, actions: seq<Action>, i: nat)
    requires Storable(init)
    ensures Shape(Initial(init))
    ensures var s := Run(Initial(init), actions);
            i < |s.log| ==> EntryIsSnapshot(Initial(init), actions, s.log[i])
  {
    InitialLinear(init);
    if actions != [] {
      EntriesAreSnapshots(init, actions[..|actions| - 1], i);
      if i < |Run(Initial(init), actions).log| {
        EntriesStep(Initial(init), actions, i);
      }
    }
  }

  /**
   * Snapshot consistency: the bytes a SAVE has written when it returns, put together bucket by bucket while other
   * threads ran, are the dump of the store in one single state of the run: the one in which this call, under way,
   * was granted the last of its 4096 read locks.
   */
  lemma SnapshotIsOneState(init: Store, actions: seq<Action>, j: nat)
    requires Storable(init)
    ensures Shape(Initial(init))
    ensures var s := Run(Initial(init), actions);
            j < |s.answers| && s.answers[j].req.SaveAll? ==>
              IsSnapshot(Initial(init), actions, s.answers[j].ticket, s.answers[j].outcome)
  {
    Linearizable(init, actions);
    var s := Run(Initial(init), actions);
    if j < |s.answers| {
      assert AnswerOk(s.log, s.answers[j]);
      EntriesAreSnapshots(init, actions, s.answers[j].at);
    }
  }

  /** The same of a SAVE that has written its file and is giving back its locks. */
  lemma WrittenIsOneState(init: Store, actions: seq<Action>, t: Tid)
    requires Storable(init)
    ensures Shape(Initial(init))
    ensures var s := Run(Initial(init), actions);
            t in s.threads && s.threads[t].req.SaveAll? && s.threads[t].phase.Releasing? ==>
              IsSnapshot(Initial(init), actions, s.threads[t].ticket, s.threads[t].phase.outcome)
  {
    RunLinear(init, actions);
    var s := Run(Initial(init), actions);
    if t in s.threads && s.threads[t].phase.Releasing? {
      assert ThreadOk(s, Replay(init, s.log), s.threads[t]);
      EntriesAreSnapshots(init, actions, s.threads[t].at);
    }
  }
}
