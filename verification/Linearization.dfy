/**
 * Every run is linearizable: the tables are what the logged accesses leave when executed one at a time in log
 * order, every outcome is the one that sequential execution gives, and a snapshot is the store of one single state.
 */
module Linearization {
  import opened CStrings
  import opened Djb2
  import opened Chains
  import opened Codec
  import opened DumpText
  import opened Snapshots
  import opened Requests
  import opened LockProtocol
  import opened LockInvariant

  // ---- sequential execution of the log ----

  predicate LogOk(log: seq<Event>) {
    forall i | 0 <= i < |log| :: RequestOk(log[i].req)
  }

  function Replay(init: Store, log: seq<Event>): (r: Store)
    requires Storable(init) && LogOk(log)
    ensures Storable(r)
  {
    if log == [] then init
    else
      var before := Replay(init, log[..|log| - 1]);
      ExecRefines(before, log[|log| - 1].req);
      Exec(before, log[|log| - 1].req).0
  }

  /** Each outcome in the log is what its request returns when the log is executed one request at a time. */
  ghost predicate OutcomesMatch(init: Store, log: seq<Event>)
    requires Storable(init) && LogOk(log)
  {
    forall i | 0 <= i < |log| :: OutcomeMatches(init, log, i)
  }

  ghost predicate OutcomeMatches(init: Store, log: seq<Event>, i: nat)
    requires Storable(init) && LogOk(log) && i < |log|
  {
    log[i].outcome == Exec(Replay(init, log[..i]), log[i].req).1
  }

  lemma LogGrows(init: Store, log: seq<Event>, e: Event)
    requires Storable(init) && LogOk(log) && OutcomesMatch(init, log) && RequestOk(e.req)
    requires e.outcome == Exec(Replay(init, log), e.req).1
    ensures LogOk(log + [e]) && OutcomesMatch(init, log + [e])
    ensures Replay(init, log + [e]) == Exec(Replay(init, log), e.req).0
  {
    var log' := log + [e];
    assert log'[..|log|] == log;
    forall i | 0 <= i < |log'|
      ensures OutcomeMatches(init, log', i)
    {
      assert log'[..i] == log[..i];
      assert i < |log| ==> OutcomeMatches(init, log, i);
    }
  }

  // ---- what a thread at work knows ----

  ghost predicate SavingOk(s: Store, w: Work)
    requires Sized(s) && WorkFits(SaveAll, w)
  {
    match w
    case Counting(db, b, n, out) =>
      out == TextBefore(s, db) && if db < NUM_DBS then n == CountUpTo(s[db], b) else b == 0
    case Dumping(db, b, out) =>
      out == TextWithin(s, db, b) && Count(s[db]) != 0
  }

  /** The phase after a step of rdb_save is right about the text, or carries the whole file. */
  ghost predicate SaveProgress(s: Store, p: Phase)
    requires Sized(s)
  {
    match p
    case Working(w) => WorkFits(SaveAll, w) && !w.Loading? && SavingOk(s, w)
    case Releasing(next, out) => next == 0 && out == File(Save(s))
    case Acquiring(_) => false
  }

  lemma CountingStep(s: Store, db: nat, b: nat, n: nat, out: Bytes)
    requires Sized(s) && WorkFits(SaveAll, Counting(db, b, n, out)) && SavingOk(s, Counting(db, b, n, out))
    ensures SaveProgress(s, SaveAccess(s, Counting(db, b, n, out)))
  {
    hide TextWithin;
    if db == NUM_DBS {
      TextOfFile(s);
    } else {
      TextAfterCount(s, db);
    }
  }

  lemma DumpingStep(s: Store, db: nat, b: nat, out: Bytes)
    requires Sized(s) && WorkFits(SaveAll, Dumping(db, b, out)) && SavingOk(s, Dumping(db, b, out))
    ensures SaveProgress(s, SaveAccess(s, Dumping(db, b, out)))
  {
  }

  /** rdb_save, step by step over a store that stands still, writes the bytes Save names. */
  lemma SaveStep(s: Store, w: Work)
    requires Sized(s) && WorkFits(SaveAll, w) && SavingOk(s, w)
    ensures SaveProgress(s, SaveAccess(s, w))
  {
    match w
    case Counting(db, b, n, out) => CountingStep(s, db, b, n, out);
    case Dumping(db, b, out) => DumpingStep(s, db, b, out);
  }

  /** The progress `w` of request `r` against the current store and the store the log leaves. */
  ghost predicate WorkOk(s: Store, base: Store, r: Request, w: Work)
    requires StoreOk(s) && StoreOk(base) && RequestOk(r) && WorkFits(r, w)
  {
    match w
    case Fresh => true
    case Fetched(v) => Lookup(s[r.db], r.key) == Some(v)
    case Counting(_, _, _, _) => SavingOk(s, w)
    case Dumping(_, _, _) => SavingOk(s, w)
    case Loading(i) => s == PutSeq(base, r.puts[..i])
  }

  /** A logged step does to the log's store what the request does; the others only make progress. */
  ghost predicate EffectOk(s: Store, base: Store, r: Request, w: Work, e: Effect)
    requires StoreOk(s) && StoreOk(base) && RequestOk(r)
  {
    if e.event.Some? then
      Exec(base, r) == (e.store, e.event.value) && e.phase == Releasing(Lo(r), e.event.value)
    else
      && (!w.Loading? ==> e.store == s)
      && match e.phase
         case Working(w') =>
           StoreOk(e.store) && WorkFits(r, w') && WorkOk(e.store, base, r, w') && (w'.Loading? <==> w.Loading?)
         case Releasing(next, out) => r.SaveAll? && next == Lo(r) && out == File(Save(s))
         case Acquiring(_) => false
  }

  lemma SaveEffect(s: Store, base: Store, w: Work)
    requires StoreOk(s) && StoreOk(base) && WorkFits(SaveAll, w) && WorkOk(s, base, SaveAll, w)
    ensures EffectOk(s, base, SaveAll, w, Access(s, SaveAll, w))
  {
    SaveStep(s, w);
  }

  lemma LoadEffect(s: Store, base: Store, r: Request, i: nat)
    requires StoreOk(s) && StoreOk(base) && RequestOk(r) && WorkFits(r, Loading(i)) && WorkOk(s, base, r, Loading(i))
    ensures EffectOk(s, base, r, Loading(i), Access(s, r, Loading(i)))
  {
    if i < |r.puts| {
      var p := r.puts[i];
      assert PlacedOk(p);
      assert r.puts[..i + 1] == r.puts[..i] + [p];
      PutSeqSnoc(base, r.puts[..i], p);
      TableSetOk(s[p.db], p.key, p.value);
    } else {
      assert r.puts[..i] == r.puts;
    }
  }

  /** One step of work is right about the store it works on and about what the log says. */
  lemma AccessCorrect(s: Store, base: Store, r: Request, w: Work)
    requires StoreOk(s) && StoreOk(base) && RequestOk(r) && WorkFits(r, w) && WorkOk(s, base, r, w)
    requires !w.Loading? ==> s == base
    ensures EffectOk(s, base, r, w, Access(s, r, w))
  {
    if r.SaveAll? {
      SaveEffect(s, base, w);
    } else if w.Loading? {
      LoadEffect(s, base, r, w.done);
    }
  }

  /** A step writes only inside buckets whose locks its thread holds, and a reader writes nowhere. */
  lemma {:induction false} AccessFrame(s: Store, r: Request, w: Work, db: nat, b: nat)
    requires StoreOk(s) && RequestOk(r) && WorkFits(r, w) && db < NUM_DBS && b < NUM_BUCKETS
    requires Reading(r) || !(Lo(r) <= db * NUM_BUCKETS + b < Hi(r))
    ensures |Access(s, r, w).store| == NUM_DBS && |Access(s, r, w).store[db]| == NUM_BUCKETS
    ensures Access(s, r, w).store[db][b] == s[db][b]
    ensures Reading(r) ==> Access(s, r, w).store == s
  {
  }

  // ---- the invariant ----

  ghost predicate Logged(s: State, th: Thread) {
    && th.since <= th.at < |s.log|
    && s.log[th.at].ticket == th.ticket
    && s.log[th.at].req == th.req
  }

  ghost predicate ThreadOk(s: State, base: Store, th: Thread)
    requires Shape(s) && StoreOk(base) && ThreadShape(th)
  {
    && th.since <= |s.log|
    && match th.phase
       case Acquiring(_) => true
       case Working(w) =>
         && WorkOk(s.store, base, th.req, w)
         && (th.req.SaveAll? ==> Logged(s, th) && s.log[th.at].outcome == File(Save(s.store)))
       case Releasing(_, out) => Logged(s, th) && s.log[th.at].outcome == out
  }

  predicate AtLoad(th: Thread) {
    th.phase.Working? && th.phase.work.Loading?
  }

  /** A returned call reports the outcome of its log entry, which lies between its start and its return. */
  ghost predicate AnswerOk(log: seq<Event>, a: Answer) {
    && a.since <= a.at < a.until <= |log|
    && log[a.at] == Event(a.ticket, a.req, a.outcome)
  }

  ghost predicate Linear(init: Store, s: State) {
    && LocksMatch(s)
    && Storable(init) && LogOk(s.log) && OutcomesMatch(init, s.log)
    && (forall t | t in s.threads :: ThreadOk(s, Replay(init, s.log), s.threads[t]))
    && ((forall t | t in s.threads :: !AtLoad(s.threads[t])) ==> s.store == Replay(init, s.log))
    && (forall i | 0 <= i < |s.answers| :: AnswerOk(s.log, s.answers[i]))
  }

  lemma InitialLinear(store: Store)
    requires Storable(store)
    ensures Shape(Initial(store)) && Linear(store, Initial(store))
  {
  }

  /** While one thread is at work, no other is in the middle of a load. */
  lemma NoOtherLoader(s: State, t: Tid, u: Tid)
    requires LocksMatch(s) && t != u && t in s.threads && u in s.threads && s.threads[t].phase.Working?
    ensures !AtLoad(s.threads[u])
  {
    if AtLoad(s.threads[u]) {
      var l := Lo(s.threads[t].req);
      LocksInRange(s.threads[t].req);
      Exclusion(s, l, t, u);
    }
  }

  /** A thread at work finds the store the log leaves, unless it is itself loading. */
  lemma WorkerSeesLog(init: Store, s: State, t: Tid)
    requires Linear(init, s) && t in s.threads && s.threads[t].phase.Working? && !AtLoad(s.threads[t])
    ensures s.store == Replay(init, s.log)
  {
    forall u | u in s.threads
      ensures !AtLoad(s.threads[u])
    {
      if u != t {
        NoOtherLoader(s, t, u);
      }
    }
  }

  /** What another thread at work knows survives a step of `t`: what it relies on lies under locks it holds. */
  lemma {:induction false} OthersKeepWork(s: State, base: Store, base': Store, t: Tid, u: Tid)
    requires LocksMatch(s) && StoreOk(base) && StoreOk(base')
    requires t != u && t in s.threads && u in s.threads
    requires s.threads[t].phase.Working? && s.threads[u].phase.Working?
    requires ThreadOk(s, base, s.threads[u])
    ensures var s' := Step(s, t); StoreOk(s'.store) && WorkOk(s'.store, base', s.threads[u].req, s.threads[u].phase.work)
    ensures s.threads[u].req.SaveAll? ==> Step(s, t).store == s.store
  {
    StepShape(s, t);
    NoOtherLoader(s, t, u);
    var (r, w) := (s.threads[t].req, s.threads[t].phase.work);
    var q := s.threads[u].req;
    LocksInRange(r);
    LocksInRange(q);
    if q.SaveAll? {
      Exclusion(s, Lo(r), t, u);
      AccessFrame(s.store, r, w, 0, 0);
    } else if q.Incr? {
      var l := Lo(q);
      if Holds(s.threads[t], l) {
        Exclusion(s, l, t, u);
      }
      AccessFrame(s.store, r, w, q.db, BucketOf(q.key));
    }
  }

  lemma {:induction false} StepThreads(init: Store, s: State, t: Tid, base': Store, u: Tid)
    requires Linear(init, s) && t in s.threads && s.threads[t].phase.Working?
    requires Storable(base') && LocksMatch(Step(s, t))
    requires u != t && u in s.threads
    ensures ThreadOk(Step(s, t), base', Step(s, t).threads[u])
  {
    var th := s.threads[u];
    assert ThreadOk(s, Replay(init, s.log), th);
    assert ThreadShape(th);
    if th.phase.Working? {
      OthersKeepWork(s, Replay(init, s.log), base', t, u);
    }
  }

  /** A step of work and the log: what it enters is what the request does to the store the log leaves. */
  lemma {:induction false} StepLog(init: Store, s: State, t: Tid)
    requires Linear(init, s) && t in s.threads && s.threads[t].phase.Working?
    ensures var (th, s') := (s.threads[t], Step(s, t));
            var (base, e) := (Replay(init, s.log), Access(s.store, th.req, th.phase.work));
            && LogOk(s'.log) && OutcomesMatch(init, s'.log) && s.log <= s'.log
            && (!AtLoad(th) ==> s.store == base)
            && EffectOk(s.store, base, th.req, th.phase.work, e)
            && Replay(init, s'.log) == (if e.event.Some? then e.store else base)
  {
    var th, base := s.threads[t], Replay(init, s.log);
    var e := Access(s.store, th.req, th.phase.work);
    assert ThreadOk(s, base, th);
    if !AtLoad(th) {
      WorkerSeesLog(init, s, t);
    }
    AccessCorrect(s.store, base, th.req, th.phase.work);
    if e.event.Some? {
      LogGrows(init, s.log, Event(th.ticket, th.req, e.event.value));
    }
  }

  /** The thread that made the step knows what it needs, and the store is the log's unless it is loading. */
  lemma {:induction false} StepSelf(init: Store, s: State, t: Tid)
    requires Linear(init, s) && t in s.threads && s.threads[t].phase.Working?
    requires LocksMatch(Step(s, t))
    ensures LogOk(Step(s, t).log)
    ensures ThreadOk(Step(s, t), Replay(init, Step(s, t).log), Step(s, t).threads[t])
    ensures AtLoad(Step(s, t).threads[t]) || Step(s, t).store == Replay(init, Step(s, t).log)
  {
    hide Exec, Access, WorkOk, Replay, Save;
    StepLog(init, s, t);
    assert ThreadOk(s, Replay(init, s.log), s.threads[t]);
  }

  lemma {:induction false} StepLinear(init: Store, s: State, t: Tid)
    requires Linear(init, s) && t in s.threads && s.threads[t].phase.Working?
    requires LocksMatch(Step(s, t))
    ensures Linear(init, Step(s, t))
  {
    hide Exec, Access, WorkOk, EffectOk;
    StepLog(init, s, t);
    StepSelf(init, s, t);
    var s' := Step(s, t);
    var base' := Replay(init, s'.log);
    forall u | u in s'.threads
      ensures ThreadOk(s', base', s'.threads[u])
    {
      if u != t {
        StepThreads(init, s, t, base', u);
      }
    }
    forall i | 0 <= i < |s.answers|
      ensures AnswerOk(s'.log, s.answers[i])
    {
      assert AnswerOk(s.log, s.answers[i]);
    }
  }

  /** Taking or giving back a lock, and starting a call, touch neither the store nor what other threads know. */
  lemma {:induction false} QuietLinear(init: Store, s: State, s': State, t: Tid)
    requires Linear(init, s) && LocksMatch(s') && s'.store == s.store
    requires LogOk(s'.log) && OutcomesMatch(init, s'.log) && s.log <= s'.log
    requires Replay(init, s'.log) == Replay(init, s.log)
    requires forall u | u in s'.threads && u != t :: u in s.threads && s'.threads[u] == s.threads[u]
    requires forall u | u in s.threads && u != t :: u in s'.threads
    requires t in s'.threads ==> ThreadOk(s', Replay(init, s'.log), s'.threads[t])
    requires t in s.threads ==> !AtLoad(s.threads[t])
    requires forall i | 0 <= i < |s'.answers| :: AnswerOk(s'.log, s'.answers[i])
    ensures Linear(init, s')
  {
    var base := Replay(init, s.log);
    forall u | u in s'.threads
      ensures ThreadOk(s', base, s'.threads[u])
    {
      if u != t {
        assert ThreadOk(s, base, s.threads[u]);
        assert ThreadShape(s.threads[u]);
      }
    }
    if forall u | u in s'.threads :: !AtLoad(s'.threads[u]) {
      forall u | u in s.threads
        ensures !AtLoad(s.threads[u])
      {
        if u != t {
          assert !AtLoad(s'.threads[u]);
        }
      }
    }
  }

  /** Granting a lock enters at most a SAVE in the log, whose outcome is the store as it stands. */
  lemma {:induction false} GrantLog(init: Store, s: State, t: Tid)
    requires Linear(init, s) && Waiting(s, t) && Granted(s, t)
    ensures var log := Grant(s, t).log;
            s.log <= log && LogOk(log) && OutcomesMatch(init, log) && Replay(init, log) == Replay(init, s.log)
  {
    if Grant(s, t).log != s.log {
      LastReadLock(init, s, t);
      LogGrows(init, s.log, Event(s.threads[t].ticket, SaveAll, File(Save(s.store))));
    }
  }

  lemma {:induction false} GrantThread(init: Store, s: State, t: Tid)
    requires Linear(init, s) && Waiting(s, t) && Granted(s, t)
    requires LocksMatch(Grant(s, t))
    ensures t in Grant(s, t).threads
    ensures ThreadOk(Grant(s, t), Replay(init, s.log), Grant(s, t).threads[t])
  {
    var th := s.threads[t];
    assert ThreadOk(s, Replay(init, s.log), th) && ThreadShape(th);
    if th.phase.next + 1 == Hi(th.req) && th.req.LoadAll? {
      LastWriteLock(init, s, t);
      assert th.req.puts[..0] == [];
    }
  }

  lemma {:induction false} GrantLinear(init: Store, s: State, t: Tid)
    requires Linear(init, s) && Waiting(s, t) && Granted(s, t)
    requires LocksMatch(Grant(s, t))
    ensures Linear(init, Grant(s, t))
  {
    hide Replay, WorkOk;
    GrantLog(init, s, t);
    GrantThread(init, s, t);
    forall i | 0 <= i < |s.answers|
      ensures AnswerOk(Grant(s, t).log, s.answers[i])
    {
      assert AnswerOk(s.log, s.answers[i]);
    }
    QuietLinear(init, s, Grant(s, t), t);
  }

  /** A lock that can still be granted is not held by a loader, so nobody is loading. */
  lemma NobodyLoads(init: Store, s: State, t: Tid)
    requires Linear(init, s) && Waiting(s, t) && Granted(s, t)
    ensures s.store == Replay(init, s.log)
  {
    var l := s.threads[t].phase.next;
    LocksInRange(s.threads[t].req);
    assert ThreadShape(s.threads[t]);
    forall u | u in s.threads
      ensures !AtLoad(s.threads[u])
    {
      if AtLoad(s.threads[u]) {
        assert LockMatches(s, l);
        assert HeldBy(s, l, u, false);
      }
    }
  }

  lemma LastReadLock(init: Store, s: State, t: Tid)
    requires Linear(init, s) && Waiting(s, t) && Granted(s, t)
    ensures Exec(Replay(init, s.log), SaveAll) == (Replay(init, s.log), File(Save(s.store)))
  {
    NobodyLoads(init, s, t);
  }

  lemma LastWriteLock(init: Store, s: State, t: Tid)
    requires Linear(init, s) && Waiting(s, t) && Granted(s, t)
    ensures s.store == PutSeq(Replay(init, s.log), [])
  {
    NobodyLoads(init, s, t);
  }

  lemma {:induction false} ReleaseLinear(init: Store, s: State, t: Tid)
    requires Linear(init, s) && t in s.threads && s.threads[t].phase.Releasing?
    requires LocksMatch(Release(s, t))
    ensures Linear(init, Release(s, t))
  {
    hide Replay, Exec;
    var s' := Release(s, t);
    assert ThreadOk(s, Replay(init, s.log), s.threads[t]);
    assert forall i | 0 <= i < |s.answers| :: AnswerOk(s.log, s.answers[i]);
    QuietLinear(init, s, s', t);
  }

  /** Every step of every thread keeps the invariant. */
  lemma DoLinear(init: Store, s: State, a: Action)
    requires Linear(init, s) && Enabled(s, a)
    ensures Linear(init, Do(s, a))
  {
    DoMatches(s, a);
    if a.Begin? {
      LocksInRange(a.req);
      QuietLinear(init, s, Do(s, a), a.tid);
    } else if s.threads[a.tid].phase.Acquiring? {
      GrantLinear(init, s, a.tid);
    } else if s.threads[a.tid].phase.Working? {
      StepLinear(init, s, a.tid);
    } else {
      ReleaseLinear(init, s, a.tid);
    }
  }

  lemma {:induction false} RunLinear(init: Store, actions: seq<Action>)
    requires Storable(init)
    ensures Shape(Initial(init)) && Linear(init, Run(Initial(init), actions))
  {
    InitialLinear(init);
    if actions != [] {
      var front := actions[..|actions| - 1];
      RunLinear(init, front);
      var s := Run(Initial(init), front);
      if Enabled(s, actions[|actions| - 1]) {
        DoLinear(init, s, actions[|actions| - 1]);
      }
    }
  }
}
