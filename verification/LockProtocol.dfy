/**
 * Client threads and savers running requests concurrently under the 4096 bucket locks
 * (src/cmd.c, src/serializer.c). A thread acquires the locks its request needs one by one in ascending order,
 * works in small steps while it holds them all, and releases them one by one.
 * A run is any sequence of thread choices; there is no bound on the number of threads.
 */
module LockProtocol {
  import opened CStrings
  import opened Djb2
  import opened Chains
  import opened Codec
  import opened DumpText
  import opened Snapshots
  import opened Decimal
  import opened Requests

  type Tid = nat

  /** A pthread_rwlock_t: the threads holding it for reading, and the one holding it for writing. */
  datatype Lock = Lock(readers: set<Tid>, writer: Option<Tid>)

  /** Progress of a request whose locks are all held. */
  datatype Work =
    | Fresh
    | Fetched(value: Bytes)                                        // INCR between hash_get and hash_set
    | Counting(db: nat, bucket: nat, count: nat, out: Bytes)       // rdb_save inside hash_count
    | Dumping(db: nat, bucket: nat, out: Bytes)                    // rdb_save inside the bucket loop
    | Loading(done: nat)                                           // rdb_load after `done` records

  datatype Phase =
    | Acquiring(next: nat)                     // holds its locks below `next`
    | Working(work: Work)                      // holds them all
    | Releasing(next: nat, outcome: Outcome)   // holds its locks from `next` on

  /** `ticket` identifies the call, `since` is the log length at its start, `at` its place in the log once it is there. */
  datatype Thread = Thread(ticket: nat, req: Request, since: nat, at: nat, phase: Phase)

  /** One completed access, entered in the log at its linearization point. */
  datatype Event = Event(ticket: nat, req: Request, outcome: Outcome)

  /** A call that returned, with the log length at its return. */
  datatype Answer = Answer(ticket: nat, req: Request, outcome: Outcome, since: nat, at: nat, until: nat)

  datatype State = State(
    store: Store,
    locks: seq<Lock>,
    threads: map<Tid, Thread>,
    tickets: nat,
    log: seq<Event>,
    answers: seq<Answer>)

  // ---- which locks ----

  function Lo(r: Request): nat {
    match r
    case Get(db, k) => LockOf(db, k)
    case Set(db, k, _) => LockOf(db, k)
    case Del(db, k) => LockOf(db, k)
    case Incr(db, k) => LockOf(db, k)
    case SaveAll => 0
    case LoadAll(_) => 0
  }

  function Hi(r: Request): nat {
    if r.SaveAll? || r.LoadAll? then NUM_LOCKS else Lo(r) + 1
  }

  predicate Reading(r: Request) {
    r.Get? || r.SaveAll?
  }

  predicate Holds(th: Thread, l: nat) {
    match th.phase
    case Acquiring(next) => Lo(th.req) <= l < next
    case Working(_) => Lo(th.req) <= l < Hi(th.req)
    case Releasing(next, _) => next <= l < Hi(th.req)
  }

  // ---- steps ----

  datatype Action = Begin(tid: Tid, req: Request) | Move(tid: Tid)

  predicate Waiting(s: State, t: Tid) {
    t in s.threads && s.threads[t].phase.Acquiring?
  }

  /** rdlock is granted when nobody writes, wrlock when nobody holds the lock. */
  predicate Granted(s: State, t: Tid)
    requires Waiting(s, t)
  {
    var th := s.threads[t];
    th.phase.next < |s.locks| &&
    var lock := s.locks[th.phase.next];
    lock.writer.None? && (Reading(th.req) || lock.readers == {})
  }

  function Take(lock: Lock, t: Tid, reading: bool): Lock {
    if reading then lock.(readers := lock.readers + {t}) else lock.(writer := Some(t))
  }

  function Drop(lock: Lock, t: Tid, reading: bool): Lock {
    if reading then lock.(readers := lock.readers - {t}) else lock.(writer := None)
  }

  function StartWork(r: Request): Work {
    match r
    case SaveAll => Counting(0, 0, 0, Header)
    case LoadAll(_) => Loading(0)
    case _ => Fresh
  }

  /** Takes the next lock; SAVE enters the log when its last read lock is granted. */
  function Grant(s: State, t: Tid): State
    requires StoreOk(s.store) && Waiting(s, t) && Granted(s, t)
  {
    var th := s.threads[t];
    var n := th.phase.next;
    var locks := s.locks[n := Take(s.locks[n], t, Reading(th.req))];
    if n + 1 < Hi(th.req) then
      s.(locks := locks, threads := s.threads[t := th.(phase := Acquiring(n + 1))])
    else if th.req.SaveAll? then
      s.(locks := locks,
         threads := s.threads[t := th.(at := |s.log|, phase := Working(StartWork(th.req)))],
         log := s.log + [Event(th.ticket, th.req, File(Save(s.store)))])
    else
      s.(locks := locks, threads := s.threads[t := th.(phase := Working(StartWork(th.req)))])
  }

  /** What one step of work does: the new store, the new phase, and the outcome if this is the linearization point. */
  datatype Effect = Effect(store: Store, phase: Phase, event: Option<Outcome>)

  predicate WorkFits(r: Request, w: Work) {
    match w
    case Fresh => !r.SaveAll? && !r.LoadAll?
    case Fetched(_) => r.Incr?
    case Counting(db, b, _, _) => r.SaveAll? && db <= NUM_DBS && b <= NUM_BUCKETS
    case Dumping(db, b, _) => r.SaveAll? && db < NUM_DBS && b <= NUM_BUCKETS
    case Loading(i) => r.LoadAll? && i <= |r.puts|
  }

  /** One step of rdb_save: count one bucket, start or skip a database, dump one bucket, or reach the end. */
  function SaveAccess(s: Store, w: Work): Phase
    requires Sized(s) && WorkFits(SaveAll, w)
  {
    match w
    case Counting(db, b, n, out) =>
      if db == NUM_DBS then Releasing(0, File(out + [OP_EOF]))
      else if b < NUM_BUCKETS then Working(Counting(db, b + 1, n + |s[db][b]|, out))
      else if n == 0 then Working(Counting(db + 1, 0, 0, out))
      else Working(Dumping(db, 0, out + [OP_SELECTDB, db as byte]))
    case Dumping(db, b, out) =>
      if b < NUM_BUCKETS then Working(Dumping(db, b + 1, out + Encode(Records(s[db][b]))))
      else Working(Counting(db + 1, 0, 0, out))
  }

  function Access(s: Store, r: Request, w: Work): Effect
    requires StoreOk(s) && RequestOk(r) && WorkFits(r, w)
  {
    match w
    case Fresh =>
      (match r
       case Get(db, k) => Finish(s, r, Value(Lookup(s[db], k)))
       case Set(db, k, v) => Finish(Put(s, db, k, v), r, Done)
       case Del(db, k) => Finish(Remove(s, db, k), r, Removed(Lookup(s[db], k).Some?))
       case Incr(db, k) =>
         if Lookup(s[db], k).None? then Finish(s, r, Number(0))
         else Effect(s, Working(Fetched(Lookup(s[db], k).value)), None))
    case Fetched(v) =>
      Finish(Put(s, r.db, r.key, Format(Incremented(v))), r, Number(WrapInt(Incremented(v))))
    case Counting(_, _, _, _) => Effect(s, SaveAccess(s, w), None)
    case Dumping(_, _, _) => Effect(s, SaveAccess(s, w), None)
    case Loading(i) =>
      if i == |r.puts| then Finish(s, r, Done)
      else
        assert PlacedOk(r.puts[i]);
        Effect(Put(s, r.puts[i].db, r.puts[i].key, r.puts[i].value), Working(Loading(i + 1)), None)
  }

  function Finish(s: Store, r: Request, out: Outcome): Effect {
    Effect(s, Releasing(Lo(r), out), Some(out))
  }

  function Step(s: State, t: Tid): State
    requires StoreOk(s.store) && t in s.threads && s.threads[t].phase.Working?
    requires RequestOk(s.threads[t].req) && WorkFits(s.threads[t].req, s.threads[t].phase.work)
  {
    var th := s.threads[t];
    var e := Access(s.store, th.req, th.phase.work);
    if e.event.Some? then
      s.(store := e.store,
         threads := s.threads[t := th.(at := |s.log|, phase := e.phase)],
         log := s.log + [Event(th.ticket, th.req, e.event.value)])
    else
      s.(store := e.store, threads := s.threads[t := th.(phase := e.phase)])
  }

  /** Unlocks the next lock; the last unlock ends the call. */
  function Release(s: State, t: Tid): State
    requires t in s.threads && s.threads[t].phase.Releasing? && s.threads[t].phase.next < |s.locks|
  {
    var th := s.threads[t];
    var n := th.phase.next;
    var locks := s.locks[n := Drop(s.locks[n], t, Reading(th.req))];
    if n + 1 < Hi(th.req) then
      s.(locks := locks, threads := s.threads[t := th.(phase := Releasing(n + 1, th.phase.outcome))])
    else
      s.(locks := locks, threads := s.threads - {t},
         answers := s.answers + [Answer(th.ticket, th.req, th.phase.outcome, th.since, th.at, |s.log|)])
  }

  function Start(s: State, t: Tid, r: Request): State {
    s.(threads := s.threads[t := Thread(s.tickets, r, |s.log|, 0, Acquiring(Lo(r)))], tickets := s.tickets + 1)
  }

  /** The state and request fit together enough for every step to be defined. */
  predicate ThreadShape(th: Thread) {
    && RequestOk(th.req)
    && match th.phase
       case Acquiring(next) => Lo(th.req) <= next < Hi(th.req)
       case Working(w) => WorkFits(th.req, w)
       case Releasing(next, _) => Lo(th.req) <= next < Hi(th.req)
  }

  ghost predicate Shape(s: State) {
    && Storable(s.store)
    && |s.locks| == NUM_LOCKS
    && forall t | t in s.threads :: ThreadShape(s.threads[t])
  }

  lemma LocksInRange(r: Request)
    requires RequestOk(r)
    ensures Lo(r) < Hi(r) <= NUM_LOCKS
  {
  }

  predicate Enabled(s: State, a: Action) {
    match a
    case Begin(t, r) => t !in s.threads && RequestOk(r)
    case Move(t) => t in s.threads && (Waiting(s, t) ==> Granted(s, t))
  }

  function Do(s: State, a: Action): State
    requires Shape(s) && Enabled(s, a)
  {
    match a
    case Begin(t, r) => Start(s, t, r)
    case Move(t) =>
      LocksInRange(s.threads[t].req);
      (match s.threads[t].phase
       case Acquiring(_) => Grant(s, t)
       case Working(_) => Step(s, t)
       case Releasing(_, _) => Release(s, t))
  }

  /** Every lock free, no thread yet. */
  function Initial(store: Store): State {
    State(store, seq(NUM_LOCKS, _ => Lock({}, None)), map[], 0, [], [])
  }

  // ---- the shape is kept ----

  lemma {:induction false} AccessShape(s: Store, r: Request, w: Work)
    requires Storable(s) && RequestOk(r) && WorkFits(r, w)
    ensures Storable(Access(s, r, w).store)
    ensures Access(s, r, w).phase.Working? ==> WorkFits(r, Access(s, r, w).phase.work)
    ensures Access(s, r, w).phase.Releasing? ==> Access(s, r, w).phase.next == Lo(r)
    ensures !Access(s, r, w).phase.Acquiring?
  {
    match w
    case Fresh => ExecRefines(s, r);
    case Fetched(v) =>
      FormatFits(Incremented(v));
      StorablePut(s, r.db, r.key, Format(Incremented(v)));
    case Counting(_, _, _, _) =>
    case Dumping(_, _, _) =>
    case Loading(i) =>
      if i < |r.puts| {
        assert PlacedOk(r.puts[i]);
        StorablePut(s, r.puts[i].db, r.puts[i].key, r.puts[i].value);
      }
  }

  lemma StepShape(s: State, t: Tid)
    requires Shape(s) && t in s.threads && s.threads[t].phase.Working?
    ensures Shape(Step(s, t))
  {
    var th := s.threads[t];
    LocksInRange(th.req);
    AccessShape(s.store, th.req, th.phase.work);
    assert ThreadShape(Step(s, t).threads[t]);
  }

  lemma OnlyThreadChanges(s: State, s': State, t: Tid)
    requires Shape(s) && s'.store == s.store && |s'.locks| == |s.locks|
    requires forall u | u in s'.threads && u != t :: u in s.threads && s'.threads[u] == s.threads[u]
    requires t in s'.threads ==> ThreadShape(s'.threads[t])
    ensures Shape(s')
  {
  }

  lemma DoShape(s: State, a: Action)
    requires Shape(s) && Enabled(s, a)
    ensures Shape(Do(s, a))
  {
    if a.Begin? {
      LocksInRange(a.req);
      OnlyThreadChanges(s, Do(s, a), a.tid);
    } else {
      LocksInRange(s.threads[a.tid].req);
      if s.threads[a.tid].phase.Working? {
        StepShape(s, a.tid);
      } else {
        OnlyThreadChanges(s, Do(s, a), a.tid);
      }
    }
  }

  /** A run: the threads move in any order; choosing a thread that cannot move changes nothing. */
  function Run(s: State, actions: seq<Action>): (r: State)
    requires Shape(s)
    ensures Shape(r)
  {
    if actions == [] then s
    else
      var before := Run(s, actions[..|actions| - 1]);
      var a := actions[|actions| - 1];
      if Enabled(before, a) then
        DoShape(before, a);
        Do(before, a)
      else before
  }
}
