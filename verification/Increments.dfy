/**
 * INCR loses no update: whatever the interleaving, N calls on a counter reply v+1 to v+N, each once,
 * as long as the counter stays an int; past that the replies wrap.
 */
module Increments {
  import opened CStrings
  import opened Chains
  import opened Decimal
  import opened Codec
  import opened Snapshots
  import opened Requests
  import opened LockProtocol
  import opened Linearization
  import opened Concurrency

  predicate IsIncr(r: Request, db: nat, k: Bytes) {
    r == Incr(db, k)
  }

  /** The request can change the key only by INCR. */
  predicate LeavesAlone(r: Request, db: nat, k: Bytes) {
    match r
    case Set(d, q, _) => d != db || q != k
    case Del(d, q) => d != db || q != k
    case LoadAll(puts) => forall i | 0 <= i < |puts| :: puts[i].db != db || puts[i].key != k
    case _ => true
  }

  predicate OnlyIncremented(log: seq<Event>, db: nat, k: Bytes) {
    forall i | 0 <= i < |log| :: LeavesAlone(log[i].req, db, k)
  }

  /** The outcomes of the INCR calls on the key, in log order. */
  function Replies(log: seq<Event>, db: nat, k: Bytes): seq<Outcome> {
    if log == [] then []
    else
      Replies(log[..|log| - 1], db, k)
      + if IsIncr(log[|log| - 1].req, db, k) then [log[|log| - 1].outcome] else []
  }

  /** v+1, v+2, ... v+n */
  function Consecutive(v: int, n: nat): (r: seq<Outcome>)
    ensures |r| == n && forall i | 0 <= i < n :: r[i] == Number(v + 1 + i)
  {
    seq(n, i requires 0 <= i < n => Number(v + 1 + i))
  }

  lemma {:induction false} PutsLeaveAlone(m: Dicts, puts: seq<Placed>, db: nat, k: Bytes)
    requires |m| == NUM_DBS && PutsOk(puts) && db < NUM_DBS
    requires forall i | 0 <= i < |puts| :: puts[i].db != db || puts[i].key != k
    ensures k in PutSeqMaps(m, puts)[db] <==> k in m[db]
    ensures k in m[db] ==> PutSeqMaps(m, puts)[db][k] == m[db][k]
  {
    if puts != [] {
      assert PlacedOk(puts[|puts| - 1]);
      PutsLeaveAlone(m, puts[..|puts| - 1], db, k);
    }
  }

  /** One request, seen from the counter. */
  lemma ExecCounter(m: Dicts, r: Request, db: nat, k: Bytes)
    requires |m| == NUM_DBS && RequestOk(r) && db < NUM_DBS && k in m[db] && LeavesAlone(r, db, k)
    ensures var m' := ExecMaps(m, r).0;
            k in m'[db] && m'[db][k] == if IsIncr(r, db, k) then Format(Incremented(m[db][k])) else m[db][k]
    ensures IsIncr(r, db, k) ==> ExecMaps(m, r).1 == Some(Number(WrapInt(Incremented(m[db][k]))))
  {
    if r.LoadAll? {
      PutsLeaveAlone(m, r.puts, db, k);
    }
  }

  ghost predicate AllExplained(m: Dicts, log: seq<Event>)
    requires |m| == NUM_DBS && LogOk(log)
  {
    forall i | 0 <= i < |log| :: Explained(m, log, i)
  }

  lemma ExplainedFront(m: Dicts, log: seq<Event>)
    requires |m| == NUM_DBS && LogOk(log) && log != [] && AllExplained(m, log)
    ensures LogOk(log[..|log| - 1]) && AllExplained(m, log[..|log| - 1])
  {
    var front := log[..|log| - 1];
    forall i | 0 <= i < |front|
      ensures Explained(m, front, i)
    {
      assert front[..i] == log[..i];
      assert Explained(m, log, i);
    }
  }

  /** The counter reads `v + n`, and it still holds `text` if it was never incremented. */
  predicate CounterAt(d: Dict, k: Bytes, text: Bytes, v: int, n: nat) {
    k in d && Atoi(d[k]) == v + n && d[k] == if n == 0 then text else Format(v + n)
  }

  lemma CounterStep(m: Dicts, r: Request, db: nat, k: Bytes, text: Bytes, v: int, n: nat)
    requires |m| == NUM_DBS && RequestOk(r) && db < NUM_DBS && LeavesAlone(r, db, k)
    requires CounterAt(m[db], k, text, v, n)
    requires IsIncr(r, db, k) ==> IsInt(v + n + 1)
    ensures IsIncr(r, db, k) ==>
              CounterAt(ExecMaps(m, r).0[db], k, text, v, n + 1) && ExecMaps(m, r).1 == Some(Number(v + n + 1))
    ensures !IsIncr(r, db, k) ==> CounterAt(ExecMaps(m, r).0[db], k, text, v, n)
  {
    ExecCounter(m, r, db, k);
    AtoiInvertsFormat(v + n + 1);
  }

  /** The last entry of a log, seen from the counter. */
  lemma CounterEntry(m: Dicts, log: seq<Event>, db: nat, k: Bytes, text: Bytes, v: int, n: nat)
    requires |m| == NUM_DBS && LogOk(log) && log != [] && db < NUM_DBS
    requires LeavesAlone(log[|log| - 1].req, db, k) && Explained(m, log, |log| - 1)
    requires LogOk(log[..|log| - 1]) && CounterAt(ReplayMaps(m, log[..|log| - 1])[db], k, text, v, n)
    requires IsIncr(log[|log| - 1].req, db, k) ==> IsInt(v + n + 1)
    ensures IsIncr(log[|log| - 1].req, db, k) ==>
              CounterAt(ReplayMaps(m, log)[db], k, text, v, n + 1) && log[|log| - 1].outcome == Number(v + n + 1)
    ensures !IsIncr(log[|log| - 1].req, db, k) ==> CounterAt(ReplayMaps(m, log)[db], k, text, v, n)
  {
    CounterStep(ReplayMaps(m, log[..|log| - 1]), log[|log| - 1].req, db, k, text, v, n);
  }

  lemma ConsecutiveGrows(v: int, n: nat)
    ensures Consecutive(v, n + 1) == Consecutive(v, n) + [Number(v + n + 1)]
  {
  }

  lemma RepliesGrow(log: seq<Event>, db: nat, k: Bytes)
    requires log != []
    ensures var (front, last) := (Replies(log[..|log| - 1], db, k), log[|log| - 1]);
            Replies(log, db, k) == if IsIncr(last.req, db, k) then front + [last.outcome] else front
  {
  }

  /** The counter after the log: its text denotes v plus the number of INCR calls, and they replied in sequence. */
  lemma {:induction false} CounterAdvances(m: Dicts, log: seq<Event>, db: nat, k: Bytes, text: Bytes, v: int)
    requires |m| == NUM_DBS && LogOk(log) && db < NUM_DBS && CounterAt(m[db], k, text, v, 0)
    requires OnlyIncremented(log, db, k) && AllExplained(m, log)
    requires IsInt(v) && IsInt(v + |Replies(log, db, k)|)
    ensures CounterAt(ReplayMaps(m, log)[db], k, text, v, |Replies(log, db, k)|)
    ensures Replies(log, db, k) == Consecutive(v, |Replies(log, db, k)|)
  {
    if log != [] {
      var front := log[..|log| - 1];
      var n := |Replies(front, db, k)|;
      RepliesGrow(log, db, k);
      ExplainedFront(m, log);
      CounterAdvances(m, front, db, k, text, v);
      CounterEntry(m, log, db, k, text, v, n);
      ConsecutiveGrows(v, n);
    }
  }

  /** All replies of INCR are ints, whatever happened to the counter. */
  lemma {:induction false} RepliesAreInts(m: Dicts, log: seq<Event>, db: nat, k: Bytes)
    requires |m| == NUM_DBS && LogOk(log) && db < NUM_DBS && AllExplained(m, log)
    ensures forall j | 0 <= j < |Replies(log, db, k)| ::
              Replies(log, db, k)[j].Number? && IsInt(Replies(log, db, k)[j].n)
  {
    if log != [] {
      ExplainedFront(m, log);
      RepliesAreInts(m, log[..|log| - 1], db, k);
      assert Explained(m, log, |log| - 1);
    }
  }

  /** In any sequential execution: the replies count up from v exactly when the last one is still an int. */
  lemma CountsUpExactly(m: Dicts, log: seq<Event>, db: nat, k: Bytes, v: int)
    requires |m| == NUM_DBS && LogOk(log) && db < NUM_DBS && k in m[db] && Atoi(m[db][k]) == v
    requires OnlyIncremented(log, db, k) && AllExplained(m, log)
    ensures var n := |Replies(log, db, k)|; Replies(log, db, k) == Consecutive(v, n) <==> v + n <= INT_MAX
    ensures var n := |Replies(log, db, k)|;
            v + n <= INT_MAX ==> CounterAt(ReplayMaps(m, log)[db], k, m[db][k], v, n)
  {
    var n := |Replies(log, db, k)|;
    if v + n <= INT_MAX {
      CounterAdvances(m, log, db, k, m[db][k], v);
    } else {
      RepliesAreInts(m, log, db, k);
      assert !IsInt(Consecutive(v, n)[n - 1].n);
    }
  }

  // ---- from the log to the callers ----

  /** What callers of INCR on the key were answered. */
  function Given(answers: seq<Answer>, db: nat, k: Bytes): seq<Outcome> {
    if answers == [] then []
    else
      Given(answers[..|answers| - 1], db, k)
      + if IsIncr(answers[|answers| - 1].req, db, k) then [answers[|answers| - 1].outcome] else []
  }

  /** The log positions the answers point to. */
  function Places(answers: seq<Answer>): (r: set<nat>)
    ensures forall j | 0 <= j < |answers| :: answers[j].at in r
    ensures forall i | i in r :: exists j :: 0 <= j < |answers| && answers[j].at == i
  {
    set j | 0 <= j < |answers| :: answers[j].at
  }

  /** One outcome, if it is one of INCR on the key. */
  function One(r: Request, out: Outcome, db: nat, k: Bytes): multiset<Outcome> {
    if IsIncr(r, db, k) then multiset{out} else multiset{}
  }

  /** The outcomes of the INCR entries at those of the first `n` positions that are in `places`. */
  function OutcomesAt(log: seq<Event>, n: nat, places: set<nat>, db: nat, k: Bytes): multiset<Outcome>
    requires n <= |log|
  {
    if n == 0 then multiset{}
    else
      OutcomesAt(log, n - 1, places, db, k)
      + if n - 1 in places then One(log[n - 1].req, log[n - 1].outcome, db, k) else multiset{}
  }

  lemma {:induction false} OnePlaceMore(log: seq<Event>, n: nat, places: set<nat>, i: nat, db: nat, k: Bytes)
    requires i !in places && n <= |log|
    ensures OutcomesAt(log, n, places + {i}, db, k) ==
              OutcomesAt(log, n, places, db, k) + if i < n then One(log[i].req, log[i].outcome, db, k) else multiset{}
  {
    hide One;
    if n > 0 {
      OnePlaceMore(log, n - 1, places, i, db, k);
      var rest, here := OutcomesAt(log, n - 1, places, db, k), One(log[n - 1].req, log[n - 1].outcome, db, k);
      assert n - 1 in places + {i} <==> n - 1 in places || n - 1 == i;
      if i < n - 1 && n - 1 in places {
        Swapped(rest, One(log[i].req, log[i].outcome, db, k), here);
      }
    }
  }

  lemma Swapped(a: multiset<Outcome>, b: multiset<Outcome>, c: multiset<Outcome>)
    ensures a + b + c == a + c + b
  {
  }

  lemma {:induction false} NoPlaces(log: seq<Event>, n: nat, db: nat, k: Bytes)
    requires n <= |log|
    ensures OutcomesAt(log, n, {}, db, k) == multiset{}
  {
    if n > 0 {
      NoPlaces(log, n - 1, db, k);
    }
  }

  lemma GivenGrows(answers: seq<Answer>, db: nat, k: Bytes)
    requires answers != []
    ensures var a := answers[|answers| - 1];
            multiset(Given(answers, db, k)) == multiset(Given(answers[..|answers| - 1], db, k)) + One(a.req, a.outcome, db, k)
  {
  }

  /** The answers given are outcomes of log entries, none used twice. */
  lemma {:induction false} GivenAreLogged(log: seq<Event>, answers: seq<Answer>, db: nat, k: Bytes)
    requires forall j | 0 <= j < |answers| :: AnswerOk(log, answers[j])
    requires forall i, j | 0 <= i < j < |answers| :: answers[i].at != answers[j].at
    ensures multiset(Given(answers, db, k)) == OutcomesAt(log, |log|, Places(answers), db, k)
  {
    if answers == [] {
      assert Places(answers) == {};
      NoPlaces(log, |log|, db, k);
    } else {
      var front, a := answers[..|answers| - 1], answers[|answers| - 1];
      GivenAreLogged(log, front, db, k);
      assert AnswerOk(log, a);
      PlacesGrow(answers);
      OnePlaceMore(log, |log|, Places(front), a.at, db, k);
      GivenGrows(answers, db, k);
    }
  }

  lemma PlacesGrow(answers: seq<Answer>)
    requires answers != [] && forall i, j | 0 <= i < j < |answers| :: answers[i].at != answers[j].at
    ensures var (front, at) := (Places(answers[..|answers| - 1]), answers[|answers| - 1].at);
            at !in front && Places(answers) == front + {at}
  {
    assert forall j | 0 <= j < |answers| - 1 :: answers[..|answers| - 1][j] == answers[j];
  }

  /** Some of the log's outcomes at most, and all of them when every position is used. */
  lemma {:induction false} PlacesOfAll(log: seq<Event>, n: nat, places: set<nat>, db: nat, k: Bytes)
    requires n <= |log|
    ensures OutcomesAt(log, n, places, db, k) <= multiset(Replies(log[..n], db, k))
    ensures (forall i | 0 <= i < n :: i in places) ==> OutcomesAt(log, n, places, db, k) == multiset(Replies(log[..n], db, k))
  {
    if n > 0 {
      PlacesOfAll(log, n - 1, places, db, k);
      RepliesCount(log, n, db, k);
    }
  }

  lemma RepliesCount(log: seq<Event>, n: nat, db: nat, k: Bytes)
    requires 0 < n <= |log|
    ensures multiset(Replies(log[..n], db, k)) ==
              multiset(Replies(log[..n - 1], db, k)) + One(log[n - 1].req, log[n - 1].outcome, db, k)
  {
    assert log[..n][..n - 1] == log[..n - 1];
    RepliesGrow(log[..n], db, k);
  }

  /** What callers were answered is among the outcomes in the log, and with no call under way it is all of them. */
  lemma GivenAreReplies(init: Store, actions: seq<Action>, db: nat, k: Bytes)
    requires Storable(init)
    ensures Shape(Initial(init))
    ensures var s := Run(Initial(init), actions);
            && multiset(Given(s.answers, db, k)) <= multiset(Replies(s.log, db, k))
            && (s.threads == map[] ==> multiset(Given(s.answers, db, k)) == multiset(Replies(s.log, db, k)))
  {
    Linearizable(init, actions);
    AnswersApart(init, actions);
    ExactlyOnce(init, actions);
    var s := Run(Initial(init), actions);
    GivenAreLogged(s.log, s.answers, db, k);
    PlacesOfAll(s.log, |s.log|, Places(s.answers), db, k);
    assert s.log[..|s.log|] == s.log;
    if s.threads == map[] {
      forall i | 0 <= i < |s.log|
        ensures i in Places(s.answers)
      {
        assert AnsweredAt(s, i);
      }
    }
  }

  /** Requests that leave a key alone from the start leave it alone in the log. */
  ghost predicate OnlyIncrAsked(actions: seq<Action>, db: nat, k: Bytes) {
    forall i | 0 <= i < |actions| && actions[i].Begin? :: LeavesAlone(actions[i].req, db, k)
  }

  lemma {:induction false} AskedIsLogged(start: State, actions: seq<Action>, db: nat, k: Bytes)
    requires Shape(start) && start.log == [] && start.threads == map[] && OnlyIncrAsked(actions, db, k)
    ensures var s := Run(start, actions);
            && OnlyIncremented(s.log, db, k)
            && forall t | t in s.threads :: LeavesAlone(s.threads[t].req, db, k)
  {
    if actions != [] {
      var n := |actions| - 1;
      AskedIsLogged(start, actions[..n], db, k);
      var s := Run(start, actions[..n]);
      if Enabled(s, actions[n]) {
        AskedStep(s, actions[n], db, k);
      }
    }
  }

  lemma AskedStep(s: State, a: Action, db: nat, k: Bytes)
    requires Shape(s) && Enabled(s, a) && (a.Begin? ==> LeavesAlone(a.req, db, k))
    requires OnlyIncremented(s.log, db, k) && forall t | t in s.threads :: LeavesAlone(s.threads[t].req, db, k)
    ensures OnlyIncremented(Do(s, a).log, db, k)
    ensures forall t | t in Do(s, a).threads :: LeavesAlone(Do(s, a).threads[t].req, db, k)
  {
    if a.Move? {
      LocksInRange(s.threads[a.tid].req);
    }
  }

  /**
   * No lost updates. Let a counter reading `v` be touched by INCR alone. When all calls have returned, the answers its
   * n callers got are v+1 to v+n, each exactly once, if and only if v+n is still an int;
   * and then the counter holds the decimal text of v+n.
   */
  lemma NoLostUpdates(init: Store, actions: seq<Action>, db: nat, k: Bytes, v: int)
    requires Storable(init) && db < NUM_DBS
    requires k in Dictionaries(init)[db] && Atoi(Dictionaries(init)[db][k]) == v
    ensures Shape(Initial(init))
    ensures var s := Run(Initial(init), actions);
            OnlyIncremented(s.log, db, k) && s.threads == map[] ==>
              var n := |Given(s.answers, db, k)|;
              && (multiset(Given(s.answers, db, k)) == multiset(Consecutive(v, n)) <==> v + n <= INT_MAX)
              && (v + n <= INT_MAX ==> CounterAt(Dictionaries(s.store)[db], k, Dictionaries(init)[db][k], v, n))
  {
    Linearizable(init, actions);
    GivenAreReplies(init, actions, db, k);
    var s := Run(Initial(init), actions);
    if OnlyIncremented(s.log, db, k) && s.threads == map[] {
      var n := |Replies(s.log, db, k)|;
      assert |multiset(Given(s.answers, db, k))| == n;
      CountsUpExactly(Dictionaries(init), s.log, db, k, v);
      if v + n > INT_MAX {
        NotAllInts(Dictionaries(init), s.log, db, k, v);
      }
    }
  }

  /** Past the range of int the answers cannot be consecutive: the last would not be an int. */
  lemma NotAllInts(m: Dicts, log: seq<Event>, db: nat, k: Bytes, v: int)
    requires |m| == NUM_DBS && LogOk(log) && db < NUM_DBS && AllExplained(m, log)
    requires IsInt(v) && v + |Replies(log, db, k)| > INT_MAX
    ensures multiset(Replies(log, db, k)) != multiset(Consecutive(v, |Replies(log, db, k)|))
  {
    var r := Replies(log, db, k);
    var n := |r|;
    RepliesAreInts(m, log, db, k);
    var last := Consecutive(v, n)[n - 1];
    assert last in multiset(Consecutive(v, n));
    assert forall o | o in r :: o.Number? && IsInt(o.n);
    assert last !in multiset(r);
  }

  /** The first INCR past the int range, from a counter holding 2147483647: the stored text is right, the reply has wrapped. */
  lemma IncrementAtTheEdge(m: Dicts, db: nat, k: Bytes, v: int)
    requires |m| == NUM_DBS && db < NUM_DBS && StringOk(k) && k in m[db] && m[db][k] == Format(v) && v == INT_MAX
    ensures ExecMaps(m, Incr(db, k)).0[db][k] == Format(v + 1)
    ensures ExecMaps(m, Incr(db, k)).1 == Some(Number(INT_MIN))
  {
    AtoiInvertsFormat(v);
    WrapAtTheEdge(v);
    ExecCounter(m, Incr(db, k), db, k);
  }
}
