/** In every run each call enters the log at most once, before it returns, and every log entry belongs to one call. */
module Calls {
  import opened Chains
  import opened Snapshots
  import opened Requests
  import opened LockProtocol

  /** The access of this call is in the log already. */
  predicate Entered(th: Thread) {
    th.phase.Releasing? || (th.phase.Working? && th.req.SaveAll?)
  }

  ghost predicate InLog(s: State, ticket: nat) {
    exists i :: 0 <= i < |s.log| && s.log[i].ticket == ticket
  }

  ghost predicate Answered(s: State, ticket: nat) {
    exists j :: 0 <= j < |s.answers| && s.answers[j].ticket == ticket
  }

  /** A call under way holds this ticket and has entered the log. */
  ghost predicate Pending(s: State, ticket: nat) {
    exists t :: t in s.threads && s.threads[t].ticket == ticket && Entered(s.threads[t])
  }

  ghost predicate CallsOk(s: State) {
    && (forall i, j | 0 <= i < j < |s.log| :: s.log[i].ticket != s.log[j].ticket)
    && (forall i, j | 0 <= i < j < |s.answers| :: s.answers[i].ticket != s.answers[j].ticket)
    && (forall t, u | t in s.threads && u in s.threads && t != u :: s.threads[t].ticket != s.threads[u].ticket)
    && (forall i | 0 <= i < |s.log| :: s.log[i].ticket < s.tickets && Accounted(s, s.log[i].ticket))
    && (forall j | 0 <= j < |s.answers| :: s.answers[j].ticket < s.tickets)
    && (forall t | t in s.threads :: CallOk(s, s.threads[t]))
  }

  ghost predicate Accounted(s: State, ticket: nat) {
    Answered(s, ticket) || Pending(s, ticket)
  }

  ghost predicate CallOk(s: State, th: Thread) {
    && th.ticket < s.tickets
    && !Answered(s, th.ticket)
    && (InLog(s, th.ticket) ==> Entered(th))
  }

  /** A step that neither enters the log nor ends a call. */
  lemma Continues(s: State, s': State, t: Tid)
    requires CallsOk(s) && t in s.threads && t in s'.threads
    requires s'.log == s.log && s'.answers == s.answers && s'.tickets == s.tickets && s'.threads.Keys == s.threads.Keys
    requires forall u | u in s.threads && u != t :: s'.threads[u] == s.threads[u]
    requires s'.threads[t].ticket == s.threads[t].ticket && (Entered(s.threads[t]) ==> Entered(s'.threads[t]))
    ensures CallsOk(s')
  {
    forall i | 0 <= i < |s'.log|
      ensures Accounted(s', s'.log[i].ticket)
    {
      assert Accounted(s, s.log[i].ticket);
      KeepsPending(s, s', t, s.log[i].ticket);
    }
    assert forall u | u in s'.threads :: CallOk(s, s.threads[u]);
  }

  lemma KeepsPending(s: State, s': State, t: Tid, ticket: nat)
    requires t in s.threads && t in s'.threads && s'.threads.Keys == s.threads.Keys
    requires forall u | u in s.threads && u != t :: s'.threads[u] == s.threads[u]
    requires s'.threads[t].ticket == s.threads[t].ticket && (Entered(s.threads[t]) ==> Entered(s'.threads[t]))
    ensures Pending(s, ticket) ==> Pending(s', ticket)
  {
    if Pending(s, ticket) {
      var u :| u in s.threads && s.threads[u].ticket == ticket && Entered(s.threads[u]);
      assert u in s'.threads;
    }
  }

  /** The step at which a call enters the log. */
  lemma Enters(s: State, s': State, t: Tid, e: Event)
    requires CallsOk(s) && t in s.threads && t in s'.threads && !Entered(s.threads[t]) && Entered(s'.threads[t])
    requires e.ticket == s.threads[t].ticket && s'.log == s.log + [e]
    requires s'.answers == s.answers && s'.tickets == s.tickets && s'.threads.Keys == s.threads.Keys
    requires forall u | u in s.threads && u != t :: s'.threads[u] == s.threads[u]
    requires s'.threads[t].ticket == s.threads[t].ticket
    ensures CallsOk(s')
  {
    assert CallOk(s, s.threads[t]);
    forall i | 0 <= i < |s'.log|
      ensures Accounted(s', s'.log[i].ticket)
    {
      if i < |s.log| {
        assert Accounted(s, s.log[i].ticket);
        KeepsPending(s, s', t, s.log[i].ticket);
      } else {
        assert Pending(s', e.ticket);
      }
    }
    forall i | 0 <= i < |s.log|
      ensures s.log[i].ticket != e.ticket
    {
      assert InLog(s, s.log[i].ticket);
    }
    forall u | u in s'.threads
      ensures CallOk(s', s'.threads[u])
    {
      assert CallOk(s, s.threads[u]);
      if u != t && InLog(s', s.threads[u].ticket) {
        assert InLog(s, s.threads[u].ticket);
      }
    }
  }

  /** The last unlock of a call. */
  lemma Ends(s: State, s': State, t: Tid, a: Answer)
    requires CallsOk(s) && t in s.threads && Entered(s.threads[t])
    requires a.ticket == s.threads[t].ticket && s'.answers == s.answers + [a]
    requires s'.log == s.log && s'.tickets == s.tickets && s'.threads == s.threads - {t}
    ensures CallsOk(s')
  {
    assert CallOk(s, s.threads[t]);
    assert s'.answers[|s.answers|] == a;
    forall i | 0 <= i < |s'.log|
      ensures Accounted(s', s'.log[i].ticket)
    {
      var k := s.log[i].ticket;
      assert Accounted(s, k);
      if Answered(s, k) {
        var j :| 0 <= j < |s.answers| && s.answers[j].ticket == k;
        assert s'.answers[j].ticket == k;
      } else if k != a.ticket {
        var u :| u in s.threads && s.threads[u].ticket == k && Entered(s.threads[u]);
        assert u in s'.threads;
      }
    }
    forall u | u in s'.threads
      ensures CallOk(s', s'.threads[u])
    {
      assert CallOk(s, s.threads[u]);
      forall j | 0 <= j < |s'.answers|
        ensures s'.answers[j].ticket != s.threads[u].ticket
      {
        assert j < |s.answers| ==> s'.answers[j] == s.answers[j];
      }
    }
    forall j | 0 <= j < |s.answers|
      ensures s.answers[j].ticket != a.ticket
    {
      assert Answered(s, s.answers[j].ticket);
    }
  }

  lemma Begins(s: State, t: Tid, r: Request)
    requires CallsOk(s) && t !in s.threads
    ensures CallsOk(Start(s, t, r))
  {
    var s' := Start(s, t, r);
    forall i | 0 <= i < |s'.log|
      ensures Accounted(s', s'.log[i].ticket)
    {
      var k := s.log[i].ticket;
      assert Accounted(s, k);
      if Pending(s, k) {
        var u :| u in s.threads && s.threads[u].ticket == k && Entered(s.threads[u]);
        assert u in s'.threads && s'.threads[u] == s.threads[u];
      }
    }
    forall u | u in s'.threads
      ensures CallOk(s', s'.threads[u])
    {
      if u != t {
        assert CallOk(s, s.threads[u]);
      }
    }
  }

  lemma GrantCalls(s: State, t: Tid)
    requires Shape(s) && CallsOk(s) && Waiting(s, t) && Granted(s, t)
    ensures CallsOk(Grant(s, t))
  {
    if |Grant(s, t).log| > |s.log| {
      Enters(s, Grant(s, t), t, Grant(s, t).log[|s.log|]);
    } else {
      Continues(s, Grant(s, t), t);
    }
  }

  lemma StepCalls(s: State, t: Tid)
    requires Shape(s) && CallsOk(s) && t in s.threads && s.threads[t].phase.Working?
    ensures CallsOk(Step(s, t))
  {
    AccessShape(s.store, s.threads[t].req, s.threads[t].phase.work);
    if |Step(s, t).log| > |s.log| {
      Enters(s, Step(s, t), t, Step(s, t).log[|s.log|]);
    } else {
      Continues(s, Step(s, t), t);
    }
  }

  lemma ReleaseCalls(s: State, t: Tid)
    requires Shape(s) && CallsOk(s) && t in s.threads && s.threads[t].phase.Releasing?
    requires s.threads[t].phase.next < |s.locks|
    ensures CallsOk(Release(s, t))
  {
    if |Release(s, t).answers| > |s.answers| {
      Ends(s, Release(s, t), t, Release(s, t).answers[|s.answers|]);
    } else {
      Continues(s, Release(s, t), t);
    }
  }

  lemma DoCalls(s: State, a: Action)
    requires Shape(s) && CallsOk(s) && Enabled(s, a)
    ensures CallsOk(Do(s, a))
  {
    match a
    case Begin(t, r) => Begins(s, t, r);
    case Move(t) =>
      LocksInRange(s.threads[t].req);
      match s.threads[t].phase
      case Acquiring(_) => GrantCalls(s, t);
      case Working(_) => StepCalls(s, t);
      case Releasing(_, _) => ReleaseCalls(s, t);
  }

  lemma {:induction false} RunCalls(init: Store, actions: seq<Action>)
    requires Storable(init)
    ensures Shape(Initial(init)) && CallsOk(Run(Initial(init), actions))
  {
    if actions != [] {
      var front := actions[..|actions| - 1];
      RunCalls(init, front);
      var s := Run(Initial(init), front);
      if Enabled(s, actions[|actions| - 1]) {
        DoCalls(s, actions[|actions| - 1]);
      }
    }
  }
}
