/**
 * The two layers together: any number of clients, each with a stream of command frames of its own, whose lines run
 * under the bucket locks while the lines of others run too. Every line of every client is answered as the reference
 * interpreter answers it on the maps left by the log entries before its own, and does to the maps what its entry does.
 */
module Clients {
  import opened CStrings
  import opened Chains
  import opened Codec
  import opened Snapshots
  import opened Requests
  import opened CommandLine
  import opened Framing
  import opened Interpreter
  import opened Service
  import opened LockProtocol
  import opened Linearization
  import opened Concurrency
  import Resp

  // ---- clients ----

  /** What a line finds outside the tables: the path and file of a LOAD, and the statistics INFO gathers without locks. */
  datatype World = World(leftover: Bytes, file: Option<Bytes>, stack: Stack, statistics: Bytes)

  /** A line that has been answered; `at` is its place in the log, or the length of the log when it needs none. */
  datatype Turn = Turn(frame: Bytes, db: nat, world: World, at: nat, reply: Resp.Reply)

  /** A client between or within lines; `world` is what the line under way finds. */
  datatype Local = Local(done: seq<Turn>, db: nat, open: bool, world: Option<World>)

  datatype System = System(core: State, locals: map<Tid, Local>)

  /** Every client with its stream, and the threads that only save now and then. */
  datatype Setting = Setting(streams: Tid -> Bytes, savers: set<Tid>)

  function LocalOf(sys: System, t: Tid): Local {
    if t in sys.locals then sys.locals[t] else Local([], 0, true, None)
  }

  // ---- lines ----

  function PutsOf(w: World): (r: seq<Placed>)
    ensures PutsOk(r)
  {
    if w.file.None? then [] else ParseFile(w.file.value, w.stack).0
  }

  /** The request a line makes of the tables; SELECT, QUIT, INFO and every misuse make none. */
  function RequestOf(words: seq<Bytes>, db: nat, w: World): (r: Option<Request>)
    requires LineOk(words) && db < NUM_DBS
    ensures r.Some? ==> RequestOk(r.value)
  {
    match CommandOf(words)
    case CmdGet => if |words| == 2 then Some(Get(db, words[1])) else None
    case CmdSet => if |words| >= 3 then Some(Set(db, words[1], Join(words[2..]))) else None
    case CmdDel => if |words| == 2 then Some(Del(db, words[1])) else None
    case CmdIncr => if |words| == 2 then Some(Incr(db, words[1])) else None
    case CmdSave => Some(SaveAll)
    case CmdLoad => Some(LoadAll(PutsOf(w)))
    case _ => None
  }

  predicate IsInfo(words: seq<Bytes>) {
    CommandOf(words).CmdInfo? && |words| <= 1
  }

  /** The reference session of one line: these maps, this database, and the file the line finds. */
  function SessionAt(m: Dicts, words: seq<Bytes>, db: nat, w: World): (s: Session)
    requires |m| == NUM_DBS && db < NUM_DBS
    ensures SessionOk(s) && s.open && s.replies == []
  {
    var path := if |words| > 1 then words[1] else w.leftover;
    Session(m, db, if w.file.Some? then map[path := Raw(w.file.value)] else map[], 0, 0, true, true, false, [])
  }

  function EnvOf(w: World): Env {
    Env(0, (n: nat) => FileChoice(w.leftover, true, w.stack))
  }

  /** One line, run by the reference interpreter. */
  function Alone(m: Dicts, words: seq<Bytes>, db: nat, w: World): (s: Session)
    requires |m| == NUM_DBS && db < NUM_DBS && LineOk(words)
    ensures SessionOk(s) && |s.replies| == 1
  {
    Execute(SessionAt(m, words, db, w), words, EnvOf(w))
  }

  function NoMaps(): (m: Dicts)
    ensures |m| == NUM_DBS
  {
    seq(NUM_DBS, i => map[])
  }

  /** The answer to a line that makes no request. */
  function OwnReply(words: seq<Bytes>, db: nat, w: World): Resp.Reply
    requires db < NUM_DBS && LineOk(words)
  {
    if IsInfo(words) then Resp.Bulk(w.statistics) else Alone(NoMaps(), words, db, w).replies[0]
  }

  // ---- steps ----

  /** A client begins its next line; a thread moves under the locks; a saver begins a save. */
  datatype Act = Line(tid: Tid, world: World) | Step(tid: Tid) | Tick(tid: Tid)

  ghost predicate HasLine(g: Setting, sys: System, t: Tid) {
    var l := LocalOf(sys, t);
    && t !in g.savers && t !in sys.core.threads
    && l.open && l.db < NUM_DBS && |l.done| < |Frames(g.streams(t))|
    && LineOk(Words(Frames(g.streams(t))[|l.done|]))
  }

  ghost predicate Can(g: Setting, sys: System, a: Act) {
    && Shape(sys.core)
    && match a
       case Line(t, _) => HasLine(g, sys, t)
       case Step(t) => Enabled(sys.core, Move(t))
       case Tick(t) => t in g.savers && t !in sys.core.threads
  }

  /** A line that makes no request is answered at once, any other becomes a call. */
  ghost function BeginLine(g: Setting, sys: System, t: Tid, w: World): System
    requires Shape(sys.core) && HasLine(g, sys, t)
  {
    var l := LocalOf(sys, t);
    var frame := Frames(g.streams(t))[|l.done|];
    var words := Words(frame);
    var r := RequestOf(words, l.db, w);
    if r.Some? then
      System(Do(sys.core, Begin(t, r.value)), sys.locals[t := l.(world := Some(w))])
    else
      var turn := Turn(frame, l.db, w, |sys.core.log|, OwnReply(words, l.db, w));
      var after := Alone(NoMaps(), words, l.db, w);
      sys.(locals := sys.locals[t := Local(l.done + [turn], after.db, after.open, None)])
  }

  /** The client of a call that has just returned takes its answer. */
  ghost function Deliver(g: Setting, sys: System, t: Tid): System
    requires sys.core.answers != []
  {
    var l := LocalOf(sys, t);
    if t in g.savers || |l.done| >= |Frames(g.streams(t))| || l.world.None? then sys
    else
      var a := sys.core.answers[|sys.core.answers| - 1];
      var turn := Turn(Frames(g.streams(t))[|l.done|], l.db, l.world.value, a.at, ReplyOf(a.outcome));
      sys.(locals := sys.locals[t := l.(done := l.done + [turn])])
  }

  ghost function Next(g: Setting, sys: System, a: Act): System
    requires Can(g, sys, a)
  {
    match a
    case Line(t, w) => BeginLine(g, sys, t, w)
    case Tick(t) => sys.(core := Do(sys.core, Begin(t, SaveAll)))
    case Step(t) =>
      var core := Do(sys.core, Move(t));
      if t in core.threads || core.answers == [] then sys.(core := core) else Deliver(g, sys.(core := core), t)
  }

  /** A run of the whole server: any sequence of choices; one that is not possible changes nothing. */
  ghost function Play(g: Setting, init: Store, acts: seq<Act>): System {
    if acts == [] then System(Initial(init), map[])
    else
      var before := Play(g, init, acts[..|acts| - 1]);
      var a := acts[|acts| - 1];
      if Can(g, before, a) then Next(g, before, a) else before
  }

  // ---- what is claimed of a turn ----

  /** The reply is the interpreter's on the maps left by the log before `at`, and the effect is the entry at `at`. */
  ghost predicate TurnOk(m: Dicts, log: seq<Event>, turn: Turn, db: nat, open: bool) {
    && |m| == NUM_DBS && LogOk(log) && turn.at <= |log| && turn.db < NUM_DBS && LineOk(Words(turn.frame))
    && var words, before := Words(turn.frame), ReplayMaps(m, log[..turn.at]);
    && var after, r := Alone(before, words, turn.db, turn.world), RequestOf(words, turn.db, turn.world);
    && (!IsInfo(words) ==> after.replies == [turn.reply])
    && after.db == db && after.open == open
    && Resp.Sendable(turn.reply)
    && (r.Some? ==>
          turn.at < |log| && log[turn.at].req == r.value && after.dicts == ReplayMaps(m, log[..turn.at + 1]))
  }

  ghost predicate IsCall(turn: Turn) {
    turn.db < NUM_DBS && LineOk(Words(turn.frame)) && RequestOf(Words(turn.frame), turn.db, turn.world).Some?
  }

  /** The database and the connection as the next line finds them. */
  function DbAfter(l: Local, i: nat): nat {
    if i + 1 < |l.done| then l.done[i + 1].db else l.db
  }

  function OpenAfter(l: Local, i: nat): bool {
    i + 1 < |l.done| || l.open
  }

  ghost predicate TurnsOk(m: Dicts, log: seq<Event>, l: Local) {
    forall i | 0 <= i < |l.done| :: TurnOk(m, log, l.done[i], DbAfter(l, i), OpenAfter(l, i))
  }

  /** Lines take their places in the log in the order of the stream. */
  ghost predicate InOrderOfLines(done: seq<Turn>) {
    forall i, j | 0 <= i < j < |done| :: Before(done[i], done[j].at)
  }

  ghost predicate Before(turn: Turn, at: nat) {
    turn.at <= at && (IsCall(turn) ==> turn.at < at)
  }

  /** The answered lines are the first frames of the stream, and the first found database 0. */
  ghost predicate FromStream(g: Setting, t: Tid, l: Local) {
    && |l.done| <= |Frames(g.streams(t))|
    && (forall i | 0 <= i < |l.done| :: l.done[i].frame == Frames(g.streams(t))[i])
    && l.db < NUM_DBS
    && (if l.done == [] then l.db == 0 && l.open else l.done[0].db == 0)
  }

  // ---- the invariant ----

  /** The call under way is the one the client's next line makes, begun after all its earlier lines. */
  ghost predicate UnderWay(g: Setting, t: Tid, l: Local, th: Thread) {
    && |l.done| < |Frames(g.streams(t))| && l.open && l.db < NUM_DBS && l.world.Some?
    && LineOk(Words(Frames(g.streams(t))[|l.done|]))
    && RequestOf(Words(Frames(g.streams(t))[|l.done|]), l.db, l.world.value) == Some(th.req)
    && forall i | 0 <= i < |l.done| :: Before(l.done[i], th.since)
  }

  ghost predicate ClientOk(g: Setting, m: Dicts, core: State, t: Tid, l: Local) {
    && FromStream(g, t, l)
    && TurnsOk(m, core.log, l)
    && InOrderOfLines(l.done)
    && (t in core.threads ==> UnderWay(g, t, l, core.threads[t]))
    && forall i | 0 <= i < |l.done| :: Before(l.done[i], |core.log|)
  }

  ghost predicate SystemOk(g: Setting, init: Store, sys: System) {
    && Linear(init, sys.core)
    && forall t | t !in g.savers :: ClientOk(g, Dictionaries(init), sys.core, t, LocalOf(sys, t))
  }

  // ---- turns ----

  /** What a line without a request does to a session, INFO apart. */
  function Aside(s: Session, words: seq<Bytes>): Session
    requires SessionOk(s) && LineOk(words)
  {
    match CommandOf(words)
    case CmdGet => Complain(s, GET)
    case CmdSet => Complain(s, SET)
    case CmdDel => Complain(s, DEL)
    case CmdIncr => Complain(s, INCR)
    case CmdInfo => Complain(s, INFO)
    case CmdSelect => DoSelect(s, words)
    case CmdQuit => DoQuit(s, words)
    case _ => Send(s, Err(UnknownCommand()))
  }

  lemma AloneIsAside(m: Dicts, words: seq<Bytes>, db: nat, w: World)
    requires |m| == NUM_DBS && db < NUM_DBS && LineOk(words) && RequestOf(words, db, w).None? && !IsInfo(words)
    ensures Alone(m, words, db, w) == Aside(SessionAt(m, words, db, w), words)
  {
    hide Complain, DoSelect, DoQuit, Perform, InfoText, UnknownCommand, Join;
  }

  /** Two sessions that differ in their maps alone. */
  predicate SameButMaps(t: Session, u: Session) {
    t == u.(dicts := t.dicts)
  }

  lemma ComplainsAlike(s: Session, u: Session, name: Bytes)
    requires SessionOk(s) && SessionOk(u) && SameButMaps(s, u)
    ensures SameButMaps(Complain(s, name), Complain(u, name)) && Complain(u, name).dicts == u.dicts
  {
  }

  lemma ControlsAlike(s: Session, u: Session, words: seq<Bytes>)
    requires SessionOk(s) && SessionOk(u) && SameButMaps(s, u)
    ensures SameButMaps(DoSelect(s, words), DoSelect(u, words)) && DoSelect(u, words).dicts == u.dicts
    ensures SameButMaps(DoQuit(s, words), DoQuit(u, words)) && DoQuit(u, words).dicts == u.dicts
  {
    ComplainsAlike(s, u, SELECT);
    ComplainsAlike(s, u, QUIT);
  }

  lemma AsideAlike(s: Session, u: Session, words: seq<Bytes>)
    requires SessionOk(s) && SessionOk(u) && LineOk(words) && SameButMaps(s, u)
    ensures SameButMaps(Aside(s, words), Aside(u, words)) && Aside(u, words).dicts == u.dicts
  {
    hide Complain, DoSelect, DoQuit;
    match CommandOf(words)
    case CmdGet => ComplainsAlike(s, u, GET);
    case CmdSet => ComplainsAlike(s, u, SET);
    case CmdDel => ComplainsAlike(s, u, DEL);
    case CmdIncr => ComplainsAlike(s, u, INCR);
    case CmdInfo => ComplainsAlike(s, u, INFO);
    case _ => ControlsAlike(s, u, words);
  }

  lemma InfoTurn(m: Dicts, words: seq<Bytes>, db: nat, w: World)
    requires |m| == NUM_DBS && db < NUM_DBS && LineOk(words) && IsInfo(words)
    ensures var s := Alone(m, words, db, w); s.db == db && s.open && s.dicts == m
  {
    hide InfoText, DoGet, DoSet, DoDel, DoIncr, DoSelect, DoQuit, DoSave, DoLoad;
  }

  /** A line without a request is answered the same on all maps, INFO apart. */
  lemma OwnTurn(m: Dicts, words: seq<Bytes>, db: nat, w: World)
    requires |m| == NUM_DBS && db < NUM_DBS && LineOk(words) && RequestOf(words, db, w).None?
    ensures !IsInfo(words) ==> Alone(m, words, db, w).replies == [OwnReply(words, db, w)]
    ensures Alone(m, words, db, w).db == Alone(NoMaps(), words, db, w).db
    ensures Alone(m, words, db, w).open == Alone(NoMaps(), words, db, w).open
    ensures Alone(m, words, db, w).dicts == m
  {
    hide Alone, Aside, RequestOf;
    if IsInfo(words) {
      InfoTurn(m, words, db, w);
      InfoTurn(NoMaps(), words, db, w);
    } else {
      AloneIsAside(m, words, db, w);
      AloneIsAside(NoMaps(), words, db, w);
      AsideAlike(SessionAt(NoMaps(), words, db, w), SessionAt(m, words, db, w), words);
    }
  }

  predicate OnBucket(r: Request) {
    !r.SaveAll? && !r.LoadAll?
  }

  lemma BucketLine(m: Dicts, words: seq<Bytes>, db: nat, w: World)
    requires |m| == NUM_DBS && db < NUM_DBS && LineOk(words)
    requires RequestOf(words, db, w).Some? && OnBucket(RequestOf(words, db, w).value)
    ensures Alone(m, words, db, w) == Perform(SessionAt(m, words, db, w), RequestOf(words, db, w).value)
  {
    hide Perform, DoSelect, DoQuit, DoInfo, DoSave, DoLoad, Complain, Join;
  }

  lemma PerformTurn(s: Session, r: Request, out: Outcome)
    requires SessionOk(s) && RequestOk(r) && !r.SaveAll? && s.replies == [] && OutcomeAgrees(out, ExecMaps(s.dicts, r).1)
    ensures var t := Perform(s, r);
            t.replies == [ReplyOf(out)] && t.dicts == ExecMaps(s.dicts, r).0 && t.db == s.db && t.open == s.open
  {
  }

  lemma SaveLine(m: Dicts, words: seq<Bytes>, db: nat, w: World)
    requires |m| == NUM_DBS && db < NUM_DBS && LineOk(words) && RequestOf(words, db, w) == Some(SaveAll)
    ensures var s := Alone(m, words, db, w); s.replies == [Ok()] && s.dicts == m && s.db == db && s.open
  {
    hide DoGet, DoSet, DoDel, DoIncr, DoSelect, DoQuit, DoInfo, DoLoad, PathOf;
  }

  lemma LoadLine(m: Dicts, words: seq<Bytes>, db: nat, w: World)
    requires |m| == NUM_DBS && db < NUM_DBS && LineOk(words)
    requires RequestOf(words, db, w) == Some(LoadAll(PutsOf(w))) && CommandOf(words).CmdLoad?
    ensures var s := Alone(m, words, db, w);
            s.replies == [Ok()] && s.dicts == PutSeqMaps(m, PutsOf(w)) && s.db == db && s.open
  {
    hide DoGet, DoSet, DoDel, DoIncr, DoSelect, DoQuit, DoInfo, DoSave, ParseFile;
  }

  /** A line with a request does to the maps what the request does, and its reply is the request's outcome. */
  lemma CallTurn(m: Dicts, words: seq<Bytes>, db: nat, w: World, out: Outcome)
    requires |m| == NUM_DBS && db < NUM_DBS && LineOk(words) && RequestOf(words, db, w).Some?
    requires var r := RequestOf(words, db, w).value;
             OutcomeAgrees(out, ExecMaps(m, r).1) && (r.SaveAll? ==> out.File?)
    ensures var s, r := Alone(m, words, db, w), RequestOf(words, db, w).value;
            s.replies == [ReplyOf(out)] && s.dicts == ExecMaps(m, r).0 && s.db == db && s.open
  {
    hide Alone, Execute, Perform;
    var r := RequestOf(words, db, w).value;
    if r.SaveAll? {
      SaveLine(m, words, db, w);
    } else if r.LoadAll? {
      LoadLine(m, words, db, w);
    } else {
      BucketLine(m, words, db, w);
      PerformTurn(SessionAt(m, words, db, w), r, out);
    }
  }

  /** What a turn says of the log survives the log's growth. */
  lemma TurnStays(m: Dicts, log: seq<Event>, later: seq<Event>, turn: Turn, db: nat, open: bool)
    requires TurnOk(m, log, turn, db, open) && log <= later && LogOk(later)
    ensures TurnOk(m, later, turn, db, open)
  {
    hide Alone, RequestOf;
    assert later[..turn.at] == log[..turn.at];
    if turn.at < |log| {
      assert later[..turn.at + 1] == log[..turn.at + 1];
    }
  }

  /** One more answered line at the end. */
  lemma TurnAdded(m: Dicts, log: seq<Event>, l: Local, turn: Turn, db: nat, open: bool, w: Option<World>)
    requires TurnsOk(m, log, l) && InOrderOfLines(l.done) && l.open
    requires turn.db == l.db && TurnOk(m, log, turn, db, open)
    requires forall i | 0 <= i < |l.done| :: Before(l.done[i], turn.at)
    ensures TurnsOk(m, log, Local(l.done + [turn], db, open, w)) && InOrderOfLines(l.done + [turn])
  {
    hide TurnOk, Before;
    var l' := Local(l.done + [turn], db, open, w);
    forall i | 0 <= i < |l'.done|
      ensures TurnOk(m, log, l'.done[i], DbAfter(l', i), OpenAfter(l', i))
    {
      if i < |l.done| {
        assert TurnOk(m, log, l.done[i], DbAfter(l, i), OpenAfter(l, i));
      }
    }
  }

  lemma WholeLog(log: seq<Event>)
    ensures log[..|log|] == log
  {
  }

  /** An answer without a request, as a turn. */
  lemma OwnTurnOk(m: Dicts, log: seq<Event>, frame: Bytes, db: nat, w: World)
    requires |m| == NUM_DBS && LogOk(log) && db < NUM_DBS && LineOk(Words(frame))
    requires RequestOf(Words(frame), db, w).None?
    ensures var words := Words(frame);
            var after := Alone(NoMaps(), words, db, w);
            TurnOk(m, log, Turn(frame, db, w, |log|, OwnReply(words, db, w)), after.db, after.open)
  {
    var words := Words(frame);
    WholeLog(log);
    OwnTurn(ReplayMaps(m, log), words, db, w);
    OwnSendable(words, db, w);
  }

  lemma OwnSendable(words: seq<Bytes>, db: nat, w: World)
    requires db < NUM_DBS && LineOk(words)
    ensures Resp.Sendable(OwnReply(words, db, w))
  {
    hide Execute;
    ReplySendable(SessionAt(NoMaps(), words, db, w), words, EnvOf(w));
  }

  lemma ReplayNext(m: Dicts, log: seq<Event>, i: nat)
    requires |m| == NUM_DBS && LogOk(log) && i < |log|
    ensures ReplayMaps(m, log[..i + 1]) == ExecMaps(ReplayMaps(m, log[..i]), log[i].req).0
  {
    assert log[..i + 1][..i] == log[..i];
  }

  /** The answer of a call, as a turn. */
  lemma CallTurnOk(m: Dicts, log: seq<Event>, frame: Bytes, db: nat, w: World, at: nat)
    requires |m| == NUM_DBS && LogOk(log) && db < NUM_DBS && LineOk(Words(frame)) && at < |log|
    requires RequestOf(Words(frame), db, w) == Some(log[at].req) && Explained(m, log, at)
    ensures TurnOk(m, log, Turn(frame, db, w, at, ReplyOf(log[at].outcome)), db, true)
  {
    hide Alone, RequestOf, ExecMaps;
    ReplayNext(m, log, at);
    CallTurn(ReplayMaps(m, log[..at]), Words(frame), db, w, log[at].outcome);
    assert Resp.Sendable(ReplyOf(log[at].outcome));
  }

  // ---- every step keeps the invariant ----

  /** A client whose call does not end is only touched through the growing log. */
  lemma ClientStays(g: Setting, m: Dicts, core: State, core': State, t: Tid, l: Local)
    requires ClientOk(g, m, core, t, l) && core.log <= core'.log && LogOk(core'.log)
    requires t in core'.threads ==>
               t in core.threads && core'.threads[t].req == core.threads[t].req && core'.threads[t].since == core.threads[t].since
    ensures ClientOk(g, m, core', t, l)
  {
    hide TurnOk, RequestOf, IsCall;
    forall i | 0 <= i < |l.done|
      ensures TurnOk(m, core'.log, l.done[i], DbAfter(l, i), OpenAfter(l, i))
    {
      TurnStays(m, core.log, core'.log, l.done[i], DbAfter(l, i), OpenAfter(l, i));
    }
  }

  lemma MoveKeepsCalls(s: State, t: Tid)
    requires Shape(s) && Enabled(s, Move(t))
    ensures var s' := Do(s, Move(t));
            && s.log <= s'.log
            && (forall u | u in s'.threads ::
                  u in s.threads && s'.threads[u].req == s.threads[u].req && s'.threads[u].since == s.threads[u].since)
            && (t !in s'.threads ==>
                  && |s'.answers| == |s.answers| + 1
                  && s'.answers[|s.answers|].req == s.threads[t].req && s'.answers[|s.answers|].since == s.threads[t].since)
  {
    LogOnlyGrows(s, Move(t));
    LocksInRange(s.threads[t].req);
    if s.threads[t].phase.Working? {
      AccessShape(s.store, s.threads[t].req, s.threads[t].phase.work);
    }
  }

  lemma BeginKeepsCalls(s: State, t: Tid, r: Request)
    requires Shape(s) && Enabled(s, Begin(t, r))
    ensures var s' := Do(s, Begin(t, r));
            && s'.log == s.log && t in s'.threads && s'.threads[t].req == r && s'.threads[t].since == |s.log|
            && (forall u | u in s'.threads && u != t :: u in s.threads && s'.threads[u] == s.threads[u])
  {
  }

  lemma LineKeeps(g: Setting, init: Store, sys: System, t: Tid, w: World)
    requires SystemOk(g, init, sys) && HasLine(g, sys, t)
    ensures SystemOk(g, init, BeginLine(g, sys, t, w))
  {
    hide TurnOk, RequestOf, Alone, OwnReply, Before, Linear;
    LinearShape(init, sys.core);
    var l, m, next := LocalOf(sys, t), Dictionaries(init), BeginLine(g, sys, t, w);
    var frame := Frames(g.streams(t))[|l.done|];
    var r := RequestOf(Words(frame), l.db, w);
    assert ClientOk(g, m, sys.core, t, l);
    if r.Some? {
      DoLinear(init, sys.core, Begin(t, r.value));
      LinearShape(init, next.core);
      BeginKeepsCalls(sys.core, t, r.value);
      BegunOk(g, m, sys.core, next.core, t, l, w);
    } else {
      OwnTurnOk(m, sys.core.log, frame, l.db, w);
      OwnOk(g, m, sys.core, t, l, w);
    }
    forall u | u !in g.savers
      ensures ClientOk(g, m, next.core, u, LocalOf(next, u))
    {
      if u != t {
        assert ClientOk(g, m, sys.core, u, LocalOf(sys, u));
        ClientStays(g, m, sys.core, next.core, u, LocalOf(sys, u));
      }
    }
  }

  lemma LinearShape(init: Store, s: State)
    requires Linear(init, s)
    ensures Shape(s) && Storable(init) && LogOk(s.log)
  {
  }

  lemma BegunOk(g: Setting, m: Dicts, core: State, core': State, t: Tid, l: Local, w: World)
    requires ClientOk(g, m, core, t, l) && l.open && |l.done| < |Frames(g.streams(t))| && t in core'.threads
    requires LineOk(Words(Frames(g.streams(t))[|l.done|]))
    requires RequestOf(Words(Frames(g.streams(t))[|l.done|]), l.db, w) == Some(core'.threads[t].req)
    requires core'.log == core.log && core'.threads[t].since == |core.log|
    ensures ClientOk(g, m, core', t, l.(world := Some(w)))
  {
    hide TurnOk, RequestOf, Before, Words, InOrderOfLines;
    var l' := l.(world := Some(w));
    forall i | 0 <= i < |l'.done|
      ensures TurnOk(m, core'.log, l'.done[i], DbAfter(l', i), OpenAfter(l', i))
    {
      assert TurnOk(m, core.log, l.done[i], DbAfter(l, i), OpenAfter(l, i));
    }
  }

  lemma OwnOk(g: Setting, m: Dicts, core: State, t: Tid, l: Local, w: World)
    requires ClientOk(g, m, core, t, l) && l.open && |l.done| < |Frames(g.streams(t))| && t !in core.threads
    requires LineOk(Words(Frames(g.streams(t))[|l.done|]))
    requires RequestOf(Words(Frames(g.streams(t))[|l.done|]), l.db, w).None?
    requires var frame := Frames(g.streams(t))[|l.done|];
             var after := Alone(NoMaps(), Words(frame), l.db, w);
             TurnOk(m, core.log, Turn(frame, l.db, w, |core.log|, OwnReply(Words(frame), l.db, w)), after.db, after.open)
    ensures var frame := Frames(g.streams(t))[|l.done|];
            var after := Alone(NoMaps(), Words(frame), l.db, w);
            var turn := Turn(frame, l.db, w, |core.log|, OwnReply(Words(frame), l.db, w));
            ClientOk(g, m, core, t, Local(l.done + [turn], after.db, after.open, None))
  {
    hide TurnOk, RequestOf, OwnReply, Alone, TurnsOk, InOrderOfLines, Frames, Words;
    var frame := Frames(g.streams(t))[|l.done|];
    var after := Alone(NoMaps(), Words(frame), l.db, w);
    var turn := Turn(frame, l.db, w, |core.log|, OwnReply(Words(frame), l.db, w));
    TurnAdded(m, core.log, l, turn, after.db, after.open, None);
    assert Before(turn, |core.log|);
  }

  lemma BeforeLater(turn: Turn, at: nat, later: nat)
    requires Before(turn, at) && at <= later
    ensures Before(turn, later)
  {
  }

  lemma TurnPlaced(turn: Turn, end: nat)
    requires turn.at < end
    ensures Before(turn, end)
  {
  }

  lemma DeliveredOk(g: Setting, m: Dicts, core: State, core': State, t: Tid, l: Local)
    requires ClientOk(g, m, core, t, l) && t in core.threads && l.world.Some? && |l.done| < |Frames(g.streams(t))|
    requires t !in core'.threads && core.log <= core'.log && LogOk(core'.log)
    requires |m| == NUM_DBS && core'.answers != []
    requires var a := core'.answers[|core'.answers| - 1];
             && a.req == core.threads[t].req && a.since == core.threads[t].since
             && AnswerOk(core'.log, a) && Explained(m, core'.log, a.at)
    ensures var a := core'.answers[|core'.answers| - 1];
            var turn := Turn(Frames(g.streams(t))[|l.done|], l.db, l.world.value, a.at, ReplyOf(a.outcome));
            ClientOk(g, m, core', t, l.(done := l.done + [turn]))
  {
    hide TurnOk, RequestOf, Alone, Before, InOrderOfLines, TurnsOk, Explained;
    var a := core'.answers[|core'.answers| - 1];
    var frame := Frames(g.streams(t))[|l.done|];
    var turn := Turn(frame, l.db, l.world.value, a.at, ReplyOf(a.outcome));
    ClientStays(g, m, core, core'.(threads := core.threads), t, l);
    CallTurnOk(m, core'.log, frame, l.db, l.world.value, a.at);
    forall i | 0 <= i < |l.done|
      ensures Before(l.done[i], turn.at)
    {
      BeforeLater(l.done[i], a.since, a.at);
    }
    TurnAdded(m, core'.log, l, turn, l.db, true, l.world);
    TurnPlaced(turn, |core'.log|);
  }

  lemma StepKeeps(g: Setting, init: Store, sys: System, t: Tid)
    requires SystemOk(g, init, sys) && Shape(sys.core) && Enabled(sys.core, Move(t))
    ensures SystemOk(g, init, Next(g, sys, Step(t)))
  {
    hide TurnOk, RequestOf, Before, Linear, TurnsOk, FromStream;
    LinearShape(init, sys.core);
    var m, core, next := Dictionaries(init), Do(sys.core, Move(t)), Next(g, sys, Step(t));
    DoLinear(init, sys.core, Move(t));
    LinearShape(init, core);
    MoveKeepsCalls(sys.core, t);
    forall u | u !in g.savers
      ensures ClientOk(g, m, core, u, LocalOf(next, u))
    {
      assert ClientOk(g, m, sys.core, u, LocalOf(sys, u));
      if u == t && t !in core.threads {
        LastAnswer(init, core);
        assert UnderWay(g, t, LocalOf(sys, t), sys.core.threads[t]);
        DeliveredOk(g, m, sys.core, core, t, LocalOf(sys, t));
      } else {
        ClientStays(g, m, sys.core, core, u, LocalOf(sys, u));
      }
    }
  }

  lemma LastAnswer(init: Store, s: State)
    requires Linear(init, s) && s.answers != []
    ensures Storable(init) && LogOk(s.log)
    ensures var a := s.answers[|s.answers| - 1]; AnswerOk(s.log, a) && Explained(Dictionaries(init), s.log, a.at)
  {
    var a := s.answers[|s.answers| - 1];
    assert AnswerOk(s.log, a);
    ExplainedAt(init, s, a.at);
  }

  lemma TickKeeps(g: Setting, init: Store, sys: System, t: Tid)
    requires SystemOk(g, init, sys) && t in g.savers && t !in sys.core.threads && Shape(sys.core)
    ensures SystemOk(g, init, Next(g, sys, Tick(t)))
  {
    hide TurnOk, RequestOf, Before, Linear, TurnsOk, FromStream;
    LinearShape(init, sys.core);
    var m, core := Dictionaries(init), Do(sys.core, Begin(t, SaveAll));
    DoLinear(init, sys.core, Begin(t, SaveAll));
    LinearShape(init, core);
    BeginKeepsCalls(sys.core, t, SaveAll);
    forall u | u !in g.savers
      ensures ClientOk(g, m, core, u, LocalOf(sys, u))
    {
      assert ClientOk(g, m, sys.core, u, LocalOf(sys, u));
      ClientStays(g, m, sys.core, core, u, LocalOf(sys, u));
    }
  }

  lemma {:induction false} PlayKeeps(g: Setting, init: Store, acts: seq<Act>)
    requires Storable(init)
    ensures SystemOk(g, init, Play(g, init, acts))
  {
    hide ClientOk, Linear, Next, Can;
    if acts == [] {
      InitialLinear(init);
      FreshOk(g, init);
    } else {
      PlayKeeps(g, init, acts[..|acts| - 1]);
      NextKeeps(g, init, Play(g, init, acts[..|acts| - 1]), acts[|acts| - 1]);
    }
  }

  lemma FreshOk(g: Setting, init: Store)
    requires Storable(init)
    ensures forall t | t !in g.savers :: ClientOk(g, Dictionaries(init), Initial(init), t, Local([], 0, true, None))
  {
  }

  lemma NextKeeps(g: Setting, init: Store, sys: System, a: Act)
    requires SystemOk(g, init, sys)
    ensures Can(g, sys, a) ==> SystemOk(g, init, Next(g, sys, a))
  {
    hide ClientOk, Linear, BeginLine, Deliver, Do;
    if Can(g, sys, a) {
      match a
      case Line(t, w) => LineKeeps(g, init, sys, t, w);
      case Step(t) => StepKeeps(g, init, sys, t);
      case Tick(t) => TickKeeps(g, init, sys, t);
    }
  }

  // ---- the theorem ----

  function RepliesOf(turns: seq<Turn>): (r: seq<Resp.Reply>)
    ensures |r| == |turns| && forall i | 0 <= i < |turns| :: r[i] == turns[i].reply
  {
    seq(|turns|, i requires 0 <= i < |turns| => turns[i].reply)
  }

  /**
   * In every run of the whole server, for every client: the answered lines are the first frames of its stream, in
   * order, one reply each; each was answered, and changed the maps and the selected database, as the reference
   * interpreter does on the maps left by the log before its place; the places ascend; and the bytes sent decode to
   * the replies.
   */
  lemma EveryClientIsServed(g: Setting, init: Store, acts: seq<Act>, t: Tid)
    requires Storable(init) && t !in g.savers
    ensures var (sys, m) := (Play(g, init, acts), Dictionaries(init));
            var l := LocalOf(sys, t);
            && FromStream(g, t, l)
            && LogOk(sys.core.log) && TurnsOk(m, sys.core.log, l)
            && InOrderOfLines(l.done)
            && Resp.DecodeAll(Resp.EncodeAll(RepliesOf(l.done))) == Some(RepliesOf(l.done))
  {
    hide Linear, RequestOf, Alone;
    PlayKeeps(g, init, acts);
    var sys := Play(g, init, acts);
    var l := LocalOf(sys, t);
    LinearShape(init, sys.core);
    assert ClientOk(g, Dictionaries(init), sys.core, t, l);
    forall i | 0 <= i < |l.done|
      ensures Resp.Sendable(RepliesOf(l.done)[i])
    {
      assert TurnOk(Dictionaries(init), sys.core.log, l.done[i], DbAfter(l, i), OpenAfter(l, i));
    }
    Resp.DecodeAllEncoded(RepliesOf(l.done));
  }
}
