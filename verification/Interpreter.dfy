/**
 * The reference for one connection: a pure interpreter of command lines over sixteen plain maps.
 * It knows nothing of buffers, token pointers or hash chains, and of a file that SAVE wrote only the maps it holds.
 */
module Interpreter {
  import opened CStrings
  import opened Chains
  import opened Decimal
  import opened Codec
  import opened Requests
  import opened CommandLine
  import opened Framing
  import Resp

  const MAX_DB: int := NUM_DBS - 1

  datatype Command = CmdGet | CmdSet | CmdDel | CmdQuit | CmdSelect | CmdInfo | CmdSave | CmdLoad | CmdIncr | CmdUnknown

  const GET: Bytes := [71, 69, 84]
  const SET: Bytes := [83, 69, 84]
  const DEL: Bytes := [68, 69, 76]
  const QUIT: Bytes := [81, 85, 73, 84]
  const SELECT: Bytes := [83, 69, 76, 69, 67, 84]
  const INFO: Bytes := [73, 78, 70, 79]
  const SAVE: Bytes := [83, 65, 86, 69]
  const LOAD: Bytes := [76, 79, 65, 68]
  const INCR: Bytes := [73, 78, 67, 82]

  /** The command a line names: its first word, if it has one. */
  function CommandOf(words: seq<Bytes>): Command {
    if words == [] then CmdUnknown
    else if words[0] == GET then CmdGet
    else if words[0] == SET then CmdSet
    else if words[0] == DEL then CmdDel
    else if words[0] == QUIT then CmdQuit
    else if words[0] == SELECT then CmdSelect
    else if words[0] == INFO then CmdInfo
    else if words[0] == SAVE then CmdSave
    else if words[0] == LOAD then CmdLoad
    else if words[0] == INCR then CmdIncr
    else CmdUnknown
  }

  /** The nine names as text, and the command each stands for. */
  ghost predicate Named(c: Command, words: seq<Bytes>) {
    match c
    case CmdGet => words != [] && words[0] == Ascii("GET")
    case CmdSet => words != [] && words[0] == Ascii("SET")
    case CmdDel => words != [] && words[0] == Ascii("DEL")
    case CmdQuit => words != [] && words[0] == Ascii("QUIT")
    case CmdSelect => words != [] && words[0] == Ascii("SELECT")
    case CmdInfo => words != [] && words[0] == Ascii("INFO")
    case CmdSave => words != [] && words[0] == Ascii("SAVE")
    case CmdLoad => words != [] && words[0] == Ascii("LOAD")
    case CmdIncr => words != [] && words[0] == Ascii("INCR")
    case CmdUnknown => words == [] || NoName(words[0])
  }

  ghost predicate NoName(w: Bytes) {
    && w != Ascii("GET") && w != Ascii("SET") && w != Ascii("DEL") && w != Ascii("QUIT") && w != Ascii("SELECT")
    && w != Ascii("INFO") && w != Ascii("SAVE") && w != Ascii("LOAD") && w != Ascii("INCR")
  }

  lemma NamesAsText()
    ensures GET == Ascii("GET") && SET == Ascii("SET") && DEL == Ascii("DEL") && QUIT == Ascii("QUIT")
    ensures SELECT == Ascii("SELECT") && INFO == Ascii("INFO")
    ensures SAVE == Ascii("SAVE") && LOAD == Ascii("LOAD") && INCR == Ascii("INCR")
  {
  }

  /** A line has the command its first word names, and only that one. */
  lemma CommandIsNamed(words: seq<Bytes>)
    ensures Named(CommandOf(words), words)
    ensures forall c | Named(c, words) :: c == CommandOf(words)
  {
    NamesAsText();
  }

  // ---- replies ----

  function Ok(): Resp.Reply {
    Resp.Simple([79, 75])
  }

  function Err(msg: Bytes): Resp.Reply {
    Resp.Error([69, 82, 82, 32] + msg)
  }

  lemma ErrorBytes(msg: Bytes)
    ensures Resp.Encode(Err(msg)) == Ascii("-ERR ") + msg + [13, 10]
  {
    assert Ascii("-ERR ") == [45] + [69, 82, 82, 32];
    assert [45] + ([69, 82, 82, 32] + msg) == [45] + [69, 82, 82, 32] + msg;
  }

  /** numero di argomenti per il comando "NAME" errati */
  function WrongArguments(name: Bytes): Bytes {
    Ascii("numero di argomenti per il comando \"") + name + Ascii("\" errati")
  }

  function UnknownCommand(): Bytes {
    Ascii("unknown command")
  }

  /** The statistics INFO reports. */
  function InfoText(port: int, clients: int, db: nat, keys: nat): Bytes {
    (Ascii("# Server") + Resp.CRLF)
    + ((Ascii("port:") + Format(port) + Resp.CRLF)
       + ((Ascii("clients:") + Format(clients) + Resp.CRLF)
          + ((Ascii("selected_db:") + Format(db) + Resp.CRLF)
             + (Ascii("keys:") + Format(keys)))))
  }

  // ---- the session ----

  /** A file written by SAVE is known by the maps it holds, one of other origin by its bytes. */
  datatype Contents = Snapshot(dicts: Dicts) | Raw(bytes: Bytes)

  /**
   * `clients` is the server's count of connections, `secondSeen` whether any line so far had a second word.
   * `wild` is set once a LOAD has written outside the table array, after which nothing is promised of the C program.
   * `replies` is everything sent so far.
   */
  datatype Session = Session(
    dicts: Dicts,
    db: nat,
    disk: map<Bytes, Contents>,
    clients: int,
    frames: nat,
    secondSeen: bool,
    open: bool,
    wild: bool,
    replies: seq<Resp.Reply>)

  /**
   * What the interpreter does not determine, frame by frame: the leftover path a SAVE or LOAD without one picks up,
   * whether the file can be opened, and what rdb_load finds on its stack.
   */
  datatype FileChoice = FileChoice(leftover: Bytes, opens: bool, stack: Stack)

  datatype Env = Env(port: int, files: nat -> FileChoice)

  predicate SessionOk(s: Session) {
    && |s.dicts| == NUM_DBS && s.db < NUM_DBS
    && forall p | p in s.disk && s.disk[p].Snapshot? :: |s.disk[p].dicts| == NUM_DBS
  }

  function Send(s: Session, r: Resp.Reply): Session {
    s.(replies := s.replies + [r])
  }

  function ReplyOf(out: Outcome): Resp.Reply {
    match out
    case Value(Some(v)) => Resp.Bulk(v)
    case Value(None) => Resp.Nil
    case Done => Ok()
    case Removed(found) => Resp.Integer(if found then 1 else 0)
    case Number(n) => Resp.Integer(n)
    case File(_) => Ok()
  }

  /** Runs a request on the maps and sends its outcome. */
  function Perform(s: Session, r: Request): (t: Session)
    requires SessionOk(s) && RequestOk(r) && !r.SaveAll?
    ensures OneReply(s, t) && t.open == s.open
  {
    var (m, out) := ExecMaps(s.dicts, r);
    Send(s.(dicts := m), ReplyOf(out.value))
  }

  function DefaultPath(): Bytes {
    Ascii("dump.minredis")
  }

  /** The default stands only as long as no line has had a second word. */
  function PathOf(words: seq<Bytes>, secondSeen: bool, choice: FileChoice): Bytes {
    if |words| > 1 then words[1] else if secondSeen then choice.leftover else DefaultPath()
  }

  function Override(m: Dicts, over: Dicts): (r: Dicts)
    requires |m| == |over| == NUM_DBS
    ensures |r| == NUM_DBS
  {
    seq(NUM_DBS, d requires 0 <= d < NUM_DBS => m[d] + over[d])
  }

  /** The maps after a file has been loaded over them, and whether the load wrote outside the table array. */
  function Merged(m: Dicts, file: Contents, stack: Stack): (r: (Dicts, bool))
    requires |m| == NUM_DBS && (file.Snapshot? ==> |file.dicts| == NUM_DBS)
    ensures |r.0| == NUM_DBS
  {
    match file
    case Snapshot(over) => (Override(m, over), false)
    case Raw(bytes) =>
      var (puts, end) := ParseFile(bytes, stack);
      (PutSeqMaps(m, puts), end == Wild)
  }

  /** All strings of a line are short enough. */
  predicate LineOk(words: seq<Bytes>) {
    (forall i | 0 <= i < |words| :: StringOk(words[i])) && (|words| > 2 ==> StringOk(Join(words[2..])))
  }

  /** `t` follows `s` with one more reply, on the same frame. */
  predicate OneReply(s: Session, t: Session) {
    && SessionOk(t) && t.frames == s.frames
    && |t.replies| == |s.replies| + 1 && s.replies == t.replies[..|s.replies|]
  }

  function Complain(s: Session, name: Bytes): (t: Session)
    requires SessionOk(s)
    ensures OneReply(s, t) && t.open == s.open
  {
    Send(s, Err(WrongArguments(name)))
  }

  function DoGet(s: Session, words: seq<Bytes>): (t: Session)
    requires SessionOk(s) && LineOk(words)
    ensures OneReply(s, t) && t.open == s.open
  {
    if |words| != 2 then Complain(s, GET) else Perform(s, Get(s.db, words[1]))
  }

  function DoSet(s: Session, words: seq<Bytes>): (t: Session)
    requires SessionOk(s) && LineOk(words)
    ensures OneReply(s, t) && t.open == s.open
  {
    if |words| < 3 then Complain(s, SET) else Perform(s, Set(s.db, words[1], Join(words[2..])))
  }

  function DoDel(s: Session, words: seq<Bytes>): (t: Session)
    requires SessionOk(s) && LineOk(words)
    ensures OneReply(s, t) && t.open == s.open
  {
    if |words| != 2 then Complain(s, DEL) else Perform(s, Del(s.db, words[1]))
  }

  function DoIncr(s: Session, words: seq<Bytes>): (t: Session)
    requires SessionOk(s) && LineOk(words)
    ensures OneReply(s, t) && t.open == s.open
  {
    if |words| != 2 then Complain(s, INCR) else Perform(s, Incr(s.db, words[1]))
  }

  function DoSelect(s: Session, words: seq<Bytes>): (t: Session)
    requires SessionOk(s)
    ensures OneReply(s, t) && t.open == s.open
  {
    if |words| != 2 || !(0 <= Atoi(words[1]) <= MAX_DB) then Complain(s, SELECT)
    else Send(s.(db := Atoi(words[1])), Ok())
  }

  function DoQuit(s: Session, words: seq<Bytes>): (t: Session)
    requires SessionOk(s)
    ensures OneReply(s, t) && (t.open <==> s.open && |words| > 1)
  {
    if |words| > 1 then Complain(s, QUIT)
    else Send(s, Ok()).(open := false, clients := s.clients - 1)
  }

  function DoInfo(s: Session, words: seq<Bytes>, port: int): (t: Session)
    requires SessionOk(s)
    ensures OneReply(s, t) && t.open == s.open
  {
    if |words| > 1 then Complain(s, INFO)
    else Send(s, Resp.Bulk(InfoText(port, s.clients, s.db, |s.dicts[s.db]|)))
  }

  function DoSave(s: Session, words: seq<Bytes>, c: FileChoice): (t: Session)
    requires SessionOk(s)
    ensures OneReply(s, t) && t.open == s.open
  {
    Send(if c.opens then s.(disk := s.disk[PathOf(words, s.secondSeen, c) := Snapshot(s.dicts)]) else s, Ok())
  }

  function DoLoad(s: Session, words: seq<Bytes>, c: FileChoice): (t: Session)
    requires SessionOk(s)
    ensures OneReply(s, t) && t.open == s.open
  {
    var p := PathOf(words, s.secondSeen, c);
    if c.opens && p in s.disk then
      var (dicts, wild) := Merged(s.dicts, s.disk[p], c.stack);
      Send(s.(dicts := dicts, wild := s.wild || wild), Ok())
    else Send(s, Ok())
  }

  /**
   * One command line. Every line gets exactly one reply and keeps the selected database below 16;
   * only a bare QUIT closes.
   */
  function Execute(s: Session, words: seq<Bytes>, env: Env): (t: Session)
    requires SessionOk(s) && LineOk(words)
    ensures OneReply(s, t)
    ensures t.open <==> s.open && !(|words| == 1 && words[0] == QUIT)
  {
    match CommandOf(words)
    case CmdGet => DoGet(s, words)
    case CmdSet => DoSet(s, words)
    case CmdDel => DoDel(s, words)
    case CmdIncr => DoIncr(s, words)
    case CmdSelect => DoSelect(s, words)
    case CmdQuit => DoQuit(s, words)
    case CmdInfo => DoInfo(s, words, env.port)
    case CmdSave => DoSave(s, words, env.files(s.frames))
    case CmdLoad => DoLoad(s, words, env.files(s.frames))
    case CmdUnknown => Send(s, Err(UnknownCommand()))
  }

  /** A frame short enough for the int indices of the parser. */
  predicate FrameOk(f: Bytes) {
    |f| < MAX_LEN
  }

  lemma {:induction false} JoinLength(ws: seq<Bytes>)
    ensures |Join(ws)| <= TotalLength(ws)
  {
    if |ws| > 1 {
      JoinLength(ws[..|ws| - 1]);
    }
  }

  /** The words of a list, each with one separator. */
  function TotalLength(ws: seq<Bytes>): nat {
    if ws == [] then 0 else TotalLength(ws[..|ws| - 1]) + |ws[|ws| - 1]| + 1
  }

  lemma {:induction false} ScanLength(s: Bytes, run: Bytes)
    ensures TotalLength(Scan(s, run)) <= |s| + |run| + 1
    ensures s != [] && IsDelim(s[|s| - 1]) ==> TotalLength(Scan(s, run)) <= |s| + |run|
    decreases |s|
  {
    if s != [] {
      if IsDelim(s[0]) {
        ScanLength(s[1..], []);
        TotalLengthConcat(Word(run), Scan(s[1..], []));
        assert TotalLength(Word(run)) <= |run| + 1;
        assert run == [] ==> TotalLength(Word(run)) == 0;
        if |s| > 1 {
          assert s[1..][|s| - 2] == s[|s| - 1];
        } else {
          assert Scan(s[1..], []) == [];
        }
      } else {
        ScanLength(s[1..], run + [s[0]]);
        if |s| > 1 {
          assert s[1..][|s| - 2] == s[|s| - 1];
        }
      }
    }
  }

  lemma {:induction false} TotalLengthConcat(a: seq<Bytes>, b: seq<Bytes>)
    ensures TotalLength(a + b) == TotalLength(a) + TotalLength(b)
  {
    if b == [] {
      assert a + b == a;
    } else {
      assert (a + b)[..|a + b| - 1] == a + b[..|b| - 1];
      TotalLengthConcat(a, b[..|b| - 1]);
    }
  }

  lemma {:induction false} OneOfTotal(ws: seq<Bytes>, i: nat)
    requires i < |ws|
    ensures |ws[i]| < TotalLength(ws)
  {
    if i < |ws| - 1 {
      OneOfTotal(ws[..|ws| - 1], i);
    }
  }

  lemma FrameLength(f: Bytes)
    requires IsFrame(f)
    ensures TotalLength(Words(f)) <= |f|
  {
    WordsAreScan(f);
    ScanLength(f, []);
    assert IsDelim(f[|f| - 1]);
  }

  lemma LineShort(ws: seq<Bytes>)
    requires TotalLength(ws) < MAX_LEN && forall i | 0 <= i < |ws| :: NulFree(ws[i])
    ensures LineOk(ws)
  {
    forall i | 0 <= i < |ws|
      ensures StringOk(ws[i])
    {
      OneOfTotal(ws, i);
    }
    if |ws| > 2 {
      RestShort(ws, ws[..2], ws[2..]);
    }
  }

  lemma RestShort(ws: seq<Bytes>, front: seq<Bytes>, rest: seq<Bytes>)
    requires ws == front + rest && TotalLength(ws) < MAX_LEN && forall i | 0 <= i < |ws| :: NulFree(ws[i])
    ensures StringOk(Join(rest))
  {
    TotalLengthConcat(front, rest);
    JoinLength(rest);
    forall i | 0 <= i < |rest|
      ensures NulFree(rest[i])
    {
      assert rest[i] == ws[|front| + i];
    }
    JoinNulFree(rest);
  }

  /** The words of a short frame, and the value SET would rebuild from them, are short C strings. */
  lemma FrameLineOk(f: Bytes)
    requires FrameOk(f) && IsFrame(f)
    ensures LineOk(Words(f))
  {
    WordsAreClean(f);
    FrameLength(f);
    LineShort(Words(f));
  }

  /** One frame run, and counted. */
  function AfterFrame(s: Session, frame: Bytes, env: Env): (t: Session)
    requires SessionOk(s) && LineOk(Words(frame))
    ensures OneReply(s, t.(frames := s.frames)) && t.frames == s.frames + 1
    ensures t.secondSeen <==> s.secondSeen || |Words(frame)| > 1
    ensures t.open <==> s.open && Words(frame) != [QUIT]
  {
    Execute(s, Words(frame), env).(frames := s.frames + 1, secondSeen := s.secondSeen || |Words(frame)| > 1)
  }

  predicate FramesOk(frames: seq<Bytes>) {
    forall i | 0 <= i < |frames| :: FrameOk(frames[i]) && IsFrame(frames[i])
  }

  /** The frames of a byte stream, one after the other, up to an accepted QUIT. */
  function Serve(s: Session, frames: seq<Bytes>, env: Env): (t: Session)
    requires SessionOk(s) && FramesOk(frames)
    ensures SessionOk(t)
    decreases |frames|
  {
    if frames == [] || !s.open then s
    else
      FrameLineOk(frames[0]);
      Serve(AfterFrame(s, frames[0], env), frames[1..], env)
  }
}
