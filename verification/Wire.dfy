/**
 * Single command lines in literal text: the bytes a client sends, what the line does to maps, database and files,
 * and the bytes it is answered with. Nothing else of the session changes.
 */
module Wire {
  import opened CStrings
  import opened Decimal
  import opened Chains
  import opened Codec
  import opened Requests
  import opened CommandLine
  import opened Framing
  import opened Interpreter
  import opened Service
  import Resp

  // ---- lines ----

  /** A word without NUL, line feed, carriage return or space. */
  predicate Plain(w: Bytes) {
    w != [] && forall i | 0 <= i < |w| :: w[i] != 0 && w[i] != 10 && w[i] != 13 && w[i] != 32
  }

  predicate Letters(name: string) {
    name != [] && forall i | 0 <= i < |name| :: 'A' <= name[i] <= 'Z'
  }

  /** A name, one space, the rest of the line, CR and LF. */
  function Line(name: string, arg: Bytes): Bytes
    requires Letters(name)
  {
    Ascii(name) + [32] + arg + [13, 10]
  }

  function BareLine(name: string): Bytes
    requires Letters(name)
  {
    Ascii(name) + [13, 10]
  }

  /** No CR before an LF. */
  ghost predicate OneLine(v: Bytes) {
    forall i, j | 0 <= i < j < |v| && j == i + 1 :: v[i] != 13 || v[j] != 10
  }

  lemma PlainIsWord(w: Bytes)
    requires Plain(w)
    ensures IsWord(w) && Words(w) == [w]
  {
    WordsOfWord(w);
  }

  lemma NameIsPlain(name: string)
    requires Letters(name)
    ensures Plain(Ascii(name))
  {
  }

  /** The end of the line adds no word. */
  lemma WordsOfLine(v: Bytes)
    ensures Words(v + [13, 10]) == Words(v)
  {
    WordsAreScan([]);
    WordsSplit(v, 13, []);
    WordsSplit(v + [13], 10, []);
    assert v + [13] + [10] + [] == v + [13, 10];
    assert v + [13] + [] == v + [13];
  }

  /** A text without CRLF behind a front without CR makes one frame. */
  lemma LineIsFrame(front: Bytes, v: Bytes)
    requires OneLine(v) && forall i | 0 <= i < |front| :: front[i] != 13
    ensures IsFrame(front + v + [13, 10])
  {
    var f := front + v + [13, 10];
    var n := |front|;
    assert CrlfAt(f, |f| - 2);
    forall i | 0 <= i < |f| - 2
      ensures !CrlfAt(f, i)
    {
      if i < n {
        assert f[i] == front[i];
      } else if i < n + |v| - 1 {
        assert f[i] == v[i - n] && f[i + 1] == v[i + 1 - n];
      }
    }
  }

  /** What the server makes of a line: one frame, whose words are the name and those after it. */
  lemma LineAsks(name: string, arg: Bytes)
    requires Letters(name) && OneLine(arg)
    ensures IsFrame(Line(name, arg)) && Words(Line(name, arg)) == [Ascii(name)] + Words(arg)
  {
    NameIsPlain(name);
    PlainIsWord(Ascii(name));
    LineIsFrame(Ascii(name) + [32], arg);
    WordsOfLine(arg);
    WordsSplit(Ascii(name), 32, arg + [13, 10]);
    assert Line(name, arg) == Ascii(name) + [32] + (arg + [13, 10]);
  }

  lemma BareAsks(name: string)
    requires Letters(name)
    ensures IsFrame(BareLine(name)) && Words(BareLine(name)) == [Ascii(name)]
  {
    NameIsPlain(name);
    PlainIsWord(Ascii(name));
    LineIsFrame(Ascii(name), []);
    assert Ascii(name) + [] + [13, 10] == BareLine(name);
    WordsOfLine(Ascii(name));
  }

  lemma WordAsks(name: string, k: Bytes)
    requires Letters(name) && Plain(k)
    ensures IsFrame(Line(name, k)) && Words(Line(name, k)) == [Ascii(name), k]
  {
    LineAsks(name, k);
    PlainIsWord(k);
    assert [Ascii(name)] + [k] == [Ascii(name), k];
  }

  // ---- answers ----

  /** The answers in the letters of the protocol. */
  function OkLine(): Bytes {
    Ascii("+OK") + [13, 10]
  }

  function NumberLine(n: int): Bytes {
    Ascii(":") + Format(n) + [13, 10]
  }

  function NilLine(): Bytes {
    Ascii("$-1") + [13, 10]
  }

  /** A value behind its length. */
  function BulkLines(v: Bytes): Bytes {
    Ascii("$") + Format(|v|) + [13, 10] + v + [13, 10]
  }

  function GetAnswer(m: Dict, k: Bytes): Bytes {
    if k in m then BulkLines(m[k]) else NilLine()
  }

  function UnknownLine(): Bytes {
    Ascii("-ERR ") + Ascii("unknown command") + [13, 10]
  }

  /** The message of every misuse, a database number out of range included. */
  function MisuseLine(name: string): Bytes
    requires Letters(name)
  {
    Ascii("-ERR ") + (Ascii("numero di argomenti per il comando \"") + Ascii(name) + Ascii("\" errati")) + [13, 10]
  }

  lemma OkBytes()
    ensures Resp.Encode(Ok()) == OkLine()
  {
    assert Ascii("+OK") == [43, 79, 75];
  }

  lemma NumberBytes(n: int)
    ensures Resp.Encode(Resp.Integer(n)) == NumberLine(n)
  {
    Resp.EncodedBytes(Resp.Integer(n));
  }

  lemma UnknownBytes()
    ensures Resp.Encode(Err(UnknownCommand())) == UnknownLine()
  {
    hide Ascii;
    ErrorBytes(UnknownCommand());
  }

  lemma MisuseBytes(name: string)
    requires Letters(name)
    ensures Resp.Encode(Err(WrongArguments(Ascii(name)))) == MisuseLine(name)
  {
    hide Ascii, Err;
    ErrorBytes(WrongArguments(Ascii(name)));
  }

  // ---- serving one line ----

  function Sent(s: Session): Bytes {
    Resp.EncodeAll(s.replies)
  }

  /** A session whose next line is `f`. */
  ghost predicate Asked(s: Session, f: Bytes) {
    SessionOk(s) && s.open && IsFrame(f) && |f| < 0x8000_0000
  }

  /**
   * Serving the line `f` takes `s` to `u`, but for the counters of the connection and the replies, and sends `answer`.
   * Nothing of the line is left in the buffer.
   */
  ghost predicate Served(s: Session, f: Bytes, env: Env, u: Session, answer: Bytes) {
    && SessionOk(s) && ShortFrames(f) && Residual(f) == []
    && var t := ServeBytes(s, f, env);
    && t == u.(frames := s.frames + 1, secondSeen := s.secondSeen || |Words(f)| > 1, replies := t.replies)
    && Sent(t) == Sent(s) + answer
  }

  lemma OneFrame(s: Session, f: Bytes, env: Env)
    requires Asked(s, f)
    ensures LineOk(Words(f)) && ShortFrames(f) && Residual(f) == []
    ensures ServeBytes(s, f, env) == AfterFrame(s, f, env)
  {
    hide AfterFrame;
    FrameLineOk(f);
    FrameInFront(f, []);
    assert f + [] == f && [f] + [] == [f];
    ServeNext(s, [f], env, AfterFrame(s, f, env));
  }

  /** A line that leaves the session as `u` and is answered by `r`. */
  lemma Answered(s: Session, f: Bytes, env: Env, u: Session, r: Resp.Reply)
    requires Asked(s, f) && LineOk(Words(f))
    requires Execute(s, Words(f), env) == Send(u, r) && u.replies == s.replies
    ensures Served(s, f, env, u, Resp.Encode(r))
  {
    hide Execute, Resp.Encode;
    OneFrame(s, f, env);
    Resp.EncodeAllAppend(s.replies, r);
  }

  /** Two lines, one after the other. */
  lemma TwoLines(s: Session, f: Bytes, g: Bytes, env: Env)
    requires SessionOk(s) && ShortFrames(f) && Residual(f) == [] && ShortFrames(g)
    ensures ShortFrames(f + g) && Residual(f + g) == Residual(g)
    ensures ServeBytes(s, f + g, env) == ServeBytes(ServeBytes(s, f, env), g, env)
  {
    FramesAppend(f, g);
    assert [] + g == g;
    ServeInParts(s, f, g, env);
  }

  // ---- GET, SET, DEL, INCR ----

  lemma GetSends(s: Session, k: Bytes, env: Env)
    requires SessionOk(s) && s.open && Plain(k) && |Line("GET", k)| < 0x8000_0000
    ensures Served(s, Line("GET", k), env, s, GetAnswer(s.dicts[s.db], k))
  {
    var f, m := Line("GET", k), s.dicts[s.db];
    var r := if k in m then Resp.Bulk(m[k]) else Resp.Nil;
    WordAsks("GET", k);
    NamesAsText();
    FrameLineOk(f);
    GetRuns(s, k, env);
    Resp.EncodedBytes(r);
    hide Execute, Served;
    Answered(s, f, env, s, r);
  }

  lemma GetRuns(s: Session, k: Bytes, env: Env)
    requires SessionOk(s) && LineOk([GET, k])
    ensures var m := s.dicts[s.db];
            Execute(s, [GET, k], env) == Send(s, if k in m then Resp.Bulk(m[k]) else Resp.Nil)
  {
  }

  /** The value stored is the words after the key, joined by single spaces. */
  lemma SetSends(s: Session, k: Bytes, v: Bytes, env: Env)
    requires SessionOk(s) && s.open && Plain(k) && OneLine(v) && Words(v) != []
    requires |Line("SET", k + [32] + v)| < 0x8000_0000
    ensures Served(s, Line("SET", k + [32] + v), env,
                   s.(dicts := s.dicts[s.db := s.dicts[s.db][k := Join(Words(v))]]), OkLine())
  {
    var f := Line("SET", k + [32] + v);
    SetAsks(k, v);
    NamesAsText();
    FrameLineOk(f);
    OkBytes();
    SetRuns(s, Words(f), k, Words(v), env);
    hide Execute, Served;
    Answered(s, f, env, s.(dicts := s.dicts[s.db := s.dicts[s.db][k := Join(Words(v))]]), Ok());
  }

  lemma SetAsks(k: Bytes, v: Bytes)
    requires Plain(k) && OneLine(v)
    ensures IsFrame(Line("SET", k + [32] + v)) && Words(Line("SET", k + [32] + v)) == [Ascii("SET"), k] + Words(v)
  {
    hide Words, Ascii;
    KeyInFront(k, v);
    LineAsks("SET", k + [32] + v);
    PlainIsWord(k);
    WordsSplit(k, 32, v);
    assert [Ascii("SET")] + ([k] + Words(v)) == [Ascii("SET"), k] + Words(v);
  }

  lemma KeyInFront(k: Bytes, v: Bytes)
    requires Plain(k) && OneLine(v)
    ensures OneLine(k + [32] + v)
  {
    var w, n := k + [32] + v, |k| + 1;
    forall i, j | 0 <= i < j < |w| && j == i + 1
      ensures w[i] != 13 || w[j] != 10
    {
      if i >= n {
        assert w[i] == v[i - n] && w[j] == v[j - n];
      } else {
        assert w[i] == (k + [32])[i];
      }
    }
  }

  lemma SetRuns(s: Session, words: seq<Bytes>, k: Bytes, rest: seq<Bytes>, env: Env)
    requires SessionOk(s) && LineOk(words) && words == [SET, k] + rest && rest != []
    ensures Execute(s, words, env) == Send(s.(dicts := s.dicts[s.db := s.dicts[s.db][k := Join(rest)]]), Ok())
  {
    assert words[0] == SET && words[1] == k && words[2..] == rest;
  }

  lemma DelSends(s: Session, k: Bytes, env: Env)
    requires SessionOk(s) && s.open && Plain(k) && |Line("DEL", k)| < 0x8000_0000
    ensures var m := s.dicts[s.db];
            Served(s, Line("DEL", k), env, s.(dicts := s.dicts[s.db := m - {k}]), NumberLine(if k in m then 1 else 0))
  {
    hide Execute, Served, NumberLine, Resp.Encode;
    var f, m := Line("DEL", k), s.dicts[s.db];
    var n := if k in m then 1 else 0;
    WordAsks("DEL", k);
    NamesAsText();
    FrameLineOk(f);
    DelRuns(s, k, env);
    NumberBytes(n);
    Answered(s, f, env, s.(dicts := s.dicts[s.db := m - {k}]), Resp.Integer(n));
  }

  lemma DelRuns(s: Session, k: Bytes, env: Env)
    requires SessionOk(s) && LineOk([DEL, k])
    ensures var m := s.dicts[s.db];
            Execute(s, [DEL, k], env) ==
              Send(s.(dicts := s.dicts[s.db := m - {k}]), Resp.Integer(if k in m then 1 else 0))
  {
  }

  /** The number INCR answers passes through a 32-bit int; the stored text does not. */
  function Narrowed(n: int): int {
    if n == 0x8000_0000 then -0x8000_0000 else n
  }

  /** The maps after INCR: the next number stored, and nothing changed for a missing key. */
  function Counted(m: Dict, k: Bytes): Dict {
    if k in m then m[k := Format(Atoi(m[k]) + 1)] else m
  }

  lemma IncrSends(s: Session, k: Bytes, env: Env)
    requires SessionOk(s) && s.open && Plain(k) && |Line("INCR", k)| < 0x8000_0000
    ensures var m := s.dicts[s.db];
            Served(s, Line("INCR", k), env, s.(dicts := s.dicts[s.db := Counted(m, k)]),
                   NumberLine(if k in m then Narrowed(Atoi(m[k]) + 1) else 0))
  {
    hide Execute, Served, Counted, Narrowed, NumberLine, Atoi, Resp.Encode;
    var f, m := Line("INCR", k), s.dicts[s.db];
    var n := if k in m then Narrowed(Atoi(m[k]) + 1) else 0;
    WordAsks("INCR", k);
    NamesAsText();
    FrameLineOk(f);
    IncrRuns(s, k, env);
    NumberBytes(n);
    Answered(s, f, env, s.(dicts := s.dicts[s.db := Counted(m, k)]), Resp.Integer(n));
  }

  lemma IncrRuns(s: Session, k: Bytes, env: Env)
    requires SessionOk(s) && LineOk([INCR, k])
    ensures var m := s.dicts[s.db];
            Execute(s, [INCR, k], env) ==
              Send(s.(dicts := s.dicts[s.db := Counted(m, k)]),
                   Resp.Integer(if k in m then Narrowed(Atoi(m[k]) + 1) else 0))
  {
    hide Narrowed, Counted, DoGet, DoSet, DoDel, DoIncr, DoQuit, DoSelect, DoInfo, DoSave, DoLoad;
    IncrDone(s, k);
  }

  lemma IncrDone(s: Session, k: Bytes)
    requires SessionOk(s) && LineOk([INCR, k])
    ensures var m := s.dicts[s.db];
            DoIncr(s, [INCR, k]) ==
              Send(s.(dicts := s.dicts[s.db := Counted(m, k)]),
                   Resp.Integer(if k in m then Narrowed(Atoi(m[k]) + 1) else 0))
  {
    hide Atoi, WrapInt, Narrowed, Format;
    var m := s.dicts[s.db];
    if k in m {
      NextNarrowed(Atoi(m[k]));
    } else {
      assert s.dicts[s.db := m] == s.dicts;
    }
  }

  lemma NextNarrowed(n: int)
    requires IsInt(n)
    ensures WrapInt(n + 1) == Narrowed(n + 1)
  {
  }

  // ---- SELECT ----

  lemma SelectSends(s: Session, w: Bytes, env: Env)
    requires SessionOk(s) && s.open && Plain(w) && |Line("SELECT", w)| < 0x8000_0000
    ensures |s.dicts| == 16
    ensures if 0 <= Atoi(w) < 16 then Served(s, Line("SELECT", w), env, s.(db := Atoi(w)), OkLine())
            else Served(s, Line("SELECT", w), env, s, MisuseLine("SELECT"))
  {
    var f, n := Line("SELECT", w), Atoi(w);
    WordAsks("SELECT", w);
    NamesAsText();
    FrameLineOk(f);
    OkBytes();
    MisuseBytes("SELECT");
    SelectRuns(s, w, env);
    hide Execute, Served, Ascii;
    if 0 <= n < 16 {
      Answered(s, f, env, s.(db := n), Ok());
    } else {
      Answered(s, f, env, s, Err(WrongArguments(SELECT)));
    }
  }

  lemma SelectRuns(s: Session, w: Bytes, env: Env)
    requires SessionOk(s) && LineOk([SELECT, w])
    ensures Execute(s, [SELECT, w], env) ==
              if 0 <= Atoi(w) < 16 then Send(s.(db := Atoi(w)), Ok()) else Send(s, Err(WrongArguments(SELECT)))
  {
  }

  lemma FormatIsPlain(n: int)
    ensures Plain(Format(n))
  {
  }

  /** What atoi makes of the decimal text of `n`, as an index: saturated at 64 bits, then narrowed to 32. */
  function Index(n: int): nat {
    (if n < -0x8000_0000_0000_0000 then -0x8000_0000_0000_0000
     else if n > 0x7FFF_FFFF_FFFF_FFFF then 0x7FFF_FFFF_FFFF_FFFF else n) % 0x1_0000_0000
  }

  /**
   * SELECT with the decimal text of a number: an int is accepted exactly if it names one of the databases.
   * A longer number is accepted exactly if what is left of it does.
   */
  lemma SelectNumber(s: Session, n: int, env: Env)
    requires SessionOk(s) && s.open && |Line("SELECT", Format(n))| < 0x8000_0000
    ensures -0x8000_0000 <= n <= 0x7FFF_FFFF ==>
              (Index(n) < |s.dicts| <==> 0 <= n < |s.dicts|) && (0 <= n < |s.dicts| ==> Index(n) == n)
    ensures if Index(n) < |s.dicts| then Served(s, Line("SELECT", Format(n)), env, s.(db := Index(n)), OkLine())
            else Served(s, Line("SELECT", Format(n)), env, s, MisuseLine("SELECT"))
  {
    hide Served, OkLine, MisuseLine, Format;
    FormatIsPlain(n);
    FormatStrtol(n);
    SelectSends(s, Format(n), env);
    IndexIsAtoi(n);
  }

  lemma IndexIsAtoi(n: int)
    ensures 0 <= WrapInt(Clamp(n)) < 16 <==> Index(n) < 16
    ensures Index(n) < 16 ==> WrapInt(Clamp(n)) == Index(n)
    ensures -0x8000_0000 <= n <= 0x7FFF_FFFF ==> (Index(n) < 16 <==> 0 <= n < 16) && (0 <= n < 16 ==> Index(n) == n)
  {
  }

  /** So 4294967296, far beyond the range, selects database 0. */
  lemma SelectBeyondInt(s: Session, env: Env)
    requires SessionOk(s) && s.open
    ensures Served(s, Line("SELECT", Format(0x1_0000_0000)), env, s.(db := 0), OkLine())
  {
    hide Served, OkLine, MisuseLine;
    assert Pow10(10) == 10_000_000_000 by {
      assert Pow10(5) == 100_000;
    }
    DigitsLength(0x1_0000_0000, 10);
    SelectNumber(s, 0x1_0000_0000, env);
  }

  // ---- QUIT and INFO ----

  lemma QuitSends(s: Session, env: Env)
    requires SessionOk(s) && s.open
    ensures Served(s, BareLine("QUIT"), env, s.(open := false, clients := s.clients - 1), OkLine())
  {
    BareAsks("QUIT");
    NamesAsText();
    FrameLineOk(BareLine("QUIT"));
    OkBytes();
    QuitRuns(s, env);
    hide Execute, Served;
    Answered(s, BareLine("QUIT"), env, s.(open := false, clients := s.clients - 1), Ok());
  }

  lemma QuitRuns(s: Session, env: Env)
    requires SessionOk(s) && LineOk([QUIT])
    ensures Execute(s, [QUIT], env) == Send(s.(open := false, clients := s.clients - 1), Ok())
  {
  }

  function Field(mark: string, n: int): Bytes
    requires forall i | 0 <= i < |mark| :: ' ' <= mark[i] <= '~'
  {
    Ascii(mark) + Format(n) + [13, 10]
  }

  /** The five lines of INFO. */
  function Statistics(port: int, clients: int, db: nat, keys: nat): seq<Bytes> {
    [Ascii("# Server") + [13, 10], Field("port:", port), Field("clients:", clients), Field("selected_db:", db), Field("keys:", keys)]
  }

  /** INFO answers with a text whose lines are the statistics, the last one without its CRLF. */
  lemma InfoSends(s: Session, env: Env) returns (text: Bytes)
    requires SessionOk(s) && s.open
    ensures Frames(text + [13, 10]) == Statistics(env.port, s.clients, s.db, |s.dicts[s.db]|)
    ensures Residual(text + [13, 10]) == []
    ensures Served(s, BareLine("INFO"), env, s, BulkLines(text))
  {
    hide InfoText, Statistics, Served, Execute;
    text := InfoText(env.port, s.clients, s.db, |s.dicts[s.db]|);
    StatisticsAreLines(env.port, s.clients, s.db, |s.dicts[s.db]|);
    BareAsks("INFO");
    NamesAsText();
    FrameLineOk(BareLine("INFO"));
    Resp.EncodedBytes(Resp.Bulk(text));
    InfoRuns(s, env);
    Answered(s, BareLine("INFO"), env, s, Resp.Bulk(text));
  }

  lemma InfoRuns(s: Session, env: Env)
    requires SessionOk(s) && LineOk([INFO])
    ensures Execute(s, [INFO], env) == Send(s, Resp.Bulk(InfoText(env.port, s.clients, s.db, |s.dicts[s.db]|)))
  {
    hide InfoText;
  }

  lemma FieldIsFrame(mark: string, n: int)
    requires forall i | 0 <= i < |mark| :: ' ' <= mark[i] <= '~'
    ensures IsFrame(Field(mark, n))
  {
    FormatIsPlain(n);
    LineIsFrame(Ascii(mark), Format(n));
  }

  /** The end of a text of five lines, moved into the last. */
  lemma LastLine(a: Bytes, b: Bytes, c: Bytes, d: Bytes, e: Bytes, end: Bytes)
    ensures a + (b + (c + (d + e))) + end == a + (b + (c + (d + (e + end))))
  {
    assert b + (c + (d + e)) + end == b + (c + (d + e) + end);
    assert c + (d + e) + end == c + (d + e + end);
  }

  lemma FiveLines(a: Bytes, b: Bytes, c: Bytes, d: Bytes, e: Bytes)
    requires IsFrame(a) && IsFrame(b) && IsFrame(c) && IsFrame(d) && IsFrame(e)
    ensures var text := a + (b + (c + (d + e))); Frames(text) == [a, b, c, d, e] && Residual(text) == []
  {
    hide IsFrame;
    FramesOfConcat([a, b, c, d, e]);
    assert [a, b, c, d, e][1..] == [b, c, d, e] && [b, c, d, e][1..] == [c, d, e];
    assert [c, d, e][1..] == [d, e] && [d, e][1..] == [e] && [e][1..] == [];
    assert Concat([e]) == e + [] == e;
    assert Concat([d, e]) == d + e;
    assert Concat([c, d, e]) == c + (d + e);
    assert Concat([b, c, d, e]) == b + (c + (d + e));
  }

  lemma StatisticsAreLines(port: int, clients: int, db: nat, keys: nat)
    ensures Frames(InfoText(port, clients, db, keys) + [13, 10]) == Statistics(port, clients, db, keys)
    ensures Residual(InfoText(port, clients, db, keys) + [13, 10]) == []
  {
    hide IsFrame, Format, Ascii, Frames, Residual;
    var title := Ascii("# Server");
    LineIsFrame(title, []);
    assert title + [] == title;
    FieldIsFrame("port:", port);
    FieldIsFrame("clients:", clients);
    FieldIsFrame("selected_db:", db);
    FieldIsFrame("keys:", keys);
    FiveLines(title + [13, 10], Field("port:", port), Field("clients:", clients), Field("selected_db:", db), Field("keys:", keys));
    LastLine(title + [13, 10], Field("port:", port), Field("clients:", clients), Field("selected_db:", db),
             Ascii("keys:") + Format(keys), [13, 10]);
  }

  /** A client reads a field back by dropping the mark. */
  function ReadField(line: Bytes, mark: string): int {
    if |mark| <= |line| then Resp.ParseInt(line[|mark|..]) else 0
  }

  lemma FieldReadsBack(mark: string, n: int)
    requires forall i | 0 <= i < |mark| :: ' ' <= mark[i] <= '~'
    ensures ReadField(Field(mark, n), mark) == n
  {
    var m := if n < 0 then -n else n;
    assert Field(mark, n)[|mark|..] == Format(n) + [13, 10];
    DigitsValue(m);
    AccumulateStops(Digits(m), [13, 10], 0);
    if n < 0 {
      assert (Format(n) + [13, 10])[1..] == Digits(m) + [13, 10];
    }
  }

  // ---- SAVE and LOAD ----

  /** The files after a SAVE to `p`: that one holds the sixteen maps, if it can be opened, and no other changes. */
  function Saved(s: Session, p: Bytes, opens: bool): Session {
    if opens then s.(disk := s.disk[p := Snapshot(s.dicts)]) else s
  }

  lemma SaveSends(s: Session, p: Bytes, env: Env)
    requires SessionOk(s) && s.open && Plain(p) && |Line("SAVE", p)| < 0x8000_0000
    ensures Served(s, Line("SAVE", p), env, Saved(s, p, env.files(s.frames).opens), OkLine())
  {
    var f := Line("SAVE", p);
    WordAsks("SAVE", p);
    NamesAsText();
    FrameLineOk(f);
    OkBytes();
    SaveRuns(s, [SAVE, p], p, env);
    hide Execute, Served;
    Answered(s, f, env, Saved(s, p, env.files(s.frames).opens), Ok());
  }

  lemma SaveRuns(s: Session, words: seq<Bytes>, p: Bytes, env: Env)
    requires SessionOk(s) && LineOk(words) && words != [] && words[0] == SAVE
    requires p == PathOf(words, s.secondSeen, env.files(s.frames))
    ensures Execute(s, words, env) == Send(Saved(s, p, env.files(s.frames).opens), Ok())
  {
  }

  /** SAVE without a path, on a connection that has not seen a second word yet. */
  lemma BareSaveSends(s: Session, env: Env)
    requires SessionOk(s) && s.open && !s.secondSeen
    ensures Served(s, BareLine("SAVE"), env, Saved(s, Ascii("dump.minredis"), env.files(s.frames).opens), OkLine())
  {
    BareAsks("SAVE");
    NamesAsText();
    FrameLineOk(BareLine("SAVE"));
    OkBytes();
    hide Execute, Served, Ascii;
    SaveRuns(s, [SAVE], Ascii("dump.minredis"), env);
    Answered(s, BareLine("SAVE"), env, Saved(s, Ascii("dump.minredis"), env.files(s.frames).opens), Ok());
  }

  /** Database by database, `over` on top of `m`. */
  ghost predicate Overridden(m: Dicts, over: Dicts, r: Dicts) {
    |r| == |m| == |over| && forall d | 0 <= d < |m| :: r[d] == m[d] + over[d]
  }

  /** What a LOAD leaves: nothing changed without a file, the maps overridden by those of a snapshot. */
  ghost predicate Restored(s: Session, p: Bytes, opens: bool, u: Session) {
    && u == s.(dicts := u.dicts, wild := u.wild)
    && (!opens || p !in s.disk ==> u == s)
    && (opens && p in s.disk && s.disk[p].Snapshot? ==> Overridden(s.dicts, s.disk[p].dicts, u.dicts) && u.wild == s.wild)
  }

  lemma LoadSends(s: Session, p: Bytes, env: Env) returns (u: Session)
    requires SessionOk(s) && s.open && Plain(p) && |Line("LOAD", p)| < 0x8000_0000
    ensures Restored(s, p, env.files(s.frames).opens, u)
    ensures Served(s, Line("LOAD", p), env, u, OkLine())
  {
    var f := Line("LOAD", p);
    WordAsks("LOAD", p);
    NamesAsText();
    FrameLineOk(f);
    OkBytes();
    u := LoadRuns(s, p, env);
    hide Execute, Served, Restored;
    Answered(s, f, env, u, Ok());
  }

  lemma LoadRuns(s: Session, p: Bytes, env: Env) returns (u: Session)
    requires SessionOk(s) && LineOk([LOAD, p])
    ensures Restored(s, p, env.files(s.frames).opens, u) && u.replies == s.replies
    ensures Execute(s, [LOAD, p], env) == Send(u, Ok())
  {
    u := Execute(s, [LOAD, p], env).(replies := s.replies);
  }

  /** A file that holds the dump of one pair, wherever it comes from. */
  lemma LoadPair(s: Session, p: Bytes, d: byte, k: Bytes, v: Bytes, env: Env)
    requires SessionOk(s) && s.open && Plain(p) && |Line("LOAD", p)| < 0x8000_0000 && env.files(s.frames).opens
    requires d < 16 && |k| < 256 && |v| < 256 && NulFree(k) && NulFree(v)
    requires p in s.disk && s.disk[p] == Raw(PairFile(d, k, v))
    ensures Served(s, Line("LOAD", p), env, s.(dicts := s.dicts[d as int := s.dicts[d as int][k := v]]), OkLine())
  {
    var f, stack := Line("LOAD", p), env.files(s.frames).stack;
    WordAsks("LOAD", p);
    NamesAsText();
    FrameLineOk(f);
    OkBytes();
    hide Served, PairFile, ParseFile, OkLine;
    PairIsOnePut(d, k, v, stack);
    OnePut(s.dicts, Placed(d as nat, k, v));
    LoadRunsRaw(s, p, PairFile(d, k, v), env);
    hide Execute;
    Answered(s, f, env, s.(dicts := s.dicts[d as int := s.dicts[d as int][k := v]]), Ok());
  }

  lemma OnePut(m: Dicts, p: Placed)
    requires |m| == 16 && PutsOk([p])
    ensures p.db < 16 && PutSeqMaps(m, [p]) == m[p.db := m[p.db][p.key := p.value]]
  {
    assert [p][0] == p && [p][..0] == [];
  }

  lemma LoadRunsRaw(s: Session, p: Bytes, bytes: Bytes, env: Env)
    requires SessionOk(s) && LineOk([LOAD, p]) && env.files(s.frames).opens && p in s.disk && s.disk[p] == Raw(bytes)
    ensures var (puts, end) := ParseFile(bytes, env.files(s.frames).stack);
            Execute(s, [LOAD, p], env) ==
              Send(s.(dicts := PutSeqMaps(s.dicts, puts), wild := s.wild || end == Wild), Ok())
  {
    hide ParseFile, PutSeqMaps;
  }

  /** A file that does not begin like a dump changes nothing, and the answer is OK all the same. */
  lemma LoadForeign(s: Session, p: Bytes, bytes: Bytes, env: Env)
    requires SessionOk(s) && s.open && Plain(p) && |Line("LOAD", p)| < 0x8000_0000 && env.files(s.frames).opens
    requires p in s.disk && s.disk[p] == Raw(bytes)
    requires |bytes| < 9 || bytes[..8] != Ascii("MINREDIS")
    ensures Served(s, Line("LOAD", p), env, s, OkLine())
  {
    var f := Line("LOAD", p);
    WordAsks("LOAD", p);
    NamesAsText();
    FrameLineOk(f);
    OkBytes();
    hide Served, OkLine, Line, Parse, Ascii;
    MagicText();
    LoadRunsRaw(s, p, bytes, env);
    hide Execute;
    Answered(s, f, env, s, Ok());
  }

  // ---- errors ----

  /** How many words are wrong for a command; SAVE and LOAD take any number. */
  predicate Misused(name: string, n: nat) {
    || (name in ["GET", "DEL", "INCR", "SELECT"] && n != 2)
    || (name == "SET" && n < 3)
    || (name in ["QUIT", "INFO"] && n > 1)
  }

  lemma MisuseSends(s: Session, f: Bytes, name: string, env: Env)
    requires Asked(s, f) && Letters(name)
    requires Words(f) != [] && Words(f)[0] == Ascii(name) && Misused(name, |Words(f)|)
    ensures Served(s, f, env, s, MisuseLine(name))
  {
    FrameLineOk(f);
    MisuseRuns(s, Words(f), name, env);
    MisuseBytes(name);
    hide Execute, Served, MisuseLine, WrongArguments;
    Answered(s, f, env, s, Err(WrongArguments(Ascii(name))));
  }

  lemma MisuseRuns(s: Session, words: seq<Bytes>, name: string, env: Env)
    requires SessionOk(s) && LineOk(words) && Letters(name)
    requires words != [] && words[0] == Ascii(name) && Misused(name, |words|)
    ensures Execute(s, words, env) == Send(s, Err(WrongArguments(Ascii(name))))
  {
    hide WrongArguments, InfoText, DoSave, DoLoad, Perform, Atoi, LineOk, Ascii;
    NamesAsText();
  }

  lemma UnknownSends(s: Session, f: Bytes, env: Env)
    requires Asked(s, f) && (Words(f) == [] || NoName(Words(f)[0]))
    ensures Served(s, f, env, s, UnknownLine())
  {
    FrameLineOk(f);
    UnknownBytes();
    CommandIsNamed(Words(f));
    hide Served, UnknownLine, UnknownCommand, NoName;
    Answered(s, f, env, s, Err(UnknownCommand()));
  }
}
