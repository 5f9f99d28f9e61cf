/**
 * Several lines of one client in literal text: a key deleted twice, two databases kept apart, and a file written by SAVE
 * and read by LOAD with anything in between.
 */
module Dialogues {
  import opened CStrings
  import opened Decimal
  import opened Requests
  import opened CommandLine
  import opened Framing
  import opened Interpreter
  import opened Service
  import opened Wire

  predicate Lines(ls: seq<Bytes>) {
    forall i | 0 <= i < |ls| :: IsFrame(ls[i]) && |ls[i]| < 0x8000_0000
  }

  lemma LinesAreFrames(ls: seq<Bytes>)
    requires Lines(ls)
    ensures ShortFrames(Concat(ls)) && Frames(Concat(ls)) == ls && Residual(Concat(ls)) == []
  {
    FramesOfConcat(ls);
  }

  /** The session after the lines have been received, one after the other, and served. */
  function After(s: Session, ls: seq<Bytes>, env: Env): (t: Session)
    requires SessionOk(s) && Lines(ls)
    ensures SessionOk(t)
  {
    LinesAreFrames(ls);
    ServeBytes(s, Concat(ls), env)
  }

  lemma NextLine(s: Session, l: Bytes, ls: seq<Bytes>, env: Env)
    requires SessionOk(s) && Lines([l] + ls) && ShortFrames(l) && Residual(l) == []
    ensures Lines(ls) && After(s, [l] + ls, env) == After(ServeBytes(s, l, env), ls, env)
  {
    assert forall i | 0 <= i < |ls| :: ls[i] == ([l] + ls)[i + 1];
    LinesAreFrames(ls);
    TwoLines(s, l, Concat(ls), env);
    assert ([l] + ls)[1..] == ls;
  }

  lemma NoLine(s: Session, env: Env)
    requires SessionOk(s)
    ensures After(s, [], env) == s
  {
    assert Frames([]) == [];
  }

  lemma {:induction false} MoreLines(s: Session, ls: seq<Bytes>, ms: seq<Bytes>, env: Env)
    requires SessionOk(s) && Lines(ls) && Lines(ms)
    ensures Lines(ls + ms) && After(s, ls + ms, env) == After(After(s, ls, env), ms, env)
  {
    LinesAreFrames(ls);
    LinesAreFrames(ms);
    LinesAreFrames(ls + ms);
    ServeConcat(s, ls, ms, env);
  }

  // ---- DEL ----

  /** A deleted key is gone: deleting it again answers 0, reading it answers the null bulk, and no other key is touched. */
  lemma DelTwice(s: Session, k: Bytes, env: Env)
    requires SessionOk(s) && s.open && Plain(k) && |Line("DEL", k)| < 0x8000_0000 && |Line("GET", k)| < 0x8000_0000
    ensures Lines([Line("DEL", k), Line("DEL", k), Line("GET", k)])
    ensures var t, m := After(s, [Line("DEL", k), Line("DEL", k), Line("GET", k)], env), s.dicts[s.db];
            && t.dicts == s.dicts[s.db := m - {k}]
            && Sent(t) == Sent(s) + NumberLine(if k in m then 1 else 0) + NumberLine(0) + NilLine()
  {
    hide Sent, NumberLine, NilLine, After, Line, Plain, ServeBytes, ShortFrames;
    var d, g, m := Line("DEL", k), Line("GET", k), s.dicts[s.db];
    WordAsks("DEL", k);
    WordAsks("GET", k);
    DelSends(s, k, env);
    var t1 := ServeBytes(s, d, env);
    DelSends(t1, k, env);
    var t2 := ServeBytes(t1, d, env);
    assert m - {k} - {k} == m - {k};
    GetSends(t2, k, env);
    var t3 := ServeBytes(t2, g, env);
    assert [d, d, g] == [d] + ([d] + ([g] + []));
    NextLine(s, d, [d] + ([g] + []), env);
    NextLine(t1, d, [g] + [], env);
    NextLine(t2, g, [], env);
    NoLine(t3, env);
  }

  // ---- SELECT ----

  lemma SelectShort(i: nat)
    requires i < 16
    ensures |Line("SELECT", Format(i))| < 0x8000_0000 && IsFrame(Line("SELECT", Format(i)))
  {
    FormatFits(i);
    FormatIsPlain(i);
    WordAsks("SELECT", Format(i));
  }

  /** Change to database `i` and read a key there. */
  function Visit(i: nat, k: Bytes): seq<Bytes> {
    [Line("SELECT", Format(i)), Line("GET", k)]
  }

  /** Change to database `i` and set a key there. */
  function Store(i: nat, k: Bytes, v: Bytes): seq<Bytes> {
    [Line("SELECT", Format(i)), Line("SET", k + [32] + v)]
  }

  lemma SelectServed(s: Session, i: nat, env: Env)
    requires SessionOk(s) && s.open && i < 16
    ensures Served(s, Line("SELECT", Format(i)), env, s.(db := i), OkLine())
  {
    hide Served, OkLine, MisuseLine, Line;
    SelectShort(i);
    SelectNumber(s, i, env);
  }

  lemma VisitAnswers(s: Session, i: nat, k: Bytes, env: Env)
    requires SessionOk(s) && s.open && i < 16 && Plain(k) && |Line("GET", k)| < 0x8000_0000
    ensures Lines(Visit(i, k))
    ensures var t := After(s, Visit(i, k), env);
            && t == s.(db := i, frames := s.frames + 2, secondSeen := true, replies := t.replies)
            && Sent(t) == Sent(s) + OkLine() + GetAnswer(s.dicts[i], k)
  {
    hide Sent, OkLine, GetAnswer, After, Line, Plain, ServeBytes, ShortFrames, Format;
    var l, g := Line("SELECT", Format(i)), Line("GET", k);
    SelectShort(i);
    FormatIsPlain(i);
    WordAsks("SELECT", Format(i));
    WordAsks("GET", k);
    SelectServed(s, i, env);
    var u := ServeBytes(s, l, env);
    GetSends(u, k, env);
    assert [l, g] == [l] + ([g] + []);
    NextLine(s, l, [g] + [], env);
    NextLine(u, g, [], env);
    NoLine(ServeBytes(u, g, env), env);
  }

  lemma StoreAnswers(s: Session, i: nat, k: Bytes, v: Bytes, env: Env)
    requires SessionOk(s) && s.open && i < 16 && Plain(k) && OneLine(v) && Words(v) != []
    requires |Line("SET", k + [32] + v)| < 0x8000_0000
    ensures Lines(Store(i, k, v))
    ensures var t := After(s, Store(i, k, v), env);
            && t == s.(dicts := s.dicts[i := s.dicts[i][k := Join(Words(v))]], db := i,
                       frames := s.frames + 2, secondSeen := true, replies := t.replies)
            && Sent(t) == Sent(s) + OkLine() + OkLine()
  {
    hide Sent, OkLine, After, Line, Plain, OneLine, Words, ServeBytes, ShortFrames, Format;
    var l, g := Line("SELECT", Format(i)), Line("SET", k + [32] + v);
    SelectShort(i);
    FormatIsPlain(i);
    WordAsks("SELECT", Format(i));
    SetAsks(k, v);
    SelectServed(s, i, env);
    var u := ServeBytes(s, l, env);
    SetSends(u, k, v, env);
    assert [l, g] == [l] + ([g] + []);
    NextLine(s, l, [g] + [], env);
    NextLine(u, g, [], env);
    NoLine(ServeBytes(u, g, env), env);
  }

  /** What is set in one database is seen there and in no other. */
  lemma DatabasesApart(s: Session, i: nat, j: nat, k: Bytes, v: Bytes, env: Env)
    requires SessionOk(s) && s.open && i < 16 && j < 16 && i != j
    requires Plain(k) && OneLine(v) && Words(v) != []
    requires |Line("SET", k + [32] + v)| < 0x8000_0000 && |Line("GET", k)| < 0x8000_0000
    ensures Lines(Store(i, k, v) + (Visit(j, k) + Visit(i, k)))
    ensures Sent(After(s, Store(i, k, v) + (Visit(j, k) + Visit(i, k)), env))
         == Sent(s) + OkLine() + OkLine()
            + OkLine() + GetAnswer(s.dicts[j], k)
            + OkLine() + BulkLines(Join(Words(v)))
  {
    hide Sent, OkLine, BulkLines, NilLine, After, Line, Plain, OneLine, Words, Store, Visit, Lines;
    StoreAnswers(s, i, k, v, env);
    var t := After(s, Store(i, k, v), env);
    VisitAnswers(t, j, k, env);
    var u := After(t, Visit(j, k), env);
    VisitAnswers(u, i, k, env);
    MoreLines(t, Visit(j, k), Visit(i, k), env);
    MoreLines(s, Store(i, k, v), Visit(j, k) + Visit(i, k), env);
  }

  // ---- SAVE and LOAD ----

  /** The words neither save to `p` nor, without naming a path, might. */
  predicate Spares(words: seq<Bytes>, p: Bytes) {
    words == [] || words[0] != Ascii("SAVE") || (|words| > 1 && words[1] != p)
  }

  /** The lines leave the file `p` alone and do not end the connection. */
  predicate Between(ls: seq<Bytes>, p: Bytes) {
    Lines(ls) && forall i | 0 <= i < |ls| :: Spares(Words(ls[i]), p) && Words(ls[i]) != [Ascii("QUIT")]
  }

  lemma RequestsKeepFiles(s: Session, words: seq<Bytes>)
    requires SessionOk(s) && LineOk(words)
    ensures DoGet(s, words).disk == s.disk && DoSet(s, words).disk == s.disk
    ensures DoDel(s, words).disk == s.disk && DoIncr(s, words).disk == s.disk
  {
    hide ExecMaps, ReplyOf, WrongArguments, LineOk, Join;
  }

  lemma ControlsKeepFiles(s: Session, words: seq<Bytes>, port: int, c: FileChoice)
    requires SessionOk(s)
    ensures DoSelect(s, words).disk == s.disk && DoQuit(s, words).disk == s.disk
    ensures DoInfo(s, words, port).disk == s.disk && DoLoad(s, words, c).disk == s.disk
  {
    hide Merged, InfoText, WrongArguments, Atoi, PathOf;
  }

  /** Only SAVE writes files, and each only its own. */
  lemma FileStands(s: Session, words: seq<Bytes>, p: Bytes, env: Env)
    requires SessionOk(s) && LineOk(words) && Spares(words, p) && p in s.disk
    ensures var t := Execute(s, words, env); p in t.disk && t.disk[p] == s.disk[p]
  {
    hide DoGet, DoSet, DoDel, DoIncr, DoSelect, DoQuit, DoInfo, DoLoad, Ascii, LineOk, UnknownCommand;
    RequestsKeepFiles(s, words);
    ControlsKeepFiles(s, words, env.port, env.files(s.frames));
    NamesAsText();
  }

  lemma FileStandsOnce(s: Session, l: Bytes, p: Bytes, env: Env)
    requires SessionOk(s) && s.open && FrameOk(l) && IsFrame(l) && p in s.disk
    requires Spares(Words(l), p) && Words(l) != [Ascii("QUIT")]
    ensures LineOk(Words(l))
    ensures var u := AfterFrame(s, l, env); u.open && u.frames == s.frames + 1 && p in u.disk && u.disk[p] == s.disk[p]
  {
    hide Execute, Spares, Words, Ascii;
    FrameLineOk(l);
    NamesAsText();
    FileStands(s, Words(l), p, env);
  }

  lemma {:induction false} FilesStand(s: Session, ls: seq<Bytes>, p: Bytes, env: Env)
    requires SessionOk(s) && s.open && Between(ls, p) && p in s.disk
    ensures FramesOk(ls)
    ensures var t := Serve(s, ls, env);
            t.open && t.frames == s.frames + |ls| && p in t.disk && t.disk[p] == s.disk[p]
    decreases |ls|
  {
    hide AfterFrame, Spares, Words, Ascii;
    assert FramesOk(ls);
    if ls != [] {
      FileStandsOnce(s, ls[0], p, env);
      assert Between(ls[1..], p);
      var u := AfterFrame(s, ls[0], env);
      FilesStand(u, ls[1..], p, env);
      ServeNext(s, ls, env, u);
    }
  }

  lemma SaveAndMore(s: Session, p: Bytes, ls: seq<Bytes>, env: Env)
    requires SessionOk(s) && s.open && Plain(p) && Between(ls, p)
    requires |Line("SAVE", p)| < 0x8000_0000 && env.files(s.frames).opens
    ensures Lines([Line("SAVE", p)] + ls)
    ensures var w := After(s, [Line("SAVE", p)] + ls, env);
            w.open && w.frames == s.frames + 1 + |ls| && p in w.disk && w.disk[p] == Snapshot(s.dicts)
  {
    hide Sent, OkLine, After, Line, Plain, ServeBytes, ShortFrames, Spares;
    var save := Line("SAVE", p);
    WordAsks("SAVE", p);
    SaveSends(s, p, env);
    var u := ServeBytes(s, save, env);
    NextLine(s, save, ls, env);
    AfterIsServe(u, ls, env);
    FilesStand(u, ls, p, env);
  }

  lemma LoadLast(s: Session, p: Bytes, env: Env)
    requires SessionOk(s) && s.open && Plain(p) && |Line("LOAD", p)| < 0x8000_0000
    requires env.files(s.frames).opens && p in s.disk && s.disk[p].Snapshot?
    ensures Lines([Line("LOAD", p)])
    ensures var t := After(s, [Line("LOAD", p)], env);
            Overridden(s.dicts, s.disk[p].dicts, t.dicts) && t.disk == s.disk && Sent(t) == Sent(s) + OkLine()
  {
    hide Sent, OkLine, After, Line, Plain, ServeBytes, ShortFrames, Overridden;
    var load := Line("LOAD", p);
    WordAsks("LOAD", p);
    var v := LoadSends(s, p, env);
    assert [load] == [load] + [];
    NextLine(s, load, [], env);
    NoLine(ServeBytes(s, load, env), env);
  }

  /**
   * SAVE to a file, any lines that leave the file alone, and LOAD of the file: every database is the one the LOAD finds
   * overridden by the one the SAVE found. No other SAVE, LOAD or change in between matters.
   */
  lemma SaveThenLoad(s: Session, p: Bytes, ls: seq<Bytes>, env: Env)
    requires SessionOk(s) && s.open && Plain(p) && Between(ls, p)
    requires |Line("SAVE", p)| < 0x8000_0000 && |Line("LOAD", p)| < 0x8000_0000
    requires env.files(s.frames).opens && env.files(s.frames + 1 + |ls|).opens
    ensures Lines([Line("SAVE", p)] + (ls + [Line("LOAD", p)])) && Lines([Line("SAVE", p)] + ls)
    ensures var w := After(s, [Line("SAVE", p)] + ls, env);
            var t := After(s, [Line("SAVE", p)] + (ls + [Line("LOAD", p)]), env);
            && Overridden(w.dicts, s.dicts, t.dicts)
            && t.disk == w.disk && Sent(t) == Sent(w) + OkLine()
  {
    hide Sent, OkLine, After, Line, Plain, Lines, Overridden;
    var save, load := Line("SAVE", p), Line("LOAD", p);
    SaveAndMore(s, p, ls, env);
    LoadLast(After(s, [save] + ls, env), p, env);
    assert [save] + ls + [load] == [save] + (ls + [load]);
    MoreLines(s, [save] + ls, [load], env);
  }

  lemma AfterIsServe(s: Session, ls: seq<Bytes>, env: Env)
    requires SessionOk(s) && Lines(ls)
    ensures FramesOk(ls) && After(s, ls, env) == Serve(s, ls, env)
  {
    LinesAreFrames(ls);
  }
}
