/**
 * The reference interpreter on a byte stream: frame after frame. Serving is compositional, gives one reply a frame
 * until a QUIT is accepted, and its replies can be decoded from the bytes sent.
 */
module Service {
  import opened CStrings
  import opened Requests
  import opened CommandLine
  import opened Framing
  import opened Interpreter
  import Resp

  /** The chunks recv delivers before it reports the end of the stream by an empty one. */
  function Received(chunks: seq<Bytes>): seq<Bytes> {
    if chunks == [] || chunks[0] == [] then [] else [chunks[0]] + Received(chunks[1..])
  }

  ghost predicate ShortFrames(bytes: Bytes) {
    forall i | 0 <= i < |Frames(bytes)| :: FrameOk(Frames(bytes)[i])
  }

  /** The reference interpreter on a byte stream. */
  function ServeBytes(s: Session, bytes: Bytes, env: Env): (t: Session)
    requires SessionOk(s) && ShortFrames(bytes)
    ensures SessionOk(t)
  {
    EachIsFrame(bytes);
    Serve(s, Frames(bytes), env)
  }

  lemma ServeStep(s: Session, q: Bytes, rest: Bytes, env: Env)
    requires SessionOk(s) && s.open && ShortFrames(q + rest) && FirstCrlf(q) != 0
    ensures var (frame, later) := (q[..FirstCrlf(q)], q[FirstCrlf(q)..] + rest);
            && IsFrame(frame) && FrameOk(frame) && LineOk(Words(frame)) && ShortFrames(later)
            && ServeBytes(s, q + rest, env) == ServeBytes(AfterFrame(s, frame, env), later, env)
            && Residual(q + rest) == Residual(later)
  {
    var frame, later := q[..FirstCrlf(q)], q[FirstCrlf(q)..] + rest;
    CutFront(q, rest);
    FirstIsFrame(q);
    assert Frames(q + rest)[0] == frame && Frames(q + rest)[1..] == Frames(later);
    FrameLineOk(frame);
    forall i | 0 <= i < |Frames(later)|
      ensures FrameOk(Frames(later)[i])
    {
      assert Frames(later)[i] == Frames(q + rest)[i + 1];
    }
    EachIsFrame(q + rest);
    EachIsFrame(later);
  }

  /** Nothing is served from bytes without a complete frame, nor after the connection is closed. */
  lemma NothingServed(s: Session, bytes: Bytes, env: Env)
    requires SessionOk(s) && ShortFrames(bytes) && (NoCrlf(bytes) || !s.open)
    ensures ServeBytes(s, bytes, env) == s
    ensures NoCrlf(bytes) ==> Residual(bytes) == bytes
  {
    FirstCrlfIsFirst(bytes);
  }

  /** Serving `a` from `s`, and `b` from `t`, comes to the same: same session, same residual. */
  ghost predicate Same(s: Session, a: Bytes, t: Session, b: Bytes, env: Env) {
    && SessionOk(s) && SessionOk(t) && ShortFrames(a) && ShortFrames(b)
    && ServeBytes(s, a, env) == ServeBytes(t, b, env)
    && Residual(a) == Residual(b)
  }

  lemma ReceivedNext(chunks: seq<Bytes>, i: nat)
    requires i <= |chunks|
    ensures Concat(Received(chunks[i..])) ==
              if i == |chunks| || chunks[i] == [] then [] else chunks[i] + Concat(Received(chunks[i + 1..]))
  {
    if i < |chunks| && chunks[i] != [] {
      var later := Received(chunks[i + 1..]);
      assert chunks[i..][1..] == chunks[i + 1..];
      assert ([chunks[i]] + later)[1..] == later;
    }
  }

  lemma NothingLeft(s: Session, a: Bytes, t: Session, q: Bytes, rest: Bytes, env: Env)
    requires Same(s, a, t, q + rest, env)
    requires !t.open || (rest == [] && NoCrlf(q))
    ensures ServeBytes(s, a, env) == t
    ensures t.open ==> q == Residual(a)
  {
    if t.open {
      assert q + rest == q;
    }
    NothingServed(t, q + rest, env);
  }

  // ---- serving in parts ----

  lemma {:induction false} ServeConcat(s: Session, a: seq<Bytes>, b: seq<Bytes>, env: Env)
    requires SessionOk(s) && FramesOk(a) && FramesOk(b)
    ensures FramesOk(a + b)
    ensures Serve(s, a + b, env) == Serve(Serve(s, a, env), b, env)
    decreases |a|
  {
    if a == [] {
      assert a + b == b;
    } else if s.open {
      FrameLineOk(a[0]);
      assert (a + b)[1..] == a[1..] + b;
      ServeConcat(AfterFrame(s, a[0], env), a[1..], b, env);
    }
  }

  /** Serving `a` and then `b` is serving `a`, and then `b` behind what was left of `a`. */
  lemma ServeInParts(s: Session, a: Bytes, b: Bytes, env: Env)
    requires SessionOk(s) && ShortFrames(a + b)
    ensures ShortFrames(a) && ShortFrames(Residual(a) + b)
    ensures ServeBytes(s, a + b, env) == ServeBytes(ServeBytes(s, a, env), Residual(a) + b, env)
  {
    var front, back := Frames(a), Frames(Residual(a) + b);
    FramesAppend(a, b);
    EachIsFrame(a + b);
    assert forall i | 0 <= i < |front| :: front[i] == Frames(a + b)[i];
    assert forall i | 0 <= i < |back| :: back[i] == Frames(a + b)[|front| + i];
    ServeConcat(s, front, back, env);
  }

  // ---- one reply a frame ----

  /** How many frames are run: all of them, or those up to and including the first bare QUIT. */
  function RunCount(frames: seq<Bytes>): (n: nat)
    ensures n <= |frames|
  {
    if frames == [] then 0 else if Words(frames[0]) == [QUIT] then 1 else 1 + RunCount(frames[1..])
  }

  predicate HasQuit(frames: seq<Bytes>) {
    exists i :: 0 <= i < |frames| && Words(frames[i]) == [QUIT]
  }

  lemma QuitLater(frames: seq<Bytes>)
    requires frames != []
    ensures HasQuit(frames) <==> Words(frames[0]) == [QUIT] || HasQuit(frames[1..])
  {
    if i :| 0 <= i < |frames| - 1 && Words(frames[1..][i]) == [QUIT] {
      assert Words(frames[i + 1]) == [QUIT];
    }
    if i :| 0 < i < |frames| && Words(frames[i]) == [QUIT] {
      assert Words(frames[1..][i - 1]) == [QUIT];
    }
  }

  /** Every frame up to the first accepted QUIT gets exactly one reply, none gets lost, and nothing is run after it. */
  lemma {:induction false} OneReplyEach(s: Session, frames: seq<Bytes>, env: Env)
    requires SessionOk(s) && s.open && FramesOk(frames)
    ensures var t := Serve(s, frames, env);
            && |t.replies| == |s.replies| + RunCount(frames) && s.replies <= t.replies
            && t.frames == s.frames + RunCount(frames)
            && (t.open <==> !HasQuit(frames))
    decreases |frames|
  {
    hide AfterFrame;
    if frames != [] {
      FrameLineOk(frames[0]);
      QuitLater(frames);
      var u := AfterFrame(s, frames[0], env);
      if u.open {
        OneReplyEach(u, frames[1..], env);
      }
    }
  }

  // ---- the replies can be read back ----

  predicate AllSendable(rs: seq<Resp.Reply>) {
    forall i | 0 <= i < |rs| :: Resp.Sendable(rs[i])
  }

  lemma NameIsLine(name: Bytes)
    requires name in [GET, SET, DEL, QUIT, SELECT, INFO, SAVE, LOAD, INCR]
    ensures Resp.IsLine(name)
  {
  }

  lemma ComplaintSendable(s: Session, name: Bytes)
    requires SessionOk(s) && name in [GET, SET, DEL, QUIT, SELECT, INFO, SAVE, LOAD, INCR]
    ensures Resp.Sendable(Complain(s, name).replies[|s.replies|])
  {
    NameIsLine(name);
    var m := WrongArguments(name);
    assert Resp.IsLine(m);
    assert Resp.Sendable(Err(m));
  }

  lemma OutcomeSendable(s: Session, r: Request)
    requires SessionOk(s) && RequestOk(r) && !r.SaveAll?
    ensures Resp.Sendable(Perform(s, r).replies[|s.replies|])
  {
  }

  lemma OkSendable()
    ensures Resp.Sendable(Ok()) && Resp.Sendable(Err(UnknownCommand()))
  {
  }

  lemma RequestSendable(s: Session, words: seq<Bytes>)
    requires SessionOk(s) && LineOk(words)
    ensures Resp.Sendable(DoGet(s, words).replies[|s.replies|])
    ensures Resp.Sendable(DoSet(s, words).replies[|s.replies|])
    ensures Resp.Sendable(DoDel(s, words).replies[|s.replies|])
    ensures Resp.Sendable(DoIncr(s, words).replies[|s.replies|])
  {
    ComplaintSendable(s, GET);
    ComplaintSendable(s, SET);
    ComplaintSendable(s, DEL);
    ComplaintSendable(s, INCR);
    if |words| == 2 {
      OutcomeSendable(s, Get(s.db, words[1]));
      OutcomeSendable(s, Del(s.db, words[1]));
      OutcomeSendable(s, Incr(s.db, words[1]));
    } else if |words| > 2 {
      OutcomeSendable(s, Set(s.db, words[1], Join(words[2..])));
    }
  }

  lemma ControlSendable(s: Session, words: seq<Bytes>, port: int, c: FileChoice)
    requires SessionOk(s) && LineOk(words)
    ensures Resp.Sendable(DoSelect(s, words).replies[|s.replies|])
    ensures Resp.Sendable(DoQuit(s, words).replies[|s.replies|])
    ensures Resp.Sendable(DoInfo(s, words, port).replies[|s.replies|])
    ensures Resp.Sendable(DoSave(s, words, c).replies[|s.replies|])
    ensures Resp.Sendable(DoLoad(s, words, c).replies[|s.replies|])
  {
    hide InfoText, Complain, Merged;
    OkSendable();
    ComplaintSendable(s, SELECT);
    ComplaintSendable(s, QUIT);
    ComplaintSendable(s, INFO);
  }

  /** No reply smuggles a line end into a simple string or an error. */
  lemma ReplySendable(s: Session, words: seq<Bytes>, env: Env)
    requires SessionOk(s) && LineOk(words)
    ensures Resp.Sendable(Execute(s, words, env).replies[|s.replies|])
  {
    hide DoGet, DoSet, DoDel, DoIncr, DoSelect, DoQuit, DoInfo, DoSave, DoLoad;
    RequestSendable(s, words);
    ControlSendable(s, words, env.port, env.files(s.frames));
    OkSendable();
  }

  lemma OneMoreSendable(rs: seq<Resp.Reply>, qs: seq<Resp.Reply>)
    requires AllSendable(rs) && |qs| == |rs| + 1 && rs == qs[..|rs|] && Resp.Sendable(qs[|rs|])
    ensures AllSendable(qs)
  {
    assert forall i | 0 <= i < |rs| :: qs[i] == rs[i];
  }

  lemma {:induction false} RepliesSendable(s: Session, frames: seq<Bytes>, env: Env)
    requires SessionOk(s) && FramesOk(frames) && AllSendable(s.replies)
    ensures AllSendable(Serve(s, frames, env).replies)
    decreases |frames|
  {
    if frames != [] && s.open {
      FrameLineOk(frames[0]);
      ReplySendable(s, Words(frames[0]), env);
      OneMoreSendable(s.replies, AfterFrame(s, frames[0], env).replies);
      RepliesSendable(AfterFrame(s, frames[0], env), frames[1..], env);
    }
  }

  /** A client that decodes all it was sent finds the replies of the session, in order. */
  lemma RepliesDecode(s: Session, bytes: Bytes, env: Env)
    requires SessionOk(s) && ShortFrames(bytes) && AllSendable(s.replies)
    ensures var rs := ServeBytes(s, bytes, env).replies; Resp.DecodeAll(Resp.EncodeAll(rs)) == Some(rs)
  {
    EachIsFrame(bytes);
    RepliesSendable(s, Frames(bytes), env);
    Resp.DecodeAllEncoded(ServeBytes(s, bytes, env).replies);
  }

  // ---- leftovers ----

  predicate NamesFile(words: seq<Bytes>) {
    CommandOf(words).CmdSave? || CommandOf(words).CmdLoad?
  }

  /** Two choices are the same to a line, but for a leftover path it does not look at. */
  ghost predicate SameChoice(words: seq<Bytes>, secondSeen: bool, c: FileChoice, d: FileChoice) {
    NamesFile(words) ==>
      c.opens == d.opens && c.stack == d.stack && (|words| > 1 || !secondSeen || c.leftover == d.leftover)
  }

  /** The choices from the n-th on are the same to the frames. */
  ghost predicate Alike(frames: seq<Bytes>, n: nat, secondSeen: bool, env: Env, other: Env) {
    || frames == []
    || (&& SameChoice(Words(frames[0]), secondSeen, env.files(n), other.files(n))
        && Alike(frames[1..], n + 1, secondSeen || |Words(frames[0])| > 1, env, other))
  }

  lemma SameLine(s: Session, words: seq<Bytes>, env: Env, other: Env)
    requires SessionOk(s) && LineOk(words) && env.port == other.port
    requires SameChoice(words, s.secondSeen, env.files(s.frames), other.files(s.frames))
    ensures Execute(s, words, env) == Execute(s, words, other)
  {
  }

  lemma SameFrame(s: Session, frame: Bytes, env: Env, other: Env)
    requires SessionOk(s) && LineOk(Words(frame)) && env.port == other.port
    requires SameChoice(Words(frame), s.secondSeen, env.files(s.frames), other.files(s.frames))
    ensures AfterFrame(s, frame, env) == AfterFrame(s, frame, other)
  {
    SameLine(s, Words(frame), env, other);
  }

  lemma ServeNext(s: Session, frames: seq<Bytes>, env: Env, u: Session)
    requires SessionOk(s) && FramesOk(frames) && frames != [] && s.open
    requires LineOk(Words(frames[0])) && u == AfterFrame(s, frames[0], env)
    ensures SessionOk(u) && FramesOk(frames[1..]) && u.frames == s.frames + 1
    ensures u.secondSeen <==> s.secondSeen || |Words(frames[0])| > 1
    ensures Serve(s, frames, env) == Serve(u, frames[1..], env)
  {
  }

  lemma SameStep(s: Session, frames: seq<Bytes>, env: Env, other: Env) returns (u: Session)
    requires SessionOk(s) && FramesOk(frames) && frames != [] && s.open
    requires env.port == other.port && SameChoice(Words(frames[0]), s.secondSeen, env.files(s.frames), other.files(s.frames))
    ensures SessionOk(u) && FramesOk(frames[1..]) && u.frames == s.frames + 1
    ensures u.secondSeen <==> s.secondSeen || |Words(frames[0])| > 1
    ensures Serve(s, frames, env) == Serve(u, frames[1..], env)
    ensures Serve(s, frames, other) == Serve(u, frames[1..], other)
  {
    FrameLineOk(frames[0]);
    u := AfterFrame(s, frames[0], env);
    SameFrame(s, frames[0], env, other);
    ServeNext(s, frames, env, u);
    ServeNext(s, frames, other, u);
  }

  /**
   * The interpreter's answer depends on a leftover only through a SAVE or LOAD without a path on a connection that has
   * seen a second word before; until then such a line uses the default path.
   */
  lemma {:induction false} LeftoversStayOut(s: Session, frames: seq<Bytes>, env: Env, other: Env)
    requires SessionOk(s) && FramesOk(frames)
    requires env.port == other.port && Alike(frames, s.frames, s.secondSeen, env, other)
    ensures Serve(s, frames, env) == Serve(s, frames, other)
    decreases |frames|
  {
    if frames != [] && s.open {
      var u := SameStep(s, frames, env, other);
      LeftoversStayOut(u, frames[1..], env, other);
    }
  }
}
