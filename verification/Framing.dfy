/** How received bytes become command frames (src/server.c): the first CRLF ends a frame, whatever the chunking. */
module Framing {
  import opened CStrings

  predicate CrlfAt(s: Bytes, i: int) {
    0 <= i && i + 1 < |s| && s[i] == CR && s[i + 1] == LF
  }

  predicate NoCrlf(s: Bytes) {
    forall i | 0 <= i < |s| - 1 :: !CrlfAt(s, i)
  }

  /** Just past the first CRLF, or 0 when there is none. */
  function FirstCrlf(s: Bytes): (end: nat)
    ensures end <= |s|
  {
    if |s| < 2 then 0
    else if s[0] == CR && s[1] == LF then 2
    else
      var rest := FirstCrlf(s[1..]);
      if rest == 0 then 0 else rest + 1
  }

  lemma {:induction false} FirstCrlfIsFirst(s: Bytes)
    ensures FirstCrlf(s) == 0 <==> NoCrlf(s)
    ensures FirstCrlf(s) > 0 ==>
              && 2 <= FirstCrlf(s) && CrlfAt(s, FirstCrlf(s) - 2)
              && forall i | 0 <= i < FirstCrlf(s) - 2 :: !CrlfAt(s, i)
  {
    if |s| >= 2 {
      if s[0] == CR && s[1] == LF {
        assert CrlfAt(s, 0);
      } else {
        FirstCrlfIsFirst(s[1..]);
        assert forall i | 1 <= i < |s| - 1 :: CrlfAt(s, i) <==> CrlfAt(s[1..], i - 1);
        assert FirstCrlf(s) > 0 ==> CrlfAt(s, FirstCrlf(s) - 2);
      }
    }
  }

  lemma FirstCrlfUnique(s: Bytes, end: nat)
    requires 2 <= end <= |s| && CrlfAt(s, end - 2) && forall i | 0 <= i < end - 2 :: !CrlfAt(s, i)
    ensures FirstCrlf(s) == end
  {
    FirstCrlfIsFirst(s);
  }

  /** The complete frames in a byte sequence, each with its CRLF. */
  function Frames(s: Bytes): seq<Bytes>
    decreases |s|
  {
    var end := FirstCrlf(s);
    if end == 0 then [] else [s[..end]] + Frames(s[end..])
  }

  /** What is left in the buffer after the complete frames. */
  function Residual(s: Bytes): Bytes
    decreases |s|
  {
    var end := FirstCrlf(s);
    if end == 0 then s else Residual(s[end..])
  }

  function Concat(frames: seq<Bytes>): Bytes {
    if frames == [] then [] else frames[0] + Concat(frames[1..])
  }

  /** A frame ends with a CRLF and has no other. */
  predicate IsFrame(f: Bytes) {
    |f| >= 2 && CrlfAt(f, |f| - 2) && forall i | 0 <= i < |f| - 2 :: !CrlfAt(f, i)
  }

  lemma FirstIsFrame(s: Bytes)
    requires FirstCrlf(s) != 0
    ensures IsFrame(s[..FirstCrlf(s)])
  {
    FirstCrlfIsFirst(s);
    var end := FirstCrlf(s);
    var f := s[..end];
    assert forall i | 0 <= i < end - 1 :: CrlfAt(f, i) <==> CrlfAt(s, i);
  }

  lemma {:induction false} EachIsFrame(s: Bytes)
    ensures forall i | 0 <= i < |Frames(s)| :: IsFrame(Frames(s)[i])
    decreases |s|
  {
    if FirstCrlf(s) != 0 {
      FirstIsFrame(s);
      EachIsFrame(s[FirstCrlf(s)..]);
    }
  }

  lemma CutAndRest(s: Bytes, end: nat, later: seq<Bytes>, rest: Bytes)
    requires end <= |s| && Concat(later) + rest == s[end..]
    ensures Concat([s[..end]] + later) + rest == s
  {
    assert ([s[..end]] + later)[1..] == later;
    assert s[..end] + (Concat(later) + rest) == s;
  }

  lemma {:induction false} FramesMakeUp(s: Bytes)
    ensures Concat(Frames(s)) + Residual(s) == s
    ensures FirstCrlf(Residual(s)) == 0
    decreases |s|
  {
    var end := FirstCrlf(s);
    if end != 0 {
      FramesMakeUp(s[end..]);
      CutAndRest(s, end, Frames(s[end..]), Residual(s[end..]));
    }
  }

  /** Nothing is lost or invented: frames and residual make up the input, and there is no CRLF but at frame ends. */
  lemma FramesPartition(s: Bytes)
    ensures Concat(Frames(s)) + Residual(s) == s
    ensures NoCrlf(Residual(s))
    ensures forall i | 0 <= i < |Frames(s)| :: IsFrame(Frames(s)[i])
  {
    EachIsFrame(s);
    FramesMakeUp(s);
    FirstCrlfIsFirst(Residual(s));
  }

  lemma FirstOfAppend(a: Bytes, b: Bytes)
    requires FirstCrlf(a) != 0
    ensures FirstCrlf(a + b) == FirstCrlf(a)
  {
    FirstCrlfIsFirst(a);
    assert forall i | 0 <= i < |a| - 1 :: CrlfAt(a + b, i) <==> CrlfAt(a, i);
    FirstCrlfUnique(a + b, FirstCrlf(a));
  }

  lemma CutFront(a: Bytes, b: Bytes)
    requires FirstCrlf(a) != 0
    ensures Frames(a + b) == [a[..FirstCrlf(a)]] + Frames(a[FirstCrlf(a)..] + b)
    ensures Residual(a + b) == Residual(a[FirstCrlf(a)..] + b)
  {
    FirstOfAppend(a, b);
    assert (a + b)[..FirstCrlf(a)] == a[..FirstCrlf(a)];
    assert (a + b)[FirstCrlf(a)..] == a[FirstCrlf(a)..] + b;
  }

  /** Bytes that arrive later only touch the residual. */
  lemma {:induction false} FramesAppend(a: Bytes, b: Bytes)
    ensures Frames(a + b) == Frames(a) + Frames(Residual(a) + b)
    ensures Residual(a + b) == Residual(Residual(a) + b)
    decreases |a|
  {
    var end := FirstCrlf(a);
    if end != 0 {
      CutFront(a, b);
      FramesAppend(a[end..], b);
      assert [a[..end]] + (Frames(a[end..]) + Frames(Residual(a) + b)) == Frames(a) + Frames(Residual(a) + b);
    }
  }

  /** The frames extracted, in order, when chunk after chunk is appended to a buffer holding `buf`, and the final buffer. */
  function Feed(buf: Bytes, chunks: seq<Bytes>): (seq<Bytes>, Bytes)
    decreases |chunks|
  {
    if chunks == [] then ([], buf)
    else
      var s := buf + chunks[0];
      var (frames, rest) := Feed(Residual(s), chunks[1..]);
      (Frames(s) + frames, rest)
  }

  lemma FeedStep(buf: Bytes, chunk: Bytes, chunks: seq<Bytes>, later: Bytes)
    requires Feed(Residual(buf + chunk), chunks) == (Frames(Residual(buf + chunk) + later), Residual(Residual(buf + chunk) + later))
    ensures Feed(buf, [chunk] + chunks) == (Frames(buf + (chunk + later)), Residual(buf + (chunk + later)))
  {
    FramesAppend(buf + chunk, later);
    assert buf + (chunk + later) == buf + chunk + later;
    assert ([chunk] + chunks)[0] == chunk && ([chunk] + chunks)[1..] == chunks;
  }

  /** The frames and what is left depend on the bytes received, not on how they were cut into chunks. */
  lemma {:induction false} ChunkIndependence(buf: Bytes, chunks: seq<Bytes>)
    requires NoCrlf(buf)
    ensures Feed(buf, chunks) == (Frames(buf + Concat(chunks)), Residual(buf + Concat(chunks)))
    decreases |chunks|
  {
    if chunks == [] {
      assert buf + Concat(chunks) == buf;
      FirstCrlfIsFirst(buf);
    } else {
      FramesPartition(buf + chunks[0]);
      ChunkIndependence(Residual(buf + chunks[0]), chunks[1..]);
      FeedStep(buf, chunks[0], chunks[1..], Concat(chunks[1..]));
      assert [chunks[0]] + chunks[1..] == chunks;
    }
  }

  lemma {:induction false} ConcatAppend(a: seq<Bytes>, b: seq<Bytes>)
    ensures Concat(a + b) == Concat(a) + Concat(b)
  {
    if a == [] {
      assert a + b == b;
    } else {
      assert (a + b)[1..] == a[1..] + b;
      ConcatAppend(a[1..], b);
    }
  }

  /** Two ways to cut the same bytes give the same frames. */
  lemma SameBytesSameFrames(xs: seq<Bytes>, ys: seq<Bytes>)
    requires Concat(xs) == Concat(ys)
    ensures Feed([], xs) == Feed([], ys)
  {
    ChunkIndependence([], xs);
    ChunkIndependence([], ys);
  }

  lemma FrameInFront(f: Bytes, rest: Bytes)
    requires IsFrame(f)
    ensures FirstCrlf(f + rest) == |f|
    ensures Frames(f + rest) == [f] + Frames(rest) && Residual(f + rest) == Residual(rest)
  {
    var s := f + rest;
    assert forall i | 0 <= i < |f| - 1 :: CrlfAt(s, i) <==> CrlfAt(f, i);
    FirstCrlfUnique(s, |f|);
    assert s[..|f|] == f && s[|f|..] == rest;
  }

  /** Frames sent one after the other are received as they were sent. */
  lemma {:induction false} FramesOfConcat(fs: seq<Bytes>)
    requires forall i | 0 <= i < |fs| :: IsFrame(fs[i])
    ensures Frames(Concat(fs)) == fs && Residual(Concat(fs)) == []
  {
    if fs != [] {
      FramesOfConcat(fs[1..]);
      FrameInFront(fs[0], Concat(fs[1..]));
      assert [fs[0]] + fs[1..] == fs;
    }
  }
}
