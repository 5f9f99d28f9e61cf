/**
 * worker_handle_client (src/server.c): received chunks pile up in a buffer, complete frames are cut off its front,
 * copied, tokenized in place and dispatched. Over the whole connection this is the reference interpreter
 * run on the frames of the received bytes.
 */
module Worker {
  import opened CStrings
  import opened CommandLine
  import opened Framing
  import opened Interpreter
  import opened Service
  import opened Parser
  import opened StrBuf
  import opened ServerState
  import opened Views
  import opened Handlers
  import Resp

  const BUFSIZ: nat := 8192

  // ---- the buffer ----

  /** find_crlf */
  method FindCrlf(buf: array<byte>, len: nat) returns (end: nat)
    requires len <= buf.Length
    ensures end == FirstCrlf(buf[..len])
  {
    ghost var s := buf[..len];
    FirstCrlfIsFirst(s);
    var i := 0;
    while i + 1 < len
      invariant 0 <= i
      invariant forall k | 0 <= k < i :: !CrlfAt(s, k)
    {
      assert s[i] == buf[i] && s[i + 1] == buf[i + 1];
      if buf[i] == CR && buf[i + 1] == LF {
        FirstCrlfUnique(s, i + 2);
        return i + 2;
      }
      i := i + 1;
    }
    end := 0;
  }

  /** memmove of the tail of a buffer to its front. */
  method MoveToFront(a: array<byte>, from: nat, n: nat)
    requires from + n <= a.Length
    modifies a
    ensures a[..n] == old(a[from..from + n])
  {
    var i := 0;
    while i < n
      invariant 0 <= i <= n
      invariant a[..i] == old(a[from..from + i])
      invariant forall k | i <= k < a.Length :: a[k] == old(a[k])
    {
      a[i] := a[from + i];
      i := i + 1;
    }
  }

  /** Drops the first `n` bytes of a raw buffer. */
  method Consume(sb: StringBuffer, n: nat)
    requires sb.Valid() && n <= sb.len
    modifies sb`len, sb.buf
    ensures sb.Valid() && sb.Raw() == old(sb.Raw())[n..]
  {
    sb.len := sb.len - n;
    if sb.len > 0 {
      MoveToFront(sb.buf, n, sb.len);
    }
  }

  // ---- one frame ----

  /** The parser's objects belong neither to the server nor to one another. */
  ghost predicate Apart(server: Server, client: Client, cmd: Cmd)
    reads server, server.Repr, client, cmd, cmd.tokens
  {
    && Ready(server, client) && cmd.tokens.Valid()
    && cmd !in server.Repr && cmd.tokens !in server.Repr && cmd.tokens.buf !in server.Repr
  }

  /** Server, connection and token slots stand for the session. */
  ghost predicate At(server: Server, client: Client, cmd: Cmd, s: Session)
    reads server, server.Repr, client, cmd, cmd.tokens, cmd.tokens.buf
  {
    && Apart(server, client, cmd) && Stands(ViewOf(server, client), s)
    && (cmd.tokens.Second().Some? <==> s.secondSeen)
  }

  /** What handling a frame makes of the value it is run on. */
  lemma FrameStands(v: View, s: Session, frame: Bytes, slot: bool, env: Env)
    requires Stands(v, s) && s.open && LineOk(Words(frame))
    requires slot <==> s.secondSeen || |Words(frame)| > 1
    ensures Stands(Handled(v, Words(frame), slot, env.port, env.files(s.frames)), AfterFrame(s, frame, env))
  {
    HandledStands(v, s, Words(frame), slot, env);
  }

  /** The frame in a buffer of its own, with a NUL behind it. */
  method CopyFrame(frame: Bytes) returns (mem: array<byte>)
    ensures fresh(mem) && mem.Length == |frame| + 1 && mem[..|frame|] == frame && mem[|frame|] == NUL
  {
    mem := new byte[|frame| + 1](_ => NUL);
    Memcpy(mem, 0, frame);
    mem[|frame|] := NUL;
    assert mem[..|frame|] == frame;
  }

  /** Parsing keeps to the parser's objects. */
  method ParseFrame(server: Server, client: Client, cmd: Cmd, mem: array<byte>, ghost frame: Bytes)
    requires Apart(server, client, cmd) && mem != cmd.tokens.buf as object && mem !in server.Repr
    requires IsFrame(frame) && mem.Length == |frame| + 1 && mem[..|frame|] == frame && mem[|frame|] == NUL
    modifies cmd, cmd.tokens, cmd.tokens.buf, mem
    ensures Apart(server, client, cmd) && ViewOf(server, client) == old(ViewOf(server, client))
    ensures cmd.tokens.buf == old(cmd.tokens.buf) || fresh(cmd.tokens.buf)
    ensures cmd.Reads(mem, Words(frame)) && cmd.entry == CommandOf(Words(frame)) && cmd.ready
    ensures cmd.tokens.Second().Some? <==> old(cmd.tokens.Second()).Some? || |Words(frame)| > 1
  {
    var consumed := cmd.Parse(mem, mem.Length - 1);
  }

  /** Copy, parse, dispatch: one frame is one line of the interpreter. */
  method RunFrame(server: Server, client: Client, cmd: Cmd, frame: Bytes, choice: FileChoice,
                  ghost s: Session, ghost env: Env)
    requires At(server, client, cmd, s) && s.open
    requires IsFrame(frame) && LineOk(Words(frame))
    requires env.port == server.port && choice == env.files(s.frames)
    modifies client, server.Repr, cmd, cmd.tokens, cmd.tokens.buf
    ensures At(server, client, cmd, AfterFrame(s, frame, env)) && fresh(server.Repr - old(server.Repr))
    ensures cmd.tokens.buf == old(cmd.tokens.buf) || fresh(cmd.tokens.buf)
  {
    hide AfterFrame, Handled, Execute, CommandOf;
    ghost var v := ViewOf(server, client);
    var mem := CopyFrame(frame);
    ParseFrame(server, client, cmd, mem, frame);
    FrameStands(v, s, frame, cmd.tokens.Second().Some?, env);
    var rc := Dispatch(server, cmd, mem, client, Words(frame), choice);
  }

  // ---- the connection ----

  ghost predicate BufferApart(server: Server, cmd: Cmd, querybuf: StringBuffer)
    reads server, cmd, cmd.tokens, querybuf
  {
    && querybuf.Valid() && querybuf !in server.Repr && querybuf.buf !in server.Repr
    && querybuf.buf != cmd.tokens.buf as object
  }

  /** Connection and buffer stand for a session with `q` waiting to be served. */
  ghost predicate Waiting(server: Server, client: Client, cmd: Cmd, querybuf: StringBuffer, s: Session)
    reads server, server.Repr, client, cmd, cmd.tokens, cmd.tokens.buf, querybuf
  {
    At(server, client, cmd, s) && BufferApart(server, cmd, querybuf)
  }

  /** The frame at the front of the buffer is run and removed. */
  method RunFront(server: Server, client: Client, cmd: Cmd, querybuf: StringBuffer, end: nat, choice: FileChoice,
                  ghost s: Session, ghost env: Env)
    requires Waiting(server, client, cmd, querybuf, s) && s.open && end <= querybuf.len
    requires var frame := querybuf.Raw()[..end]; IsFrame(frame) && LineOk(Words(frame))
    requires env.port == server.port && choice == env.files(s.frames)
    modifies client, server.Repr, cmd, cmd.tokens, cmd.tokens.buf, querybuf, querybuf.buf
    ensures Waiting(server, client, cmd, querybuf, AfterFrame(s, old(querybuf.Raw())[..end], env))
    ensures fresh(server.Repr - old(server.Repr)) && querybuf.buf == old(querybuf.buf)
    ensures cmd.tokens.buf == old(cmd.tokens.buf) || fresh(cmd.tokens.buf)
    ensures querybuf.Raw() == old(querybuf.Raw())[end..]
  {
    hide AfterFrame;
    var frame := querybuf.buf[..end];
    assert frame == querybuf.Raw()[..end];
    RunFrame(server, client, cmd, frame, choice, s, env);
    Consume(querybuf, end);
  }

  /** One round of the inner loop. */
  method RunNext(server: Server, client: Client, cmd: Cmd, querybuf: StringBuffer, choice: FileChoice,
                 ghost s: Session, ghost rest: Bytes, ghost env: Env) returns (found: bool, ghost t: Session)
    requires Waiting(server, client, cmd, querybuf, s) && s.open && ShortFrames(querybuf.Raw() + rest)
    requires env.port == server.port && choice == env.files(s.frames)
    modifies client, server.Repr, cmd, cmd.tokens, cmd.tokens.buf, querybuf, querybuf.buf
    ensures Waiting(server, client, cmd, querybuf, t)
    ensures fresh(server.Repr - old(server.Repr)) && querybuf.buf == old(querybuf.buf)
    ensures cmd.tokens.buf == old(cmd.tokens.buf) || fresh(cmd.tokens.buf)
    ensures Same(s, old(querybuf.Raw()) + rest, t, querybuf.Raw() + rest, env)
    ensures if found then t.frames == s.frames + 1 && querybuf.len < old(querybuf.len)
            else t == s && NoCrlf(querybuf.Raw())
  {
    hide ServeBytes, AfterFrame;
    ghost var q := querybuf.Raw();
    var end := FindCrlf(querybuf.buf, querybuf.len);
    FirstCrlfIsFirst(q);
    if end == 0 {
      return false, s;
    }
    ServeStep(s, q, rest, env);
    RunFront(server, client, cmd, querybuf, end, choice, s, env);
    found, t := true, AfterFrame(s, q[..end], env);
  }

  /** The inner loop: every complete frame in the buffer, until the connection closes. */
  method RunFrames(server: Server, client: Client, cmd: Cmd, querybuf: StringBuffer, first: nat, env: Env,
                   ghost s: Session, ghost rest: Bytes)
      returns (frame: nat, ghost t: Session)
    requires Waiting(server, client, cmd, querybuf, s) && s.open && s.frames == first && env.port == server.port
    requires ShortFrames(querybuf.Raw() + rest)
    modifies client, server.Repr, cmd, cmd.tokens, cmd.tokens.buf, querybuf, querybuf.buf
    ensures Waiting(server, client, cmd, querybuf, t) && t.frames == frame
    ensures fresh(server.Repr - old(server.Repr)) && querybuf.buf == old(querybuf.buf)
    ensures cmd.tokens.buf == old(cmd.tokens.buf) || fresh(cmd.tokens.buf)
    ensures Same(s, old(querybuf.Raw()) + rest, t, querybuf.Raw() + rest, env)
    ensures t.open ==> NoCrlf(querybuf.Raw())
  {
    hide ServeBytes;
    frame, t := first, s;
    ghost var q := querybuf.Raw();
    var running := true;
    while running
      invariant Waiting(server, client, cmd, querybuf, t) && t.frames == frame
      invariant fresh(server.Repr - old(server.Repr)) && querybuf.buf == old(querybuf.buf)
      invariant cmd.tokens.buf == old(cmd.tokens.buf) || fresh(cmd.tokens.buf)
      invariant Same(s, q + rest, t, querybuf.Raw() + rest, env)
      invariant running ==> t.open
      invariant !running ==> !t.open || NoCrlf(querybuf.Raw())
      decreases running, querybuf.len
    {
      var found;
      found, t := RunNext(server, client, cmd, querybuf, env.files(frame), t, rest, env);
      if !found {
        break;
      }
      frame := frame + 1;
      if client.sock == -1 {
        running := false;
      }
    }
  }

  /** strbuf_append_noterm on the query buffer: the bytes still owed are the same, one chunk has moved over. */
  method Receive(server: Server, client: Client, cmd: Cmd, querybuf: StringBuffer, chunk: Bytes,
                 ghost s: Session, ghost rest: Bytes)
    requires Waiting(server, client, cmd, querybuf, s)
    modifies querybuf, querybuf.buf
    ensures Waiting(server, client, cmd, querybuf, s)
    ensures querybuf.buf == old(querybuf.buf) || fresh(querybuf.buf)
    ensures querybuf.Raw() + rest == old(querybuf.Raw()) + (chunk + rest)
  {
    querybuf.AppendNoterm(chunk);
    assert old(querybuf.Raw()) + chunk + rest == old(querybuf.Raw()) + (chunk + rest);
  }

  /** One round of the outer loop. */
  method RunChunk(server: Server, client: Client, cmd: Cmd, querybuf: StringBuffer, chunk: Bytes, first: nat, env: Env,
                  ghost s: Session, ghost rest: Bytes)
      returns (frame: nat, ghost t: Session)
    requires Waiting(server, client, cmd, querybuf, s) && s.open && s.frames == first && env.port == server.port
    requires ShortFrames(querybuf.Raw() + (chunk + rest))
    modifies client, server.Repr, cmd, cmd.tokens, cmd.tokens.buf, querybuf, querybuf.buf
    ensures Waiting(server, client, cmd, querybuf, t) && t.frames == frame
    ensures fresh(server.Repr - old(server.Repr))
    ensures querybuf.buf == old(querybuf.buf) || fresh(querybuf.buf)
    ensures cmd.tokens.buf == old(cmd.tokens.buf) || fresh(cmd.tokens.buf)
    ensures Same(s, old(querybuf.Raw()) + (chunk + rest), t, querybuf.Raw() + rest, env)
    ensures t.open ==> NoCrlf(querybuf.Raw())
  {
    Receive(server, client, cmd, querybuf, chunk, s, rest);
    frame, t := RunFrames(server, client, cmd, querybuf, first, env, s, rest);
  }

  /** The outer loop: chunks are received and their frames run until the stream ends or the connection closes. */
  method RunChunks(server: Server, client: Client, cmd: Cmd, querybuf: StringBuffer, chunks: seq<Bytes>, env: Env,
                   ghost s: Session)
    requires Waiting(server, client, cmd, querybuf, s) && s.open && s.frames == 0 && env.port == server.port
    requires querybuf.Raw() == [] && ShortFrames(Concat(Received(chunks)))
    modifies client, server.Repr, cmd, cmd.tokens, cmd.tokens.buf, querybuf, querybuf.buf
    ensures Waiting(server, client, cmd, querybuf, ServeBytes(s, Concat(Received(chunks)), env))
    ensures fresh(server.Repr - old(server.Repr))
    ensures client.sock != -1 ==> querybuf.Raw() == Residual(Concat(Received(chunks)))
  {
    hide ServeBytes, Residual;
    ghost var total := Concat(Received(chunks));
    var frame, i := 0, 0;
    ghost var t, owed := s, total;
    assert chunks[0..] == chunks && querybuf.Raw() + owed == total;
    while client.sock != -1
      invariant 0 <= i <= |chunks|
      invariant fresh(server.Repr - old(server.Repr))
      invariant cmd.tokens.buf == old(cmd.tokens.buf) || fresh(cmd.tokens.buf)
      invariant querybuf.buf == old(querybuf.buf) || fresh(querybuf.buf)
      invariant Waiting(server, client, cmd, querybuf, t) && t.frames == frame
      invariant owed == Concat(Received(chunks[i..])) && Same(s, total, t, querybuf.Raw() + owed, env)
      invariant t.open ==> NoCrlf(querybuf.Raw())
      decreases |chunks| - i
    {
      ReceivedNext(chunks, i);
      if i == |chunks| || chunks[i] == [] {
        break;
      }
      owed := Concat(Received(chunks[i + 1..]));
      frame, t := RunChunk(server, client, cmd, querybuf, chunks[i], frame, env, t, owed);
      i := i + 1;
    }
    NothingLeft(s, total, t, querybuf.Raw(), owed, env);
  }

  /**
   * The whole connection: for every stream of bytes, however it is cut into chunks, the server ends up where the
   * reference interpreter ends up on the frames of that stream, and the same replies have been sent.
   * While the connection is open, what is left in the buffer is the residual of the stream.
   */
  method HandleClient(server: Server, client: Client, chunks: seq<Bytes>, env: Env,
                      ghost s: Session) returns (left: Bytes)
    requires Ready(server, client) && Stands(ViewOf(server, client), s) && s.open && s.frames == 0 && !s.secondSeen
    requires env.port == server.port
    requires ShortFrames(Concat(Received(chunks)))
    modifies client, server.Repr
    ensures Ready(server, client) && fresh(server.Repr - old(server.Repr))
    ensures Stands(ViewOf(server, client), ServeBytes(s, Concat(Received(chunks)), env))
    ensures client.sock != -1 ==> left == Residual(Concat(Received(chunks)))
    ensures AllSendable(s.replies) ==>
              Resp.DecodeAll(client.out) == Some(ServeBytes(s, Concat(Received(chunks)), env).replies)
  {
    hide ServeBytes;
    if AllSendable(s.replies) {
      RepliesDecode(s, Concat(Received(chunks)), env);
    }
    var querybuf := new StringBuffer.Empty(BUFSIZ);
    var cmd := new Cmd();
    RunChunks(server, client, cmd, querybuf, chunks, env, s);
    left := querybuf.buf[..querybuf.len];
  }
}
