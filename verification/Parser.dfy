/**
 * The in-place tokenizer (src/parser.c, src/cmd.c): delimiters in the command buffer are overwritten with NUL and
 * tokens are pointers into the same buffer, kept in an array that doubles. Pointers are indices here.
 */
module Parser {
  import opened CStrings
  import opened CommandLine
  import opened Framing
  import opened Interpreter

  const TOKENS_INIT_CAP: int := 64

  /** A char pointer into the command buffer, or the null pointer. */
  type Pointer = Option<nat>

  class Tokens {
    var buf: array<Pointer>
    var count: nat
    var cap: nat

    ghost predicate Valid()
      reads this
    {
      buf.Length == cap && count <= cap && cap >= TOKENS_INIT_CAP
    }

    ghost function View(): seq<Pointer>
      requires Valid()
      reads this, buf
    {
      buf[..count]
    }

    /** The slot that SAVE and LOAD look into, whatever the count. */
    ghost function Second(): Pointer
      requires Valid()
      reads this, buf
    {
      buf[1]
    }

    constructor ()
      ensures Valid() && View() == [] && Second() == None && fresh(buf)
    {
      buf := new Pointer[TOKENS_INIT_CAP](_ => None);
      count, cap := 0, TOKENS_INIT_CAP;
    }

    /** add_token: doubles a full array, keeping the tokens it has. */
    method Add(ptr: nat)
      requires Valid()
      modifies this, buf
      ensures Valid() && View() == old(View()) + [Some(ptr)]
      ensures Second() == if old(count) == 1 then Some(ptr) else old(Second())
      ensures buf == old(buf) || fresh(buf)
      ensures cap == if old(count) < old(cap) then old(cap) else 2 * old(cap)
    {
      if count >= cap {
        var newCap := cap * 2;
        var tmp := new Pointer[newCap](i requires 0 <= i reads this, buf => if i < buf.Length then buf[i] else None);
        assert tmp[..count] == buf[..count];
        buf, cap := tmp, newCap;
      }
      buf[count] := Some(ptr);
      count := count + 1;
    }

    /** A line with fewer than two tokens leaves the second slot alone, any other fills it. */
    ghost predicate SecondSince(was: Pointer)
      reads this, buf
    {
      Valid() && if count <= 1 then Second() == was else Second().Some?
    }
  }

  /** The pointers of a list of runs. */
  function Starts(rs: seq<Span>): (p: seq<Pointer>)
    ensures |p| == |rs| && forall i | 0 <= i < |rs| :: p[i] == Some(rs[i].start)
  {
    seq(|rs|, i requires 0 <= i < |rs| => Some(rs[i].start))
  }

  /** The command line with its delimiters below `n` overwritten. */
  function Cut(s: Bytes, n: nat): (r: Bytes)
    ensures |r| == |s| && forall k | 0 <= k < |s| :: r[k] == if k < n && IsDelim(s[k]) then NUL else s[k]
  {
    seq(|s|, k requires 0 <= k < |s| => if k < n && IsDelim(s[k]) then NUL else s[k])
  }

  ghost predicate CrlfBefore(s: Bytes, n: nat) {
    exists k :: 0 <= k < n && CrlfAt(s, k)
  }

  /** Read from its pointer after all overwrites, a token is the word of its run. */
  lemma TokenText(s: Bytes, tail: Bytes, mem: Bytes, r: Span)
    requires mem == Cut(s, |s|) + tail && tail != [] && tail[0] == NUL && MaximalRun(s, r)
    ensures CStr(mem[r.start..]) == WordOf(s, r)
    ensures |CStr(mem[r.start..])| < |mem| - r.start
  {
    NoDelimIn(s, r.start, r.end);
    assert forall k | 0 <= k < |s| :: mem[k] == Cut(s, |s|)[k];
    assert mem[r.end] == NUL;
    assert mem[r.start..r.end] == s[r.start..r.end];
    CStrTerminated(mem, r.start, r.end);
  }

  /** Followed in `mem`, the pointer reads as the C string `w`. */
  ghost predicate Points(mem: Bytes, p: Pointer, w: Bytes) {
    p.Some? && p.value < |mem| && CStr(mem[p.value..]) == w && |w| < |mem| - p.value
  }

  class Cmd {
    const tokens: Tokens
    var entry: Command
    var ready: bool

    constructor ()
      ensures tokens.Valid() && tokens.View() == [] && tokens.Second() == None && fresh(tokens) && fresh(tokens.buf)
      ensures entry == CmdUnknown && !ready
    {
      tokens := new Tokens();
      entry, ready := CmdUnknown, false;
    }

    /** The token pointers, followed in `mem`, read as these words. */
    ghost predicate Reads(mem: array<byte>, words: seq<Bytes>)
      reads this, tokens, tokens.buf, mem
    {
      && tokens.Valid()
      && tokens.count == |words|
      && forall i | 0 <= i < |words| :: Points(mem[..], tokens.buf[i], words[i])
    }

    /** The delimiter branch: note a CRLF, overwrite the delimiter, and keep the run before it as a token. */
    method CloseRun(mem: array<byte>, p: nat, n: nat, i: nat, ghost was: Pointer)
      requires tokens.SecondSince(was) && mem != tokens.buf as object && p + n <= mem.Length && i < n
      modifies this`ready, tokens, tokens.buf, mem
      ensures tokens.SecondSince(was) && (tokens.buf == old(tokens.buf) || fresh(tokens.buf))
      ensures mem[..] == old(mem[..])[p + i := NUL]
      ensures ready == (old(ready) || (i + 1 < n && CrlfAt(old(mem[..]), p + i)))
      ensures tokens.View() == old(tokens.View()) + Starts(Closed(p, p + i))
    {
      ghost var view := tokens.View();
      if i + 1 < n && mem[p + i] == CR && mem[p + i + 1] == LF {
        ready := true;
      }
      mem[p + i] := NUL;
      if i > 0 {
        tokens.Add(p);
      }
      assert tokens.View() == view + Starts(Closed(p, p + i));
    }

    /** The same, as a step of the scan. */
    method CloseStep(mem: array<byte>, p: nat, n: nat, i: nat, ghost s: Bytes, ghost tail: Bytes, ghost was: Pointer)
      requires tokens.SecondSince(was) && mem != tokens.buf as object && p + n == |s| && i < n
      requires Scanned(s, tail, mem[..], tokens.View(), ready, p, i) && IsDelim(mem[p + i])
      modifies this`ready, tokens, tokens.buf, mem
      ensures tokens.SecondSince(was) && (tokens.buf == old(tokens.buf) || fresh(tokens.buf))
      ensures Scanned(s, tail, mem[..], tokens.View(), ready, p + i + 1, 0)
    {
      Unscanned(s, tail, mem[..], tokens.View(), ready, p, i);
      ScanClose(s, tail, mem[..], tokens.View(), ready, p, i);
      CloseRun(mem, p, n, i, was);
    }

    /** The run without a delimiter behind it. */
    method LastRun(mem: array<byte>, p: nat, i: nat, ghost s: Bytes, ghost tail: Bytes, ghost was: Pointer)
      requires tokens.SecondSince(was) && mem != tokens.buf as object
      requires Scanned(s, tail, mem[..], tokens.View(), ready, p, i) && p + i == |s|
      modifies tokens, tokens.buf
      ensures tokens.SecondSince(was) && (tokens.buf == old(tokens.buf) || fresh(tokens.buf))
      ensures tokens.View() == Starts(Runs(s)) && mem[..] == Cut(s, |s|) + tail && (ready <==> CrlfBefore(s, |s|))
      ensures DelimFree(s[p..]) && (p == 0 || IsDelim(s[p - 1]))
    {
      hide Cut, CrlfBefore;
      ScanEnd(s, tail, mem[..], tokens.View(), ready, p, i);
      if i > 0 {
        tokens.Add(p);
      }
    }

    /** tokenize */
    method Tokenize(mem: array<byte>, length: nat) returns (consumed: nat)
      requires tokens.Valid() && tokens.count == 0 && !ready
      requires length < mem.Length && mem != tokens.buf as object
      modifies this`ready, tokens, tokens.buf, mem
      ensures tokens.SecondSince(old(tokens.Second())) && (tokens.buf == old(tokens.buf) || fresh(tokens.buf))
      ensures entry == old(entry)
      ensures tokens.View() == Starts(Runs(old(mem[..length])))
      ensures mem[..] == Cut(old(mem[..length]), length) + old(mem[length..])
      ensures ready <==> CrlfBefore(old(mem[..length]), length)
      ensures consumed <= length && DelimFree(old(mem[..length])[consumed..])
      ensures consumed == 0 || IsDelim(old(mem[..length])[consumed - 1])
    {
      hide Cut, CrlfBefore, Scanned, DelimFree, Runs, Starts;
      ghost var s, tail, was := mem[..length], mem[length..], tokens.Second();
      var p, n, i := 0, length, 0;
      ScanBegin(s, tail);
      assert mem[..] == s + tail;
      while i < n
        invariant p + n == length && 0 <= i <= n
        invariant tokens.SecondSince(was) && (tokens.buf == old(tokens.buf) || fresh(tokens.buf)) && entry == old(entry)
        invariant Scanned(s, tail, mem[..], tokens.View(), ready, p, i)
        decreases n - i
      {
        if mem[p + i] == SPACE || mem[p + i] == CR || mem[p + i] == LF {
          CloseStep(mem, p, n, i, s, tail, was);
          p := p + (i + 1);
          n := n - (i + 1);
          i := 0;
        } else {
          ScanAdvance(s, tail, mem[..], tokens.View(), ready, p, i);
          i := i + 1;
        }
      }
      consumed := length - n;
      LastRun(mem, p, i, s, tail, was);
    }

    /** match_command, for a token array that reads as `words`: length first, then character by character. */
    method MatchCommand(mem: array<byte>, ghost words: seq<Bytes>)
      requires Reads(mem, words) && entry == CmdUnknown
      modifies this`entry
      ensures entry == CommandOf(words) && Named(entry, words)
    {
      hide Named;
      CommandIsNamed(words);
      if tokens.count == 0 {
        return;
      }
      var c := Token(mem, 0, words);
      if |c| == 3 {
        Letters3(c);
        if c[0] == 71 && c[1] == 69 && c[2] == 84 { entry := CmdGet; }
        else if c[0] == 83 && c[1] == 69 && c[2] == 84 { entry := CmdSet; }
        else if c[0] == 68 && c[1] == 69 && c[2] == 76 { entry := CmdDel; }
      } else if |c| == 4 {
        Letters4(c);
        if c[0] == 81 && c[1] == 85 && c[2] == 73 && c[3] == 84 { entry := CmdQuit; }
        else if c[0] == 73 && c[1] == 78 && c[2] == 70 && c[3] == 79 { entry := CmdInfo; }
        else if c[0] == 83 && c[1] == 65 && c[2] == 86 && c[3] == 69 { entry := CmdSave; }
        else if c[0] == 76 && c[1] == 79 && c[2] == 65 && c[3] == 68 { entry := CmdLoad; }
        else if c[0] == 73 && c[1] == 78 && c[2] == 67 && c[3] == 82 { entry := CmdIncr; }
      } else if |c| == 6 {
        Letters6(c);
        if c[0] == 83 && c[1] == 69 && c[2] == 76 && c[3] == 69 && c[4] == 67 && c[5] == 84 { entry := CmdSelect; }
      }
    }

    /** The C string behind token `i`: strlen and a copy. */
    method Token(mem: array<byte>, i: nat, ghost words: seq<Bytes>) returns (w: Bytes)
      requires Reads(mem, words) && i < tokens.count
      ensures w == words[i]
    {
      var p := tokens.buf[i].value;
      assert mem[p..] == mem[..][p..];
      var n := 0;
      while mem[p + n] != NUL
        invariant n <= |words[i]|
        invariant mem[p..p + n] == words[i][..n]
        decreases |words[i]| - n
      {
        assert mem[p..][n] == mem[p + n];
        n := n + 1;
      }
      assert mem[p..][n] == mem[p + n];
      w := mem[p..p + n];
    }

    /** cmd_parse: reset, tokenize, recognise. The tokens read as the words of the line, wherever old pointers lead. */
    method Parse(mem: array<byte>, length: nat) returns (consumed: nat)
      requires tokens.Valid() && mem != tokens.buf as object
      requires length < mem.Length && mem[length] == NUL
      modifies this, tokens, tokens.buf, mem
      ensures tokens.Valid() && (tokens.buf == old(tokens.buf) || fresh(tokens.buf))
      ensures Reads(mem, Words(old(mem[..length])))
      ensures tokens.Second().Some? <==> old(tokens.Second()).Some? || |Words(old(mem[..length]))| > 1
      ensures entry == CommandOf(Words(old(mem[..length])))
      ensures ready <==> CrlfBefore(old(mem[..length]), length)
      ensures IsFrame(old(mem[..length])) ==> ready && consumed == length
    {
      ghost var s, tail := mem[..length], mem[length..];
      tokens.count := 0;
      ready := false;
      entry := CmdUnknown;
      consumed := Tokenize(mem, length);
      ReadsWords(mem, s, tail);
      MatchCommand(mem, Words(s));
      if IsFrame(s) {
        WholeFrame(s, consumed);
      }
    }

    lemma ReadsWords(mem: array<byte>, s: Bytes, tail: Bytes)
      requires tokens.Valid() && tokens.View() == Starts(Runs(s))
      requires mem[..] == Cut(s, |s|) + tail && tail != [] && tail[0] == NUL
      ensures Reads(mem, Words(s))
    {
      RunsExact(s);
      forall i | 0 <= i < |Words(s)|
        ensures Points(mem[..], tokens.buf[i], Words(s)[i])
      {
        var r := Runs(s)[i];
        assert r in Runs(s);
        assert tokens.buf[i] == tokens.View()[i] == Some(r.start);
        TokenText(s, tail, mem[..], r);
      }
    }
  }

  /** A frame ends in delimiters, so nothing of it is left over. */
  lemma WholeFrame(s: Bytes, consumed: nat)
    requires IsFrame(s) && consumed <= |s| && DelimFree(s[consumed..])
    ensures consumed == |s| && CrlfBefore(s, |s|)
  {
    assert CrlfAt(s, |s| - 2);
    NoDelimIn(s, consumed, |s|);
  }

  // ---- spelling ----

  lemma Letters3(c: Bytes)
    requires |c| == 3
    ensures c == GET <==> c[0] == 71 && c[1] == 69 && c[2] == 84
    ensures c == SET <==> c[0] == 83 && c[1] == 69 && c[2] == 84
    ensures c == DEL <==> c[0] == 68 && c[1] == 69 && c[2] == 76
  {
  }

  lemma Letters4(c: Bytes)
    requires |c| == 4
    ensures c == QUIT <==> c[0] == 81 && c[1] == 85 && c[2] == 73 && c[3] == 84
    ensures c == INFO <==> c[0] == 73 && c[1] == 78 && c[2] == 70 && c[3] == 79
    ensures c == SAVE <==> c[0] == 83 && c[1] == 65 && c[2] == 86 && c[3] == 69
    ensures c == LOAD <==> c[0] == 76 && c[1] == 79 && c[2] == 65 && c[3] == 68
    ensures c == INCR <==> c[0] == 73 && c[1] == 78 && c[2] == 67 && c[3] == 82
  {
  }

  lemma Letters6(c: Bytes)
    requires |c| == 6
    ensures c == SELECT <==> c[0] == 83 && c[1] == 69 && c[2] == 76 && c[3] == 69 && c[4] == 67 && c[5] == 84
  {
  }

  // ---- steps of the scan ----

  /** The tokenizer has cut everything below `p`, and `i` bytes of a run lie behind its index. */
  ghost predicate Scanned(s: Bytes, tail: Bytes, mem: Bytes, view: seq<Pointer>, ready: bool, p: nat, i: nat) {
    && p + i <= |s|
    && mem == Cut(s, p) + tail
    && view + Starts(RunsFrom(s, p, p + i)) == Starts(Runs(s))
    && (ready <==> CrlfBefore(s, p))
    && DelimFree(s[p..p + i])
    && (p == 0 || IsDelim(s[p - 1]))
  }

  lemma ScanBegin(s: Bytes, tail: Bytes)
    ensures Scanned(s, tail, s + tail, [], false, 0, 0)
  {
    assert Cut(s, 0) == s;
  }

  /** What lies ahead is still the line. */
  lemma Unscanned(s: Bytes, tail: Bytes, mem: Bytes, view: seq<Pointer>, ready: bool, p: nat, i: nat)
    requires Scanned(s, tail, mem, view, ready, p, i) && p + i < |s|
    ensures |mem| == |s| + |tail| && mem[p + i] == s[p + i]
    ensures p + i + 1 < |s| ==> (CrlfAt(mem, p + i) <==> CrlfAt(s, p + i))
  {
    assert mem[p + i] == Cut(s, p)[p + i];
    if p + i + 1 < |s| {
      assert mem[p + i + 1] == Cut(s, p)[p + i + 1];
    }
  }

  lemma ScanAdvance(s: Bytes, tail: Bytes, mem: Bytes, view: seq<Pointer>, ready: bool, p: nat, i: nat)
    requires Scanned(s, tail, mem, view, ready, p, i) && p + i < |s| <= |mem| && !IsDelim(mem[p + i])
    ensures Scanned(s, tail, mem, view, ready, p, i + 1)
  {
    Unscanned(s, tail, mem, view, ready, p, i);
    assert s[p..p + i + 1] == s[p..p + i] + [s[p + i]];
  }

  lemma CutOneMore(s: Bytes, tail: Bytes, p: nat, k: nat)
    requires p <= k < |s| && IsDelim(s[k]) && forall j | p <= j < k :: !IsDelim(s[j])
    ensures (Cut(s, p) + tail)[k := NUL] == Cut(s, k + 1) + tail
  {
    assert Cut(s, p)[k := NUL] == Cut(s, k + 1);
  }

  lemma StartsAfter(s: Bytes, view: seq<Pointer>, p: nat, k: nat)
    requires p <= k < |s| && IsDelim(s[k]) && view + Starts(RunsFrom(s, p, k)) == Starts(Runs(s))
    ensures view + Starts(Closed(p, k)) + Starts(RunsFrom(s, k + 1, k + 1)) == Starts(Runs(s))
  {
    var rest := RunsFrom(s, k + 1, k + 1);
    assert Starts(Closed(p, k) + rest) == Starts(Closed(p, k)) + Starts(rest);
    assert view + (Starts(Closed(p, k)) + Starts(rest)) == (view + Starts(Closed(p, k))) + Starts(rest);
  }

  lemma CrlfOneMore(s: Bytes, p: nat, k: nat)
    requires p <= k < |s| && forall j | p <= j < k :: !IsDelim(s[j])
    ensures CrlfBefore(s, k + 1) <==> CrlfBefore(s, p) || CrlfAt(s, k)
  {
  }

  lemma ScanClose(s: Bytes, tail: Bytes, mem: Bytes, view: seq<Pointer>, ready: bool, p: nat, i: nat)
    requires Scanned(s, tail, mem, view, ready, p, i) && p + i < |s| && IsDelim(s[p + i])
    ensures |mem| == |s| + |tail|
    ensures Scanned(s, tail, mem[p + i := NUL], view + Starts(Closed(p, p + i)), ready || CrlfAt(s, p + i), p + i + 1, 0)
  {
    hide Cut, Starts, CrlfBefore, CrlfAt, RunsFrom, Closed;
    NoDelimIn(s, p, p + i);
    CutOneMore(s, tail, p, p + i);
    StartsAfter(s, view, p, p + i);
    CrlfOneMore(s, p, p + i);
  }

  lemma ScanEnd(s: Bytes, tail: Bytes, mem: Bytes, view: seq<Pointer>, ready: bool, p: nat, i: nat)
    requires Scanned(s, tail, mem, view, ready, p, i) && p + i == |s|
    ensures view + Starts(Closed(p, |s|)) == Starts(Runs(s))
    ensures mem == Cut(s, |s|) + tail
    ensures ready <==> CrlfBefore(s, |s|)
    ensures DelimFree(s[p..])
  {
    NoDelimIn(s, p, |s|);
    assert s[p..] == s[p..p + i];
    assert Cut(s, p) == Cut(s, |s|);
    assert CrlfBefore(s, |s|) <==> CrlfBefore(s, p);
  }
}
