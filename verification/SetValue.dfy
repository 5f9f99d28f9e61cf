/** How cmd_set rebuilds a value from tokens in a buffer of precomputed capacity (src/cmd.c, src/strbuf.c). */
module SetValue {
  import opened CStrings
  import opened CommandLine
  import opened Parser
  import opened StrBuf

  /** Sum of the lengths of the words. */
  function Lengths(ws: seq<Bytes>): nat {
    if ws == [] then 0 else Lengths(ws[..|ws| - 1]) + |ws[|ws| - 1]|
  }

  /** The join is the words and one space between neighbours. */
  lemma {:induction false} JoinLengthExact(ws: seq<Bytes>)
    requires ws != []
    ensures |Join(ws)| == Lengths(ws) + |ws| - 1
  {
    if |ws| > 1 {
      JoinLengthExact(ws[..|ws| - 1]);
    } else {
      assert ws[..0] == [];
    }
  }

  lemma {:induction false} LengthsGrow(ws: seq<Bytes>, n: nat)
    requires n <= |ws|
    ensures Lengths(ws[..n]) <= Lengths(ws)
  {
    if n < |ws| {
      LengthsGrow(ws[..|ws| - 1], n);
      assert ws[..|ws| - 1][..n] == ws[..n];
    } else {
      assert ws[..n] == ws;
    }
  }

  lemma NextWord(words: seq<Bytes>, t: nat)
    requires 2 <= t < |words|
    ensures words[2..t + 1] == words[2..t] + [words[t]]
    ensures words[2..t + 1][..t - 2] == words[2..t]
    ensures Lengths(words[2..t + 1]) == Lengths(words[2..t]) + |words[t]|
    ensures t > 2 ==> Join(words[2..t + 1]) == Join(words[2..t]) + BLANK + words[t]
  {
    assert words[2..t + 1][..t - 2] == words[2..t];
  }

  /** The first loop: the summed lengths of the tokens from the third on. */
  method ValueLength(cmd: Cmd, mem: array<byte>, ghost words: seq<Bytes>) returns (len: nat)
    requires cmd.Reads(mem, words) && |words| >= 3
    ensures len == Lengths(words[2..])
  {
    len := 0;
    var t := 2;
    while t < cmd.tokens.count
      invariant 2 <= t <= |words|
      invariant len == Lengths(words[2..t])
    {
      var w := cmd.Token(mem, t, words);
      NextWord(words, t);
      len := len + |w|;
      t := t + 1;
    }
    assert words[2..t] == words[2..];
  }

  /** One more token in a buffer that has room for it: the buffer stays where it is, and so do the tokens. */
  method AppendToken(cmd: Cmd, mem: array<byte>, ghost words: seq<Bytes>, t: nat, str: StringBuffer, ghost text: Bytes)
    requires cmd.Reads(mem, words) && t < |words| && NulFree(words[t])
    requires str.Holds(text) && |text| + |words[t]| + 2 <= str.cap
    requires str.buf != mem && str.buf != cmd.tokens.buf as object
    modifies str, str.buf
    ensures cmd.Reads(mem, words)
    ensures str.Holds(text + BLANK + words[t])
    ensures str.buf == old(str.buf) && str.cap == old(str.cap)
    ensures str.reallocs == old(str.reallocs) && str.moved == old(str.moved)
  {
    assert Used(BLANK) == BLANK;
    var w := cmd.Token(mem, t, words);
    str.Append(w, BLANK, text);
    assert cmd.Reads(mem, words);
  }

  /**
   * The buffer SET fills: strbuf_new cuts nothing, no append reallocates, and the final length is the summed
   * token lengths plus the token count minus two, terminator included.
   */
  method RebuildValue(cmd: Cmd, mem: array<byte>, ghost words: seq<Bytes>) returns (str: StringBuffer)
    requires cmd.Reads(mem, words) && |words| >= 3
    requires forall i | 0 <= i < |words| :: NulFree(words[i])
    ensures fresh(str) && fresh(str.buf) && str.Holds(Join(words[2..]))
    ensures str.cap == Lengths(words[2..]) + |words| && str.reallocs == 0 && str.moved == 0
    ensures str.len == Lengths(words[2..]) + |words| - 2
  {
    hide Join, Lengths;
    var len := ValueLength(cmd, mem, words);
    var first := cmd.Token(mem, 2, words);
    Fits(words, 3);
    str := new StringBuffer.New(len + cmd.tokens.count, first);
    ghost var text := first;
    var t := 3;
    while t < cmd.tokens.count
      invariant 3 <= t <= |words|
      invariant cmd.Reads(mem, words)
      invariant fresh(str) && fresh(str.buf) && str.Holds(text) && text == Join(words[2..t])
      invariant str.cap == len + |words| && str.reallocs == 0 && str.moved == 0
    {
      Fits(words, t + 1);
      AppendToken(cmd, mem, words, t, str, text);
      text := text + BLANK + words[t];
      t := t + 1;
    }
    assert words[2..t] == words[2..];
    JoinLengthExact(words[2..]);
  }

  /** Every intermediate value is the last one and a word, and fits the precomputed capacity with its terminator. */
  lemma Fits(words: seq<Bytes>, t: nat)
    requires 3 <= t <= |words|
    ensures |Join(words[2..t])| + 1 < Lengths(words[2..]) + |words|
    ensures Join(words[2..t]) == if t == 3 then words[2] else Join(words[2..t - 1]) + BLANK + words[t - 1]
  {
    var ws := words[2..];
    assert words[2..t] == ws[..t - 2];
    JoinLengthExact(ws[..t - 2]);
    LengthsGrow(ws, t - 2);
    NextWord(words, t - 1);
  }
}
