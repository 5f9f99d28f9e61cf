/**
 * The replies (src/reply.c) in the Redis serialization protocol, RESP2: sections "Simple strings", "Simple errors",
 * "Integers" and "Bulk strings" of its specification. A decoder recovers the replies from the bytes sent.
 */
module Resp {
  import opened CStrings
  import opened Decimal
  import opened Framing

  datatype Reply =
    | Simple(text: Bytes)
    | Error(text: Bytes)
    | Integer(n: int)
    | Bulk(data: Bytes)
    | Nil

  const CRLF: Bytes := [CR, LF]
  const PLUS_SIGN: byte := 43
  const MINUS_SIGN: byte := 45
  const COLON: byte := 58
  const DOLLAR: byte := 36

  function Encode(r: Reply): Bytes {
    match r
    case Simple(t) => [PLUS_SIGN] + t + CRLF
    case Error(t) => [MINUS_SIGN] + t + CRLF
    case Integer(n) => [COLON] + Format(n) + CRLF
    case Bulk(d) => [DOLLAR] + Format(|d|) + CRLF + d + CRLF
    case Nil => [DOLLAR, MINUS, 49] + CRLF
  }

  /** The bytes of each reply, as the protocol writes them. */
  lemma EncodedBytes(r: Reply)
    ensures match r
            case Simple(t) => Encode(r) == Ascii("+") + t + [13, 10]
            case Error(t) => Encode(r) == Ascii("-") + t + [13, 10]
            case Integer(n) => Encode(r) == Ascii(":") + Format(n) + [13, 10]
            case Bulk(d) => Encode(r) == Ascii("$") + Format(|d|) + [13, 10] + d + [13, 10]
            case Nil => Encode(r) == Ascii("$-1") + [13, 10]
  {
    assert Ascii("+") == [43] && Ascii("-") == [45] && Ascii(":") == [58] && Ascii("$") == [36];
    assert Ascii("$-1") == [36, 45, 49];
  }

  /** Simple strings and errors are lines: no CR and no LF inside. A bulk string is unrestricted. */
  predicate Sendable(r: Reply) {
    match r
    case Simple(t) => IsLine(t)
    case Error(t) => IsLine(t)
    case _ => true
  }

  predicate IsLine(t: Bytes) {
    forall i | 0 <= i < |t| :: t[i] != CR && t[i] != LF
  }

  /** The number a decimal text denotes, sign included. */
  function ParseInt(s: Bytes): int {
    if s != [] && s[0] == MINUS then 0 - Accumulate(s[1..], 0) else Accumulate(s, 0)
  }

  /** One reply off the front of a byte sequence, and the bytes after it. */
  function Decode(s: Bytes): Option<(Reply, Bytes)> {
    var end := FirstCrlf(s);
    if end < 3 then None
    else
      var line := s[1..end - 2];
      var rest := s[end..];
      if s[0] == PLUS_SIGN then Some((Simple(line), rest))
      else if s[0] == MINUS_SIGN then Some((Error(line), rest))
      else if s[0] == COLON then Some((Integer(ParseInt(line)), rest))
      else if s[0] == DOLLAR then
        var n := ParseInt(line);
        if n == -1 then Some((Nil, rest))
        else if 0 <= n && n + 2 <= |rest| && rest[n..n + 2] == CRLF then Some((Bulk(rest[..n]), rest[n + 2..]))
        else None
      else None
  }

  function DecodeAll(s: Bytes): Option<seq<Reply>>
    decreases |s|
  {
    if s == [] then Some([])
    else
      match Decode(s)
      case None => None
      case Some((r, rest)) =>
        if |rest| >= |s| then None
        else
          match DecodeAll(rest)
          case None => None
          case Some(rs) => Some([r] + rs)
  }

  function EncodeAll(rs: seq<Reply>): Bytes {
    Flatten(Encode, rs)
  }

  lemma {:induction false} ParseFormat(n: int)
    ensures ParseInt(Format(n)) == n
    ensures IsLine(Format(n))
  {
    DigitsValue(if n < 0 then -n else n);
    if n < 0 {
      assert Format(n)[1..] == Digits(-n);
    }
  }

  /** The first CRLF after a line is the one that ends it. */
  lemma LineEnds(tag: byte, line: Bytes, rest: Bytes)
    requires IsLine(line) && tag != CR
    ensures var s := [tag] + line + CRLF + rest;
            && FirstCrlf(s) == |line| + 3
            && s[0] == tag && s[1..|line| + 1] == line && s[|line| + 3..] == rest
  {
    var s := [tag] + line + CRLF + rest;
    var end := |line| + 3;
    assert s[end - 2] == CR && s[end - 1] == LF;
    assert forall i | 1 <= i < end - 2 :: s[i] == line[i - 1];
    FirstCrlfUnique(s, end);
  }

  lemma DecodeEncoded(r: Reply, rest: Bytes)
    requires Sendable(r)
    ensures Decode(Encode(r) + rest) == Some((r, rest))
  {
    match r
    case Simple(t) =>
      LineEnds(PLUS_SIGN, t, rest);
    case Error(t) =>
      LineEnds(MINUS_SIGN, t, rest);
    case Integer(n) =>
      ParseFormat(n);
      LineEnds(COLON, Format(n), rest);
    case Bulk(d) =>
      DecodeBulk(d, rest);
    case Nil =>
      assert Encode(r) + rest == [DOLLAR] + [MINUS, 49] + CRLF + rest;
      LineEnds(DOLLAR, [MINUS, 49], rest);
      assert Accumulate([49], 0) == 1 by { assert [49][1..] == []; }
      assert [MINUS, 49][1..] == [49];
  }

  lemma BulkBody(d: Bytes, rest: Bytes)
    ensures var after := d + CRLF + rest; after[|d|..|d| + 2] == CRLF && after[..|d|] == d && after[|d| + 2..] == rest
  {
  }

  lemma DecodeBulk(d: Bytes, rest: Bytes)
    ensures Decode(Encode(Bulk(d)) + rest) == Some((Bulk(d), rest))
  {
    var s := Encode(Bulk(d)) + rest;
    var after := d + CRLF + rest;
    ParseFormat(|d|);
    assert s == [DOLLAR] + Format(|d|) + CRLF + after;
    LineEnds(DOLLAR, Format(|d|), after);
    BulkBody(d, rest);
  }

  lemma DecodeAllStep(s: Bytes, r: Reply, rest: Bytes, rs: seq<Reply>)
    requires Decode(s) == Some((r, rest)) && |rest| < |s| && DecodeAll(rest) == Some(rs)
    ensures DecodeAll(s) == Some([r] + rs)
  {
  }

  lemma EncodeNotEmpty(r: Reply)
    ensures |Encode(r)| > 0
  {
  }

  /** A client that decodes the output stream sees the replies that were sent, in order. */
  lemma {:induction false} DecodeAllEncoded(rs: seq<Reply>)
    requires forall i | 0 <= i < |rs| :: Sendable(rs[i])
    ensures DecodeAll(EncodeAll(rs)) == Some(rs)
  {
    if rs != [] {
      var tail := EncodeAll(rs[1..]);
      DecodeAllEncoded(rs[1..]);
      DecodeEncoded(rs[0], tail);
      EncodeNotEmpty(rs[0]);
      DecodeAllStep(Encode(rs[0]) + tail, rs[0], tail, rs[1..]);
      assert [rs[0]] + rs[1..] == rs;
    } else {
      assert EncodeAll(rs) == [];
    }
  }

  /** So the bytes sent determine the replies. */
  lemma RepliesFromBytes(rs: seq<Reply>, qs: seq<Reply>)
    requires forall i | 0 <= i < |rs| :: Sendable(rs[i])
    requires forall i | 0 <= i < |qs| :: Sendable(qs[i])
    requires EncodeAll(rs) == EncodeAll(qs)
    ensures rs == qs
  {
    DecodeAllEncoded(rs);
    DecodeAllEncoded(qs);
  }

  lemma EncodeAllAppend(rs: seq<Reply>, r: Reply)
    ensures EncodeAll(rs + [r]) == EncodeAll(rs) + Encode(r)
  {
    FlattenConcat(Encode, rs, [r]);
    FlattenOne(Encode, r);
  }
}
