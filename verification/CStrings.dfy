/** Bytes, C strings and the constants shared by every part of the server. */
module CStrings {

  newtype byte = x: int | 0 <= x < 256

  type Bytes = seq<byte>

  const NUL: byte := 0
  const LF: byte := 10
  const CR: byte := 13
  const SPACE: byte := 32

  /** Strings at least this long are outside the range of a C `int`. */
  const MAX_LEN: int := 0x8000_0000

  datatype Option<+T> = None | Some(value: T)

  predicate NulFree(s: Bytes) {
    forall i | 0 <= i < |s| :: s[i] != NUL
  }

  /** What a C string function sees when it is handed a pointer to `s`: the bytes before the first NUL. */
  function CStr(s: Bytes): (r: Bytes)
    ensures NulFree(r)
    ensures r <= s
    ensures |r| < |s| ==> s[|r|] == NUL
  {
    if s == [] || s[0] == NUL then [] else [s[0]] + CStr(s[1..])
  }

  /** The first NUL decides the C string, whatever follows it. */
  lemma {:induction false} CStrUnique(s: Bytes, n: nat)
    requires n <= |s| && NulFree(s[..n])
    requires n < |s| ==> s[n] == NUL
    ensures CStr(s) == s[..n]
  {
    var r := CStr(s);
    assert forall i | 0 <= i < |r| :: s[i] == r[i];
    assert forall i | 0 <= i < n :: s[i] == s[..n][i];
  }

  lemma CStrOfCString(s: Bytes)
    requires NulFree(s)
    ensures CStr(s) == s
  {
    CStrUnique(s, |s|);
    assert s[..|s|] == s;
  }

  /** A NUL written anywhere after the run [a, e) that it terminates leaves the run readable as a C string. */
  lemma CStrTerminated(mem: Bytes, a: nat, e: nat)
    requires a <= e < |mem| && mem[e] == NUL
    ensures CStr(mem[a..]) == CStr(mem[a..e])
  {
    var r := CStr(mem[a..e]);
    assert r == mem[a..e][..|r|] == mem[a..][..|r|];
    if |r| < e - a {
      assert mem[a..e][|r|] == mem[a..][|r|];
    } else {
      assert mem[a..][|r|] == mem[e];
    }
    CStrUnique(mem[a..], |r|);
  }

  /** Printable text of a message as the bytes a C string literal holds. */
  function Ascii(s: string): (b: Bytes)
    requires forall i | 0 <= i < |s| :: ' ' <= s[i] <= '~'
    ensures |b| == |s|
    ensures forall i | 0 <= i < |s| :: b[i] as int == s[i] as int
    ensures forall i | 0 <= i < |b| :: 32 <= b[i] < 127
  {
    seq(|s|, i requires 0 <= i < |s| => s[i] as int as byte)
  }

  /** The images of `xs` under `f`, one after the other. */
  function Flatten<T>(f: T -> Bytes, xs: seq<T>): Bytes {
    if xs == [] then [] else f(xs[0]) + Flatten(f, xs[1..])
  }

  lemma {:induction false} FlattenConcat<T>(f: T -> Bytes, xs: seq<T>, ys: seq<T>)
    ensures Flatten(f, xs + ys) == Flatten(f, xs) + Flatten(f, ys)
  {
    if xs == [] {
      assert xs + ys == ys;
    } else {
      FlattenConcat(f, xs[1..], ys);
      assert (xs + ys)[1..] == xs[1..] + ys;
      assert Flatten(f, xs + ys) == f(xs[0]) + Flatten(f, xs[1..] + ys);
    }
  }

  lemma FlattenOne<T>(f: T -> Bytes, x: T)
    ensures Flatten(f, [x]) == f(x)
  {
  }
}
