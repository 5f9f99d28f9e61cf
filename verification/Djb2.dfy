/** The DJB2 string hash and the bucket it selects (src/hash.c). */
module Djb2 {
  import opened CStrings

  const NUM_BUCKETS: int := 256

  /** DJB2 over unbounded integers and unsigned bytes: 5381, then times 33 plus the next byte. */
  function Hash(s: Bytes): nat {
    if s == [] then 5381 else Hash(s[..|s| - 1]) * 33 + s[|s| - 1] as int
  }

  function Pow33(n: nat): nat {
    if n == 0 then 1 else 33 * Pow33(n - 1)
  }

  /** The bytes, each times the power of 33 for its distance from the end. */
  function Weighted(s: Bytes): nat {
    if s == [] then 0 else s[0] as nat * Pow33(|s| - 1) + Weighted(s[1..])
  }

  lemma {:induction false} WeightedSnoc(s: Bytes, b: byte)
    ensures Weighted(s + [b]) == 33 * Weighted(s) + b as nat
  {
    var t := s + [b];
    if s == [] {
      assert t[1..] == [];
    } else {
      assert t[1..] == s[1..] + [b];
      WeightedSnoc(s[1..], b);
      ThirtyThreeTimes(s[0] as nat, Pow33(|s| - 1));
    }
  }

  lemma {:induction false} ThirtyThreeTimes(a: nat, p: nat)
    ensures a * (33 * p) == 33 * (a * p)
  {
  }

  /** DJB2 without recursion over prefixes: 5381 * 33^n plus each byte times its power of 33. */
  lemma {:induction false} HashClosedForm(s: Bytes)
    ensures Hash(s) == 5381 * Pow33(|s|) + Weighted(s)
  {
    if s != [] {
      var n := |s| - 1;
      HashClosedForm(s[..n]);
      WeightedSnoc(s[..n], s[n]);
      assert s[..n] + [s[n]] == s;
    }
  }

  lemma HashOfSomeStrings()
    ensures Hash([]) == 5381 && Hash(Ascii("a")) == 177670 && Hash(Ascii("ab")) == 5863208
  {
    var a, ab := Ascii("a"), Ascii("ab");
    assert a[..0] == [] && ab[..1] == a;
  }

  function BucketOf(key: Bytes): (b: nat)
    ensures b < NUM_BUCKETS
  {
    Hash(key) % NUM_BUCKETS
  }

  /** Values of an unsigned word of `bits` bits run below this. */
  function WordSize(bits: nat): (m: nat)
    ensures m > 0
  {
    if bits == 0 then 1 else 2 * WordSize(bits - 1)
  }

  lemma {:induction false} WordSizeMultiple(bits: nat)
    requires bits >= 8
    ensures WordSize(bits) % NUM_BUCKETS == 0
  {
    if bits > 8 {
      WordSizeMultiple(bits - 1);
    } else {
      assert WordSize(1) == 2 && WordSize(2) == 4;
      assert WordSize(3) == 8 && WordSize(4) == 16;
      assert WordSize(5) == 32 && WordSize(6) == 64;
      assert WordSize(7) == 128 && WordSize(8) == 256;
    }
  }

  /** Wrapping at any word size that is a multiple of 256 is invisible modulo 256. */
  lemma {:induction false} WrapIsInvisible(x: int, m: int)
    requires m > 0 && m % NUM_BUCKETS == 0
    ensures (x % m) % NUM_BUCKETS == x % NUM_BUCKETS
  {
    var q, k := x / m, m / NUM_BUCKETS;
    assert x == m * q + x % m;
    assert m * q == NUM_BUCKETS * (k * q);
    ShiftByMultiple(x % m, k * q);
  }

  lemma {:induction false} ShiftByMultiple(r: int, n: int)
    ensures (NUM_BUCKETS * n + r) % NUM_BUCKETS == r % NUM_BUCKETS
  {
  }

  lemma {:induction false} SumResidue(x: int, y: int, c: int)
    requires x % NUM_BUCKETS == y % NUM_BUCKETS
    ensures (x + c) % NUM_BUCKETS == (y + c) % NUM_BUCKETS
  {
    var n := x / NUM_BUCKETS - y / NUM_BUCKETS;
    assert x + c == NUM_BUCKETS * n + (y + c);
    ShiftByMultiple(y + c, n);
  }

  /** One round of the loop, on residues: only the value of the byte modulo 256 matters. */
  lemma {:induction false} RoundResidue(h: int, g: int, c: int, d: int)
    requires h % NUM_BUCKETS == g % NUM_BUCKETS
    requires c == d || c == d - 256
    ensures (33 * h + c) % NUM_BUCKETS == (33 * g + d) % NUM_BUCKETS
  {
    var n := 33 * (h / NUM_BUCKETS - g / NUM_BUCKETS) + if c == d then 0 else -1;
    assert 33 * h + c == NUM_BUCKETS * n + (33 * g + d);
    ShiftByMultiple(33 * g + d, n);
  }

  /**
   * hash_fn: an accumulator in an unsigned word of `bits` bits, a shift and two wrapping additions a byte.
   * `charIsSigned` says how the platform widens a char to int.
   */
  method HashFn(str: Bytes, bits: nat, charIsSigned: bool) returns (bucket: nat)
    requires NulFree(str)
    requires bits >= 8
    ensures bucket == BucketOf(str) == (5381 * Pow33(|str|) + Weighted(str)) % 256
  {
    HashClosedForm(str);
    var size := WordSize(bits);
    WordSizeMultiple(bits);
    var hash: int := 5381 % size;
    WrapIsInvisible(5381, size);
    var i := 0;
    while i < |str|
      invariant 0 <= i <= |str|
      invariant 0 <= hash < size
      invariant hash % NUM_BUCKETS == Hash(str[..i]) % NUM_BUCKETS
    {
      var c := if charIsSigned && str[i] >= 128 then str[i] as int - 256 else str[i] as int;
      ghost var before := hash;
      var shifted := (hash * 32) % size;
      var sum := (shifted + hash) % size;
      hash := (sum + c) % size;
      HashRound(before, c, size);
      assert str[..i + 1][..i] == str[..i];
      RoundResidue(before, Hash(str[..i]), c, str[i] as int);
      i := i + 1;
    }
    assert str[..i] == str;
    bucket := hash % NUM_BUCKETS;
  }

  /** The three wrapped values of a round, each known modulo 256. */
  lemma {:induction false} RoundOfResidues(h: int, c: int, shifted: int, sum: int, next: int)
    requires shifted % NUM_BUCKETS == (h * 32) % NUM_BUCKETS
    requires sum % NUM_BUCKETS == (shifted + h) % NUM_BUCKETS
    requires next % NUM_BUCKETS == (sum + c) % NUM_BUCKETS
    ensures next % NUM_BUCKETS == (33 * h + c) % NUM_BUCKETS
  {
    SumResidue(shifted, h * 32, h);
    SumResidue(sum, h * 32 + h, c);
    assert h * 32 + h + c == 33 * h + c;
  }

  lemma {:induction false} HashRound(h: int, c: int, size: int)
    requires size > 0 && size % NUM_BUCKETS == 0
    ensures (((h * 32) % size + h) % size + c) % size % NUM_BUCKETS == (33 * h + c) % NUM_BUCKETS
  {
    var shifted := (h * 32) % size;
    var sum := (shifted + h) % size;
    WrapIsInvisible(h * 32, size);
    WrapIsInvisible(shifted + h, size);
    WrapIsInvisible(sum + c, size);
    RoundOfResidues(h, c, shifted, sum, (sum + c) % size);
  }
}
