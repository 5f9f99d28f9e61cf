/**
 * Decimal text of integers: what "%ld" prints and what atoi reads back.
 * C leaves atoi undefined outside the range of int; here it is strtol, saturating at 64 bits,
 * followed by a conversion to a 32-bit int.
 */
module Decimal {
  import opened CStrings

  const INT_MIN: int := -0x8000_0000
  const INT_MAX: int := 0x7FFF_FFFF
  const LONG_MIN: int := -0x8000_0000_0000_0000
  const LONG_MAX: int := 0x7FFF_FFFF_FFFF_FFFF

  const MINUS: byte := 45
  const PLUS: byte := 43

  predicate IsInt(n: int) {
    INT_MIN <= n <= INT_MAX
  }

  predicate IsDigit(b: byte) {
    48 <= b <= 57
  }

  /** isspace in the C locale. */
  predicate IsSpace(b: byte) {
    b == SPACE || 9 <= b <= 13
  }

  function Digits(n: nat): (s: Bytes)
    ensures |s| > 0 && forall i | 0 <= i < |s| :: IsDigit(s[i])
  {
    if n < 10 then [(48 + n) as byte] else Digits(n / 10) + [(48 + n % 10) as byte]
  }

  /** "%ld" */
  function Format(n: int): (s: Bytes)
    ensures |s| > 0 && NulFree(s) && forall i | 0 <= i < |s| :: IsDigit(s[i]) || s[i] == MINUS
  {
    if n < 0 then [MINUS] + Digits(-n) else Digits(n)
  }

  /** The number the leading digits of `s` denote, continuing from `acc`. */
  function Accumulate(s: Bytes, acc: nat): nat {
    if s == [] || !IsDigit(s[0]) then acc else Accumulate(s[1..], acc * 10 + (s[0] - 48) as nat)
  }

  function SkipSpaces(s: Bytes): Bytes {
    if s == [] || !IsSpace(s[0]) then s else SkipSpaces(s[1..])
  }

  function Strtol(s: Bytes): int {
    var t := SkipSpaces(s);
    if t == [] then 0
    else if t[0] == MINUS then Clamp(0 - Accumulate(t[1..], 0))
    else if t[0] == PLUS then Clamp(Accumulate(t[1..], 0))
    else Clamp(Accumulate(t, 0))
  }

  function Clamp(n: int): int {
    if n < LONG_MIN then LONG_MIN else if n > LONG_MAX then LONG_MAX else n
  }

  /** Conversion of a wider integer to int. */
  function WrapInt(n: int): (r: int)
    ensures IsInt(r)
    ensures r == n <==> IsInt(n)
  {
    (n - INT_MIN) % 0x1_0000_0000 + INT_MIN
  }

  lemma WrapAtTheEdge(n: int)
    requires n == INT_MAX
    ensures WrapInt(n + 1) == INT_MIN
  {
  }

  function Atoi(s: Bytes): (n: int)
    ensures IsInt(n)
  {
    WrapInt(Strtol(s))
  }

  lemma {:induction false} AccumulateAppend(a: Bytes, d: byte, acc: nat)
    requires forall i | 0 <= i < |a| :: IsDigit(a[i])
    requires IsDigit(d)
    ensures Accumulate(a + [d], acc) == Accumulate(a, acc) * 10 + (d - 48) as nat
  {
    if a == [] {
      assert Accumulate([d][1..], acc * 10 + (d - 48) as nat) == acc * 10 + (d - 48) as nat;
    } else {
      AccumulateAppend(a[1..], d, acc * 10 + (a[0] - 48) as nat);
      assert (a + [d])[1..] == a[1..] + [d];
    }
  }

  lemma {:induction false} DigitsValue(n: nat)
    ensures Accumulate(Digits(n), 0) == n
  {
    if n < 10 {
      assert Digits(n)[1..] == [];
    } else {
      DigitsValue(n / 10);
      AccumulateAppend(Digits(n / 10), (48 + n % 10) as byte, 0);
    }
  }

  lemma FormatStrtol(n: int)
    ensures Strtol(Format(n)) == Clamp(n)
  {
    DigitsValue(if n < 0 then -n else n);
    var s := Format(n);
    assert SkipSpaces(s) == s;
    if n < 0 {
      assert s[1..] == Digits(-n);
    }
  }

  /** atoi undoes "%ld" on the ints, and on no other number. */
  lemma AtoiInvertsFormat(n: int)
    ensures Atoi(Format(n)) == n <==> IsInt(n)
  {
    FormatStrtol(n);
  }

  lemma {:induction false} DigitsLength(n: nat, k: nat)
    requires k > 0 && n < Pow10(k)
    ensures |Digits(n)| <= k
  {
    if n >= 10 {
      assert k > 1;
      DigitsLength(n / 10, k - 1);
    }
  }

  function Pow10(k: nat): nat {
    if k == 0 then 1 else 10 * Pow10(k - 1)
  }

  /** What INCR stores always fits the 32-byte buffer it is printed into. */
  lemma FormatFits(n: int)
    requires INT_MIN <= n <= INT_MAX + 1
    ensures |Format(n)| <= 11
  {
    assert Pow10(10) == 10_000_000_000 by {
      assert Pow10(5) == 100_000;
    }
    DigitsLength(if n < 0 then -n else n, 10);
  }

  // ---- the number of any text ----

  predicate AllDigits(s: Bytes) {
    forall i | 0 <= i < |s| :: 48 <= s[i] <= 57
  }

  /** The number digits denote by their places. */
  function PlaceValue(ds: Bytes): nat
    requires AllDigits(ds)
  {
    if ds == [] then 0 else 10 * PlaceValue(ds[..|ds| - 1]) + (ds[|ds| - 1] as nat - 48)
  }

  /** A text as strtol reads it: white space, at most one sign, digits, and what no longer belongs to the number. */
  datatype Numeral = Numeral(spaces: Bytes, sign: Bytes, digits: Bytes, rest: Bytes)

  predicate Blank(b: byte) {
    b == 32 || 9 <= b <= 13
  }

  ghost predicate ReadsAs(s: Bytes, n: Numeral) {
    && s == n.spaces + (n.sign + (n.digits + n.rest))
    && (forall i | 0 <= i < |n.spaces| :: Blank(n.spaces[i]))
    && (n.sign == [] || n.sign == [43] || n.sign == [45])
    && AllDigits(n.digits)
    && (n.rest != [] ==> !(48 <= n.rest[0] <= 57))
    && (n.sign == n.digits == [] && n.rest != [] ==> !Blank(n.rest[0]) && n.rest[0] != 43 && n.rest[0] != 45)
  }

  lemma {:induction false} AccumulateIsValue(ds: Bytes)
    requires AllDigits(ds)
    ensures Accumulate(ds, 0) == PlaceValue(ds)
  {
    if ds != [] {
      var front := ds[..|ds| - 1];
      AccumulateIsValue(front);
      AccumulateAppend(front, ds[|ds| - 1], 0);
      assert front + [ds[|ds| - 1]] == ds;
    }
  }

  lemma {:induction false} AccumulateStops(ds: Bytes, rest: Bytes, acc: nat)
    requires AllDigits(ds) && (rest != [] ==> !(48 <= rest[0] <= 57))
    ensures Accumulate(ds + rest, acc) == Accumulate(ds, acc)
  {
    if ds == [] {
      assert ds + rest == rest;
    } else {
      assert (ds + rest)[1..] == ds[1..] + rest;
      AccumulateStops(ds[1..], rest, acc * 10 + (ds[0] - 48) as nat);
    }
  }

  lemma {:induction false} SpacesSkipped(spaces: Bytes, t: Bytes)
    requires forall i | 0 <= i < |spaces| :: Blank(spaces[i])
    requires t != [] ==> !Blank(t[0])
    ensures SkipSpaces(spaces + t) == t
  {
    if spaces == [] {
      assert spaces + t == t;
    } else {
      assert (spaces + t)[1..] == spaces[1..] + t;
      SpacesSkipped(spaces[1..], t);
    }
  }

  /** The digits after the sign, or in its place. */
  lemma SignRead(n: Numeral)
    requires ReadsAs(n.spaces + (n.sign + (n.digits + n.rest)), n)
    ensures SkipSpaces(n.spaces + (n.sign + (n.digits + n.rest))) == n.sign + (n.digits + n.rest)
    ensures Accumulate(n.digits + n.rest, 0) == PlaceValue(n.digits)
  {
    SpacesSkipped(n.spaces, n.sign + (n.digits + n.rest));
    AccumulateStops(n.digits, n.rest, 0);
    AccumulateIsValue(n.digits);
  }

  function NumberOf(n: Numeral): int
    requires AllDigits(n.digits)
  {
    if n.sign == [45] then 0 - PlaceValue(n.digits) else PlaceValue(n.digits)
  }

  lemma StrtolOfText(s: Bytes, n: Numeral)
    requires ReadsAs(s, n)
    ensures Strtol(s) == Clamp(NumberOf(n))
  {
    SignRead(n);
    var t := n.sign + (n.digits + n.rest);
    if n.sign != [] {
      assert t[0] == n.sign[0] && t[1..] == n.digits + n.rest;
    } else {
      assert t == n.digits + n.rest;
    }
  }

  lemma WrapResidue(n: int)
    ensures (WrapInt(n) - n) % 0x1_0000_0000 == 0
  {
    var q := (n - INT_MIN) / 0x1_0000_0000;
    assert WrapInt(n) - n == 0x1_0000_0000 * (0 - q);
  }

  lemma WrapOfExtremes()
    ensures WrapInt(LONG_MAX) == -1 && WrapInt(LONG_MIN) == 0
  {
  }

  /** atoi of any text: the number of its longest leading numeral, exactly as long as that is an int. */
  lemma AtoiOfText(s: Bytes, n: Numeral)
    requires ReadsAs(s, n)
    ensures Atoi(s) == NumberOf(n) <==> -0x8000_0000 <= NumberOf(n) <= 0x7FFF_FFFF
    ensures -0x8000_0000_0000_0000 <= NumberOf(n) <= 0x7FFF_FFFF_FFFF_FFFF ==> (Atoi(s) - NumberOf(n)) % 0x1_0000_0000 == 0
    ensures NumberOf(n) > 0x7FFF_FFFF_FFFF_FFFF ==> Atoi(s) == -1
    ensures NumberOf(n) < -0x8000_0000_0000_0000 ==> Atoi(s) == 0
  {
    hide Strtol, NumberOf, WrapInt;
    StrtolOfText(s, n);
    WrapResidue(NumberOf(n));
    WrapOfExtremes();
  }

  lemma {:induction false} DigitsInFront(s: Bytes) returns (ds: Bytes, rest: Bytes)
    ensures s == ds + rest && AllDigits(ds) && (rest != [] ==> !(48 <= rest[0] <= 57))
  {
    ds, rest := [], s;
    if s != [] && 48 <= s[0] <= 57 {
      ds, rest := DigitsInFront(s[1..]);
      ds := [s[0]] + ds;
    }
  }

  /** Every text can be read so. */
  lemma {:induction false} EveryTextReads(s: Bytes) returns (n: Numeral)
    ensures ReadsAs(s, n)
  {
    if s != [] && Blank(s[0]) {
      n := EveryTextReads(s[1..]);
      n := n.(spaces := [s[0]] + n.spaces);
    } else {
      var sign := if s != [] && (s[0] == 43 || s[0] == 45) then [s[0]] else [];
      var ds, rest := DigitsInFront(s[|sign|..]);
      n := Numeral([], sign, ds, rest);
      assert s == sign + s[|sign|..];
    }
  }

  /** What "%ld" prints is the shortest text of digits for the number, after a minus sign if it is negative. */
  lemma {:induction false} FormatIsShortest(n: int)
    ensures n < 0 ==> Format(n) == [45] + Format(-n)
    ensures n >= 0 ==> AllDigits(Format(n)) && PlaceValue(Format(n)) == n && (Format(n)[0] == 48 ==> n == 0)
  {
    if n >= 10 {
      FormatIsShortest(n / 10);
      assert Format(n)[..|Format(n)| - 1] == Format(n / 10);
    } else if n >= 0 {
      assert Format(n) == [(48 + n) as byte] && Format(n)[..0] == [];
    }
  }

  lemma {:induction false} FormatOfDigits(ds: Bytes)
    requires AllDigits(ds) && ds != [] && (ds[0] == 48 ==> |ds| == 1)
    ensures Format(PlaceValue(ds)) == ds
    ensures ds[0] != 48 ==> PlaceValue(ds) > 0
  {
    if |ds| > 1 {
      var front, d := ds[..|ds| - 1], ds[|ds| - 1];
      FormatOfDigits(front);
      assert PlaceValue(ds) / 10 == PlaceValue(front) && PlaceValue(ds) % 10 == d as nat - 48;
      assert front + [d] == ds;
    } else {
      assert ds[..0] == [];
    }
  }

  lemma SomeTexts()
    ensures Ascii("+17") == [43, 49, 55] && Ascii(" -42") == [32, 45, 52, 50]
    ensures Ascii("12abc") == [49, 50, 97, 98, 99] && Ascii("Davide") == [68, 97, 118, 105, 100, 101]
  {
  }

  /** Some texts of the kind the documentation of INCR and SELECT has in mind, and some it warns of. */
  lemma AtoiOfSomeTexts()
    ensures Atoi(Ascii("+17")) == 17 && Atoi(Ascii(" -42")) == -42
    ensures Atoi(Ascii("12abc")) == 12 && Atoi(Ascii("Davide")) == 0
  {
    hide Atoi;
    SomeTexts();
    TwoDigits([43, 49, 55], [], [43], 49, 55, []);
    TwoDigits([32, 45, 52, 50], [32], [45], 52, 50, []);
    TwoDigits([49, 50, 97, 98, 99], [], [], 49, 50, [97, 98, 99]);
    NoDigits([68, 97, 118, 105, 100, 101]);
  }

  lemma NoDigits(s: Bytes)
    requires s != [] ==> !Blank(s[0]) && s[0] != 43 && s[0] != 45 && !(48 <= s[0] <= 57)
    ensures Atoi(s) == 0
  {
    AtoiOfText(s, Numeral([], [], [], s));
  }

  lemma TwoDigits(s: Bytes, spaces: Bytes, sign: Bytes, a: byte, b: byte, rest: Bytes)
    requires AllDigits([a, b]) && ReadsAs(s, Numeral(spaces, sign, [a, b], rest))
    ensures Atoi(s) == (if sign == [45] then -1 else 1) * (10 * (a as int - 48) + (b as int - 48))
  {
    assert [a, b][..1] == [a] && [a][..0] == [];
    assert PlaceValue([a]) == a as int - 48;
    assert PlaceValue([a, b]) == 10 * (a as int - 48) + (b as int - 48);
    AtoiOfText(s, Numeral(spaces, sign, [a, b], rest));
  }
}
