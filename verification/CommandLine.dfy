/**
 * Tokens as values: the maximal runs of a command line between delimiters, read as C strings,
 * and the single-space join SET stores.
 */
module CommandLine {
  import opened CStrings

  predicate IsDelim(b: byte) {
    b == SPACE || b == CR || b == LF
  }

  predicate DelimFree(s: Bytes) {
    forall i | 0 <= i < |s| :: !IsDelim(s[i])
  }

  // ---- runs ----

  datatype Span = Span(start: nat, end: nat)

  /** Scanning from `i` with the current run begun at `start`. */
  function RunsFrom(s: Bytes, start: nat, i: nat): seq<Span>
    requires start <= i <= |s|
    decreases |s| - i
  {
    if i == |s| then Closed(start, i)
    else if IsDelim(s[i]) then Closed(start, i) + RunsFrom(s, i + 1, i + 1)
    else RunsFrom(s, start, i + 1)
  }

  function Closed(start: nat, i: nat): seq<Span> {
    if start < i then [Span(start, i)] else []
  }

  function Runs(s: Bytes): seq<Span> {
    RunsFrom(s, 0, 0)
  }

  /** A non-empty stretch without delimiters that cannot be extended on either side. */
  predicate MaximalRun(s: Bytes, r: Span) {
    && r.start < r.end <= |s|
    && DelimFree(s[r.start..r.end])
    && (r.start == 0 || IsDelim(s[r.start - 1]))
    && (r.end == |s| || IsDelim(s[r.end]))
  }

  predicate InOrder(rs: seq<Span>) {
    forall i, j | 0 <= i < j < |rs| :: rs[i].end < rs[j].start
  }

  lemma {:induction false} RunsFromExact(s: Bytes, start: nat, i: nat, r: Span)
    requires start <= i <= |s| && DelimFree(s[start..i])
    requires start == 0 || IsDelim(s[start - 1])
    ensures r in RunsFrom(s, start, i) <==> MaximalRun(s, r) && r.start >= start
    decreases |s| - i
  {
    if i < |s| && !IsDelim(s[i]) {
      assert s[start..i + 1] == s[start..i] + [s[i]];
      RunsFromExact(s, start, i + 1, r);
    } else {
      if i < |s| {
        RunsFromExact(s, i + 1, i + 1, r);
      }
      assert r in Closed(start, i) <==> start < i && r == Span(start, i);
      if MaximalRun(s, r) && start <= r.start <= i {
        OneRun(s, start, i, r);
      }
    }
  }

  /** Between a boundary at `start` and one at `i` there is room for one maximal run. */
  lemma OneRun(s: Bytes, start: nat, i: nat, r: Span)
    requires start <= i <= |s| && DelimFree(s[start..i])
    requires start == 0 || IsDelim(s[start - 1])
    requires i == |s| || IsDelim(s[i])
    requires MaximalRun(s, r) && start <= r.start <= i
    ensures start < i && r == Span(start, i)
  {
    NoDelimIn(s, start, i);
    NoDelimIn(s, r.start, r.end);
  }

  lemma NoDelimIn(s: Bytes, a: nat, e: nat)
    requires a <= e <= |s| && DelimFree(s[a..e])
    ensures forall i | a <= i < e :: !IsDelim(s[i])
  {
    assert forall i | a <= i < e :: s[i] == s[a..e][i - a];
  }

  lemma {:induction false} RunsFromOrdered(s: Bytes, start: nat, i: nat)
    requires start <= i <= |s|
    ensures forall r | r in RunsFrom(s, start, i) :: start <= r.start && r.end <= |s| && (r.start >= i || r.start == start)
    ensures InOrder(RunsFrom(s, start, i))
    decreases |s| - i
  {
    if i < |s| {
      if IsDelim(s[i]) {
        RunsFromOrdered(s, i + 1, i + 1);
      } else {
        RunsFromOrdered(s, start, i + 1);
      }
    }
  }

  /** The runs are exactly the maximal ones, each once, from left to right. */
  lemma RunsExact(s: Bytes)
    ensures forall r :: r in Runs(s) <==> MaximalRun(s, r)
    ensures InOrder(Runs(s))
  {
    forall r
      ensures r in Runs(s) <==> MaximalRun(s, r)
    {
      RunsFromExact(s, 0, 0, r);
    }
    RunsFromOrdered(s, 0, 0);
  }

  // ---- words ----

  /** A token is the C string its run holds: a NUL in the line ends it early. */
  function WordOf(s: Bytes, r: Span): Bytes {
    if r.start <= r.end <= |s| then CStr(s[r.start..r.end]) else []
  }

  function WordsAt(s: Bytes, rs: seq<Span>): (w: seq<Bytes>)
    ensures |w| == |rs| && forall i | 0 <= i < |rs| :: w[i] == WordOf(s, rs[i])
  {
    seq(|rs|, i requires 0 <= i < |rs| => WordOf(s, rs[i]))
  }

  function Words(s: Bytes): seq<Bytes> {
    WordsAt(s, Runs(s))
  }

  /** The same words without positions: scanning `s` with the run `run` under way. */
  function Scan(s: Bytes, run: Bytes): seq<Bytes> {
    if s == [] then Word(run)
    else if IsDelim(s[0]) then Word(run) + Scan(s[1..], [])
    else Scan(s[1..], run + [s[0]])
  }

  function Word(run: Bytes): seq<Bytes> {
    if run == [] then [] else [CStr(run)]
  }

  lemma WordsAtConcat(s: Bytes, a: seq<Span>, b: seq<Span>)
    ensures WordsAt(s, a + b) == WordsAt(s, a) + WordsAt(s, b)
  {
  }

  lemma ClosedIsWord(s: Bytes, start: nat, i: nat)
    requires start <= i <= |s|
    ensures WordsAt(s, Closed(start, i)) == Word(s[start..i])
  {
  }

  lemma {:induction false} ScanIsRuns(s: Bytes, start: nat, i: nat)
    requires start <= i <= |s|
    ensures WordsAt(s, RunsFrom(s, start, i)) == Scan(s[i..], s[start..i])
    decreases |s| - i
  {
    hide WordsAt, Word;
    ClosedIsWord(s, start, i);
    if i < |s| {
      var rest := s[i..];
      assert rest[0] == s[i] && rest[1..] == s[i + 1..];
      if IsDelim(s[i]) {
        ScanIsRuns(s, i + 1, i + 1);
        assert s[i + 1..i + 1] == [];
        WordsAtConcat(s, Closed(start, i), RunsFrom(s, i + 1, i + 1));
      } else {
        ScanIsRuns(s, start, i + 1);
        assert s[start..i + 1] == s[start..i] + [s[i]];
      }
    }
  }

  lemma WordsAreScan(s: Bytes)
    ensures Words(s) == Scan(s, [])
  {
    ScanIsRuns(s, 0, 0);
    assert s[0..] == s && s[0..0] == [];
  }

  lemma {:induction false} ScanSplit(a: Bytes, d: byte, b: Bytes, run: Bytes)
    requires IsDelim(d)
    ensures Scan(a + [d] + b, run) == Scan(a, run) + Scan(b, [])
    decreases |a|
  {
    var s := a + [d] + b;
    if a == [] {
      assert s[1..] == b;
    } else {
      assert s[1..] == a[1..] + [d] + b;
      ScanSplit(a[1..], d, b, if IsDelim(a[0]) then [] else run + [a[0]]);
    }
  }

  /** A delimiter separates the words on its left from those on its right. */
  lemma WordsSplit(a: Bytes, d: byte, b: Bytes)
    requires IsDelim(d)
    ensures Words(a + [d] + b) == Words(a) + Words(b)
  {
    WordsAreScan(a + [d] + b);
    WordsAreScan(a);
    WordsAreScan(b);
    ScanSplit(a, d, b, []);
  }

  lemma {:induction false} ScanWord(w: Bytes, run: Bytes)
    requires DelimFree(w)
    ensures Scan(w, run) == Word(run + w)
    decreases |w|
  {
    if w == [] {
      assert run + w == run;
    } else {
      ScanWord(w[1..], run + [w[0]]);
      assert run + [w[0]] + w[1..] == run + w;
    }
  }

  // ---- the join ----

  const BLANK: Bytes := [SPACE]

  /** The words joined by single spaces. */
  function Join(ws: seq<Bytes>): Bytes {
    if ws == [] then []
    else if |ws| == 1 then ws[0]
    else Join(ws[..|ws| - 1]) + [SPACE] + ws[|ws| - 1]
  }

  /** A word that tokenizing a line can produce and give back: not empty, no delimiter, no NUL. */
  predicate IsWord(w: Bytes) {
    w != [] && DelimFree(w) && NulFree(w)
  }

  lemma WordsOfWord(w: Bytes)
    requires IsWord(w)
    ensures Words(w) == [w]
  {
    WordsAreScan(w);
    ScanWord(w, []);
    assert [] + w == w;
    CStrOfCString(w);
  }

  /** Tokenizing a single-space join of words returns the words. */
  lemma {:induction false} WordsOfJoin(ws: seq<Bytes>)
    requires forall i | 0 <= i < |ws| :: IsWord(ws[i])
    ensures Words(Join(ws)) == ws
  {
    if |ws| == 1 {
      WordsOfWord(ws[0]);
    } else if |ws| > 1 {
      var n := |ws| - 1;
      WordsOfJoin(ws[..n]);
      WordsOfWord(ws[n]);
      WordsSplit(Join(ws[..n]), SPACE, ws[n]);
      assert ws == ws[..n] + [ws[n]];
    }
  }

  /** The words of a line hold no delimiter and no NUL; those of a NUL-free line are not empty either. */
  lemma {:induction false} ScanGivesWords(s: Bytes, run: Bytes, w: Bytes)
    requires DelimFree(run)
    requires w in Scan(s, run)
    ensures DelimFree(w) && NulFree(w)
    ensures NulFree(s) && NulFree(run) ==> w != []
    decreases |s|
  {
    if NulFree(run) {
      CStrOfCString(run);
    }
    if s != [] && !(IsDelim(s[0]) && w in Word(run)) {
      ScanGivesWords(s[1..], if IsDelim(s[0]) then [] else run + [s[0]], w);
    }
  }

  lemma WordsAreClean(v: Bytes)
    ensures forall i | 0 <= i < |Words(v)| :: DelimFree(Words(v)[i]) && NulFree(Words(v)[i])
    ensures NulFree(v) ==> forall i | 0 <= i < |Words(v)| :: IsWord(Words(v)[i])
  {
    forall i | 0 <= i < |Words(v)|
      ensures DelimFree(Words(v)[i]) && NulFree(Words(v)[i])
      ensures NulFree(v) ==> IsWord(Words(v)[i])
    {
      WordsAreScan(v);
      ScanGivesWords(v, [], Words(v)[i]);
    }
  }

  /**
   * Joining and tokenizing again gives the same words exactly when no word is empty, that is,
   * when no run of the line begins with a NUL; so always for a NUL-free line.
   */
  lemma JoinIsStable(v: Bytes)
    ensures Words(Join(Words(v))) == Words(v) <==> [] !in Words(v)
    ensures NulFree(v) ==> [] !in Words(v)
    ensures [] !in Words(v) ==> Join(Words(Join(Words(v)))) == Join(Words(v))
  {
    WordsAreClean(v);
    if [] !in Words(v) {
      WordsOfJoin(Words(v));
    } else {
      JoinNulFree(Words(v));
      WordsAreClean(Join(Words(v)));
    }
  }

  lemma {:induction false} JoinNulFree(ws: seq<Bytes>)
    requires forall i | 0 <= i < |ws| :: NulFree(ws[i])
    ensures NulFree(Join(ws))
  {
    if |ws| > 1 {
      JoinNulFree(ws[..|ws| - 1]);
    }
  }

  // ---- values that come back exactly ----

  /** No NUL, CR or LF, and no space at either end or next to another. */
  predicate Tidy(v: Bytes) {
    && NulFree(v)
    && (forall i | 0 <= i < |v| :: v[i] != CR && v[i] != LF)
    && (v != [] ==> v[0] != SPACE && v[|v| - 1] != SPACE)
    && (forall i | 0 <= i < |v| - 1 :: v[i] != SPACE || v[i + 1] != SPACE)
  }

  lemma WordIsTidy(w: Bytes)
    requires IsWord(w)
    ensures Tidy(w)
  {
  }

  lemma TidyJoin(a: Bytes, w: Bytes)
    requires a != [] && w != [] && Tidy(a) && Tidy(w)
    ensures Tidy(a + [SPACE] + w)
  {
    var v := a + [SPACE] + w;
    forall i | 0 <= i < |v| - 1
      ensures v[i] != SPACE || v[i + 1] != SPACE
    {
      if i < |a| - 1 {
        assert v[i] == a[i] && v[i + 1] == a[i + 1];
      } else if i > |a| {
        var j := i - |a| - 1;
        assert v[i] == w[j] && v[i + 1] == w[j + 1];
      }
    }
  }

  lemma {:induction false} JoinIsTidy(ws: seq<Bytes>)
    requires forall i | 0 <= i < |ws| :: IsWord(ws[i])
    ensures Tidy(Join(ws)) && (ws != [] ==> Join(ws) != [])
  {
    if |ws| == 1 {
      WordIsTidy(ws[0]);
    } else if |ws| > 1 {
      var n := |ws| - 1;
      JoinIsTidy(ws[..n]);
      WordIsTidy(ws[n]);
      TidyJoin(Join(ws[..n]), ws[n]);
    }
  }

  /** Where the last word of a line begins. */
  function LastStart(v: Bytes): (p: nat)
    ensures p <= |v| && DelimFree(v[p..]) && (p > 0 ==> IsDelim(v[p - 1]))
  {
    if v == [] || IsDelim(v[|v| - 1]) then |v|
    else
      var p := LastStart(v[..|v| - 1]);
      assert v[p..] == v[..|v| - 1][p..] + [v[|v| - 1]];
      p
  }

  lemma TidyFront(v: Bytes, p: nat)
    requires Tidy(v) && 0 < p < |v| && v[p] == SPACE
    ensures Tidy(v[..p]) && v[..p] != []
  {
  }

  lemma {:induction false} TidyComesBack(v: Bytes)
    requires Tidy(v)
    ensures Join(Words(v)) == v
    decreases |v|
  {
    var p := LastStart(v);
    if v == [] {
      WordsAreScan(v);
    } else if p == 0 {
      assert v[0..] == v;
      WordsOfWord(v);
    } else {
      var a, w := v[..p - 1], v[p..];
      assert v == a + [SPACE] + w;
      TidyFront(v, p - 1);
      TidyComesBack(a);
      WordsOfWord(w);
      WordsSplit(a, SPACE, w);
      assert (Words(a) + [w])[..|Words(a)|] == Words(a);
    }
  }

  /** The normal form SET stores is the value itself exactly for the tidy values. */
  lemma ComesBackExactly(v: Bytes)
    ensures Join(Words(v)) == v <==> Tidy(v)
  {
    if Tidy(v) {
      TidyComesBack(v);
    } else if Join(Words(v)) == v {
      WordsAreClean(v);
      JoinNulFree(Words(v));
      JoinIsTidy(Words(v));
    }
  }
}
