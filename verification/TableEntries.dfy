/**
 * The entries of a table as one list in dump order, and what inserting such a list does:
 * to the map of the target table and to the order of its chains.
 */
module TableEntries {
  import opened CStrings
  import opened Djb2
  import opened Chains

  /** The entries of the first `n` buckets: bucket by bucket, each chain head to tail. */
  function EntriesUpTo(t: Table, n: nat): Chain
    requires n <= |t|
  {
    if n == 0 then [] else EntriesUpTo(t, n - 1) + t[n - 1]
  }

  function Entries(t: Table): Chain {
    EntriesUpTo(t, |t|)
  }

  lemma {:induction false} EntriesCount(t: Table, n: nat)
    requires n <= |t|
    ensures |EntriesUpTo(t, n)| == CountUpTo(t, n)
  {
    if n > 0 {
      EntriesCount(t, n - 1);
    }
  }

  lemma {:induction false} EntriesUnique(t: Table, n: nat)
    requires TableOk(t) && n <= |t|
    ensures EntriesOk(EntriesUpTo(t, n))
    ensures forall i | 0 <= i < |EntriesUpTo(t, n)| :: BucketOf(EntriesUpTo(t, n)[i].key) < n
  {
    if n > 0 {
      EntriesUnique(t, n - 1);
      assert ChainOk(t[n - 1], n - 1);
    }
  }

  lemma {:induction false} ChainGetConcat(a: Chain, b: Chain, k: Bytes)
    ensures ChainGet(a + b, k) == if ChainGet(a, k).Some? then ChainGet(a, k) else ChainGet(b, k)
  {
    if a == [] {
      assert a + b == b;
    } else {
      assert (a + b)[1..] == a[1..] + b;
      ChainGetConcat(a[1..], b, k);
    }
  }

  /** Searching the whole list finds what searching the key's bucket finds. */
  lemma {:induction false} EntriesLookup(t: Table, n: nat, k: Bytes)
    requires TableOk(t) && n <= |t|
    ensures ChainGet(EntriesUpTo(t, n), k) == if BucketOf(k) < n then Lookup(t, k) else None
  {
    if n > 0 {
      EntriesLookup(t, n - 1, k);
      ChainGetConcat(EntriesUpTo(t, n - 1), t[n - 1], k);
      assert ChainOk(t[n - 1], n - 1);
    }
  }

  /** hash_set of every entry in turn. */
  function PutAll(t: Table, c: Chain): (r: Table)
    requires |t| == NUM_BUCKETS
    ensures |r| == NUM_BUCKETS
    decreases |c|
  {
    if c == [] then t else PutAll(TableSet(t, c[0].key, c[0].value), c[1..])
  }

  lemma {:induction false} PutAllOk(t: Table, c: Chain)
    requires TableOk(t) && EntriesOk(c)
    ensures TableOk(PutAll(t, c))
    decreases |c|
  {
    if c != [] {
      TableSetOk(t, c[0].key, c[0].value);
      PutAllOk(TableSet(t, c[0].key, c[0].value), c[1..]);
    }
  }

  lemma {:induction false} PutAllLookup(t: Table, c: Chain, k: Bytes)
    requires |t| == NUM_BUCKETS && EntriesOk(c)
    ensures Lookup(PutAll(t, c), k) == if ChainGet(c, k).Some? then ChainGet(c, k) else Lookup(t, k)
    decreases |c|
  {
    hide ChainSet;
    if c != [] {
      ChainSetGet(t[BucketOf(c[0].key)], c[0].key, c[0].value, k);
      PutAllLookup(TableSet(t, c[0].key, c[0].value), c[1..], k);
    }
  }

  /** Putting the entries of `u` into `t` overrides the map of `t` by the map of `u`. */
  lemma PutAllIsOverride(t: Table, u: Table)
    requires TableOk(t) && TableOk(u)
    ensures TableOk(PutAll(t, Entries(u)))
    ensures Dictionary(PutAll(t, Entries(u))) == Dictionary(t) + Dictionary(u)
  {
    EntriesUnique(u, |u|);
    PutAllOk(t, Entries(u));
    var r, m := PutAll(t, Entries(u)), Dictionary(t) + Dictionary(u);
    forall k
      ensures k in m <==> Lookup(r, k).Some?
      ensures k in m ==> Lookup(r, k) == Some(m[k])
    {
      DictionaryIsLookup(t, k);
      DictionaryIsLookup(u, k);
      PutAllLookup(t, Entries(u), k);
      EntriesLookup(u, |u|, k);
    }
    SameLookups(r, m);
  }

  lemma SetPresent(c: Chain, k: Bytes, v: Bytes)
    requires ChainGet(c, k) == Some(v)
    ensures ChainSet(c, k, v) == c
  {
    var i := Find(c, k);
    assert c[i] == Entry(k, v);
  }

  /** Entries already present are written back in place: nothing moves. */
  lemma {:induction false} PutAllPresent(t: Table, c: Chain)
    requires |t| == NUM_BUCKETS
    requires forall i | 0 <= i < |c| :: Lookup(t, c[i].key) == Some(c[i].value)
    ensures PutAll(t, c) == t
  {
    if c != [] {
      assert Lookup(t, c[0].key) == Some(c[0].value);
      SetPresent(t[BucketOf(c[0].key)], c[0].key, c[0].value);
      assert TableSet(t, c[0].key, c[0].value) == t;
      PutAllPresent(t, c[1..]);
    }
  }

  lemma PutAllTwice(t: Table, c: Chain)
    requires |t| == NUM_BUCKETS && EntriesOk(c)
    ensures PutAll(PutAll(t, c), c) == PutAll(t, c)
  {
    forall i | 0 <= i < |c|
      ensures Lookup(PutAll(t, c), c[i].key) == Some(c[i].value)
    {
      FindUnique(c, i);
      PutAllLookup(t, c, c[i].key);
    }
    PutAllPresent(PutAll(t, c), c);
  }

  // ---- chain order ----

  function Reverse(c: Chain): (r: Chain)
    ensures |r| == |c|
    ensures forall i | 0 <= i < |c| :: r[i] == c[|c| - 1 - i]
  {
    seq(|c|, i requires 0 <= i < |c| => c[|c| - 1 - i])
  }

  function ReverseChains(t: Table): (r: Table)
    ensures |r| == |t| && forall b | 0 <= b < |t| :: r[b] == Reverse(t[b])
  {
    seq(|t|, b requires 0 <= b < |t| => Reverse(t[b]))
  }

  lemma {:induction false} PutAllConcat(t: Table, a: Chain, b: Chain)
    requires |t| == NUM_BUCKETS
    ensures PutAll(t, a + b) == PutAll(PutAll(t, a), b)
    decreases |a|
  {
    if a == [] {
      assert a + b == b;
    } else {
      assert (a + b)[1..] == a[1..] + b;
      PutAllConcat(TableSet(t, a[0].key, a[0].value), a[1..], b);
    }
  }

  /** New keys of one bucket pile up at its head. */
  lemma {:induction false} PutChainReverses(t: Table, c: Chain, b: nat)
    requires |t| == NUM_BUCKETS && ChainOk(c, b) && b < NUM_BUCKETS && t[b] == []
    ensures PutAll(t, c) == t[b := Reverse(c)]
  {
    if c == [] {
      assert t[b := Reverse(c)] == t;
    } else {
      var n := |c| - 1;
      var d := c[..n];
      assert c == d + [c[n]];
      assert ChainOk(d, b);
      PutChainReverses(t, d, b);
      PutAllConcat(t, d, [c[n]]);
      var u := t[b := Reverse(d)];
      NotFound(Reverse(d), c[n].key);
      assert Reverse(c) == [c[n]] + Reverse(d);
      assert PutAll(u, [c[n]]) == TableSet(u, c[n].key, c[n].value);
      assert TableSet(u, c[n].key, c[n].value) == u[b := Reverse(c)];
    }
  }

  lemma NotFound(c: Chain, k: Bytes)
    requires forall i | 0 <= i < |c| :: c[i].key != k
    ensures Find(c, k) == |c|
  {
  }

  function ReversedUpTo(t: Table, n: nat): (r: Table)
    requires |t| == NUM_BUCKETS
    ensures |r| == NUM_BUCKETS
  {
    seq(NUM_BUCKETS, b requires 0 <= b < NUM_BUCKETS => if b < n then Reverse(t[b]) else [])
  }

  lemma ReversedStep(t: Table, n: nat)
    requires |t| == NUM_BUCKETS && 0 < n <= |t|
    ensures ReversedUpTo(t, 0) == EmptyTable
    ensures ReversedUpTo(t, n) == ReversedUpTo(t, n - 1)[n - 1 := Reverse(t[n - 1])]
  {
  }

  /** Re-inserting a table into an empty one, in dump order, reverses every chain. */
  lemma {:induction false} PutAllReverses(t: Table, n: nat)
    requires TableOk(t) && n <= |t|
    ensures PutAll(ReversedUpTo(t, 0), EntriesUpTo(t, n)) == ReversedUpTo(t, n)
  {
    if n > 0 {
      var e := ReversedUpTo(t, 0);
      PutAllReverses(t, n - 1);
      PutAllConcat(e, EntriesUpTo(t, n - 1), t[n - 1]);
      assert ChainOk(t[n - 1], n - 1);
      PutChainReverses(ReversedUpTo(t, n - 1), t[n - 1], n - 1);
      ReversedStep(t, n);
    }
  }

  lemma ReverseTwice(t: Table)
    ensures ReverseChains(ReverseChains(t)) == t
  {
    forall b | 0 <= b < |t|
      ensures Reverse(Reverse(t[b])) == t[b]
    {
    }
  }

}
