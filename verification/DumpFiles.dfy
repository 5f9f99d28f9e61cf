/**
 * What can be said of dump files as byte sequences: a cut file never loads and says what it leaves behind,
 * the length of a saved file is a function of the maps, and database numbers ascend.
 */
module DumpFiles {
  import opened CStrings
  import opened Djb2
  import opened Chains
  import opened TableEntries
  import opened Codec
  import opened Snapshots

  // ---- truncation ----

  ghost predicate OneMorePut(c: Cursor, k: Bytes, v: Bytes, r: LoadResult)
    requires StoreOk(c.store) && c.sel as int < NUM_DBS
  {
    r == Failed(Put(c.store, c.sel as int, k, v))
  }

  /**
   * How a load interrupted somewhere in `items` may end: with -1, after some of the items have been applied,
   * and at most one further hash_set with the strings of the record the cut fell into.
   */
  ghost predicate Interrupted(items: seq<Item>, c: Cursor, r: LoadResult)
    requires StoreOk(c.store) && ItemsOk(items) && Selected(items, c.sel)
    decreases |items|
  {
    || r == Failed(c.store)
    || (items != [] && items[0].Record? && exists k, v :: OneMorePut(c, k, v, r))
    || (items != [] && Interrupted(items[1..], ApplyItem(items[0], c), r))
  }

  /** A record whose bytes run out leaves the file cursor at the end. */
  lemma CutRecordExhausts(k: Bytes, v: Bytes, cut: Bytes, junk: Garbage)
    requires StringOk(k) && StringOk(v)
    requires cut < EncodeString(k) + EncodeString(v)
    ensures ReadRecord(cut, junk).2 == []
  {
    LengthRoundTrip(|k|);
    LengthRoundTrip(|v|);
    var whole := EncodeString(k) + EncodeString(v);
    var (klen, f1) := Fread(cut, 4, 0, junk);
    if |cut| >= 4 {
      assert cut[..4] == whole[..4] == Be32(|k|);
      assert f1 == whole[4..|cut|];
      var (key, f2) := Fread(f1, |k|, 1, junk);
      if |f1| >= |k| {
        assert f2 == whole[4 + |k|..|cut|];
        var (vlen, f3) := Fread(f2, 4, 2, junk);
        if |f2| >= 4 {
          assert vlen == whole[4 + |k|..][..4] == Be32(|v|);
          assert f3 == whole[8 + |k|..|cut|];
          assert |f3| < |v|;
        }
      }
    }
  }

  /** The bytes of one item, cut short. */
  lemma CutItem(i: Item, cut: Bytes, c: Cursor, junk: Garbage)
    requires StoreOk(c.store) && ItemOk(i) && Fits(i, c.sel)
    requires cut < EncodeItem(i)
    ensures Interrupted([i], c, LoadBody(cut, c.sel, c.store, junk))
  {
    if cut != [] {
      assert cut[0] == EncodeItem(i)[0];
      if i.Record? {
        var body := EncodeString(i.key) + EncodeString(i.value);
        assert EncodeItem(i)[1..] == body;
        assert cut[1..] == body[..|cut| - 1];
        CutRecordExhausts(i.key, i.value, cut[1..], junk);
        var (k, v, rest) := ReadRecord(cut[1..], junk);
        TableSetOk(c.store[c.sel as int], k, v);
        assert OneMorePut(c, k, v, LoadBody(cut, c.sel, c.store, junk));
      }
    }
  }

  lemma CutHead(items: seq<Item>, c: Cursor, r: LoadResult)
    requires StoreOk(c.store) && ItemsOk(items) && Selected(items, c.sel) && items != []
    requires Interrupted([items[0]], c, r)
    ensures Interrupted(items, c, r)
  {
    var c' := ApplyItem(items[0], c);
    assert Interrupted([items[0]][1..], c', r) ==> r == Failed(c'.store);
    assert Interrupted(items[1..], c', Failed(c'.store));
  }

  lemma {:induction false} CutBody(items: seq<Item>, cut: Bytes, c: Cursor, junk: Garbage)
    requires StoreOk(c.store) && ItemsOk(items) && Selected(items, c.sel)
    requires cut < Encode(items) + [OP_EOF]
    ensures Interrupted(items, c, LoadBody(cut, c.sel, c.store, junk))
    decreases |items|
  {
    if items == [] {
      assert cut == [];
    } else {
      var i := items[0];
      var tail := Encode(items[1..]) + [OP_EOF];
      var n := |EncodeItem(i)|;
      var whole := Encode(items) + [OP_EOF];
      assert whole == EncodeItem(i) + tail;
      if |cut| < n {
        assert cut == EncodeItem(i)[..|cut|];
        CutItem(i, cut, c, junk);
        CutHead(items, c, LoadBody(cut, c.sel, c.store, junk));
      } else {
        assert cut == EncodeItem(i) + cut[n..];
        assert cut[n..] == tail[..|cut| - n];
        LoadItem(i, cut[n..], c, junk);
        CutBody(items[1..], cut[n..], ApplyItem(i, c), junk);
      }
    }
  }

  lemma {:induction false} InterruptedFails(items: seq<Item>, c: Cursor, r: LoadResult)
    requires StoreOk(c.store) && ItemsOk(items) && Selected(items, c.sel)
    requires Interrupted(items, c, r)
    ensures r.Failed?
    decreases |items|
  {
    if items != [] && Interrupted(items[1..], ApplyItem(items[0], c), r) {
      InterruptedFails(items[1..], ApplyItem(items[0], c), r);
    }
  }

  /** The format is prefix-free: no strict prefix of a file loads, whatever garbage the short reads leave. */
  lemma PrefixNeverLoads(items: seq<Item>, cut: Bytes, c: Cursor, junk: Garbage)
    requires StoreOk(c.store) && ItemsOk(items) && Selected(items, c.sel)
    requires cut < FileOf(items)
    ensures Load(cut, c.sel, c.store, junk).Failed?
    ensures Interrupted(items, c, Load(cut, c.sel, c.store, junk))
  {
    if |cut| >= 9 {
      var whole := FileOf(items);
      assert cut[..8] == whole[..8] == MAGIC;
      assert whole[9..] == Encode(items) + [OP_EOF];
      assert cut[9..] == whole[9..][..|cut| - 9];
      CutBody(items, cut[9..], c, junk);
      InterruptedFails(items, c, LoadBody(cut[9..], c.sel, c.store, junk));
    }
  }

  /** No strict prefix of a file rdb_save wrote makes rdb_load return 0. */
  lemma CutSaveNeverLoads(s: Store, cut: Bytes, t: Store, sel: byte, junk: Garbage)
    requires Storable(s) && StoreOk(t) && cut < Save(s)
    ensures Load(cut, sel, t, junk).Failed?
  {
    ApplySaved(s, NUM_DBS, Cursor(sel, t));
    PrefixNeverLoads(SaveItems(s), cut, Cursor(sel, t), junk);
  }

  /** Cut between two items, the load returns -1 with exactly the items before the cut applied. */
  lemma CutAtBoundary(done: seq<Item>, c: Cursor, junk: Garbage)
    requires StoreOk(c.store) && ItemsOk(done) && Selected(done, c.sel)
    ensures Load(Header + Encode(done), c.sel, c.store, junk) == Failed(Apply(done, c).store)
  {
    var file := Header + Encode(done);
    assert file[..8] == MAGIC;
    assert file[9..] == Encode(done) + [];
    LoadEncoded(done, [], c, junk);
  }

  // ---- database numbers ----

  function Numbers(items: seq<Item>): (r: seq<int>) {
    if items == [] then []
    else if items[0].Select? then [items[0].db as int] + Numbers(items[1..])
    else Numbers(items[1..])
  }

  lemma {:induction false} NumbersConcat(a: seq<Item>, b: seq<Item>)
    ensures Numbers(a + b) == Numbers(a) + Numbers(b)
  {
    if a == [] {
      assert a + b == b;
    } else {
      assert (a + b)[1..] == a[1..] + b;
      NumbersConcat(a[1..], b);
    }
  }

  lemma {:induction false} NoNumbersInRecords(c: Chain)
    ensures Numbers(Records(c)) == []
    decreases |c|
  {
    if c != [] {
      assert Records(c)[1..] == Records(c[1..]);
      NoNumbersInRecords(c[1..]);
    }
  }

  /** Strictly ascending, from 0 up to below `n`. */
  predicate Ascending(ns: seq<int>, n: int) {
    && (forall i | 0 <= i < |ns| :: 0 <= ns[i] < n)
    && (forall i, j | 0 <= i < j < |ns| :: ns[i] < ns[j])
  }

  lemma AscendingAppend(ns: seq<int>, n: nat)
    requires Ascending(ns, n)
    ensures Ascending(ns + [n], n + 1) && Ascending(ns, n + 1)
  {
  }

  lemma {:induction false} NumbersUpTo(s: Store, n: nat)
    requires n <= |s| == NUM_DBS
    ensures Ascending(Numbers(ItemsUpTo(s, n)), n)
  {
    if n > 0 {
      NumbersUpTo(s, n - 1);
      var before := ItemsUpTo(s, n - 1);
      var items := TableItems((n - 1) as byte, s[n - 1]);
      AscendingAppend(Numbers(before), n - 1);
      NumbersConcat(before, items);
      if items != [] {
        assert items[1..] == Records(Entries(s[n - 1]));
        NoNumbersInRecords(Entries(s[n - 1]));
        assert Numbers(items) == [n - 1];
      }
    }
  }

  /** The SELECTDB numbers of a saved file are below 16 and strictly ascending. */
  lemma NumbersAscend(s: Store)
    requires |s| == NUM_DBS
    ensures Ascending(Numbers(SaveItems(s)), NUM_DBS)
  {
    NumbersUpTo(s, NUM_DBS);
  }

  // ---- file length ----

  /** Bytes one pair takes: the type byte, two lengths and the strings. */
  function PairCost(k: Bytes, v: Bytes): nat {
    9 + |k| + |v|
  }

  ghost function DictCost(m: Dict): nat
    decreases |m|
  {
    if m == map[] then 0
    else
      var k :| k in m;
      assert |m - {k}| < |m| by { assert (m - {k}).Keys == m.Keys - {k}; }
      PairCost(k, m[k]) + DictCost(m - {k})
  }

  /** The sum does not depend on the order it is taken in. */
  lemma {:induction false} DictCostRemove(m: Dict, k: Bytes)
    requires k in m
    ensures DictCost(m) == PairCost(k, m[k]) + DictCost(m - {k})
    decreases |m|
  {
    var q :| q in m && DictCost(m) == PairCost(q, m[q]) + DictCost(m - {q});
    if q != k {
      assert (m - {q}).Keys == m.Keys - {q};
      DictCostRemove(m - {q}, k);
      assert (m - {k}).Keys == m.Keys - {k};
      DictCostRemove(m - {k}, q);
      assert m - {q} - {k} == m - {k} - {q};
    }
  }

  /** The map an entry list with unique keys stands for. */
  function Collect(c: Chain): Dict {
    if c == [] then map[] else Collect(c[1..])[c[0].key := c[0].value]
  }

  lemma {:induction false} CollectLookup(c: Chain, k: Bytes)
    ensures k in Collect(c) <==> ChainGet(c, k).Some?
    ensures k in Collect(c) ==> ChainGet(c, k) == Some(Collect(c)[k])
  {
    if c != [] {
      CollectLookup(c[1..], k);
    }
  }

  lemma {:induction false} RecordsLength(c: Chain)
    requires EntriesOk(c)
    ensures |Encode(Records(c))| == DictCost(Collect(c))
    decreases |c|
  {
    if c != [] {
      var k := c[0].key;
      var m := Collect(c);
      assert Records(c)[1..] == Records(c[1..]);
      assert EntriesOk(c[1..]);
      RecordsLength(c[1..]);
      NotFound(c[1..], k);
      CollectLookup(c[1..], k);
      assert m - {k} == Collect(c[1..]);
      DictCostRemove(m, k);
    }
  }

  lemma CollectIsDictionary(t: Table)
    requires TableOk(t)
    ensures Collect(Entries(t)) == Dictionary(t)
  {
    forall k
      ensures k in Collect(Entries(t)) <==> k in Dictionary(t)
      ensures k in Dictionary(t) ==> Collect(Entries(t))[k] == Dictionary(t)[k]
    {
      CollectLookup(Entries(t), k);
      EntriesLookup(t, |t|, k);
      DictionaryIsLookup(t, k);
    }
  }

  /** Bytes the first `n` databases take: nothing for an empty one. */
  ghost function DictsCost(dicts: seq<Dict>, n: nat): nat
    requires n <= |dicts|
  {
    if n == 0 then 0
    else DictsCost(dicts, n - 1) + if dicts[n - 1] == map[] then 0 else 2 + DictCost(dicts[n - 1])
  }

  lemma TableLength(db: byte, t: Table)
    requires TableOk(t)
    ensures |Encode(TableItems(db, t))| == if Dictionary(t) == map[] then 0 else 2 + DictCost(Dictionary(t))
  {
    CountIsSize(t);
    EntriesUnique(t, |t|);
    RecordsLength(Entries(t));
    CollectIsDictionary(t);
    if Count(t) != 0 {
      var items := TableItems(db, t);
      assert items[0] == Select(db) && items[1..] == Records(Entries(t));
      assert Encode(items) == EncodeItem(items[0]) + Encode(items[1..]);
    }
  }

  lemma {:induction false} ItemsLength(s: Store, n: nat)
    requires StoreOk(s) && n <= NUM_DBS
    ensures |Encode(ItemsUpTo(s, n))| == DictsCost(Dictionaries(s), n)
  {
    if n > 0 {
      ItemsLength(s, n - 1);
      TableLength((n - 1) as byte, s[n - 1]);
      FlattenConcat(EncodeItem, ItemsUpTo(s, n - 1), TableItems((n - 1) as byte, s[n - 1]));
    }
  }

  /** The length of a saved file: 10, plus 2 a non-empty database, plus 9 and the two strings a key. */
  lemma FileLength(s: Store)
    requires StoreOk(s)
    ensures |Save(s)| == 10 + DictsCost(Dictionaries(s), NUM_DBS)
  {
    ItemsLength(s, NUM_DBS);
  }

  // ---- one pair ----

  lemma OneEntry(t: Table, k: Bytes, v: Bytes)
    requires TableOk(t) && Dictionary(t) == map[k := v]
    ensures Count(t) == 1 && Entries(t) == [Entry(k, v)]
  {
    assert map[k := v].Keys == {k};
    CountIsSize(t);
    EntriesCount(t, NUM_BUCKETS);
    EntriesLookup(t, NUM_BUCKETS, k);
    DictionaryIsLookup(t, k);
  }

  lemma {:induction false} OnePairItems(s: Store, d: nat, k: Bytes, v: Bytes, n: nat)
    requires StoreOk(s) && d < NUM_DBS && n <= NUM_DBS
    requires forall e | 0 <= e < NUM_DBS :: Dictionary(s[e]) == if e == d then map[k := v] else map[]
    ensures ItemsUpTo(s, n) == if n <= d then [] else [Select(d as byte), Record(k, v)]
  {
    hide Dictionary, TableOk, TableItems;
    if n > 0 {
      OnePairItems(s, d, k, v, n - 1);
      if n - 1 == d {
        PairTable(d as byte, s[d], k, v);
      } else {
        EmptyTable((n - 1) as byte, s[n - 1]);
      }
    }
  }

  lemma PairTable(d: byte, t: Table, k: Bytes, v: Bytes)
    requires TableOk(t) && Dictionary(t) == map[k := v]
    ensures TableItems(d, t) == [Select(d), Record(k, v)]
  {
    OneEntry(t, k, v);
    assert Records([Entry(k, v)]) == [Record(k, v)];
  }

  lemma EmptyTable(d: byte, t: Table)
    requires TableOk(t) && Dictionary(t) == map[]
    ensures TableItems(d, t) == []
  {
    CountIsSize(t);
  }

  /** The dump of a store that holds one short pair, for every key and value. */
  lemma OnePairDump(s: Store, d: nat, k: Bytes, v: Bytes)
    requires StoreOk(s) && d < 16 && |k| < 256 && |v| < 256
    requires forall e | 0 <= e < 16 :: Dictionaries(s)[e] == if e == d then map[k := v] else map[]
    ensures Save(s) == PairFile(d as byte, k, v)
  {
    forall e | 0 <= e < NUM_DBS
      ensures Dictionary(s[e]) == if e == d then map[k := v] else map[]
    {
      assert Dictionary(s[e]) == Dictionaries(s)[e];
    }
    OnePairItems(s, d, k, v, NUM_DBS);
    PairIsFile(d as byte, k, v);
  }

  /** The dump of an empty store is the header and the end marker. */
  lemma EmptyDump(s: Store)
    requires StoreOk(s) && forall e | 0 <= e < 16 :: Dictionaries(s)[e] == map[]
    ensures Save(s) == Ascii("MINREDIS") + [1, 255]
  {
    hide Ascii, StoreOk;
    EmptyItems(s, NUM_DBS);
    MagicText();
    assert Encode([]) == [];
  }

  lemma {:induction false} EmptyItems(s: Store, n: nat)
    requires StoreOk(s) && n <= NUM_DBS && forall e | 0 <= e < NUM_DBS :: Dictionaries(s)[e] == map[]
    ensures ItemsUpTo(s, n) == []
  {
    hide TableItems;
    if n > 0 {
      EmptyItems(s, n - 1);
      assert Dictionary(s[n - 1]) == Dictionaries(s)[n - 1];
      EmptyTable((n - 1) as byte, s[n - 1]);
    }
  }
}
