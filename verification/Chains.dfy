/**
 * What the chained hash table holds, as values: chains of entries in list order, tables of 256 chains,
 * and the finite map each table stands for. The heap table of HashTable and the lock protocol
 * both run on these functions.
 */
module Chains {
  import opened CStrings
  import opened Djb2

  const NUM_DBS: int := 16
  const NUM_LOCKS: int := 4096

  /** The bucket lock of a key, numbered in the order in which SAVE and LOAD take them all. */
  function LockOf(db: nat, key: Bytes): nat {
    db * NUM_BUCKETS + BucketOf(key)
  }

  datatype Entry = Entry(key: Bytes, value: Bytes)

  type Chain = seq<Entry>
  type Table = seq<Chain>
  type Store = seq<Table>
  type Dict = map<Bytes, Bytes>

  /** Position of the first entry holding `k`, or the length of the chain. */
  function Find(c: Chain, k: Bytes): (i: nat)
    ensures i <= |c|
    ensures i < |c| ==> c[i].key == k
    ensures forall j | 0 <= j < i :: c[j].key != k
  {
    if c == [] || c[0].key == k then 0 else 1 + Find(c[1..], k)
  }

  function ChainGet(c: Chain, k: Bytes): Option<Bytes> {
    var i := Find(c, k);
    if i < |c| then Some(c[i].value) else None
  }

  /** Overwrite in place, or insert at the head. */
  function ChainSet(c: Chain, k: Bytes, v: Bytes): Chain {
    var i := Find(c, k);
    if i < |c| then c[i := Entry(k, v)] else [Entry(k, v)] + c
  }

  function ChainDel(c: Chain, k: Bytes): Chain {
    var i := Find(c, k);
    if i < |c| then c[..i] + c[i + 1..] else c
  }

  /** No key occurs twice, and all strings are C strings. */
  predicate EntriesOk(c: Chain) {
    && (forall i | 0 <= i < |c| :: NulFree(c[i].key) && NulFree(c[i].value))
    && (forall i, j | 0 <= i < j < |c| :: c[i].key != c[j].key)
  }

  /** A well-formed chain whose entries all belong to bucket `b`. */
  predicate ChainOk(c: Chain, b: nat) {
    EntriesOk(c) && forall i | 0 <= i < |c| :: BucketOf(c[i].key) == b
  }

  predicate TableOk(t: Table) {
    |t| == NUM_BUCKETS && forall b | 0 <= b < NUM_BUCKETS :: ChainOk(t[b], b)
  }

  predicate StoreOk(s: Store) {
    |s| == NUM_DBS && forall d | 0 <= d < NUM_DBS :: TableOk(s[d])
  }

  function Lookup(t: Table, k: Bytes): Option<Bytes>
    requires |t| == NUM_BUCKETS
  {
    ChainGet(t[BucketOf(k)], k)
  }

  function TableSet(t: Table, k: Bytes, v: Bytes): Table
    requires |t| == NUM_BUCKETS
  {
    t[BucketOf(k) := ChainSet(t[BucketOf(k)], k, v)]
  }

  function TableDel(t: Table, k: Bytes): Table
    requires |t| == NUM_BUCKETS
  {
    t[BucketOf(k) := ChainDel(t[BucketOf(k)], k)]
  }

  const EmptyTable: Table := seq(NUM_BUCKETS, _ => [])
  const EmptyStore: Store := seq(NUM_DBS, _ => EmptyTable)

  /** The keys present, found by walking every chain. */
  function Keys(t: Table): set<Bytes> {
    set b, i | 0 <= b < |t| && 0 <= i < |t[b]| :: t[b][i].key
  }

  /** The map a table stands for. */
  function Dictionary(t: Table): Dict
    requires |t| == NUM_BUCKETS
  {
    map k | k in Keys(t) && Lookup(t, k).Some? :: Lookup(t, k).value
  }

  function Dictionaries(s: Store): (r: seq<Dict>)
    requires StoreOk(s)
    ensures |r| == |s|
    ensures forall d | 0 <= d < |s| :: r[d] == Dictionary(s[d])
  {
    seq(|s|, d requires 0 <= d < |s| => Dictionary(s[d]))
  }

  /** Looking a key up by its bucket finds exactly what the map holds. */
  lemma {:induction false} DictionaryIsLookup(t: Table, k: Bytes)
    requires |t| == NUM_BUCKETS
    ensures k in Dictionary(t) <==> Lookup(t, k).Some?
    ensures k in Dictionary(t) ==> Dictionary(t)[k] == Lookup(t, k).value
  {
    var b := BucketOf(k);
    var i := Find(t[b], k);
    if i < |t[b]| {
      assert t[b][i].key in Keys(t);
    }
  }

  /** Two tables with the same lookups stand for the same map. */
  lemma {:induction false} SameLookups(t: Table, m: Dict)
    requires |t| == NUM_BUCKETS
    requires forall k :: k in m <==> Lookup(t, k).Some?
    requires forall k | k in m :: Lookup(t, k) == Some(m[k])
    ensures Dictionary(t) == m
  {
    forall k
      ensures k in Dictionary(t) <==> k in m
      ensures k in m ==> Dictionary(t)[k] == m[k]
    {
      DictionaryIsLookup(t, k);
    }
  }

  /** A chain with unique keys holds a pair wherever that pair is. */
  lemma FindUnique(c: Chain, i: nat)
    requires EntriesOk(c) && i < |c|
    ensures Find(c, c[i].key) == i
  {
  }

  lemma {:induction false} ChainSetGet(c: Chain, k: Bytes, v: Bytes, q: Bytes)
    ensures ChainGet(ChainSet(c, k, v), q) == if q == k then Some(v) else ChainGet(c, q)
  {
    var i := Find(c, k);
    var d := ChainSet(c, k, v);
    if i < |c| {
      FirstAt(d, k, i);
      FindSameKeys(c, d, q);
    } else {
      assert d[1..] == c;
    }
  }

  lemma FirstAt(c: Chain, k: Bytes, i: nat)
    requires i < |c| && c[i].key == k
    requires forall j | 0 <= j < i :: c[j].key != k
    ensures Find(c, k) == i
  {
  }

  lemma FindSameKeys(c: Chain, d: Chain, k: Bytes)
    requires |c| == |d| && forall j | 0 <= j < |c| :: c[j].key == d[j].key
    ensures Find(c, k) == Find(d, k)
  {
  }

  lemma Absent(c: Chain, k: Bytes)
    requires forall j | 0 <= j < |c| :: c[j].key != k
    ensures Find(c, k) == |c|
  {
  }

  lemma {:induction false} GoneAfterDel(c: Chain, k: Bytes)
    requires EntriesOk(c) && Find(c, k) < |c|
    ensures ChainGet(ChainDel(c, k), k) == None
  {
    var i, d := Find(c, k), ChainDel(c, k);
    DeletedAt(c, k);
    forall j | 0 <= j < |d|
      ensures d[j].key != k
    {
      assert d[j] == c[if j < i then j else j + 1];
    }
    Absent(d, k);
  }

  lemma {:induction false} OthersAfterDel(c: Chain, k: Bytes, q: Bytes)
    requires Find(c, k) < |c| && q != k
    ensures ChainGet(ChainDel(c, k), q) == ChainGet(c, q)
  {
    var i, m, d := Find(c, k), Find(c, q), ChainDel(c, k);
    DeletedAt(c, k);
    if m < |c| {
      var n := if m < i then m else m - 1;
      assert d[n] == c[m];
      assert forall j | 0 <= j < n :: d[j].key != q;
      FirstAt(d, q, n);
    } else {
      assert forall j | 0 <= j < |d| :: d[j] == c[if j < i then j else j + 1];
      Absent(d, q);
    }
  }

  lemma {:induction false} ChainDelGet(c: Chain, b: nat, k: Bytes, q: Bytes)
    requires ChainOk(c, b)
    ensures ChainGet(ChainDel(c, k), q) == if q == k then None else ChainGet(c, q)
  {
    if Find(c, k) < |c| {
      DeletedAt(c, k);
      if q == k {
        GoneAfterDel(c, k);
      } else {
        OthersAfterDel(c, k, q);
      }
    }
  }

  lemma {:induction false} DeletedAt(c: Chain, k: Bytes)
    requires Find(c, k) < |c|
    ensures |ChainDel(c, k)| == |c| - 1
    ensures forall j | 0 <= j < |c| - 1 :: ChainDel(c, k)[j] == c[if j < Find(c, k) then j else j + 1]
  {
    var i := Find(c, k);
    var front, back := c[..i], c[i + 1..];
    assert forall j | 0 <= j < |back| :: back[j] == c[i + 1 + j];
    assert ChainDel(c, k) == front + back;
  }

  lemma {:induction false} TableSetOk(t: Table, k: Bytes, v: Bytes)
    requires TableOk(t) && NulFree(k) && NulFree(v)
    ensures TableOk(TableSet(t, k, v))
  {
  }

  lemma {:induction false} TableDelOk(t: Table, k: Bytes)
    requires TableOk(t)
    ensures TableOk(TableDel(t, k))
  {
  }

  /** hash_set is a map update. */
  lemma {:induction false} SetIsUpdate(t: Table, k: Bytes, v: Bytes)
    requires TableOk(t) && NulFree(k) && NulFree(v)
    ensures TableOk(TableSet(t, k, v))
    ensures Dictionary(TableSet(t, k, v)) == Dictionary(t)[k := v]
  {
    TableSetOk(t, k, v);
    var u := TableSet(t, k, v);
    var m := Dictionary(t)[k := v];
    forall q
      ensures q in m <==> Lookup(u, q).Some?
      ensures q in m ==> Lookup(u, q) == Some(m[q])
    {
      DictionaryIsLookup(t, q);
      ChainSetGet(t[BucketOf(k)], k, v, q);
    }
    SameLookups(u, m);
  }

  /** hash_del removes the key from the map and nothing else. */
  lemma {:induction false} DelIsRemoval(t: Table, k: Bytes)
    requires TableOk(t)
    ensures TableOk(TableDel(t, k))
    ensures Dictionary(TableDel(t, k)) == Dictionary(t) - {k}
  {
    TableDelOk(t, k);
    var u := TableDel(t, k);
    var m := Dictionary(t) - {k};
    forall q
      ensures q in m <==> Lookup(u, q).Some?
      ensures q in m ==> Lookup(u, q) == Some(m[q])
    {
      DictionaryIsLookup(t, q);
      ChainDelGet(t[BucketOf(k)], BucketOf(k), k, q);
    }
    SameLookups(u, m);
  }

  // ---- hash_count ----

  /** Number of entries in the first `n` buckets. */
  function CountUpTo(t: Table, n: nat): nat
    requires n <= |t|
  {
    if n == 0 then 0 else CountUpTo(t, n - 1) + |t[n - 1]|
  }

  function Count(t: Table): nat {
    CountUpTo(t, |t|)
  }

  function ChainKeys(c: Chain): set<Bytes> {
    set i | 0 <= i < |c| :: c[i].key
  }

  lemma {:induction false} ChainKeysSize(c: Chain, b: nat)
    requires ChainOk(c, b)
    ensures |ChainKeys(c)| == |c|
  {
    if c != [] {
      var d := c[..|c| - 1];
      assert forall i | 0 <= i < |d| :: d[i] == c[i];
      ChainKeysSize(d, b);
      assert ChainKeys(c) == ChainKeys(d) + {c[|c| - 1].key};
    }
  }

  function KeysUpTo(t: Table, n: nat): set<Bytes>
    requires n <= |t|
  {
    set b, i | 0 <= b < n && 0 <= i < |t[b]| :: t[b][i].key
  }

  lemma {:induction false} KeysUpToSize(t: Table, n: nat)
    requires TableOk(t) && n <= |t|
    ensures |KeysUpTo(t, n)| == CountUpTo(t, n)
  {
    if n == 0 {
      assert KeysUpTo(t, n) == {};
    } else {
      KeysUpToSize(t, n - 1);
      ChainKeysSize(t[n - 1], n - 1);
      var below, last := KeysUpTo(t, n - 1), ChainKeys(t[n - 1]);
      KeysSplit(t, n);
      assert |below + last| == |below| + |last|;
    }
  }

  lemma {:induction false} KeysSplit(t: Table, n: nat)
    requires TableOk(t) && 0 < n <= |t|
    ensures KeysUpTo(t, n) == KeysUpTo(t, n - 1) + ChainKeys(t[n - 1])
    ensures KeysUpTo(t, n - 1) !! ChainKeys(t[n - 1])
  {
    assert forall k :: k in KeysUpTo(t, n - 1) ==> BucketOf(k) < n - 1;
    assert forall k :: k in ChainKeys(t[n - 1]) ==> BucketOf(k) == n - 1;
  }

  /** hash_count is the size of the map. */
  lemma {:induction false} CountIsSize(t: Table)
    requires TableOk(t)
    ensures Count(t) == |Dictionary(t)|
  {
    KeysUpToSize(t, |t|);
    assert Dictionary(t).Keys == KeysUpTo(t, |t|) by {
      forall k
        ensures k in Dictionary(t) <==> k in KeysUpTo(t, |t|)
      {
        DictionaryIsLookup(t, k);
        if k in KeysUpTo(t, |t|) {
          var b, i :| 0 <= b < |t| && 0 <= i < |t[b]| && t[b][i].key == k;
          FindUnique(t[b], i);
        }
      }
    }
    assert |Dictionary(t)| == |Dictionary(t).Keys|;
  }
}
