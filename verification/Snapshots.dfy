/**
 * rdb_save and rdb_load together: loading a saved file overrides, loads are idempotent, chains come back
 * reversed, the file length depends on the maps alone, and no strict prefix of a file loads.
 */
module Snapshots {
  import opened CStrings
  import opened Djb2
  import opened Chains
  import opened TableEntries
  import opened Codec

  /** Every string is short enough for its length to survive the format. */
  predicate Storable(s: Store) {
    && StoreOk(s)
    && forall d, b, i | 0 <= d < |s| && 0 <= b < |s[d]| && 0 <= i < |s[d][b]| ::
         |s[d][b][i].key| < MAX_STRING && |s[d][b][i].value| < MAX_STRING
  }

  // ---- the item list of a saved store ----

  lemma {:induction false} EntriesStorable(s: Store, d: nat, n: nat)
    requires Storable(s) && d < NUM_DBS && n <= NUM_BUCKETS
    ensures ItemsOk(Records(EntriesUpTo(s[d], n)))
  {
    if n > 0 {
      EntriesStorable(s, d, n - 1);
      var c, e := EntriesUpTo(s[d], n - 1), s[d][n - 1];
      assert ChainOk(e, n - 1);
      assert forall i | 0 <= i < |c| :: ItemOk(Records(c)[i]);
      assert Records(c + e) == Records(c) + Records(e);
    }
  }

  /** The database selected after a list of items. */
  function LastSel(items: seq<Item>, sel: byte): byte {
    if items == [] then sel else LastSel(items[1..], NextSel(items[0], sel))
  }

  lemma {:induction false} SelectedConcat(a: seq<Item>, b: seq<Item>, sel: byte)
    ensures Selected(a + b, sel) <==> Selected(a, sel) && Selected(b, LastSel(a, sel))
    decreases |a|
  {
    if a == [] {
      assert a + b == b;
    } else {
      assert (a + b)[1..] == a[1..] + b;
      SelectedConcat(a[1..], b, NextSel(a[0], sel));
    }
  }

  lemma {:induction false} ApplyConcat(a: seq<Item>, b: seq<Item>, c: Cursor)
    requires StoreOk(c.store) && ItemsOk(a) && ItemsOk(b) && Selected(a, c.sel) && Selected(b, LastSel(a, c.sel))
    ensures ItemsOk(a + b) && Selected(a + b, c.sel)
    ensures Apply(a, c).sel == LastSel(a, c.sel)
    ensures Apply(a + b, c) == Apply(b, Apply(a, c))
    decreases |a|
  {
    SelectedConcat(a, b, c.sel);
    if a == [] {
      assert a + b == b;
    } else {
      assert (a + b)[1..] == a[1..] + b;
      ApplyConcat(a[1..], b, ApplyItem(a[0], c));
    }
  }

  /** Records go, one after the other, into the selected table and no other. */
  lemma {:induction false} ApplyRecords(c: Chain, cur: Cursor)
    requires StoreOk(cur.store) && cur.sel as int < NUM_DBS && ItemsOk(Records(c))
    ensures Selected(Records(c), cur.sel) && LastSel(Records(c), cur.sel) == cur.sel
    ensures Apply(Records(c), cur) == cur.(store := cur.store[cur.sel as int := PutAll(cur.store[cur.sel as int], c)])
    decreases |c|
  {
    var d := cur.sel as int;
    if c == [] {
      assert cur.store[d := cur.store[d]] == cur.store;
    } else {
      var head := Record(c[0].key, c[0].value);
      assert Records(c)[0] == head && Records(c)[1..] == Records(c[1..]);
      assert ItemOk(head);
      ApplyRecords(c[1..], ApplyItem(head, cur));
    }
  }

  /** Table by table, `t` overridden by the entries of `s` in the first `n` databases. */
  function MergeUpTo(t: Store, s: Store, n: nat): (r: Store)
    requires StoreOk(t) && StoreOk(s)
    ensures |r| == NUM_DBS
    ensures forall d | 0 <= d < NUM_DBS :: r[d] == if d < n then PutAll(t[d], Entries(s[d])) else t[d]
  {
    seq(NUM_DBS, d requires 0 <= d < NUM_DBS => if d < n then PutAll(t[d], Entries(s[d])) else t[d])
  }

  function Merge(t: Store, s: Store): Store
    requires StoreOk(t) && StoreOk(s)
  {
    MergeUpTo(t, s, NUM_DBS)
  }

  lemma MergeOk(t: Store, s: Store, n: nat)
    requires StoreOk(t) && StoreOk(s)
    ensures StoreOk(MergeUpTo(t, s, n))
  {
    forall d | 0 <= d < NUM_DBS
      ensures TableOk(MergeUpTo(t, s, n)[d])
    {
      EntriesUnique(s[d], NUM_BUCKETS);
      PutAllOk(t[d], Entries(s[d]));
    }
  }

  lemma ApplyTable(d: nat, s: Store, cur: Cursor)
    requires Storable(s) && StoreOk(cur.store) && d < NUM_DBS
    ensures ItemsOk(TableItems(d as byte, s[d])) && Selected(TableItems(d as byte, s[d]), cur.sel)
    ensures Apply(TableItems(d as byte, s[d]), cur).store == cur.store[d := PutAll(cur.store[d], Entries(s[d]))]
  {
    EntriesStorable(s, d, NUM_BUCKETS);
    EntriesCount(s[d], NUM_BUCKETS);
    if Count(s[d]) == 0 {
      assert Entries(s[d]) == [];
      assert cur.store[d := cur.store[d]] == cur.store;
    } else {
      var items := TableItems(d as byte, s[d]);
      var records := Records(Entries(s[d]));
      assert items[0] == Select(d as byte) && items[1..] == records;
      ApplyRecords(Entries(s[d]), ApplyItem(Select(d as byte), cur));
    }
  }

  /** In a saved file every record follows a SELECTDB below 16, and applying its items merges the stores. */
  lemma {:induction false} ApplySaved(s: Store, n: nat, cur: Cursor)
    requires Storable(s) && StoreOk(cur.store) && n <= NUM_DBS
    ensures ItemsOk(ItemsUpTo(s, n)) && Selected(ItemsUpTo(s, n), cur.sel)
    ensures Apply(ItemsUpTo(s, n), cur).store == MergeUpTo(cur.store, s, n)
  {
    hide EntriesUpTo, TableItems, PutAll;
    if n == 0 {
      assert MergeUpTo(cur.store, s, 0) == cur.store;
    } else {
      ApplySaved(s, n - 1, cur);
      var mid := Apply(ItemsUpTo(s, n - 1), cur);
      ApplyTable(n - 1, s, mid);
      ApplyConcat(ItemsUpTo(s, n - 1), [], cur);
      ApplyConcat(ItemsUpTo(s, n - 1), TableItems((n - 1) as byte, s[n - 1]), cur);
      assert mid.store[n - 1 := PutAll(mid.store[n - 1], Entries(s[n - 1]))] == MergeUpTo(cur.store, s, n);
    }
  }

  lemma MergeIsOverride(t: Store, s: Store)
    requires StoreOk(t) && StoreOk(s)
    ensures StoreOk(Merge(t, s))
    ensures forall d | 0 <= d < NUM_DBS :: Dictionaries(Merge(t, s))[d] == Dictionaries(t)[d] + Dictionaries(s)[d]
  {
    MergeOk(t, s, NUM_DBS);
    forall d | 0 <= d < NUM_DBS
      ensures Dictionaries(Merge(t, s))[d] == Dictionaries(t)[d] + Dictionaries(s)[d]
    {
      PutAllIsOverride(t[d], s[d]);
    }
  }

  lemma EmptyStoreOk()
    ensures StoreOk(EmptyStore)
    ensures forall d | 0 <= d < NUM_DBS :: Dictionaries(EmptyStore)[d] == map[]
  {
  }

  lemma MergeIntoEmpty(s: Store)
    requires StoreOk(s)
    ensures StoreOk(EmptyStore) && StoreOk(Merge(EmptyStore, s))
    ensures Dictionaries(Merge(EmptyStore, s)) == Dictionaries(s)
  {
    EmptyStoreOk();
    MergeIsOverride(EmptyStore, s);
    forall d | 0 <= d < NUM_DBS
      ensures Dictionaries(Merge(EmptyStore, s))[d] == Dictionaries(s)[d]
    {
      assert map[] + Dictionaries(s)[d] == Dictionaries(s)[d];
    }
  }

  lemma MergeTwice(t: Store, s: Store)
    requires StoreOk(t) && StoreOk(s)
    ensures StoreOk(Merge(t, s)) && Merge(Merge(t, s), s) == Merge(t, s)
  {
    MergeOk(t, s, NUM_DBS);
    forall d | 0 <= d < NUM_DBS
      ensures PutAll(PutAll(t[d], Entries(s[d])), Entries(s[d])) == PutAll(t[d], Entries(s[d]))
    {
      EntriesUnique(s[d], NUM_BUCKETS);
      PutAllTwice(t[d], Entries(s[d]));
    }
  }

  /**
   * Loading what rdb_save wrote for `s` into any store `t` succeeds, whatever database number was lying around,
   * and in every database the result is the map of `t` overridden by the map of `s`.
   */
  lemma LoadOfSave(s: Store, t: Store, sel: byte, junk: Garbage)
    requires Storable(s) && StoreOk(t)
    ensures StoreOk(Merge(t, s))
    ensures Load(Save(s), sel, t, junk) == Loaded(Merge(t, s))
    ensures forall d | 0 <= d < NUM_DBS :: Dictionaries(Merge(t, s))[d] == Dictionaries(t)[d] + Dictionaries(s)[d]
  {
    MergeIsOverride(t, s);
    ApplySaved(s, NUM_DBS, Cursor(sel, t));
    LoadFile(SaveItems(s), Cursor(sel, t), junk);
  }

  /** Loading the same file a second time changes nothing, not even the order of a chain. */
  lemma LoadTwice(s: Store, t: Store, sel: byte, sel': byte, junk: Garbage)
    requires Storable(s) && StoreOk(t)
    ensures var r := Load(Save(s), sel, t, junk); r.Loaded? && Load(Save(s), sel', r.store, junk) == r
  {
    MergeTwice(t, s);
    LoadOfSave(s, t, sel, junk);
    LoadOfSave(s, Merge(t, s), sel', junk);
  }

  // ---- chain order ----

  function ReverseStore(s: Store): (r: Store)
    ensures |r| == |s| && forall d | 0 <= d < |s| :: r[d] == ReverseChains(s[d])
  {
    seq(|s|, d requires 0 <= d < |s| => ReverseChains(s[d]))
  }

  lemma MergeReverses(s: Store)
    requires Storable(s)
    ensures StoreOk(EmptyStore) && Merge(EmptyStore, s) == ReverseStore(s)
    ensures StoreOk(ReverseStore(s))
  {
    EmptyStoreOk();
    MergeOk(EmptyStore, s, NUM_DBS);
    forall d | 0 <= d < NUM_DBS
      ensures Merge(EmptyStore, s)[d] == ReverseChains(s[d])
    {
      PutAllReverses(s[d], NUM_BUCKETS);
      ReversedStep(s[d], NUM_BUCKETS);
      assert ReversedUpTo(s[d], NUM_BUCKETS) == ReverseChains(s[d]);
    }
  }

  lemma ReverseStorable(s: Store)
    requires Storable(s)
    ensures Storable(ReverseStore(s)) && ReverseStore(ReverseStore(s)) == s
  {
    MergeReverses(s);
    forall d | 0 <= d < NUM_DBS
      ensures ReverseChains(ReverseChains(s[d])) == s[d]
    {
      ReverseTwice(s[d]);
    }
  }

  /** A restart, SAVE then restore into an empty server: the same maps, every bucket's chain reversed. */
  lemma RestoreReverses(s: Store, sel: byte, junk: Garbage)
    requires Storable(s)
    ensures StoreOk(EmptyStore) && StoreOk(ReverseStore(s))
    ensures Load(Save(s), sel, EmptyStore, junk) == Loaded(ReverseStore(s))
    ensures Dictionaries(ReverseStore(s)) == Dictionaries(s)
  {
    MergeReverses(s);
    MergeIntoEmpty(s);
    LoadOfSave(s, EmptyStore, sel, junk);
  }

  /** Two restarts give back the same chains and so byte-identical files. */
  lemma TwoRestores(s: Store, sel: byte, junk: Garbage)
    requires Storable(s)
    ensures Storable(ReverseStore(s)) && StoreOk(EmptyStore)
    ensures Load(Save(s), sel, EmptyStore, junk) == Loaded(ReverseStore(s))
    ensures Load(Save(ReverseStore(s)), sel, EmptyStore, junk) == Loaded(s)
  {
    ReverseStorable(s);
    RestoreReverses(s, sel, junk);
    RestoreReverses(ReverseStore(s), sel, junk);
  }
}
