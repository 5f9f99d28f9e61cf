/** rdb_save and rdb_load over the heap tables (src/serializer.c), with a file as the bytes behind a cursor. */
module Serializer {
  import opened CStrings
  import opened Djb2
  import opened Chains
  import opened TableEntries
  import opened Codec
  import opened DumpText
  import opened HashTables
  import opened ServerState

  lemma ShiftedBytes(n: nat)
    requires n < 0x1_0000_0000
    ensures n / 0x100_0000 < 0x100
    ensures n == n / 0x100_0000 * 0x100_0000 + n / 0x1_0000 % 0x100 * 0x1_0000 + n / 0x100 % 0x100 * 0x100 + n % 0x100
  {
    assert n / 0x1_0000 == n / 0x100 / 0x100;
    assert n / 0x100_0000 == n / 0x1_0000 / 0x100;
  }

  /** write_len: four shifts of the length truncated to 32 bits. What rdb_load makes of the bytes is that number. */
  method WriteLen(len: nat) returns (be: Bytes)
    ensures |be| == 4 && FromBe32(be) == len % 0x1_0000_0000
    ensures forall c: Bytes | |c| == 4 :: FromBe32(c) < len % 0x1_0000_0000 <==> Earlier(c, be)
  {
    var n := len % 0x1_0000_0000;
    ShiftedBytes(n);
    be := [(n / 0x100_0000) as byte, (n / 0x1_0000 % 0x100) as byte, (n / 0x100 % 0x100) as byte, (n % 0x100) as byte];
    forall c: Bytes | |c| == 4
      ensures FromBe32(c) < n <==> Earlier(c, be)
    {
      LengthsInOrder(c, be);
    }
  }

  /** The entries of one bucket, head to tail. */
  method WriteBucket(ht: HashTable, i: nat) returns (out: Bytes)
    requires ht.Valid() && i < NUM_BUCKETS
    ensures out == Encode(Records(ht.chains[i]))
  {
    hide Earlier, FromBe32;
    out := [];
    var cur := ht.buckets[i];
    ghost var c, j := ht.chains[i], 0;
    assert ht.Linked(ht.buckets[i], ht.spine[i], c);
    assert Records(c[..0]) == [];
    while cur != null
      invariant 0 <= j <= |c|
      invariant cur == HashTable.NodeAt(ht.spine[i], j)
      invariant out == Encode(Records(c[..j]))
      decreases |c| - j
    {
      var klen := WriteLen(|cur.key|);
      var vlen := WriteLen(|cur.value|);
      LengthBytesUnique(klen, |cur.key|);
      LengthBytesUnique(vlen, |cur.value|);
      var record := [TYPE_STRING] + (klen + cur.key) + (vlen + cur.value);
      EncodeOneMore(c, j);
      out := out + record;
      cur := cur.next;
      j := j + 1;
    }
    assert c[..j] == c;
  }

  lemma EncodeOneMore(c: Chain, j: nat)
    requires j < |c|
    ensures Encode(Records(c[..j + 1])) == Encode(Records(c[..j])) + EncodeItem(Record(c[j].key, c[j].value))
  {
    var r := Record(c[j].key, c[j].value);
    assert Records(c[..j + 1]) == Records(c[..j]) + [r];
    FlattenConcat(EncodeItem, Records(c[..j]), [r]);
    FlattenOne(EncodeItem, r);
  }

  lemma EncodeBucket(t: Table, i: nat)
    requires i < |t|
    ensures Encode(Records(EntriesUpTo(t, i + 1))) == Encode(Records(EntriesUpTo(t, i))) + Encode(Records(t[i]))
    ensures Encode(Records(EntriesUpTo(t, 0))) == []
  {
    var before, c := EntriesUpTo(t, i), t[i];
    assert Records(before + c) == Records(before) + Records(c);
    FlattenConcat(EncodeItem, Records(before), Records(c));
    assert Records(EntriesUpTo(t, 0)) == [];
  }

  /** The bucket loop: every chain of one database. */
  method WriteBuckets(ht: HashTable) returns (out: Bytes)
    requires ht.Valid()
    ensures out == Encode(Records(Entries(ht.chains)))
  {
    hide Records, Encode;
    out := [];
    var i := 0;
    EncodeBucket(ht.chains, 0);
    while i < NUM_BUCKETS
      invariant 0 <= i <= NUM_BUCKETS
      invariant out == Encode(Records(EntriesUpTo(ht.chains, i)))
    {
      var bucket := WriteBucket(ht, i);
      EncodeBucket(ht.chains, i);
      out := out + bucket;
      i := i + 1;
    }
  }

  /** One round of the database loop: nothing for an empty database. */
  method WriteTable(holder: Client, ht: HashTable, db: byte) returns (out: Bytes)
    requires ht.Valid() && holder.readLocks == AllLocks()
    ensures out == Encode(TableItems(db, ht.chains))
  {
    var count := ht.CountEntries();
    if count == 0 {
      return [];
    }
    out := [OP_SELECTDB, db];
    var entries := WriteBuckets(ht);
    FlattenConcat(EncodeItem, [Select(db)], Records(Entries(ht.chains)));
    FlattenOne(EncodeItem, Select(db));
    out := out + entries;
  }

  lemma SaveBegins(s: Store)
    requires |s| == NUM_DBS
    ensures MAGIC + [VERSION] == Header + Encode(ItemsUpTo(s, 0))
  {
  }

  lemma SaveGrows(s: Store, db: nat)
    requires |s| == NUM_DBS && db < NUM_DBS
    ensures Header + Encode(ItemsUpTo(s, db)) + Encode(TableItems(db as byte, s[db])) == Header + Encode(ItemsUpTo(s, db + 1))
  {
    EncodeSplit(EncodeItem, ItemsUpTo(s, db), TableItems(db as byte, s[db]), Header);
  }

  lemma SaveEnds(s: Store)
    requires |s| == NUM_DBS
    ensures Header + Encode(ItemsUpTo(s, NUM_DBS)) + [OP_EOF] == Save(s)
  {
  }

  // ---- all the locks ----

  function LocksBelow(n: nat): (r: set<nat>)
    ensures forall l :: l in r <==> 0 <= l < n
  {
    if n == 0 then {} else LocksBelow(n - 1) + {n - 1}
  }

  function AllLocks(): set<nat> {
    LocksBelow(NUM_LOCKS)
  }

  /** Database by database and bucket by bucket, all read locks in ascending order. */
  method RdLockAll(holder: Client)
    requires holder.Free()
    modifies holder`readLocks
    ensures holder.readLocks == AllLocks()
  {
    var db := 0;
    while db < NUM_DBS
      invariant 0 <= db <= NUM_DBS
      invariant holder.readLocks == LocksBelow(db * NUM_BUCKETS)
    {
      var i := 0;
      while i < NUM_BUCKETS
        invariant 0 <= i <= NUM_BUCKETS
        invariant holder.readLocks == LocksBelow(db * NUM_BUCKETS + i)
      {
        holder.RdLock(db * NUM_BUCKETS + i);
        i := i + 1;
      }
      db := db + 1;
    }
  }

  /** The same with write locks. */
  method WrLockAll(holder: Client)
    requires holder.Free()
    modifies holder`writeLocks
    ensures holder.writeLocks == AllLocks()
  {
    var db := 0;
    while db < NUM_DBS
      invariant 0 <= db <= NUM_DBS
      invariant holder.writeLocks == LocksBelow(db * NUM_BUCKETS)
    {
      var i := 0;
      while i < NUM_BUCKETS
        invariant 0 <= i <= NUM_BUCKETS
        invariant holder.writeLocks == LocksBelow(db * NUM_BUCKETS + i)
      {
        holder.WrLock(db * NUM_BUCKETS + i);
        i := i + 1;
      }
      db := db + 1;
    }
  }

  lemma OneLockLess(held: set<nat>, n: nat)
    ensures held - LocksBelow(n) - {n} == held - LocksBelow(n + 1)
  {
  }

  /** Gives back the locks of one table. */
  method UnlockTable(holder: Client, first: nat, ghost readers: set<nat>, ghost writers: set<nat>)
    requires forall l | first <= l < first + NUM_BUCKETS :: l in readers + writers
    requires holder.readLocks == readers - LocksBelow(first) && holder.writeLocks == writers - LocksBelow(first)
    modifies holder`readLocks, holder`writeLocks
    ensures holder.readLocks == readers - LocksBelow(first + NUM_BUCKETS)
    ensures holder.writeLocks == writers - LocksBelow(first + NUM_BUCKETS)
  {
    var i := 0;
    while i < NUM_BUCKETS
      invariant 0 <= i <= NUM_BUCKETS
      invariant holder.readLocks == readers - LocksBelow(first + i)
      invariant holder.writeLocks == writers - LocksBelow(first + i)
    {
      assert first + i in readers + writers;
      OneLockLess(readers, first + i);
      OneLockLess(writers, first + i);
      holder.Unlock(first + i);
      i := i + 1;
    }
  }

  /** Gives back every lock, of whichever kind. */
  method UnlockAll(holder: Client)
    requires holder.readLocks == AllLocks() || holder.writeLocks == AllLocks()
    requires holder.readLocks + holder.writeLocks <= AllLocks()
    modifies holder`readLocks, holder`writeLocks
    ensures holder.Free()
  {
    ghost var readers, writers := holder.readLocks, holder.writeLocks;
    var db := 0;
    while db < NUM_DBS
      invariant 0 <= db <= NUM_DBS
      invariant holder.readLocks == readers - LocksBelow(db * NUM_BUCKETS)
      invariant holder.writeLocks == writers - LocksBelow(db * NUM_BUCKETS)
    {
      UnlockTable(holder, db * NUM_BUCKETS, readers, writers);
      db := db + 1;
    }
  }

  /** The database loop, under all read locks. */
  method WriteTables(server: Server, holder: Client, text: Bytes, ghost s: Store) returns (file: Bytes)
    requires server.Valid() && server.Store() == s && holder.readLocks == AllLocks()
    requires text == Header + Encode(ItemsUpTo(s, 0))
    ensures file == Header + Encode(ItemsUpTo(s, NUM_DBS))
  {
    hide ItemsUpTo, Encode;
    file := text;
    var db := 0;
    while db < NUM_DBS
      invariant 0 <= db <= NUM_DBS
      invariant file == Header + Encode(ItemsUpTo(s, db))
    {
      server.TableAt(db);
      var table := WriteTable(holder, server.tables[db], db as byte);
      SaveGrows(s, db);
      file := file + table;
      db := db + 1;
    }
  }

  /** All read locks, the database loop, and all unlocks. */
  method WriteLocked(server: Server, holder: Client, text: Bytes, ghost s: Store) returns (file: Bytes)
    requires server.Valid() && server.Store() == s && holder !in server.Repr && holder.Free()
    requires text == Header + Encode(ItemsUpTo(s, 0))
    modifies holder`readLocks, holder`writeLocks
    ensures server.Valid() && server.Store() == s && holder.Free()
    ensures file == Header + Encode(ItemsUpTo(s, NUM_DBS))
  {
    hide ItemsUpTo;
    RdLockAll(holder);
    file := WriteTables(server, holder, text, s);
    UnlockAll(holder);
  }

  /** rdb_save: header, all read locks, database by database and bucket by bucket, the unlocks, and the end marker. */
  method RdbSave(server: Server, holder: Client) returns (file: Bytes)
    requires server.Valid() && holder !in server.Repr && holder.Free()
    modifies holder`readLocks, holder`writeLocks
    ensures server.Valid() && server.Store() == old(server.Store()) && holder.Free()
    ensures file == Save(server.Store())
  {
    ghost var s := server.Store();
    SaveBegins(s);
    file := MAGIC + [VERSION];
    file := WriteLocked(server, holder, file, s);
    SaveEnds(s);
    file := file + [OP_EOF];
  }

  /** What the loop makes of the opcode at `pos`, unless it begins a record. */
  lemma NextOpcode(file: Bytes, pos: nat, sel: byte, s: Store, junk: Garbage)
    requires StoreOk(s) && pos <= |file| && !(pos < |file| && file[pos] == TYPE_STRING)
    ensures LoadBody(file[pos..], sel, s, junk) ==
              if pos == |file| then Failed(s)
              else if file[pos] == OP_EOF then Loaded(s)
              else if file[pos] != OP_SELECTDB then LoadBody(file[pos + 1..], sel, s, junk)
              else if pos + 1 == |file| then Failed(s)
              else LoadBody(file[pos + 2..], file[pos + 1], s, junk)
  {
    var rest := file[pos..];
    if pos < |file| {
      assert rest[0] == file[pos] && rest[1..] == file[pos + 1..];
      if pos + 1 < |file| {
        assert rest[1] == file[pos + 1] && rest[2..] == file[pos + 2..];
      }
    }
  }

  /** A string record is one hash_set, or the end of the load when it misses the table array. */
  lemma NextRecord(file: Bytes, pos: nat, sel: byte, s: Store, junk: Garbage, key: Bytes, value: Bytes, next: nat)
    requires StoreOk(s) && pos < |file| && file[pos] == TYPE_STRING && pos < next <= |file|
    requires ReadRecord(file[pos + 1..], junk) == (key, value, file[next..])
    ensures NulFree(key) && NulFree(value)
    ensures sel as int < NUM_DBS ==>
              && StoreOk(Put(s, sel as nat, key, value))
              && LoadBody(file[pos..], sel, s, junk) == LoadBody(file[next..], sel, Put(s, sel as nat, key, value), junk)
    ensures sel as int >= NUM_DBS ==> LoadBody(file[pos..], sel, s, junk) == WildWrite(s)
  {
    var rest := file[pos..];
    assert rest[0] == file[pos] && rest[1..] == file[pos + 1..];
    if sel as int < NUM_DBS {
      RecordAtFront(rest, sel, s, junk, key, value, file[next..]);
    }
  }

  /** What a load left behind, with its return code and the mark of a write outside the table array. */
  predicate Outcome(r: LoadResult, store: Store, rc: int, was: bool, wild: bool) {
    store == r.store && rc == (if r.Loaded? then 0 else -1) && (wild <==> was || r.WildWrite?)
  }

  /** rdb_load: the header, then the opcode loop, under the locks of the caller. Returns 0 or -1 as the C code does. */
  method RdbLoad(server: Server, holder: Client, file: Bytes, sel: byte, junk: Garbage) returns (rc: int)
    requires server.Valid() && holder !in server.Repr && holder.writeLocks == AllLocks()
    modifies server.Repr
    ensures server.Valid() && fresh(server.Repr - old(server.Repr))
    ensures server.clients == old(server.clients) && server.disk == old(server.disk)
    ensures Outcome(Load(file, sel, old(server.Store()), junk), server.Store(), rc, old(server.wild), server.wild)
  {
    if |file| < 8 || file[..8] != MAGIC || |file| < 9 {
      return -1;
    }
    rc := RunOpcodes(server, holder, file, sel, junk);
  }

  /** One string record, read and set; `ok` says that the table array was not left. */
  method RunRecord(server: Server, holder: Client, file: Bytes, pos: nat, sel: byte, junk: Garbage)
      returns (next: nat, ok: bool)
    requires holder !in server.Repr && holder.writeLocks == AllLocks()
    requires server.Valid() && pos < |file| && file[pos] == TYPE_STRING
    modifies server.Repr
    ensures server.Valid() && fresh(server.Repr - old(server.Repr))
    ensures server.clients == old(server.clients) && server.disk == old(server.disk)
    ensures pos < next <= |file|
    ensures if ok then
              && server.wild == old(server.wild)
              && LoadBody(file[pos..], sel, old(server.Store()), junk) == LoadBody(file[next..], sel, server.Store(), junk)
            else
              server.wild && LoadBody(file[pos..], sel, old(server.Store()), junk) == WildWrite(server.Store())
  {
    hide LoadBody, ReadRecord;
    var key, value;
    key, value, next := ReadStrings(file, pos + 1, junk);
    NextRecord(file, pos, sel, server.Store(), junk, key, value, next);
    ok := sel as int < NUM_DBS;
    if ok {
      server.SetKey(holder, sel as nat, key, value);
    } else {
      server.GoWild();
    }
  }

  method RunOpcodes(server: Server, holder: Client, file: Bytes, sel: byte, junk: Garbage) returns (rc: int)
    requires holder !in server.Repr && holder.writeLocks == AllLocks()
    requires server.Valid() && |file| >= 9
    modifies server.Repr
    ensures server.Valid() && fresh(server.Repr - old(server.Repr))
    ensures server.clients == old(server.clients) && server.disk == old(server.disk)
    ensures Outcome(LoadBody(file[9..], sel, old(server.Store()), junk), server.Store(), rc, old(server.wild), server.wild)
  {
    ghost var result := LoadBody(file[9..], sel, server.Store(), junk);
    var pos := 9;
    var selected := sel;
    while true
      invariant 9 <= pos <= |file|
      invariant server.Valid() && fresh(server.Repr - old(server.Repr))
      invariant server.clients == old(server.clients) && server.disk == old(server.disk) && server.wild == old(server.wild)
      invariant LoadBody(file[pos..], selected, server.Store(), junk) == result
      decreases |file| - pos
    {
      if pos < |file| && file[pos] == TYPE_STRING {
        var ok;
        pos, ok := RunRecord(server, holder, file, pos, selected, junk);
        if !ok {
          return -1;
        }
      } else {
        NextOpcode(file, pos, selected, server.Store(), junk);
        if pos == |file| {
          return -1;
        }
        if file[pos] == OP_EOF {
          return 0;
        } else if file[pos] == OP_SELECTDB {
          if pos + 1 == |file| {
            return -1;
          }
          selected := file[pos + 1];
          pos := pos + 2;
        } else {
          pos := pos + 1;
        }
      }
    }
  }

  /** The four reads of a string record. */
  method ReadStrings(file: Bytes, start: nat, junk: Garbage) returns (key: Bytes, value: Bytes, next: nat)
    requires start <= |file|
    ensures start <= next <= |file|
    ensures ReadRecord(file[start..], junk) == (key, value, file[next..])
  {
    var pos := start;
    var klen, vlen: Bytes;
    klen, pos := FreadAt(file, pos, 4, 0, junk);
    key, pos := FreadAt(file, pos, FromBe32(klen), 1, junk);
    vlen, pos := FreadAt(file, pos, 4, 2, junk);
    value, pos := FreadAt(file, pos, FromBe32(vlen), 3, junk);
    key, value, next := CStr(key), CStr(value), pos;
  }

  /** fread: a short read fills what it can and leaves the cursor at the end. */
  method FreadAt(file: Bytes, pos: nat, n: nat, field: nat, junk: Garbage) returns (data: Bytes, next: nat)
    requires pos <= |file|
    ensures pos <= next <= |file|
    ensures (data, file[next..]) == Codec.Fread(file[pos..], n, field, junk)
  {
    var left := |file| - pos;
    if left >= n {
      data, next := file[pos..pos + n], pos + n;
      assert data == file[pos..][..n] && file[next..] == file[pos..][n..];
    } else {
      data := file[pos..] + seq(n - left, i requires 0 <= i => junk(field, i));
      next := |file|;
      assert file[next..] == [] && data == Codec.Fread(file[pos..], n, field, junk).0;
    }
  }
}
