/**
 * The server's sixteen tables on the heap (include/server.h), and one client connection with the bucket locks
 * its thread holds. A table is only touched under the lock of the key's bucket.
 */
module ServerState {
  import opened CStrings
  import opened Chains
  import opened Codec
  import opened Requests
  import opened HashTables

  class Client {
    var sock: int
    var db: nat
    /** Everything sent on the connection. */
    var out: Bytes
    /** The bucket locks held by the client's thread. */
    var readLocks: set<nat>
    var writeLocks: set<nat>

    ghost predicate Free()
      reads this
    {
      readLocks == {} && writeLocks == {}
    }

    /** Locks are taken in strictly ascending order, and so never twice. */
    ghost predicate Below(l: nat)
      reads this
    {
      forall h | h in readLocks + writeLocks :: h < l
    }

    method RdLock(l: nat)
      requires Below(l)
      modifies this`readLocks
      ensures readLocks == old(readLocks) + {l}
    {
      readLocks := readLocks + {l};
    }

    method WrLock(l: nat)
      requires Below(l)
      modifies this`writeLocks
      ensures writeLocks == old(writeLocks) + {l}
    {
      writeLocks := writeLocks + {l};
    }

    method Unlock(l: nat)
      requires l in readLocks + writeLocks
      modifies this`readLocks, this`writeLocks
      ensures readLocks == old(readLocks) - {l} && writeLocks == old(writeLocks) - {l}
    {
      readLocks, writeLocks := readLocks - {l}, writeLocks - {l};
    }
  }

  class Server {
    const tables: seq<HashTable>
    const port: int
    var clients: int
    /** The dump files, by path. */
    var disk: map<Bytes, Bytes>
    /** Some load has written outside `tables`; the C program is then lost. */
    ghost var wild: bool
    ghost var Repr: set<object>

    /** The fields beside the tables are as before. */
    twostate predicate OthersKept()
      reads this
    {
      clients == old(clients) && disk == old(disk) && wild == old(wild)
    }

    ghost predicate Valid()
      reads this, Repr
      ensures Valid() ==> this in Repr
    {
      && this in Repr
      && |tables| == NUM_DBS
      && (forall d | 0 <= d < NUM_DBS :: Slot(d))
      && (forall d, e | 0 <= d < e < NUM_DBS :: Slot(d) && Slot(e) && tables[d].Repr !! tables[e].Repr)
    }

    ghost predicate Slot(d: nat)
      reads this, Repr
    {
      && d < |tables| && tables[d] in Repr && tables[d].Repr <= Repr
      && this !in tables[d].Repr && tables[d].Valid()
    }

    ghost function Store(): (s: Store)
      requires Valid()
      reads this, Repr
      ensures StoreOk(s)
    {
      assert forall d | 0 <= d < NUM_DBS :: Slot(d) && TableOk(tables[d].chains);
      seq(NUM_DBS, d requires 0 <= d < NUM_DBS && Slot(d) reads this, Repr => tables[d].chains)
    }

    lemma TableAt(d: nat)
      requires Valid() && d < NUM_DBS
      ensures tables[d].Valid() && tables[d].chains == Store()[d]
    {
      assert Slot(d);
    }

    /** Sixteen empty tables and no client yet. */
    constructor (listenPort: int)
      ensures Valid() && fresh(Repr)
      ensures Store() == EmptyStore
      ensures port == listenPort && clients == 0 && disk == map[] && !wild
    {
      var all: seq<HashTable> := [];
      ghost var owned: set<object> := {};
      while |all| < NUM_DBS
        invariant |all| <= NUM_DBS && fresh(owned)
        invariant forall d | 0 <= d < |all| ::
          all[d] in owned && all[d].Repr <= owned && all[d].Valid() && all[d].chains == EmptyTable
        invariant forall d, e | 0 <= d < e < |all| :: all[d].Repr !! all[e].Repr
      {
        var table := new HashTable();
        all := all + [table];
        owned := owned + table.Repr;
      }
      tables, port := all, listenPort;
      clients, disk, wild := 0, map[], false;
      Repr := owned + {this};
      new;
      assert forall d | 0 <= d < NUM_DBS :: Slot(d);
    }

    /** hash_set on one table; the others stand still. */
    method SetKey(holder: Client, db: nat, k: Bytes, v: Bytes)
      requires Valid() && db < NUM_DBS && NulFree(k) && NulFree(v)
      requires LockOf(db, k) in holder.writeLocks
      modifies Repr
      ensures Valid() && fresh(Repr - old(Repr))
      ensures Store() == Put(old(Store()), db, k, v)
      ensures OthersKept()
    {
      hide HashTable.Valid, TableSet, ChainSet;
      ghost var before, was := Store(), Repr;
      assert Slot(db);
      tables[db].Set(k, v);
      Repr := Repr + tables[db].Repr;
      forall d | 0 <= d < NUM_DBS
        ensures Slot(d)
        ensures d != db ==> tables[d].Repr == old(tables[d].Repr) && tables[d].chains == before[d]
      {
        assert old(Slot(d));
      }
      assert forall d | 0 <= d < NUM_DBS && d != db :: tables[d].Repr !! tables[db].Repr by {
        assert forall d | 0 <= d < NUM_DBS :: old(Slot(d)) && tables[d] in was && old(tables[d].Repr) <= was;
      }
      assert Store() == Put(before, db, k, v);
    }

    method GetKey(holder: Client, db: nat, k: Bytes) returns (r: Option<Bytes>)
      requires Valid() && db < NUM_DBS && NulFree(k)
      requires LockOf(db, k) in holder.readLocks + holder.writeLocks
      ensures r == Lookup(Store()[db], k)
    {
      assert Slot(db);
      r := tables[db].Get(k);
    }

    /** hash_del on one table. */
    method DelKey(holder: Client, db: nat, k: Bytes) returns (r: Option<Bytes>)
      requires Valid() && db < NUM_DBS && NulFree(k)
      requires LockOf(db, k) in holder.writeLocks
      modifies Repr
      ensures Valid() && Repr == old(Repr)
      ensures r == Lookup(old(Store())[db], k)
      ensures Store() == Remove(old(Store()), db, k)
      ensures OthersKept()
    {
      ghost var before := Store();
      assert Slot(db);
      r := tables[db].Del(k);
      forall d | 0 <= d < NUM_DBS
        ensures Slot(d)
        ensures d != db ==> tables[d].Repr == old(tables[d].Repr) && tables[d].chains == before[d]
      {
        assert old(Slot(d));
      }
      assert Store() == Remove(before, db, k);
    }

    /** A file written whole. */
    method WriteFile(path: Bytes, bytes: Bytes)
      requires Valid()
      modifies this`disk
      ensures Valid() && Store() == old(Store())
      ensures disk == old(disk)[path := bytes]
    {
      disk := disk[path := bytes];
      Untouched();
    }

    /** One client less. */
    method DropClient()
      requires Valid()
      modifies this`clients
      ensures Valid() && Store() == old(Store())
      ensures clients == old(clients) - 1
    {
      clients := clients - 1;
      Untouched();
    }

    /** The loader is about to index outside the table array. */
    ghost method GoWild()
      requires Valid()
      modifies this`wild
      ensures Valid() && Store() == old(Store()) && wild
    {
      wild := true;
      Untouched();
    }

    /** The tables do not depend on the other fields of the server. */
    twostate lemma Untouched()
      requires old(Valid()) && Repr == old(Repr)
      requires forall o: object | o in old(Repr) && o != this :: unchanged(o)
      ensures Valid() && Store() == old(Store())
    {
      forall d | 0 <= d < NUM_DBS
        ensures Slot(d) && tables[d].Repr == old(tables[d].Repr) && tables[d].chains == old(tables[d].chains)
      {
        assert old(Slot(d));
      }
    }
  }
}
