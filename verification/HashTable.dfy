/**
 * The chained hash table on the heap (src/hash.c): bucket heads in an array, singly linked entries,
 * in-place overwrite, insertion at the head, unlinking in the middle.
 */
module HashTables {
  import opened CStrings
  import opened Djb2
  import opened Chains

  /** unsigned long is 64 bits and char is signed on the platforms the Makefile targets. */
  const LONG_BITS := 64
  const CHAR_SIGNED := true

  class HashEntry {
    var key: Bytes
    var value: Bytes
    var next: HashEntry?

    constructor (k: Bytes, v: Bytes)
      ensures key == k && value == v && next == null
    {
      key, value, next := k, v, null;
    }
  }

  class HashTable {
    const buckets: array<HashEntry?>
    /** The contents, bucket by bucket in list order. */
    ghost var chains: Table
    /** The nodes behind `chains`. */
    ghost var spine: seq<seq<HashEntry>>
    ghost var Repr: set<object>

    ghost predicate Valid()
      reads this, Repr
      ensures Valid() ==> this in Repr
    {
      && Shape()
      && TableOk(chains)
    }

    /** The links of the heap and the sequence of chains describe the same lists. */
    ghost predicate Shape()
      reads this, Repr
      ensures Shape() ==> this in Repr
    {
      && this in Repr && buckets in Repr
      && buckets.Length == NUM_BUCKETS
      && |chains| == NUM_BUCKETS
      && |spine| == NUM_BUCKETS
      && (forall b, i | 0 <= b < NUM_BUCKETS && 0 <= i < |spine[b]| :: spine[b][i] in Repr)
      && (forall b | 0 <= b < NUM_BUCKETS :: Linked(buckets[b], spine[b], chains[b]))
    }

    /** `nodes` is the null-terminated list starting at `head`, and it holds the entries of `c` in order. */
    ghost predicate Linked(head: HashEntry?, nodes: seq<HashEntry>, c: Chain)
      reads nodes
    {
      && |nodes| == |c|
      && head == NodeAt(nodes, 0)
      && (forall i {:trigger nodes[i].next} | 0 <= i < |nodes| :: nodes[i].next == NodeAt(nodes, i + 1))
      && (forall i | 0 <= i < |nodes| :: nodes[i].key == c[i].key && nodes[i].value == c[i].value)
    }

    static ghost function NodeAt(nodes: seq<HashEntry>, i: nat): HashEntry? {
      if i < |nodes| then nodes[i] else null
    }

    constructor ()
      ensures Valid() && fresh(Repr)
      ensures chains == EmptyTable
    {
      buckets := new HashEntry?[NUM_BUCKETS](_ => null);
      chains := EmptyTable;
      spine := seq(NUM_BUCKETS, _ => []);
      Repr := {this, buckets};
    }

    /** hash_get: walks one chain; the value it returns is the map's. */
    method Get(k: Bytes) returns (r: Option<Bytes>)
      requires Valid() && NulFree(k)
      ensures r == Lookup(chains, k)
    {
      var idx := HashFn(k, LONG_BITS, CHAR_SIGNED);
      var cur := buckets[idx];
      ghost var i := 0;
      while cur != null
        invariant 0 <= i <= |spine[idx]|
        invariant cur == NodeAt(spine[idx], i)
        invariant i <= Find(chains[idx], k)
        decreases |spine[idx]| - i
      {
        if k == cur.key {
          return Some(cur.value);
        }
        cur := cur.next;
        i := i + 1;
      }
      r := None;
    }

    /** hash_set: overwrites the value in place, or links a new node at the head of its bucket. */
    method Set(k: Bytes, v: Bytes)
      requires Valid() && NulFree(k) && NulFree(v)
      modifies Repr
      ensures Valid() && fresh(Repr - old(Repr))
      ensures chains == TableSet(old(chains), k, v)
      ensures forall b | 0 <= b < NUM_BUCKETS && b != BucketOf(k) :: spine[b] == old(spine[b])
    {
      var idx := HashFn(k, LONG_BITS, CHAR_SIGNED);
      var cur := buckets[idx];
      ghost var i := 0;
      while cur != null
        invariant 0 <= i <= |spine[idx]|
        invariant cur == NodeAt(spine[idx], i)
        invariant i <= Find(chains[idx], k)
        decreases |spine[idx]| - i
      {
        if cur.key == k {
          NodesDistinct(idx, i);
          TableSetOk(chains, k, v);
          Overwrite(idx, cur, i, k, v);
          return;
        }
        cur := cur.next;
        i := i + 1;
      }
      TableSetOk(chains, k, v);
      InsertHead(idx, k, v);
    }

    method Overwrite(idx: nat, cur: HashEntry, ghost i: nat, k: Bytes, v: Bytes)
      requires Shape() && idx == BucketOf(k)
      requires i < |spine[idx]| && cur == spine[idx][i] && cur.key == k && i == Find(chains[idx], k)
      requires OnlyAt(cur, idx, i)
      modifies cur`value, this`chains
      ensures Shape() && Repr == old(Repr) && spine == old(spine)
      ensures chains == TableSet(old(chains), k, v)
    {
      ghost var before := chains;
      cur.value := v;
      chains := TableSet(chains, k, v);
      forall b | 0 <= b < NUM_BUCKETS
        ensures Linked(buckets[b], spine[b], chains[b])
      {
        assert old(Linked(buckets[b], spine[b], before[b]));
      }
    }

    ghost predicate OnlyAt(node: HashEntry, b: nat, i: nat)
      reads this
    {
      forall c, j | 0 <= c < |spine| && 0 <= j < |spine[c]| && spine[c][j] == node :: c == b && j == i
    }

    /** No node occurs twice, in one chain or in two: its key would be misplaced or repeated. */
    lemma NodesDistinct(b: nat, i: nat)
      requires Valid() && b < NUM_BUCKETS && i < |spine[b]|
      ensures OnlyAt(spine[b][i], b, i)
    {
      assert ChainOk(chains[b], b);
      forall c, j | 0 <= c < |spine| && 0 <= j < |spine[c]| && spine[c][j] == spine[b][i]
        ensures c == b && j == i
      {
        assert Linked(buckets[c], spine[c], chains[c]);
        assert ChainOk(chains[c], c);
        assert BucketOf(chains[c][j].key) == c;
      }
    }

    /** A node in front of a list makes a longer list. */
    lemma LinkedCons(e: HashEntry, nodes: seq<HashEntry>, c: Chain)
      requires Linked(e.next, nodes, c)
      ensures Linked(e, [e] + nodes, [Entry(e.key, e.value)] + c)
    {
      assert forall i: nat {:trigger NodeAt([e] + nodes, i + 1)} :: NodeAt([e] + nodes, i + 1) == NodeAt(nodes, i);
    }

    method InsertHead(idx: nat, k: Bytes, v: Bytes)
      requires Shape() && idx == BucketOf(k)
      requires Find(chains[idx], k) == |chains[idx]|
      modifies this, buckets
      ensures Shape() && fresh(Repr - old(Repr)) && Repr > old(Repr)
      ensures chains == TableSet(old(chains), k, v)
      ensures forall b | 0 <= b < NUM_BUCKETS && b != idx :: spine[b] == old(spine[b])
    {
      ghost var before, nodes := chains, spine;
      assert Linked(buckets[idx], nodes[idx], before[idx]);
      var e := new HashEntry(k, v);
      e.next := buckets[idx];
      buckets[idx] := e;
      chains := chains[idx := [Entry(k, v)] + chains[idx]];
      spine := spine[idx := [e] + spine[idx]];
      Repr := Repr + {e};
      forall b | 0 <= b < NUM_BUCKETS
        ensures Linked(buckets[b], spine[b], chains[b])
      {
        assert old(Linked(buckets[b], nodes[b], before[b]));
        if b == idx {
          LinkedCons(e, nodes[idx], before[idx]);
        } else {
          assert spine[b] == nodes[b] && chains[b] == before[b];
        }
      }
    }

    /** hash_del: unlinks the node and hands its value to the caller. */
    method Del(k: Bytes) returns (removed: Option<Bytes>)
      requires Valid() && NulFree(k)
      modifies Repr
      ensures Valid() && Repr == old(Repr)
      ensures removed == Lookup(old(chains), k)
      ensures chains == TableDel(old(chains), k)
      ensures forall b | 0 <= b < NUM_BUCKETS && b != BucketOf(k) :: spine[b] == old(spine[b])
    {
      hide TableOk, ChainOk, EntriesOk;
      var idx := HashFn(k, LONG_BITS, CHAR_SIGNED);
      var cur := buckets[idx];
      var prev: HashEntry? := null;
      ghost var i := 0;
      while cur != null
        invariant 0 <= i <= |spine[idx]|
        invariant cur == NodeAt(spine[idx], i)
        invariant prev == if i == 0 then null else spine[idx][i - 1]
        invariant i <= Find(chains[idx], k)
        decreases |spine[idx]| - i
      {
        if cur.key == k {
          removed := Some(cur.value);
          TableDelOk(chains, k);
          if prev == null {
            UnlinkHead(idx, cur, k);
          } else {
            NodesDistinct(idx, i - 1);
            UnlinkAfter(idx, prev, cur, i, k);
          }
          return;
        }
        prev := cur;
        cur := cur.next;
        i := i + 1;
      }
      removed := None;
    }

    method UnlinkHead(idx: nat, cur: HashEntry, k: Bytes)
      requires Shape() && idx == BucketOf(k)
      requires |spine[idx]| > 0 && cur == spine[idx][0] && Find(chains[idx], k) == 0
      modifies this`chains, this`spine, buckets
      ensures Shape() && Repr == old(Repr)
      ensures chains == TableDel(old(chains), k)
      ensures forall b | 0 <= b < NUM_BUCKETS && b != idx :: spine[b] == old(spine[b])
    {
      hide ChainDel, Find;
      ghost var before, nodes := chains, spine;
      buckets[idx] := cur.next;
      spine := spine[idx := Without(nodes[idx], 0)];
      chains := TableDel(chains, k);
      forall b | 0 <= b < NUM_BUCKETS
        ensures Linked(buckets[b], spine[b], chains[b])
      {
        assert old(Linked(buckets[b], nodes[b], before[b]));
        if b == idx {
          DeletedAt(before[idx], k);
        } else {
          assert spine[b] == nodes[b] && chains[b] == before[b];
        }
      }
    }

    method UnlinkAfter(idx: nat, prev: HashEntry, cur: HashEntry, ghost i: nat, k: Bytes)
      requires Shape() && idx == BucketOf(k)
      requires 0 < i < |spine[idx]| && cur == spine[idx][i] && prev == spine[idx][i - 1] && i == Find(chains[idx], k)
      requires OnlyAt(prev, idx, i - 1)
      modifies this`chains, this`spine, prev`next
      ensures Shape() && Repr == old(Repr)
      ensures chains == TableDel(old(chains), k)
      ensures forall b | 0 <= b < NUM_BUCKETS && b != idx :: spine[b] == old(spine[b])
    {
      hide ChainDel, Find;
      ghost var before, nodes := chains, spine;
      prev.next := cur.next;
      spine := spine[idx := Without(nodes[idx], i)];
      chains := TableDel(chains, k);
      forall b | 0 <= b < NUM_BUCKETS
        ensures Linked(buckets[b], spine[b], chains[b])
      {
        assert old(Linked(buckets[b], nodes[b], before[b]));
        if b == idx {
          DeletedAt(before[idx], k);
        } else {
          assert spine[b] == nodes[b] && chains[b] == before[b];
        }
      }
    }

    static ghost function Without(nodes: seq<HashEntry>, i: nat): (r: seq<HashEntry>)
      requires i < |nodes|
      ensures |r| == |nodes| - 1
      ensures forall j | 0 <= j < |r| :: r[j] == nodes[if j < i then j else j + 1]
    {
      nodes[..i] + nodes[i + 1..]
    }

    /** hash_count: walks all the chains. */
    method CountEntries() returns (count: nat)
      requires Valid()
      ensures count == Count(chains)
    {
      count := 0;
      var b := 0;
      while b < NUM_BUCKETS
        invariant 0 <= b <= NUM_BUCKETS
        invariant count == CountUpTo(chains, b)
      {
        var cur := buckets[b];
        ghost var i := 0;
        while cur != null
          invariant 0 <= i <= |spine[b]|
          invariant cur == NodeAt(spine[b], i)
          invariant count == CountUpTo(chains, b) + i
          decreases |spine[b]| - i
        {
          count := count + 1;
          cur := cur.next;
          i := i + 1;
        }
        b := b + 1;
      }
    }
  }
}
