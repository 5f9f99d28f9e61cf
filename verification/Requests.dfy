/**
 * The commands that touch the tables, one at a time: on the chained store, as the handlers run them under
 * their locks (src/cmd.c), and on sixteen plain maps. The first refines the second.
 */
module Requests {
  import opened CStrings
  import opened Djb2
  import opened Chains
  import opened Codec
  import opened Snapshots
  import opened Decimal

  /** One hash_set made by rdb_load. */
  datatype Placed = Placed(db: nat, key: Bytes, value: Bytes)

  datatype Request =
    | Get(db: nat, key: Bytes)
    | Set(db: nat, key: Bytes, value: Bytes)
    | Del(db: nat, key: Bytes)
    | Incr(db: nat, key: Bytes)
    | SaveAll
    | LoadAll(puts: seq<Placed>)

  /** What a request makes known to its caller. */
  datatype Outcome =
    | Value(value: Option<Bytes>)
    | Done
    | Removed(found: bool)
    | Number(n: int)
    | File(bytes: Bytes)

  predicate PlacedOk(p: Placed) {
    p.db < NUM_DBS && StringOk(p.key) && StringOk(p.value)
  }

  predicate PutsOk(puts: seq<Placed>) {
    forall i | 0 <= i < |puts| :: PlacedOk(puts[i])
  }

  predicate RequestOk(r: Request) {
    match r
    case Get(db, k) => db < NUM_DBS && StringOk(k)
    case Set(db, k, v) => db < NUM_DBS && StringOk(k) && StringOk(v)
    case Del(db, k) => db < NUM_DBS && StringOk(k)
    case Incr(db, k) => db < NUM_DBS && StringOk(k)
    case SaveAll => true
    case LoadAll(puts) => PutsOk(puts)
  }

  // ---- on chains ----

  function Remove(s: Store, db: nat, k: Bytes): Store
    requires StoreOk(s) && db < NUM_DBS
  {
    s[db := TableDel(s[db], k)]
  }

  function PutSeq(s: Store, puts: seq<Placed>): (r: Store)
    requires StoreOk(s) && PutsOk(puts)
    ensures StoreOk(r)
  {
    if puts == [] then s
    else
      var n := |puts| - 1;
      assert PlacedOk(puts[n]);
      var t := PutSeq(s, puts[..n]);
      TableSetOk(t[puts[n].db], puts[n].key, puts[n].value);
      Put(t, puts[n].db, puts[n].key, puts[n].value)
  }

  /** INCR on a key that holds `v`: the number stored and replied, before conversion to int. */
  function Incremented(v: Bytes): int {
    Atoi(v) + 1
  }

  function Exec(s: Store, r: Request): (res: (Store, Outcome))
    requires StoreOk(s) && RequestOk(r)
  {
    match r
    case Get(db, k) => (s, Value(Lookup(s[db], k)))
    case Set(db, k, v) => (Put(s, db, k, v), Done)
    case Del(db, k) => (Remove(s, db, k), Removed(Lookup(s[db], k).Some?))
    case Incr(db, k) =>
      (match Lookup(s[db], k)
       case None => (s, Number(0))
       case Some(v) => (Put(s, db, k, Format(Incremented(v))), Number(WrapInt(Incremented(v)))))
    case SaveAll => (s, File(Save(s)))
    case LoadAll(puts) => (PutSeq(s, puts), Done)
  }

  // ---- on maps ----

  type Dicts = seq<Dict>

  function PutSeqMaps(m: Dicts, puts: seq<Placed>): (r: Dicts)
    requires |m| == NUM_DBS && PutsOk(puts)
    ensures |r| == NUM_DBS
  {
    if puts == [] then m
    else
      var n := |puts| - 1;
      assert PlacedOk(puts[n]);
      var t := PutSeqMaps(m, puts[..n]);
      t[puts[n].db := t[puts[n].db][puts[n].key := puts[n].value]]
  }

  /** The same requests on sixteen plain maps. A SAVE changes nothing; what its file holds is said by FileHolds. */
  function ExecMaps(m: Dicts, r: Request): (res: (Dicts, Option<Outcome>))
    requires |m| == NUM_DBS && RequestOk(r)
    ensures |res.0| == NUM_DBS
  {
    match r
    case Get(db, k) => (m, Some(Value(if k in m[db] then Some(m[db][k]) else None)))
    case Set(db, k, v) => (m[db := m[db][k := v]], Some(Done))
    case Del(db, k) => (m[db := m[db] - {k}], Some(Removed(k in m[db])))
    case Incr(db, k) =>
      if k !in m[db] then (m, Some(Number(0)))
      else
        var n := Incremented(m[db][k]);
        (m[db := m[db][k := Format(n)]], Some(Number(WrapInt(n))))
    case SaveAll => (m, None)
    case LoadAll(puts) => (PutSeqMaps(m, puts), Some(Done))
  }

  /** The bytes are those of a snapshot of `m`: what rdb_save writes for tables standing for `m`. */
  ghost predicate FileHolds(bytes: Bytes, m: Dicts) {
    exists s :: Storable(s) && bytes == Save(s) && Dictionaries(s) == m
  }

  /** A snapshot of `m`, loaded over any store, overrides its maps by `m`; over an empty one it restores `m`. */
  lemma LoadOfFile(bytes: Bytes, m: Dicts, t: Store, sel: byte, junk: Garbage)
    requires FileHolds(bytes, m) && StoreOk(t)
    ensures |m| == NUM_DBS
    ensures Load(bytes, sel, t, junk).Loaded?
    ensures forall d | 0 <= d < NUM_DBS ::
              Dictionaries(Load(bytes, sel, t, junk).store)[d] == Dictionaries(t)[d] + m[d]
  {
    var s :| Storable(s) && bytes == Save(s) && Dictionaries(s) == m;
    LoadOfSave(s, t, sel, junk);
  }

  predicate OutcomeAgrees(out: Outcome, expected: Option<Outcome>) {
    expected.Some? ==> out == expected.value
  }

  // ---- refinement ----

  lemma {:induction false} StorablePut(s: Store, db: nat, k: Bytes, v: Bytes)
    requires Storable(s) && db < NUM_DBS && StringOk(k) && StringOk(v)
    ensures Storable(Put(s, db, k, v))
    ensures Dictionaries(Put(s, db, k, v)) == Dictionaries(s)[db := Dictionaries(s)[db][k := v]]
  {
    SetIsUpdate(s[db], k, v);
    var t := Put(s, db, k, v);
    assert StoreOk(t);
    StorableCell(s, t, db, BucketOf(k));
    assert Dictionaries(t) == Dictionaries(s)[db := Dictionaries(s)[db][k := v]];
  }

  lemma {:induction false} StorableRemove(s: Store, db: nat, k: Bytes)
    requires Storable(s) && db < NUM_DBS
    ensures Storable(Remove(s, db, k))
    ensures Dictionaries(Remove(s, db, k)) == Dictionaries(s)[db := Dictionaries(s)[db] - {k}]
  {
    DelIsRemoval(s[db], k);
    var t := Remove(s, db, k);
    var c := s[db][BucketOf(k)];
    if Find(c, k) < |c| {
      DeletedAt(c, k);
    }
    assert StoreOk(t);
    StorableCell(s, t, db, BucketOf(k));
    assert Dictionaries(t) == Dictionaries(s)[db := Dictionaries(s)[db] - {k}];
  }

  lemma StorableCell(s: Store, t: Store, db: nat, b: nat)
    requires Storable(s) && StoreOk(t) && db < NUM_DBS && b < NUM_BUCKETS
    requires t == s[db := s[db][b := t[db][b]]]
    requires forall i | 0 <= i < |t[db][b]| :: |t[db][b][i].key| < MAX_STRING && |t[db][b][i].value| < MAX_STRING
    ensures Storable(t)
  {
  }

  lemma {:induction false} PutSeqRefines(s: Store, puts: seq<Placed>)
    requires Storable(s) && PutsOk(puts)
    ensures Storable(PutSeq(s, puts))
    ensures Dictionaries(PutSeq(s, puts)) == PutSeqMaps(Dictionaries(s), puts)
  {
    if puts != [] {
      var n := |puts| - 1;
      assert PlacedOk(puts[n]);
      PutSeqRefines(s, puts[..n]);
      StorablePut(PutSeq(s, puts[..n]), puts[n].db, puts[n].key, puts[n].value);
    }
  }

  /** One request at a time, the chained store behaves as sixteen maps, and SAVE writes a snapshot of them. */
  lemma ExecRefines(s: Store, r: Request)
    requires Storable(s) && RequestOk(r)
    ensures Storable(Exec(s, r).0)
    ensures Dictionaries(Exec(s, r).0) == ExecMaps(Dictionaries(s), r).0
    ensures OutcomeAgrees(Exec(s, r).1, ExecMaps(Dictionaries(s), r).1)
    ensures r.SaveAll? ==> FileHolds(Exec(s, r).1.bytes, Dictionaries(s))
  {
    match r
    case Get(db, k) =>
      DictionaryIsLookup(s[db], k);
    case Set(db, k, v) =>
      StorablePut(s, db, k, v);
    case Del(db, k) =>
      DictionaryIsLookup(s[db], k);
      StorableRemove(s, db, k);
    case Incr(db, k) =>
      DictionaryIsLookup(s[db], k);
      if Lookup(s[db], k).Some? {
        var n := Incremented(Lookup(s[db], k).value);
        FormatFits(n);
        StorablePut(s, db, k, Format(n));
      }
    case SaveAll =>
    case LoadAll(puts) =>
      PutSeqRefines(s, puts);
  }

  lemma PutSeqSnoc(s: Store, puts: seq<Placed>, p: Placed)
    requires StoreOk(s) && PutsOk(puts) && PlacedOk(p)
    ensures PutsOk(puts + [p])
    ensures PutSeq(s, puts + [p]) == Put(PutSeq(s, puts), p.db, p.key, p.value)
  {
    assert (puts + [p])[..|puts|] == puts;
  }

  lemma {:induction false} PutSeqFront(s: Store, p: Placed, puts: seq<Placed>, t: Store)
    requires StoreOk(s) && PlacedOk(p) && PutsOk(puts) && StoreOk(t)
    requires t == Put(s, p.db, p.key, p.value)
    ensures PutsOk([p] + puts)
    ensures PutSeq(s, [p] + puts) == PutSeq(t, puts)
    decreases |puts|
  {
    if puts == [] {
      PutSeqSnoc(s, [], p);
      assert [] + [p] == [p] + puts;
    } else {
      var front, q := puts[..|puts| - 1], puts[|puts| - 1];
      assert puts == front + [q];
      PutSeqFront(s, p, front, t);
      PutSeqSnoc(s, [p] + front, q);
      PutSeqSnoc(t, front, q);
      assert [p] + puts == ([p] + front) + [q];
    }
  }

  // ---- a load of any file ----

  /** How rdb_load leaves its loop: at the end marker, with an error, or by a write outside the table array. */
  datatype Ending = Complete | Broken | Wild

  /** The hash_set calls rdb_load makes for any bytes, and how it ends: neither depends on what the tables hold. */
  function Parse(file: Bytes, sel: byte, junk: Garbage): (r: (seq<Placed>, Ending))
    ensures PutsOk(r.0)
    decreases |file|
  {
    if file == [] then ([], Broken)
    else if file[0] == OP_EOF then ([], Complete)
    else if file[0] == OP_SELECTDB then
      if |file| < 2 then ([], Broken) else Parse(file[2..], file[1], junk)
    else if file[0] == TYPE_STRING then
      var (k, v, rest) := ReadRecord(file[1..], junk);
      if sel as int >= NUM_DBS then ([], Wild)
      else
        var (puts, end) := Parse(rest, sel, junk);
        ([Placed(sel as nat, k, v)] + puts, end)
    else Parse(file[1..], sel, junk)
  }

  function ParseFile(file: Bytes, stack: Stack): (r: (seq<Placed>, Ending))
    ensures PutsOk(r.0)
  {
    if |file| < 8 || file[..8] != MAGIC || |file| < 9 then ([], Broken)
    else Parse(file[9..], stack.sel, stack.junk)
  }

  function ResultOf(s: Store, end: Ending): LoadResult {
    match end
    case Complete => Loaded(s)
    case Broken => Failed(s)
    case Wild => WildWrite(s)
  }

  lemma {:induction false} LoadBodyIsPuts(file: Bytes, sel: byte, s: Store, junk: Garbage)
    requires StoreOk(s)
    ensures LoadBody(file, sel, s, junk) == ResultOf(PutSeq(s, Parse(file, sel, junk).0), Parse(file, sel, junk).1)
    decreases |file|
  {
    if file != [] {
      if file[0] == OP_SELECTDB {
        if |file| >= 2 {
          LoadBodyIsPuts(file[2..], file[1], s, junk);
        }
      } else if file[0] == TYPE_STRING {
        RecordIsPut(file, sel, s, junk);
      } else if file[0] != OP_EOF {
        LoadBodyIsPuts(file[1..], sel, s, junk);
      }
    }
  }

  lemma {:induction false} RecordIsPut(file: Bytes, sel: byte, s: Store, junk: Garbage)
    requires StoreOk(s) && file != [] && file[0] == TYPE_STRING
    ensures LoadBody(file, sel, s, junk) == ResultOf(PutSeq(s, Parse(file, sel, junk).0), Parse(file, sel, junk).1)
    decreases |file|, 0
  {
    if sel as int < NUM_DBS {
      var (k, v, rest) := ReadRecord(file[1..], junk);
      RecordAtFront(file, sel, s, junk, k, v, rest);
      var t := Put(s, sel as nat, k, v);
      LoadBodyIsPuts(rest, sel, t, junk);
      PutSeqFront(s, Placed(sel as nat, k, v), Parse(rest, sel, junk).0, t);
    }
  }

  /**
   * Whatever the file, rdb_load is one LOAD request: a run of hash_set calls given by the bytes alone.
   * On the maps it is the same run of updates.
   */
  lemma LoadIsRequest(file: Bytes, stack: Stack, t: Store)
    requires Storable(t)
    ensures var (puts, end) := ParseFile(file, stack);
            && Load(file, stack.sel, t, stack.junk) == ResultOf(Exec(t, LoadAll(puts)).0, end)
            && Storable(Exec(t, LoadAll(puts)).0)
            && Dictionaries(Exec(t, LoadAll(puts)).0) == ExecMaps(Dictionaries(t), LoadAll(puts)).0
  {
    ExecRefines(t, LoadAll(ParseFile(file, stack).0));
    if !(|file| < 8 || file[..8] != MAGIC || |file| < 9) {
      LoadBodyIsPuts(file[9..], stack.sel, t, stack.junk);
    }
  }

  lemma OneRecord(file: Bytes, d: byte, k: Bytes, v: Bytes, junk: Garbage)
    requires d as int < NUM_DBS && StringOk(k) && StringOk(v)
    requires file != [] && file[0] == TYPE_STRING && ReadRecord(file[1..], junk) == (k, v, [OP_EOF])
    ensures Parse(file, d, junk) == ([Placed(d as nat, k, v)], Complete)
  {
    var p := Placed(d as nat, k, v);
    assert Parse([OP_EOF], d, junk) == ([], Complete);
    assert [p] + [] == [p];
  }

  lemma SelectFirst(file: Bytes, d: byte, sel: byte, junk: Garbage)
    ensures Parse([OP_SELECTDB, d] + file, sel, junk) == Parse(file, d, junk)
  {
    assert ([OP_SELECTDB, d] + file)[2..] == file;
  }

  lemma PairLayout(d: byte, k: Bytes, v: Bytes)
    requires |k| < 256 && |v| < 256
    ensures var file, record := PairFile(d, k, v), EncodeItem(Record(k, v)) + [OP_EOF];
            |file| >= 9 && file[..8] == MAGIC && file[9..] == [OP_SELECTDB, d] + record
  {
    hide PairFile;
    PairIsFile(d, k, v);
    var r := EncodeItem(Record(k, v));
    assert [Select(d), Record(k, v)][1..] == [Record(k, v)];
    FlattenOne(EncodeItem, Record(k, v));
    assert Encode([Select(d), Record(k, v)]) == [OP_SELECTDB, d] + r;
    hide EncodeItem;
    assert PairFile(d, k, v) == Header + ([OP_SELECTDB, d] + (r + [OP_EOF]));
  }

  /** A dump of one pair is one hash_set, whatever lies on the stack. */
  lemma PairIsOnePut(d: byte, k: Bytes, v: Bytes, stack: Stack)
    requires d < 16 && |k| < 256 && |v| < 256 && NulFree(k) && NulFree(v)
    ensures ParseFile(PairFile(d, k, v), stack) == ([Placed(d as nat, k, v)], Complete)
  {
    hide PairFile, EncodeItem, Parse, ReadRecord;
    var record := EncodeItem(Record(k, v)) + [OP_EOF];
    PairLayout(d, k, v);
    RecordBytes(k, v, [OP_EOF], stack.junk);
    OneRecord(record, d, k, v, stack.junk);
    SelectFirst(record, d, stack.sel, stack.junk);
  }

  /** Of a file that holds a snapshot, the request overrides the maps by it, and the end is the end marker. */
  lemma SnapshotIsRequest(file: Bytes, m: Dicts, stack: Stack, t: Store)
    requires FileHolds(file, m) && Storable(t)
    ensures |m| == NUM_DBS && ParseFile(file, stack).1 == Complete
    ensures forall d | 0 <= d < NUM_DBS ::
              ExecMaps(Dictionaries(t), LoadAll(ParseFile(file, stack).0)).0[d] == Dictionaries(t)[d] + m[d]
  {
    LoadIsRequest(file, stack, t);
    LoadOfFile(file, m, t, stack.sel, stack.junk);
  }
}
