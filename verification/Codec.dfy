/**
 * The snapshot format (src/serializer.c) as values: the items of a dump, their bytes,
 * what rdb_save writes for a store and what rdb_load makes of a byte sequence.
 */
module Codec {
  import opened CStrings
  import opened Djb2
  import opened Chains
  import opened TableEntries

  const MAGIC: Bytes := [77, 73, 78, 82, 69, 68, 73, 83]  // "MINREDIS"
  const VERSION: byte := 1
  const OP_SELECTDB: byte := 0xFE
  const OP_EOF: byte := 0xFF
  const TYPE_STRING: byte := 0

  const Header: Bytes := MAGIC + [VERSION]

  lemma MagicText()
    ensures Ascii("MINREDIS") == MAGIC
  {
  }

  // ---- lengths ----

  /** write_len: the low 32 bits, most significant byte first. */
  function Be32(len: nat): (b: Bytes)
    ensures |b| == 4
  {
    var n := len % 0x1_0000_0000;
    var n8 := n / 0x100;
    var n16 := n8 / 0x100;
    var n24 := n16 / 0x100;
    [n24 as byte, (n16 % 0x100) as byte, (n8 % 0x100) as byte, (n % 0x100) as byte]
  }

  /** buf[0] << 24 | buf[1] << 16 | buf[2] << 8 | buf[3] */
  function FromBe32(b: Bytes): (n: nat)
    requires |b| == 4
    ensures n < 0x1_0000_0000
  {
    b[0] as nat * 0x100_0000 + b[1] as nat * 0x1_0000 + b[2] as nat * 0x100 + b[3] as nat
  }

  /** The four length bytes carry a length exactly when it is below 2^32. */
  lemma LengthRoundTrip(len: nat)
    ensures FromBe32(Be32(len)) == len % 0x1_0000_0000
    ensures FromBe32(Be32(len)) == len <==> len < 0x1_0000_0000
  {
  }

  /** No other four bytes denote the length. */
  lemma LengthBytesUnique(b: Bytes, len: nat)
    requires |b| == 4 && FromBe32(b) == len % 0x1_0000_0000
    ensures b == Be32(len)
  {
    LengthRoundTrip(len);
    var c := Be32(len);
    assert b[0] == c[0] && b[1] == c[1] && b[2] == c[2] && b[3] == c[3];
  }

  /** `b` comes before `c` in the order of dictionaries: smaller at the first byte where they differ. */
  predicate Earlier(b: Bytes, c: Bytes) {
    exists i :: 0 <= i < |b| && i < |c| && b[i] < c[i] && forall j | 0 <= j < i :: b[j] == c[j]
  }

  /** The most significant byte comes first: length bytes are ordered as the lengths they denote. */
  lemma LengthsInOrder(b: Bytes, c: Bytes)
    requires |b| == |c| == 4
    ensures FromBe32(b) < FromBe32(c) <==> Earlier(b, c)
  {
    if b[0] != c[0] {
      assert Earlier(b, c) <==> b[0] < c[0];
    } else if b[1] != c[1] {
      assert Earlier(b, c) <==> b[1] < c[1];
    } else if b[2] != c[2] {
      assert Earlier(b, c) <==> b[2] < c[2];
    } else {
      assert Earlier(b, c) <==> b[3] < c[3];
    }
  }

  /** Below 256 the last byte is the length. */
  lemma SmallLength(len: nat)
    requires len < 256
    ensures Be32(len) == [0, 0, 0, len as byte]
  {
  }

  // ---- items ----

  datatype Item =
    | Select(db: byte)
    | Record(key: Bytes, value: Bytes)
    | Unknown(opcode: byte)

  predicate ItemOk(i: Item) {
    match i
    case Select(_) => true
    case Record(k, v) => StringOk(k) && StringOk(v)
    case Unknown(op) => op != TYPE_STRING && op != OP_SELECTDB && op != OP_EOF
  }

  /** Strings this long no longer fit the four length bytes. */
  const MAX_STRING: int := 0x1_0000_0000

  predicate StringOk(s: Bytes) {
    NulFree(s) && |s| < MAX_STRING
  }

  function EncodeString(s: Bytes): Bytes {
    Be32(|s|) + s
  }

  function EncodeItem(i: Item): Bytes {
    match i
    case Select(db) => [OP_SELECTDB, db]
    case Record(k, v) => [TYPE_STRING] + EncodeString(k) + EncodeString(v)
    case Unknown(op) => [op]
  }

  function Encode(items: seq<Item>): Bytes {
    Flatten(EncodeItem, items)
  }

  // ---- rdb_save ----

  function Records(c: Chain): (r: seq<Item>)
    ensures |r| == |c|
    ensures forall i | 0 <= i < |c| :: r[i] == Record(c[i].key, c[i].value)
  {
    seq(|c|, i requires 0 <= i < |c| => Record(c[i].key, c[i].value))
  }

  /** The items of one database, chains head to tail: none at all when it is empty. */
  function TableItems(db: byte, t: Table): seq<Item> {
    if Count(t) == 0 then [] else [Select(db)] + Records(Entries(t))
  }

  function ItemsUpTo(s: Store, d: nat): seq<Item>
    requires d <= |s| <= NUM_DBS
  {
    if d == 0 then [] else ItemsUpTo(s, d - 1) + TableItems((d - 1) as byte, s[d - 1])
  }

  function SaveItems(s: Store): seq<Item>
    requires |s| == NUM_DBS
  {
    ItemsUpTo(s, NUM_DBS)
  }

  function FileOf(items: seq<Item>): Bytes {
    Header + Encode(items) + [OP_EOF]
  }

  /** A dump of one short pair in database `d`, byte by byte. */
  function PairFile(d: byte, k: Bytes, v: Bytes): Bytes
    requires |k| < 256 && |v| < 256
  {
    (Ascii("MINREDIS") + [1])
    + ([254, d] + ([0] + ([0, 0, 0, |k| as byte] + k) + ([0, 0, 0, |v| as byte] + v)))
    + [255]
  }

  lemma PairIsFile(d: byte, k: Bytes, v: Bytes)
    requires |k| < 256 && |v| < 256
    ensures FileOf([Select(d), Record(k, v)]) == PairFile(d, k, v)
  {
    hide Ascii;
    MagicText();
    SmallLength(|k|);
    SmallLength(|v|);
    assert [Select(d), Record(k, v)][1..] == [Record(k, v)];
    FlattenOne(EncodeItem, Record(k, v));
  }

  /** The file rdb_save writes. */
  function Save(s: Store): Bytes
    requires |s| == NUM_DBS
  {
    FileOf(SaveItems(s))
  }

  // ---- rdb_load ----

  /**
   * What a load leaves behind. `WildWrite` is a string record met while no database below 16 is
   * selected: the C code indexes outside the table array, and the load is not followed further.
   */
  datatype LoadResult = Loaded(store: Store) | Failed(store: Store) | WildWrite(store: Store)

  /** Bytes a short fread does not fill hold arbitrary values, one stream for each of the four reads of a record. */
  type Garbage = (nat, nat) -> byte

  /** What the stack of rdb_load holds before it writes there: the selected database, and what a short fread leaves. */
  datatype Stack = Stack(sel: byte, junk: Garbage)

  function Fread(file: Bytes, n: nat, field: nat, junk: Garbage): (r: (Bytes, Bytes))
    ensures |r.0| == n
    ensures |r.1| <= |file|
    ensures |file| < n ==> r.1 == []
    ensures |file| >= n ==> r == (file[..n], file[n..])
  {
    if |file| >= n then (file[..n], file[n..])
    else (file + seq(n - |file|, i requires 0 <= i => junk(field, i)), [])
  }

  /** Two length-prefixed strings, cut at their first NUL as hash_set will see them. */
  function ReadRecord(file: Bytes, junk: Garbage): (r: (Bytes, Bytes, Bytes))
    ensures |r.2| <= |file|
    ensures StringOk(r.0) && StringOk(r.1)
  {
    var (klen, f1) := Fread(file, 4, 0, junk);
    var (key, f2) := Fread(f1, FromBe32(klen), 1, junk);
    var (vlen, f3) := Fread(f2, 4, 2, junk);
    var (value, f4) := Fread(f3, FromBe32(vlen), 3, junk);
    (CStr(key), CStr(value), f4)
  }

  function Put(s: Store, db: nat, k: Bytes, v: Bytes): Store
    requires |s| == NUM_DBS && db < NUM_DBS && |s[db]| == NUM_BUCKETS
  {
    s[db := TableSet(s[db], k, v)]
  }

  /** The opcode loop. `sel` is the selected database, arbitrary until the first SELECTDB. */
  function LoadBody(file: Bytes, sel: byte, s: Store, junk: Garbage): (r: LoadResult)
    requires StoreOk(s)
    ensures StoreOk(r.store)
    decreases |file|
  {
    if file == [] then Failed(s)
    else if file[0] == OP_EOF then Loaded(s)
    else if file[0] == OP_SELECTDB then
      if |file| < 2 then Failed(s) else LoadBody(file[2..], file[1], s, junk)
    else if file[0] == TYPE_STRING then
      var (k, v, rest) := ReadRecord(file[1..], junk);
      if sel as int >= NUM_DBS then WildWrite(s)
      else
        TableSetOk(s[sel as int], k, v);
        LoadBody(rest, sel, Put(s, sel as int, k, v), junk)
    else LoadBody(file[1..], sel, s, junk)
  }

  /** rdb_load: magic and version first, but the version is not compared. */
  function Load(file: Bytes, sel: byte, s: Store, junk: Garbage): (r: LoadResult)
    requires StoreOk(s)
    ensures StoreOk(r.store)
  {
    if |file| < 8 || file[..8] != MAGIC || |file| < 9 then Failed(s)
    else LoadBody(file[9..], sel, s, junk)
  }

  /** Without the magic and a byte for the version nothing is loaded, and which version it is does not matter. */
  lemma HeaderDecides(file: Bytes, version: byte, sel: byte, s: Store, junk: Garbage)
    requires StoreOk(s)
    ensures |file| < 9 || file[..8] != Ascii("MINREDIS") ==> Load(file, sel, s, junk) == Failed(s)
    ensures |file| >= 9 ==> Load(file[8 := version], sel, s, junk) == Load(file, sel, s, junk)
  {
    hide Ascii;
    MagicText();
    if |file| >= 9 {
      assert file[8 := version][..8] == file[..8] && file[8 := version][9..] == file[9..];
    }
  }

  // ---- what a list of items does to a store ----

  datatype Cursor = Cursor(sel: byte, store: Store)

  predicate Fits(i: Item, sel: byte) {
    i.Record? ==> sel as int < NUM_DBS
  }

  function NextSel(i: Item, sel: byte): byte {
    if i.Select? then i.db else sel
  }

  /** Every record is met with a database below 16 selected. */
  predicate Selected(items: seq<Item>, sel: byte) {
    items == [] || (Fits(items[0], sel) && Selected(items[1..], NextSel(items[0], sel)))
  }

  predicate ItemsOk(items: seq<Item>) {
    forall i | 0 <= i < |items| :: ItemOk(items[i])
  }

  function ApplyItem(i: Item, c: Cursor): (r: Cursor)
    requires StoreOk(c.store) && ItemOk(i) && Fits(i, c.sel)
    ensures StoreOk(r.store) && r.sel == NextSel(i, c.sel)
  {
    match i
    case Select(db) => c.(sel := db)
    case Record(k, v) =>
      TableSetOk(c.store[c.sel as int], k, v);
      c.(store := Put(c.store, c.sel as int, k, v))
    case Unknown(_) => c
  }

  function Apply(items: seq<Item>, c: Cursor): (r: Cursor)
    requires StoreOk(c.store) && ItemsOk(items) && Selected(items, c.sel)
    ensures StoreOk(r.store)
  {
    if items == [] then c else Apply(items[1..], ApplyItem(items[0], c))
  }

  lemma ReadRecordEncoded(k: Bytes, v: Bytes, rest: Bytes, junk: Garbage)
    requires StringOk(k) && StringOk(v)
    ensures ReadRecord(EncodeString(k) + EncodeString(v) + rest, junk) == (k, v, rest)
  {
    var file := EncodeString(k) + EncodeString(v) + rest;
    LengthRoundTrip(|k|);
    LengthRoundTrip(|v|);
    assert file[..4] == Be32(|k|) && file[4..] == k + EncodeString(v) + rest;
    assert file[4..][..|k|] == k && file[4..][|k|..] == EncodeString(v) + rest;
    var f2 := EncodeString(v) + rest;
    assert f2[..4] == Be32(|v|) && f2[4..] == v + rest;
    assert f2[4..][..|v|] == v && f2[4..][|v|..] == rest;
    CStrOfCString(k);
    CStrOfCString(v);
  }

  /** A string record met with a database selected is one hash_set. */
  lemma RecordAtFront(file: Bytes, sel: byte, s: Store, junk: Garbage, k: Bytes, v: Bytes, rest: Bytes)
    requires StoreOk(s) && file != [] && file[0] == TYPE_STRING && sel as int < NUM_DBS
    requires ReadRecord(file[1..], junk) == (k, v, rest)
    ensures StoreOk(Put(s, sel as int, k, v))
    ensures LoadBody(file, sel, s, junk) == LoadBody(rest, sel, Put(s, sel as int, k, v), junk)
  {
    TableSetOk(s[sel as int], k, v);
  }

  lemma RecordBytes(k: Bytes, v: Bytes, rest: Bytes, junk: Garbage)
    requires StringOk(k) && StringOk(v)
    ensures var file := EncodeItem(Record(k, v)) + rest;
            file != [] && file[0] == TYPE_STRING && ReadRecord(file[1..], junk) == (k, v, rest)
  {
    var file := EncodeItem(Record(k, v)) + rest;
    assert file[1..] == EncodeString(k) + EncodeString(v) + rest;
    ReadRecordEncoded(k, v, rest, junk);
  }

  lemma LoadRecord(k: Bytes, v: Bytes, rest: Bytes, c: Cursor, junk: Garbage)
    requires StoreOk(c.store) && StringOk(k) && StringOk(v) && c.sel as int < NUM_DBS
    ensures StoreOk(Put(c.store, c.sel as int, k, v))
    ensures LoadBody(EncodeItem(Record(k, v)) + rest, c.sel, c.store, junk)
         == LoadBody(rest, c.sel, Put(c.store, c.sel as int, k, v), junk)
  {
    RecordBytes(k, v, rest, junk);
    RecordAtFront(EncodeItem(Record(k, v)) + rest, c.sel, c.store, junk, k, v, rest);
  }

  lemma LoadItem(i: Item, rest: Bytes, c: Cursor, junk: Garbage)
    requires StoreOk(c.store) && ItemOk(i) && Fits(i, c.sel)
    ensures LoadBody(EncodeItem(i) + rest, c.sel, c.store, junk)
         == LoadBody(rest, ApplyItem(i, c).sel, ApplyItem(i, c).store, junk)
  {
    match i
    case Select(db) =>
      assert (EncodeItem(i) + rest)[2..] == rest;
    case Record(k, v) =>
      LoadRecord(k, v, rest, c, junk);
    case Unknown(_) =>
      assert (EncodeItem(i) + rest)[1..] == rest;
  }

  /** The loader consumes the bytes of an item list by applying the items. */
  lemma {:induction false} LoadEncoded(items: seq<Item>, rest: Bytes, c: Cursor, junk: Garbage)
    requires StoreOk(c.store) && ItemsOk(items) && Selected(items, c.sel)
    ensures LoadBody(Encode(items) + rest, c.sel, c.store, junk)
         == LoadBody(rest, Apply(items, c).sel, Apply(items, c).store, junk)
    decreases |items|
  {
    if items == [] {
      assert Encode(items) + rest == rest;
    } else {
      var tail := Encode(items[1..]) + rest;
      assert Encode(items) + rest == EncodeItem(items[0]) + tail;
      LoadItem(items[0], tail, c, junk);
      LoadEncoded(items[1..], rest, ApplyItem(items[0], c), junk);
    }
  }

  /** A complete file loads: the result is the items applied in order. */
  lemma LoadFile(items: seq<Item>, c: Cursor, junk: Garbage)
    requires StoreOk(c.store) && ItemsOk(items) && Selected(items, c.sel)
    ensures Load(FileOf(items), c.sel, c.store, junk) == Loaded(Apply(items, c).store)
  {
    var file := FileOf(items);
    assert file[..8] == MAGIC;
    assert file[9..] == Encode(items) + [OP_EOF];
    LoadEncoded(items, [OP_EOF], c, junk);
  }

  // ---- unknown opcodes ----

  function Known(items: seq<Item>): seq<Item> {
    if items == [] then []
    else if items[0].Unknown? then Known(items[1..])
    else [items[0]] + Known(items[1..])
  }

  lemma {:induction false} KnownApplies(items: seq<Item>, c: Cursor)
    requires StoreOk(c.store) && ItemsOk(items)
    ensures ItemsOk(Known(items))
    ensures Selected(Known(items), c.sel) <==> Selected(items, c.sel)
    ensures Selected(items, c.sel) ==> Apply(Known(items), c) == Apply(items, c)
    decreases |items|
  {
    if items != [] {
      var i := items[0];
      assert ItemsOk(items[1..]);
      if i.Unknown? {
        KnownApplies(items[1..], c);
      } else {
        assert Known(items)[1..] == Known(items[1..]);
        KnownApplies(items[1..], if Fits(i, c.sel) then ApplyItem(i, c) else c);
      }
    }
  }

  /** Bytes 0x01 to 0xFD inserted between items, in any number, never change what a file loads to. */
  lemma UnknownOpcodesAreIgnored(noisy: seq<Item>, c: Cursor, junk: Garbage)
    requires StoreOk(c.store) && ItemsOk(noisy) && Selected(Known(noisy), c.sel)
    ensures ItemsOk(Known(noisy)) && Selected(noisy, c.sel)
    ensures Load(FileOf(noisy), c.sel, c.store, junk) == Load(FileOf(Known(noisy)), c.sel, c.store, junk)
  {
    KnownApplies(noisy, c);
    LoadFile(noisy, c, junk);
    LoadFile(Known(noisy), c, junk);
  }
}
