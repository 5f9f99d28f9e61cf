/**
 * The text of a dump as it grows under rdb_save's nested loops, database by database and bucket by bucket,
 * and its agreement with the item list of Codec.
 */
module DumpText {
  import opened CStrings
  import opened Djb2
  import opened Chains
  import opened TableEntries
  import opened Codec

  predicate Sized(s: Store) {
    |s| == NUM_DBS && forall d | 0 <= d < |s| :: |s[d]| == NUM_BUCKETS
  }

  /** The file text when the databases below `db` are written. */
  function TextBefore(s: Store, db: nat): Bytes
    requires Sized(s) && db <= NUM_DBS
    decreases db, 0
  {
    if db == 0 then Header
    else if Count(s[db - 1]) == 0 then TextBefore(s, db - 1)
    else TextWithin(s, db - 1, NUM_BUCKETS)
  }

  /** The file text when the buckets below `b` of database `db` are written too. */
  function TextWithin(s: Store, db: nat, b: nat): Bytes
    requires Sized(s) && db < NUM_DBS && b <= NUM_BUCKETS
    decreases db, 1 + b
  {
    if b == 0 then TextBefore(s, db) + [OP_SELECTDB, db as byte]
    else TextWithin(s, db, b - 1) + Encode(Records(s[db][b - 1]))
  }

  /** What the text is once a database has been counted, by what the count was. */
  lemma TextAfterCount(s: Store, db: nat)
    requires Sized(s) && db < NUM_DBS
    ensures CountUpTo(s[db], NUM_BUCKETS) == Count(s[db])
    ensures Count(s[db]) == 0 ==> TextBefore(s, db + 1) == TextBefore(s, db)
    ensures Count(s[db]) != 0 ==> TextWithin(s, db, 0) == TextBefore(s, db) + [OP_SELECTDB, db as byte]
  {
  }

  lemma EncodeSplit(f: Item -> Bytes, a: seq<Item>, b: seq<Item>, text: Bytes)
    ensures text + Flatten(f, a + b) == text + Flatten(f, a) + Flatten(f, b)
  {
    FlattenConcat(f, a, b);
  }

  lemma EncodeTable(f: Item -> Bytes, text: Bytes, before: seq<Item>, select: Item, records: seq<Item>)
    ensures text + Flatten(f, before + ([select] + records)) == text + Flatten(f, before) + f(select) + Flatten(f, records)
  {
    FlattenConcat(f, before, [select] + records);
    FlattenConcat(f, [select], records);
    FlattenOne(f, select);
  }

  lemma {:induction false} TextOfBuckets(s: Store, db: nat, b: nat)
    requires Sized(s) && db < NUM_DBS && b <= NUM_BUCKETS
    ensures TextWithin(s, db, b) == TextWithin(s, db, 0) + Encode(Records(EntriesUpTo(s[db], b)))
  {
    hide EncodeItem;
    if b == 0 {
      assert Records(EntriesUpTo(s[db], 0)) == [];
    } else {
      TextOfBuckets(s, db, b - 1);
      var e, c := EntriesUpTo(s[db], b - 1), s[db][b - 1];
      assert Records(e + c) == Records(e) + Records(c);
      EncodeSplit(EncodeItem, Records(e), Records(c), TextWithin(s, db, 0));
    }
  }

  lemma {:induction false} TextOfTables(s: Store, db: nat)
    requires Sized(s) && db <= NUM_DBS
    ensures TextBefore(s, db) == Header + Encode(ItemsUpTo(s, db))
  {
    if db > 0 {
      TextOfTables(s, db - 1);
      var d := (db - 1) as byte;
      if Count(s[db - 1]) == 0 {
        assert ItemsUpTo(s, db) == ItemsUpTo(s, db - 1);
      } else {
        TextOfBuckets(s, db - 1, NUM_BUCKETS);
        EncodeTable(EncodeItem, Header, ItemsUpTo(s, db - 1), Select(d), Records(Entries(s[db - 1])));
      }
    }
  }

  lemma TextOfFile(s: Store)
    requires Sized(s)
    ensures TextBefore(s, NUM_DBS) + [OP_EOF] == Save(s)
  {
    TextOfTables(s, NUM_DBS);
  }
}
