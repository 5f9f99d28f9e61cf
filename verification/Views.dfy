/**
 * The state of server and connection as one value, and when it stands for a session of the reference interpreter.
 * What each handler does to the value is shown to be what the interpreter does to the session.
 */
module Views {
  import opened CStrings
  import opened Chains
  import opened Decimal
  import opened Codec
  import opened Snapshots
  import opened Requests
  import opened CommandLine
  import opened Interpreter
  import Resp

  datatype View = View(
    store: Store,
    disk: map<Bytes, Bytes>,
    clients: int,
    db: nat,
    open: bool,
    wild: bool,
    out: Bytes)

  ghost predicate FileIs(bytes: Bytes, c: Contents) {
    match c
    case Snapshot(m) => FileHolds(bytes, m)
    case Raw(b) => bytes == b
  }

  /** Each file is what the reference says of it. */
  ghost predicate DiskHolds(disk: map<Bytes, Bytes>, files: map<Bytes, Contents>) {
    disk.Keys == files.Keys && forall p | p in disk :: FileIs(disk[p], files[p])
  }

  ghost predicate Stands(v: View, s: Session) {
    && SessionOk(s)
    && Storable(v.store) && Dictionaries(v.store) == s.dicts
    && DiskHolds(v.disk, s.disk)
    && v.clients == s.clients && v.db == s.db && v.open == s.open && v.wild == s.wild
    && v.out == Resp.EncodeAll(s.replies)
  }

  // ---- what handlers do ----

  /** The bytes of one reply are sent. */
  function Said(v: View, r: Resp.Reply): View {
    v.(out := v.out + Resp.Encode(r))
  }

  /** A request is run on the chains and its outcome sent. */
  function Ran(v: View, r: Request): View
    requires StoreOk(v.store) && RequestOk(r)
  {
    var (store, out) := Exec(v.store, r);
    Said(v.(store := store), ReplyOf(out))
  }

  /** INCR on the chains, by whether the key is there. */
  lemma RanIncr(v: View, key: Bytes)
    requires StoreOk(v.store) && v.db < NUM_DBS && StringOk(key)
    ensures Ran(v, Incr(v.db, key)) ==
              match Lookup(v.store[v.db], key)
              case None => Said(v, Resp.Integer(0))
              case Some(val) =>
                Said(v.(store := Put(v.store, v.db, key, Format(Incremented(val)))), Resp.Integer(WrapInt(Incremented(val))))
  {
  }

  function Complained(v: View, name: Bytes): View {
    Said(v, Err(WrongArguments(name)))
  }

  function AfterGet(v: View, words: seq<Bytes>): View
    requires StoreOk(v.store) && v.db < NUM_DBS && LineOk(words)
  {
    if !v.open then v
    else if |words| != 2 then Complained(v, GET) else Ran(v, Get(v.db, words[1]))
  }

  function AfterSet(v: View, words: seq<Bytes>): View
    requires StoreOk(v.store) && v.db < NUM_DBS && LineOk(words)
  {
    if !v.open then v
    else if |words| < 3 then Complained(v, SET) else Ran(v, Set(v.db, words[1], Join(words[2..])))
  }

  function AfterDel(v: View, words: seq<Bytes>): View
    requires StoreOk(v.store) && v.db < NUM_DBS && LineOk(words)
  {
    if !v.open then v
    else if |words| != 2 then Complained(v, DEL) else Ran(v, Del(v.db, words[1]))
  }

  function AfterIncr(v: View, words: seq<Bytes>): View
    requires StoreOk(v.store) && v.db < NUM_DBS && LineOk(words)
  {
    if !v.open then v
    else if |words| != 2 then Complained(v, INCR) else Ran(v, Incr(v.db, words[1]))
  }

  function AfterSelect(v: View, words: seq<Bytes>): View {
    if !v.open then v
    else if |words| != 2 || Atoi(words[1]) < 0 || Atoi(words[1]) > MAX_DB then Complained(v, SELECT)
    else Said(v.(db := Atoi(words[1])), Ok())
  }

  function AfterQuit(v: View, words: seq<Bytes>): View {
    if !v.open then v
    else if |words| > 1 then Complained(v, QUIT) else Said(v.(open := false, clients := v.clients - 1), Ok())
  }

  function AfterInfo(v: View, words: seq<Bytes>, port: int): View
    requires v.db < |v.store|
  {
    if !v.open then v
    else if |words| > 1 then Complained(v, INFO)
    else Said(v, Resp.Bulk(InfoText(port, v.clients, v.db, Count(v.store[v.db]))))
  }

  /** The file is written, when it can be opened. */
  function AfterSave(v: View, path: Bytes, opens: bool): View
    requires |v.store| == NUM_DBS
  {
    Said(if opens then v.(disk := v.disk[path := Save(v.store)]) else v, Ok())
  }

  /** The file, if there is one, is loaded; the return code is not looked at. */
  function AfterLoad(v: View, path: Bytes, opens: bool, stack: Stack): View
    requires StoreOk(v.store)
  {
    Said(if opens && path in v.disk then Overlaid(v, v.disk[path], stack) else v, Ok())
  }

  function Overlaid(v: View, file: Bytes, stack: Stack): View
    requires StoreOk(v.store)
  {
    var r := Load(file, stack.sel, v.store, stack.junk);
    v.(store := r.store, wild := v.wild || r.WildWrite?)
  }

  /** What the dispatcher does with one line. */
  function Handled(v: View, words: seq<Bytes>, secondSeen: bool, port: int, choice: FileChoice): View
    requires StoreOk(v.store) && v.db < NUM_DBS && LineOk(words)
  {
    match CommandOf(words)
    case CmdGet => AfterGet(v, words)
    case CmdSet => AfterSet(v, words)
    case CmdDel => AfterDel(v, words)
    case CmdIncr => AfterIncr(v, words)
    case CmdSelect => AfterSelect(v, words)
    case CmdQuit => AfterQuit(v, words)
    case CmdInfo => AfterInfo(v, words, port)
    case CmdSave => AfterSave(v, PathOf(words, secondSeen, choice), choice.opens)
    case CmdLoad => AfterLoad(v, PathOf(words, secondSeen, choice), choice.opens, choice.stack)
    case CmdUnknown => Said(v, Err(UnknownCommand()))
  }

  // ---- that is what the interpreter does ----

  lemma SaidStands(v: View, s: Session, r: Resp.Reply)
    requires Stands(v, s)
    ensures Stands(Said(v, r), Send(s, r))
  {
    Resp.EncodeAllAppend(s.replies, r);
  }

  lemma RanStands(v: View, s: Session, r: Request)
    requires Stands(v, s) && RequestOk(r) && !r.SaveAll?
    ensures Stands(Ran(v, r), Perform(s, r))
  {
    ExecRefines(v.store, r);
    Resp.EncodeAllAppend(s.replies, ReplyOf(Exec(v.store, r).1));
  }

  lemma SnapshotHeld(store: Store)
    requires Storable(store)
    ensures FileHolds(Save(store), Dictionaries(store))
  {
  }

  lemma DiskWritten(disk: map<Bytes, Bytes>, files: map<Bytes, Contents>, path: Bytes, bytes: Bytes, c: Contents)
    requires DiskHolds(disk, files) && FileIs(bytes, c)
    ensures DiskHolds(disk[path := bytes], files[path := c])
  {
  }

  lemma SaveStands(v: View, s: Session, words: seq<Bytes>, c: FileChoice)
    requires Stands(v, s)
    ensures Stands(AfterSave(v, PathOf(words, s.secondSeen, c), c.opens), DoSave(s, words, c))
  {
    var p := PathOf(words, s.secondSeen, c);
    if c.opens {
      SnapshotHeld(v.store);
      DiskWritten(v.disk, s.disk, p, Save(v.store), Snapshot(s.dicts));
      SaidStands(v.(disk := v.disk[p := Save(v.store)]), s.(disk := s.disk[p := Snapshot(s.dicts)]), Ok());
    } else {
      SaidStands(v, s, Ok());
    }
  }

  /** A snapshot read over the store overrides its maps, and the load does not leave the table array. */
  lemma SnapshotOverlaid(file: Bytes, m: Dicts, t: Store, stack: Stack)
    requires FileHolds(file, m) && Storable(t) && |m| == NUM_DBS
    ensures Load(file, stack.sel, t, stack.junk).Loaded? && Storable(Load(file, stack.sel, t, stack.junk).store)
    ensures Dictionaries(Load(file, stack.sel, t, stack.junk).store) == Override(Dictionaries(t), m)
  {
    LoadIsRequest(file, stack, t);
    SnapshotIsRequest(file, m, stack, t);
  }

  /** Any other file does to the maps what its hash_set calls do. */
  lemma RawOverlaid(file: Bytes, t: Store, stack: Stack)
    requires Storable(t)
    ensures var r := Load(file, stack.sel, t, stack.junk);
            && Storable(r.store)
            && (Dictionaries(r.store), r.WildWrite?) == Merged(Dictionaries(t), Raw(file), stack)
  {
    LoadIsRequest(file, stack, t);
  }

  lemma OverlaidStands(v: View, s: Session, file: Bytes, c: Contents, stack: Stack)
    requires Stands(v, s) && FileIs(file, c) && (c.Snapshot? ==> |c.dicts| == NUM_DBS)
    ensures var (dicts, wild) := Merged(s.dicts, c, stack);
            Stands(Overlaid(v, file, stack), s.(dicts := dicts, wild := s.wild || wild))
  {
    match c
    case Snapshot(m) => SnapshotOverlaid(file, m, v.store, stack);
    case Raw(_) => RawOverlaid(file, v.store, stack);
  }

  lemma LoadStands(v: View, s: Session, words: seq<Bytes>, c: FileChoice)
    requires Stands(v, s)
    ensures Stands(AfterLoad(v, PathOf(words, s.secondSeen, c), c.opens, c.stack), DoLoad(s, words, c))
  {
    var p := PathOf(words, s.secondSeen, c);
    if c.opens && p in s.disk {
      OverlaidStands(v, s, v.disk[p], s.disk[p], c.stack);
      var (dicts, wild) := Merged(s.dicts, s.disk[p], c.stack);
      SaidStands(Overlaid(v, v.disk[p], c.stack), s.(dicts := dicts, wild := s.wild || wild), Ok());
    } else {
      SaidStands(v, s, Ok());
    }
  }

  lemma GetStands(v: View, s: Session, words: seq<Bytes>)
    requires Stands(v, s) && s.open && LineOk(words)
    ensures Stands(AfterGet(v, words), DoGet(s, words))
  {
    if |words| != 2 { SaidStands(v, s, Err(WrongArguments(GET))); } else { RanStands(v, s, Get(s.db, words[1])); }
  }

  lemma SetStands(v: View, s: Session, words: seq<Bytes>)
    requires Stands(v, s) && s.open && LineOk(words)
    ensures Stands(AfterSet(v, words), DoSet(s, words))
  {
    if |words| < 3 { SaidStands(v, s, Err(WrongArguments(SET))); }
    else { RanStands(v, s, Set(s.db, words[1], Join(words[2..]))); }
  }

  lemma DelStands(v: View, s: Session, words: seq<Bytes>)
    requires Stands(v, s) && s.open && LineOk(words)
    ensures Stands(AfterDel(v, words), DoDel(s, words))
  {
    if |words| != 2 { SaidStands(v, s, Err(WrongArguments(DEL))); } else { RanStands(v, s, Del(s.db, words[1])); }
  }

  lemma IncrStands(v: View, s: Session, words: seq<Bytes>)
    requires Stands(v, s) && s.open && LineOk(words)
    ensures Stands(AfterIncr(v, words), DoIncr(s, words))
  {
    if |words| != 2 { SaidStands(v, s, Err(WrongArguments(INCR))); } else { RanStands(v, s, Incr(s.db, words[1])); }
  }

  lemma SelectStands(v: View, s: Session, words: seq<Bytes>)
    requires Stands(v, s) && s.open
    ensures Stands(AfterSelect(v, words), DoSelect(s, words))
  {
    if |words| != 2 || !(0 <= Atoi(words[1]) <= MAX_DB) {
      SaidStands(v, s, Err(WrongArguments(SELECT)));
    } else {
      SaidStands(v.(db := Atoi(words[1])), s.(db := Atoi(words[1])), Ok());
    }
  }

  lemma QuitStands(v: View, s: Session, words: seq<Bytes>)
    requires Stands(v, s) && s.open
    ensures Stands(AfterQuit(v, words), DoQuit(s, words))
  {
    if |words| > 1 { SaidStands(v, s, Err(WrongArguments(QUIT))); } else { SaidStands(v, s, Ok()); }
  }

  lemma InfoStands(v: View, s: Session, words: seq<Bytes>, port: int)
    requires Stands(v, s) && s.open
    ensures Stands(AfterInfo(v, words, port), DoInfo(s, words, port))
  {
    if |words| > 1 {
      SaidStands(v, s, Err(WrongArguments(INFO)));
    } else {
      CountIsSize(v.store[v.db]);
      SaidStands(v, s, Resp.Bulk(InfoText(port, v.clients, v.db, Count(v.store[v.db]))));
    }
  }

  /** What the handlers know of the second token slot is what the session remembers of its lines. */
  predicate SlotAgrees(words: seq<Bytes>, slot: bool, secondSeen: bool) {
    |words| <= 1 ==> slot == secondSeen
  }

  /** Line by line, the handlers and the interpreter stay in step. */
  lemma HandledStands(v: View, s: Session, words: seq<Bytes>, slot: bool, env: Env)
    requires Stands(v, s) && s.open && LineOk(words) && SlotAgrees(words, slot, s.secondSeen)
    ensures Stands(Handled(v, words, slot, env.port, env.files(s.frames)), Execute(s, words, env))
  {
    match CommandOf(words)
    case CmdGet => GetStands(v, s, words);
    case CmdSet => SetStands(v, s, words);
    case CmdDel => DelStands(v, s, words);
    case CmdIncr => IncrStands(v, s, words);
    case CmdSelect => SelectStands(v, s, words);
    case CmdQuit => QuitStands(v, s, words);
    case CmdInfo => InfoStands(v, s, words, env.port);
    case CmdSave => SaveStands(v, s, words, env.files(s.frames));
    case CmdLoad => LoadStands(v, s, words, env.files(s.frames));
    case CmdUnknown => SaidStands(v, s, Err(UnknownCommand()));
  }
}
