/**
 * The command handlers and the dispatcher on the heap (src/cmd.c), each proved to do to the server what the
 * reference interpreter does to its maps. Each takes the bucket locks it needs in ascending order and has given all of
 * them back when it returns; what other threads do meanwhile is the subject of LockProtocol.
 */
module Handlers {
  import opened CStrings
  import opened Djb2
  import opened Chains
  import opened Decimal
  import opened Requests
  import opened CommandLine
  import opened Interpreter
  import opened Parser
  import opened HashTables
  import opened ServerState
  import opened Serializer
  import opened Replies
  import opened SetValue
  import opened Views
  import opened Codec

  ghost function ViewOf(server: Server, client: Client): View
    requires server.Valid()
    reads server, server.Repr, client
  {
    View(server.Store(), server.disk, server.clients, client.db, client.sock != -1, server.wild, client.out)
  }

  /** Objects of the connection are apart from those of the server, and its thread holds no lock. */
  ghost predicate Ready(server: Server, client: Client)
    reads server, server.Repr, client
  {
    server.Valid() && client !in server.Repr && client.Free()
  }

  method Complain(server: Server, client: Client, r: ServerReply, name: Bytes)
    requires Ready(server, client) && r !in server.Repr
    modifies r, client`out
    ensures Ready(server, client)
    ensures ViewOf(server, client) == Complained(old(ViewOf(server, client)), name)
    ensures client.out == old(client.out) + (Ascii("-ERR ") + WrongArguments(name) + [13, 10])
  {
    r.Err(client, WrongArguments(name));
  }

  twostate predicate OthersKept(server: Server)
    reads server
  {
    server.clients == old(server.clients) && server.disk == old(server.disk) && server.wild == old(server.wild)
  }

  // ---- critical sections ----

  /** The bucket lock of a key: the table of the selected database, the bucket of the hash. */
  method BucketLock(client: Client, key: Bytes) returns (l: nat)
    requires NulFree(key)
    ensures l == LockOf(client.db, key)
  {
    var idx := HashFn(key, LONG_BITS, CHAR_SIGNED);
    l := client.db * NUM_BUCKETS + idx;
  }

  method LockedGet(server: Server, client: Client, key: Bytes) returns (value: Option<Bytes>)
    requires Ready(server, client) && client.db < NUM_DBS && NulFree(key)
    modifies client`readLocks, client`writeLocks
    ensures Ready(server, client) && server.Store() == old(server.Store())
    ensures value == Lookup(server.Store()[client.db], key)
  {
    var l := BucketLock(client, key);
    client.RdLock(l);
    value := server.GetKey(client, client.db, key);
    client.Unlock(l);
  }

  method LockedSet(server: Server, client: Client, key: Bytes, value: Bytes)
    requires Ready(server, client) && client.db < NUM_DBS && NulFree(key) && NulFree(value)
    modifies client`readLocks, client`writeLocks, server.Repr
    ensures Ready(server, client) && fresh(server.Repr - old(server.Repr))
    ensures server.Store() == Put(old(server.Store()), client.db, key, value)
    ensures OthersKept(server)
  {
    var l := BucketLock(client, key);
    client.WrLock(l);
    server.SetKey(client, client.db, key, value);
    client.Unlock(l);
  }

  method LockedDel(server: Server, client: Client, key: Bytes) returns (deleted: Option<Bytes>)
    requires Ready(server, client) && client.db < NUM_DBS && NulFree(key)
    modifies client`readLocks, client`writeLocks, server.Repr
    ensures Ready(server, client) && server.Repr == old(server.Repr)
    ensures server.Store() == Remove(old(server.Store()), client.db, key)
    ensures deleted == Lookup(old(server.Store())[client.db], key)
    ensures OthersKept(server)
  {
    hide Remove, Lookup;
    var l := BucketLock(client, key);
    client.WrLock(l);
    deleted := server.DelKey(client, client.db, key);
    client.Unlock(l);
  }

  /** Lookup and update under one write lock, given back on the missing-key path too. */
  method LockedIncr(server: Server, client: Client, key: Bytes) returns (n: Option<int>)
    requires Ready(server, client) && client.db < NUM_DBS && NulFree(key)
    modifies client`readLocks, client`writeLocks, server.Repr
    ensures Ready(server, client) && fresh(server.Repr - old(server.Repr))
    ensures OthersKept(server)
    ensures match Lookup(old(server.Store())[client.db], key)
            case None => n == None && server.Store() == old(server.Store())
            case Some(v) =>
              && n == Some(Incremented(v))
              && server.Store() == Put(old(server.Store()), client.db, key, Format(Incremented(v)))
  {
    hide Put, Format, Atoi, Lookup;
    var l := BucketLock(client, key);
    client.WrLock(l);
    var val := server.GetKey(client, client.db, key);
    if val == None {
      client.Unlock(l);
      return None;
    }
    var next := Atoi(val.value);
    next := next + 1;
    var buf := Format(next);
    FormatFits(next);
    assert |buf| < 32;
    server.SetKey(client, client.db, key, buf);
    client.Unlock(l);
    n := Some(next);
  }

  /** All write locks, the load, and all unlocks, whatever the load returns. */
  method LockedLoad(server: Server, client: Client, path: Bytes, opens: bool, stack: Stack)
    requires Ready(server, client)
    modifies client`readLocks, client`writeLocks, server.Repr
    ensures Ready(server, client) && fresh(server.Repr - old(server.Repr))
    ensures var v := old(ViewOf(server, client));
            ViewOf(server, client) == if opens && path in v.disk then Overlaid(v, v.disk[path], stack) else v
  {
    hide Load;
    WrLockAll(client);
    if opens && path in server.disk {
      var rc := RdbLoad(server, client, server.disk[path], stack.sel, stack.junk);
    }
    UnlockAll(client);
  }

  // ---- handlers ----

  /** cmd_get */
  method GetCommand(server: Server, cmd: Cmd, mem: array<byte>, client: Client, r: ServerReply, ghost words: seq<Bytes>)
    requires Ready(server, client) && r !in server.Repr && client.db < NUM_DBS
    requires cmd.Reads(mem, words) && LineOk(words)
    modifies r, client
    ensures Ready(server, client)
    ensures ViewOf(server, client) == AfterGet(old(ViewOf(server, client)), words)
  {
    if client.sock == -1 {
      return;
    }
    if cmd.tokens.count != 2 {
      Complain(server, client, r, GET);
      return;
    }
    var key := cmd.Token(mem, 1, words);
    var value := LockedGet(server, client, key);
    r.BulkStr(client, value);
  }

  /** cmd_set */
  method SetCommand(server: Server, cmd: Cmd, mem: array<byte>, client: Client, r: ServerReply, ghost words: seq<Bytes>)
    requires Ready(server, client) && r !in server.Repr && client.db < NUM_DBS
    requires cmd.Reads(mem, words) && LineOk(words)
    modifies r, client, server.Repr
    ensures Ready(server, client) && fresh(server.Repr - old(server.Repr))
    ensures ViewOf(server, client) == AfterSet(old(ViewOf(server, client)), words)
  {
    hide Ran;
    if client.sock == -1 {
      return;
    }
    if cmd.tokens.count < 3 {
      Complain(server, client, r, SET);
      return;
    }
    var str := RebuildValue(cmd, mem, words);
    var key := cmd.Token(mem, 1, words);
    var value := CStr(str.buf[..]);
    HeldText(str.buf[..], str.len, Join(words[2..]));
    StoreAndReply(server, client, r, key, value);
  }

  method StoreAndReply(server: Server, client: Client, r: ServerReply, key: Bytes, value: Bytes)
    requires Ready(server, client) && r !in server.Repr && client.db < NUM_DBS && StringOk(key) && StringOk(value)
    modifies r, client, server.Repr
    ensures Ready(server, client) && fresh(server.Repr - old(server.Repr))
    ensures ViewOf(server, client) == Ran(old(ViewOf(server, client)), Set(old(client.db), key, value))
  {
    LockedSet(server, client, key, value);
    r.SimpleStr(client, [79, 75]);
  }

  lemma HeldText(buf: Bytes, len: nat, text: Bytes)
    requires len == |text| + 1 <= |buf| && buf[..len] == text + [NUL] && NulFree(text)
    ensures CStr(buf) == text
  {
    assert buf[|text|] == buf[..len][|text|];
    assert buf[..|text|] == buf[..len][..|text|];
    CStrUnique(buf, |text|);
  }

  /** cmd_del */
  method DelCommand(server: Server, cmd: Cmd, mem: array<byte>, client: Client, r: ServerReply, ghost words: seq<Bytes>)
    requires Ready(server, client) && r !in server.Repr && client.db < NUM_DBS
    requires cmd.Reads(mem, words) && LineOk(words)
    modifies r, client, server.Repr
    ensures Ready(server, client) && fresh(server.Repr - old(server.Repr))
    ensures ViewOf(server, client) == AfterDel(old(ViewOf(server, client)), words)
    ensures old(client.sock) != -1 && |words| == 2 ==>
              client.out == old(client.out)
                + ((if Lookup(old(server.Store())[client.db], words[1]).Some? then Ascii(":1") else Ascii(":0")) + [13, 10])
  {
    if client.sock == -1 {
      return;
    }
    if cmd.tokens.count != 2 {
      Complain(server, client, r, DEL);
      return;
    }
    var key := cmd.Token(mem, 1, words);
    DeleteAndReply(server, client, r, key);
  }

  method DeleteAndReply(server: Server, client: Client, r: ServerReply, key: Bytes)
    requires Ready(server, client) && r !in server.Repr && client.db < NUM_DBS && StringOk(key)
    modifies r, client, server.Repr
    ensures Ready(server, client) && fresh(server.Repr - old(server.Repr))
    ensures ViewOf(server, client) == Ran(old(ViewOf(server, client)), Del(old(client.db), key)) && client.db == old(client.db)
    ensures client.out == old(client.out)
              + ((if Lookup(old(server.Store())[client.db], key).Some? then Ascii(":1") else Ascii(":0")) + [13, 10])
  {
    hide Remove, Lookup;
    BitText();
    var deleted := LockedDel(server, client, key);
    if deleted == None {
      r.Integer(client, 0);
      return;
    }
    r.Integer(client, 1);
  }

  lemma BitText()
    ensures Ascii(":") + Format(WrapInt(0)) == Ascii(":0") && Ascii(":") + Format(WrapInt(1)) == Ascii(":1")
  {
    assert Ascii(":0") == [58, 48] && Ascii(":1") == [58, 49];
  }

  /** cmd_incr */
  method IncrCommand(server: Server, cmd: Cmd, mem: array<byte>, client: Client, r: ServerReply, ghost words: seq<Bytes>)
    requires Ready(server, client) && r !in server.Repr && client.db < NUM_DBS
    requires cmd.Reads(mem, words) && LineOk(words)
    modifies r, client, server.Repr
    ensures Ready(server, client) && fresh(server.Repr - old(server.Repr))
    ensures ViewOf(server, client) == AfterIncr(old(ViewOf(server, client)), words)
  {
    if client.sock == -1 {
      return;
    }
    if cmd.tokens.count != 2 {
      Complain(server, client, r, INCR);
      return;
    }
    var key := cmd.Token(mem, 1, words);
    IncrementAndReply(server, client, r, key);
  }

  method IncrementAndReply(server: Server, client: Client, r: ServerReply, key: Bytes)
    requires Ready(server, client) && r !in server.Repr && client.db < NUM_DBS && StringOk(key)
    modifies r, client, server.Repr
    ensures Ready(server, client) && fresh(server.Repr - old(server.Repr))
    ensures ViewOf(server, client) == Ran(old(ViewOf(server, client)), Incr(old(client.db), key))
  {
    RanIncr(ViewOf(server, client), key);
    var n := LockedIncr(server, client, key);
    r.Integer(client, if n == None then 0 else n.value);
  }

  /** cmd_select */
  method SelectCommand(server: Server, cmd: Cmd, mem: array<byte>, client: Client, r: ServerReply, ghost words: seq<Bytes>)
    requires Ready(server, client) && r !in server.Repr
    requires cmd.Reads(mem, words)
    modifies r, client
    ensures Ready(server, client)
    ensures ViewOf(server, client) == AfterSelect(old(ViewOf(server, client)), words)
    ensures old(client.sock) != -1 && |words| == 2 ==>
              if 0 <= Atoi(words[1]) < 16 then
                client.db == Atoi(words[1]) && client.out == old(client.out) + (Ascii("+") + Ascii("OK") + [13, 10])
              else
                client.db == old(client.db)
                && client.out == old(client.out) + (Ascii("-ERR ") + WrongArguments(Ascii("SELECT")) + [13, 10])
  {
    hide WrongArguments;
    NamesAsText();
    assert Ascii("OK") == [79, 75];
    if client.sock == -1 {
      return;
    }
    if cmd.tokens.count != 2 {
      Complain(server, client, r, SELECT);
      return;
    }
    var text := cmd.Token(mem, 1, words);
    var sel := Atoi(text);
    if sel < 0 || sel > MAX_DB {
      Complain(server, client, r, SELECT);
      r.error := 1;
      return;
    }
    client.db := sel;
    r.SimpleStr(client, [79, 75]);
  }

  /** cmd_quit */
  method QuitCommand(server: Server, cmd: Cmd, mem: array<byte>, client: Client, r: ServerReply, ghost words: seq<Bytes>)
    requires Ready(server, client) && r !in server.Repr
    requires cmd.Reads(mem, words)
    modifies r, client, server`clients
    ensures Ready(server, client) && server.Repr == old(server.Repr)
    ensures ViewOf(server, client) == AfterQuit(old(ViewOf(server, client)), words)
  {
    if client.sock == -1 {
      return;
    }
    if cmd.tokens.count > 1 {
      Complain(server, client, r, QUIT);
      return;
    }
    r.SimpleStr(client, [79, 75]);
    client.sock := -1;
    server.DropClient();
  }

  /** cmd_info */
  method InfoCommand(server: Server, cmd: Cmd, mem: array<byte>, client: Client, r: ServerReply, ghost words: seq<Bytes>)
    requires Ready(server, client) && r !in server.Repr && client.db < NUM_DBS
    requires cmd.Reads(mem, words)
    modifies r, client`out
    ensures Ready(server, client)
    ensures ViewOf(server, client) == AfterInfo(old(ViewOf(server, client)), words, server.port)
  {
    if client.sock == -1 {
      return;
    }
    if cmd.tokens.count > 1 {
      Complain(server, client, r, INFO);
      return;
    }
    assert server.Slot(client.db);
    var keys := server.tables[client.db].CountEntries();
    r.BulkStr(client, Some(InfoText(server.port, server.clients, client.db, keys)));
  }

  /** What the second token pointer leads to: null stands for the default path, and it may be a leftover. */
  method ArgumentPath(cmd: Cmd, mem: array<byte>, ghost words: seq<Bytes>, choice: FileChoice) returns (path: Bytes)
    requires cmd.Reads(mem, words)
    ensures path == PathOf(words, cmd.tokens.Second().Some?, choice)
  {
    if cmd.tokens.count > 1 {
      path := cmd.Token(mem, 1, words);
    } else if cmd.tokens.buf[1] == None {
      path := DefaultPath();
    } else {
      path := choice.leftover;
    }
  }

  /** cmd_save */
  method SaveCommand(server: Server, cmd: Cmd, mem: array<byte>, client: Client, r: ServerReply, ghost words: seq<Bytes>,
                     choice: FileChoice)
    requires Ready(server, client) && r !in server.Repr
    requires cmd.Reads(mem, words)
    modifies r, client, server`disk
    ensures Ready(server, client) && server.Repr == old(server.Repr)
    ensures ViewOf(server, client) == AfterSave(old(ViewOf(server, client)), old(PathOf(words, cmd.tokens.Second().Some?, choice)), choice.opens)
  {
    hide Save;
    var path := ArgumentPath(cmd, mem, words, choice);
    if choice.opens {
      var file := RdbSave(server, client);
      server.WriteFile(path, file);
    }
    r.SimpleStr(client, [79, 75]);
  }

  /** cmd_load */
  method LoadCommand(server: Server, cmd: Cmd, mem: array<byte>, client: Client, r: ServerReply, ghost words: seq<Bytes>,
                     choice: FileChoice)
    requires Ready(server, client) && r !in server.Repr
    requires cmd.Reads(mem, words)
    modifies r, client, server.Repr
    ensures Ready(server, client) && fresh(server.Repr - old(server.Repr))
    ensures ViewOf(server, client) ==
              AfterLoad(old(ViewOf(server, client)), old(PathOf(words, cmd.tokens.Second().Some?, choice)), choice.opens, choice.stack)
  {
    var path := ArgumentPath(cmd, mem, words, choice);
    LockedLoad(server, client, path, choice.opens, choice.stack);
    r.SimpleStr(client, [79, 75]);
  }

  /** The cases of the dispatcher that work on one bucket. */
  method DispatchRequest(server: Server, cmd: Cmd, mem: array<byte>, client: Client, r: ServerReply, ghost words: seq<Bytes>,
                         ghost choice: FileChoice)
    requires Ready(server, client) && r !in server.Repr && client.db < NUM_DBS
    requires cmd.Reads(mem, words) && LineOk(words) && cmd.entry == CommandOf(words)
    requires cmd.entry.CmdGet? || cmd.entry.CmdSet? || cmd.entry.CmdDel? || cmd.entry.CmdIncr?
    modifies r, client, server.Repr
    ensures Ready(server, client) && fresh(server.Repr - old(server.Repr))
    ensures ViewOf(server, client) == Handled(old(ViewOf(server, client)), words, old(cmd.tokens.Second().Some?), server.port, choice)
  {
    match cmd.entry
    case CmdGet => GetCommand(server, cmd, mem, client, r, words);
    case CmdSet => SetCommand(server, cmd, mem, client, r, words);
    case CmdDel => DelCommand(server, cmd, mem, client, r, words);
    case CmdIncr => IncrCommand(server, cmd, mem, client, r, words);
  }

  /** The cases that read the server, or write its files or its number of clients. */
  method DispatchOther(server: Server, cmd: Cmd, mem: array<byte>, client: Client, r: ServerReply, ghost words: seq<Bytes>,
                       choice: FileChoice)
    requires Ready(server, client) && r !in server.Repr && client.db < NUM_DBS
    requires cmd.Reads(mem, words) && LineOk(words) && cmd.entry == CommandOf(words)
    requires cmd.entry.CmdQuit? || cmd.entry.CmdSelect? || cmd.entry.CmdSave? || cmd.entry.CmdInfo? || cmd.entry.CmdUnknown?
    modifies r, client, server
    ensures Ready(server, client) && server.Repr == old(server.Repr)
    ensures ViewOf(server, client) == Handled(old(ViewOf(server, client)), words, old(cmd.tokens.Second().Some?), server.port, choice)
  {
    match cmd.entry
    case CmdQuit => QuitCommand(server, cmd, mem, client, r, words);
    case CmdSelect => SelectCommand(server, cmd, mem, client, r, words);
    case CmdSave => SaveCommand(server, cmd, mem, client, r, words, choice);
    case CmdInfo => InfoCommand(server, cmd, mem, client, r, words);
    case CmdUnknown => r.Err(client, UnknownCommand());
  }

  /** The switch of the dispatcher. */
  method Switch(server: Server, cmd: Cmd, mem: array<byte>, client: Client, r: ServerReply, ghost words: seq<Bytes>,
                choice: FileChoice)
    requires Ready(server, client) && r !in server.Repr && client.db < NUM_DBS
    requires cmd.Reads(mem, words) && LineOk(words) && cmd.entry == CommandOf(words)
    modifies r, client, server.Repr
    ensures Ready(server, client) && fresh(server.Repr - old(server.Repr))
    ensures ViewOf(server, client) == Handled(old(ViewOf(server, client)), words, old(cmd.tokens.Second().Some?), server.port, choice)
  {
    if cmd.entry.CmdGet? || cmd.entry.CmdSet? || cmd.entry.CmdDel? || cmd.entry.CmdIncr? {
      DispatchRequest(server, cmd, mem, client, r, words, choice);
    } else if cmd.entry.CmdLoad? {
      LoadCommand(server, cmd, mem, client, r, words, choice);
    } else {
      DispatchOther(server, cmd, mem, client, r, words, choice);
    }
  }

  /**
   * cmd_dispatch: a line that is not complete yet is left alone; any other goes to its handler with a new reply.
   */
  method Dispatch(server: Server, cmd: Cmd, mem: array<byte>, client: Client, ghost words: seq<Bytes>,
                  choice: FileChoice) returns (rc: int)
    requires Ready(server, client) && client.db < NUM_DBS
    requires cmd.Reads(mem, words) && LineOk(words) && cmd.entry == CommandOf(words)
    modifies client, server.Repr
    ensures Ready(server, client) && fresh(server.Repr - old(server.Repr))
    ensures rc == if old(cmd.ready) then 0 else 1
    ensures ViewOf(server, client) ==
              if rc == 0 then Handled(old(ViewOf(server, client)), words, old(cmd.tokens.Second().Some?), server.port, choice)
              else old(ViewOf(server, client))
  {
    if !cmd.ready {
      return 1;
    }
    rc := 0;
    var r := new ServerReply();
    Switch(server, cmd, mem, client, r, words, choice);
  }
}
