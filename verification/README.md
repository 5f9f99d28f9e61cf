# MinRedis, modelled and proved in Dafny

MinRedis is a small key-value server in C: one thread for each client, sixteen databases of 256 hash buckets, one
read-write lock for each bucket, and snapshots written to and read from a binary file. This project models the server
in two layers and proves that they do what the program promises.

**One connection, on the heap.** The chained hash table, the snapshot writer and reader, the string buffer, the in-place
tokenizer, the command handlers and the receive loop are imperative, with the source's own objects, loops and branches.
Each is proved against a specification on values. At the top, `Worker.HandleClient` runs a whole connection: for every
stream of bytes, in whatever chunks it arrives, and whatever files lie on the disk, the tables, files and replies are
those of `Interpreter.Serve`, a pure interpreter of command lines over sixteen plain maps, and a client that decodes the
bytes sent to it finds exactly those replies. What the interpreter does is stated in literal text, from the bytes of a line to
the bytes of its answer, for every command and every misuse (`Wire`), and for several lines together (`SetGet`, `Dialogues`).

**Many threads.** `LockProtocol` is a transition system for any number of client and saver threads. Taking one lock,
reading, writing, counting or dumping one bucket, loading one record and giving back one lock are separate steps. Over
every run it is proved linearizable, deadlock-free, and to lose no increment, and the bytes of every snapshot are shown to
be the dump of the store in one single state. `Clients` puts the layers together: every client has a stream of command
frames of its own, and in every run each of its lines is answered as the interpreter answers it on the maps left by the
calls before its own. The steps use the same functions on chains (`Requests.Exec`, `Codec.Save`) that the heap code is
proved to implement, and the heap code is proved to keep the locking discipline of the protocol: locks in ascending
order, no table access without the bucket's lock, no lock left behind on any path.

## Files

| File | What it holds |
|---|---|
| `CStrings`, `Djb2`, `Decimal` | bytes and C strings, the hash function, `%ld` and `atoi` |
| `Chains`, `HashTable`, `TableEntries` | chains and the maps they stand for, the table on the heap, inserting whole tables |
| `Codec`, `DumpText`, `Snapshots`, `DumpFiles`, `Serializer` | the dump format, saving and loading on values, cut files, the code on the heap |
| `Requests` | the commands that touch tables, on chains and on maps |
| `LockProtocol`, `LockInvariant`, `Linearization`, `Calls`, `Concurrency`, `Progress`, `Increments` | the concurrent layer |
| `StrBuf`, `CommandLine`, `Parser`, `SetValue`, `Framing`, `Resp` | buffers, words of a line, the tokenizer, the value SET rebuilds, frames, replies |
| `Interpreter`, `Service` | the reference interpreter, on lines and on byte streams |
| `Wire`, `SetGet`, `Dialogues` | what one line and several lines do, in literal text |
| `Clients` | the reference interpreter and the lock protocol together |
| `ServerState`, `Replies`, `Views`, `Handlers`, `Worker` | the server on the heap, its handlers and the connection loop |

`dafny verify dfyconfig.toml` checks everything.

## Where the code and its documentation differ

- src/server.c:230-237 works an example in which a CR that arrives alone is glued to the next chunk (`SET name davide`).
  The tokenizer treats a lone CR or LF as a delimiter (src/parser.c:57), so the words are `SET`, `na`, `me`, `davide`.
  The model follows the code.
- src/cmd.c:418-423 says that SAVE without a path uses the default file. The code looks at the second token slot, which
  is not cleared between commands (src/cmd.c:43-47), so it uses the default only until some line of the connection has had
  a second word. The model keeps that slot (`Parser.Tokens.Second`, `Handlers.ArgumentPath`, `Interpreter.PathOf`); what the
  stale pointer leads to afterwards is an input.
- src/cmd.c:150-152 and its neighbours answer every misuse, a database number out of range included, with the message
  about the number of arguments. The model does too.
- src/cmd.c:335-337 has SELECT refuse everything outside 0 to 15. A number too long for an int is narrowed first
  (src/cmd.c:353), so `SELECT 4294967296` selects database 0; `Wire.SelectNumber` says which numbers are accepted,
  `Wire.SelectBeyondInt` is that input.
- The README of the repository calls INCR atomic. Its replies pass through an `int` (src/reply.c:150), so they count up
  exactly until 2147483647; `Increments.NoLostUpdates` has the exact condition, `Increments.IncrementAtTheEdge` the case beyond it.

## Assumptions

- Allocation succeeds, arguments are not NULL, locks start free, and `send` delivers all bytes.
- Frames are shorter than 2^31 bytes, the range of the `int` indices of the parser. Keys and values are C strings.
- `atoi` outside the range of `int` is undefined in C; here it is `strtol`, saturating at 64 bits, converted to 32 bits.
- A GET copies the value while it holds the bucket's lock.
- A file is either one that SAVE wrote, known by its maps, or any other bytes. Bytes a short `fread` leaves unset are
  arbitrary. A string record met with a database number of 16 or more selected makes the C code index outside its tables:
  the model stops the load there and sets `wild`, and from then on says nothing of the C program.

## Model

| member | source | states |
|---|---|---|
| Djb2.HashFn | src/hash.c:210-216 | The wrapping shift-and-add loop selects the bucket of unbounded DJB2, for every word width of at least 8 bits and either signedness of char |
| Djb2.HashClosedForm | src/hash.c:210-216 | DJB2 of n bytes is 5381 * 33^n plus each byte times 33 to its distance from the end; HashFn selects its residue modulo 256 |
| Djb2.HashOfSomeStrings | src/hash.c:211-214 | The values for the empty string, "a" and "ab" |
| Chains.DictionaryIsLookup | src/hash.c:126-140 | Searching the one bucket of a key finds the value exactly when the table's map has the key, and it is that value |
| Chains.SetIsUpdate | src/hash.c:85-115 | Overwriting in place or inserting at the head keeps placement and uniqueness of keys and is an update of the map |
| Chains.DelIsRemoval | src/hash.c:155-181 | Unlinking keeps placement and uniqueness and removes the key, and nothing else, from the map |
| Chains.CountIsSize | src/hash.c:14-25 | Walking all chains counts the keys of the map |
| HashTables.HashTable.constructor | src/hash.c:56-68 | A new table is valid and every bucket is empty |
| HashTables.HashTable.Get | src/hash.c:126-140 | The walk along the linked nodes returns what the chain of the bucket holds for the key |
| HashTables.HashTable.Set | src/hash.c:85-115 | The links stay acyclic, disjoint and in their buckets; the bucket's chain is overwritten or grows at the head, no other bucket's nodes change |
| HashTables.HashTable.InsertHead | src/hash.c:106-112 | The new node comes first in its chain and the old nodes keep their order |
| HashTables.HashTable.Del | src/hash.c:155-181 | The node leaves its chain wherever it is, its value is returned, and no other bucket's nodes change |
| HashTables.HashTable.UnlinkAfter | src/hash.c:166-169 | Redirecting the predecessor's link removes one entry from the middle of a chain |
| HashTables.HashTable.NodesDistinct | src/hash.c:89-103 | No node occurs twice, in one chain or in two, because its key would be repeated or misplaced |
| HashTables.HashTable.CountEntries | src/hash.c:14-25 | The nested walk returns the number of entries in all chains |
| TableEntries.PutAllIsOverride | src/serializer.c:117-133 | Setting every entry of one table in another overrides the map of the second by that of the first |
| TableEntries.PutAllTwice | src/serializer.c:237-264 | Setting the same entries again changes no chain |
| TableEntries.PutAllReverses | src/hash.c:105-112 | Inserting a table's entries, in dump order, into an empty table reverses every chain |
| Codec.LengthRoundTrip | src/serializer.c:58-63 | The four bytes give back a length modulo 2^32, so the length itself exactly below 2^32 |
| Codec.LengthBytesUnique | src/serializer.c:58-63 | Only one group of four bytes denotes a length |
| Codec.LengthsInOrder | src/serializer.c:55-62 | The most significant byte comes first: of two lengths the smaller has the smaller byte where their bytes first differ |
| Codec.HeaderDecides | src/serializer.c:194-211 | Nothing is loaded from a file that does not begin with MINREDIS and one more byte, and which byte that is does not matter |
| Codec.LoadEncoded | src/serializer.c:215-269 | The opcode loop consumes the bytes of any well-formed item list by applying the items in order |
| Codec.LoadFile | src/serializer.c:178-270 | A complete file returns 0 and leaves the store with the items applied |
| Codec.UnknownOpcodesAreIgnored | src/serializer.c:265-268 | Bytes 0x01 to 0xFD between records, in any number, never change the result of a load |
| DumpText.TextOfFile | src/serializer.c:91-145 | The text grown database by database and bucket by bucket is the encoding of the item list |
| Snapshots.ApplySaved | src/serializer.c:103-134 | In a saved file every record follows a SELECTDB below 16, and its items merge the saved store into any other |
| Snapshots.LoadOfSave | src/serializer.c:83-270 | Loading what was saved from one store into any other succeeds, and every database is the old map overridden by the saved one |
| Snapshots.LoadTwice | src/serializer.c:237-264 | Loading the same file a second time changes nothing, not even the order of a chain |
| Snapshots.RestoreReverses | src/serializer.c:117-133 | Loading a save into an empty store restores the same maps with every bucket's chain reversed |
| Snapshots.TwoRestores | src/serializer.c:117-133 | Two round trips give back the chains they began with, and so byte-identical files |
| DumpFiles.PrefixNeverLoads | src/serializer.c:194-269 | No strict prefix of a file returns 0, whatever a short fread leaves; some leading items are applied, then at most one garbled record |
| DumpFiles.CutSaveNeverLoads | src/serializer.c:194-269 | No strict prefix of a file written by a save returns 0 |
| DumpFiles.CutAtBoundary | src/serializer.c:215-221 | A file cut between two records returns -1 with exactly the records before the cut applied |
| DumpFiles.NumbersAscend | src/serializer.c:103-114 | The database numbers of a saved file are below 16 and strictly ascending |
| DumpFiles.FileLength | src/serializer.c:91-145 | The length of a saved file is 10, plus 2 for each non-empty database, plus 9 and the two lengths for each key: a function of the maps alone |
| DumpFiles.OnePairDump | src/serializer.c:13-43 | The dump of one pair, byte by byte, for every database and every key and value below 256 bytes |
| DumpFiles.EmptyDump | src/serializer.c:91-145 | The dump of an empty store is MINREDIS, 1 and 255 |
| Serializer.WriteLen | src/serializer.c:58-63 | Four bytes that rdb_load reads back as the length modulo 2^32, and that come after those of every smaller length in dictionary order |
| Serializer.WriteBucket | src/serializer.c:118-132 | Walking the linked nodes writes the chain's records head to tail |
| Serializer.RdbSave | src/serializer.c:83-151 | The nested loops over databases, buckets and nodes write the file the format names for the store |
| Serializer.ReadStrings | src/serializer.c:237-255 | The four reads of a record, short ones included, deliver the strings hash_set sees and the place where the cursor ends |
| Serializer.RunOpcodes | src/serializer.c:215-269 | On any bytes the opcode loop ends, with the store and return code of the specification, and a write outside the tables is noticed exactly where the specification has one |
| Serializer.RdbLoad | src/serializer.c:178-270 | Header check and loop together, for every file: the store is what the specification of loading says, and 0 is returned exactly for a complete file |
| Decimal.AtoiInvertsFormat | src/cmd.c:174-177 | atoi undoes %ld exactly for the numbers in the range of int |
| Decimal.AtoiOfText | src/cmd.c:174 | atoi of any text is the number of its leading numeral (white space, one sign, digits), exactly if that is an int; what happens beyond is stated too |
| Decimal.EveryTextReads | src/cmd.c:174 | Every text has such a numeral, possibly without digits |
| Decimal.AtoiOfSomeTexts | src/cmd.c:133-135 | "+17" is 17, " -42" is -42, "12abc" is 12 and "Davide" is 0 |
| Decimal.FormatIsShortest | src/cmd.c:175-176 | %ld prints decimal digits whose place value is the number, without leading zeros, after a minus sign if it is negative |
| Decimal.FormatOfDigits | src/cmd.c:175-176 | No other digits without leading zeros have that place value |
| Decimal.FormatFits | src/cmd.c:175-177 | What INCR prints always fits its 32-byte buffer |
| Requests.ExecRefines | src/cmd.c:139-469 | Each request on the chained store does to the sixteen maps what it does on plain maps, with the same outcome, and SAVE writes a snapshot of them |
| Requests.LoadIsRequest | src/serializer.c:215-269 | Loading any bytes is one LOAD request: a run of hash_set calls that depends on the bytes alone, the same on chains and on maps |
| Requests.SnapshotIsRequest | src/serializer.c:237-264 | For a file that SAVE wrote that request overrides the maps and ends at the end marker |
| Requests.PairIsOnePut | src/serializer.c:215-269 | Loading the dump of one pair is one hash_set of that pair, whatever the stack holds |
| Requests.LoadOfFile | src/serializer.c:178-270 | A file that holds a snapshot overrides the maps of any store by it |
| LockInvariant.DoMatches | src/cmd.c:166-180 | Every step keeps the locks' records equal to what the threads hold, with a writer alone |
| LockInvariant.Exclusion | src/cmd.c:451-464 | Two threads hold one lock only if both read |
| Linearization.AccessFrame | src/cmd.c:235-237 | A step writes only buckets whose lock its thread holds, and a reader writes none |
| Linearization.SaveStep | src/serializer.c:103-145 | Over a store that stands still, the writer's small steps lead to the bytes of the whole file |
| Linearization.AccessCorrect | src/cmd.c:166-180 | Each step of work is right about the store and makes the logged effect exactly at its linearization point |
| Linearization.RunLinear | src/cmd.c:139-469 | The invariant holds in every run: the log replayed gives the store whenever nobody is in the middle of a load |
| Calls.RunCalls | src/cmd.c:484-530 | In every run each call enters the log at most once and only before it returns |
| Concurrency.Linearizable | src/cmd.c:139-469 | In every run every outcome is that of the logged requests executed one at a time on sixteen maps, in an order that respects real time, and the tables agree whenever no call is under way |
| Concurrency.ExactlyOnce | src/cmd.c:484-530 | When no call is under way, answers and log entries correspond one to one |
| Concurrency.HeldBucketStands | src/serializer.c:96-141 | While a thread holds a bucket's lock no other thread changes that bucket, and a reader does not either |
| Concurrency.SaveFreezesStore | src/serializer.c:103-141 | From its last read lock to its first unlock no step of any thread changes the store under a save |
| Concurrency.SnapshotIsOneState | src/serializer.c:96-145 | The bytes a save has put together, bucket by bucket while other threads ran, when it returns are the dump of the store in one single state of the run: the one in which this call was granted the last of its 4096 read locks |
| Concurrency.WrittenIsOneState | src/serializer.c:136-147 | The same of a save that has written its records and is giving its locks back |
| Progress.HighestIsFree | src/serializer.c:97-101 | When everybody waits, the highest lock waited for is free, because locks are taken in ascending order |
| Progress.DeadlockFree | src/cmd.c:451-464 | With calls under way some thread can move, whether or not readers queue behind waiting writers |
| Progress.RunsNeverDeadlock | src/cmd.c:451-464 | No run of any number of threads reaches a deadlock |
| Progress.WaitsAreConflicts | src/cmd.c:244-251 | A call waits only for one that works on the same bucket, and never a GET or SAVE for a GET or SAVE: GETs share a bucket and go on during a SAVE |
| Progress.RunsWaitForConflicts | src/serializer.c:76-80 | The same in every run |
| Progress.MoveMakesProgress | src/cmd.c:460-464 | Every step uses up some of a finite amount of work |
| Progress.EverybodyCanReturn | src/cmd.c:168-180 | From every reachable state all calls can be finished, and then every lock is free: all paths release what they took |
| Increments.NoLostUpdates | src/cmd.c:162-182 | When only INCR touches a counter and all calls have returned, the answers its n callers got are v+1 to v+n, each once, if and only if v+n is still an int, and then the counter holds the decimal of v+n; bench/race.py:8-13 is the intended statement |
| Increments.GivenAreReplies | src/cmd.c:179-182 | What callers were answered is among the outcomes in the log, none twice, and all of them once every call has returned |
| Increments.AskedIsLogged | src/cmd.c:166-180 | Requests that leave a key to INCR leave it to INCR in the log |
| Increments.CountsUpExactly | src/cmd.c:174-182 | In every sequential execution the replies count up from v if and only if the last is still an int |
| Increments.IncrementAtTheEdge | src/reply.c:150-169 | From 2147483647 the stored text is 2147483648 and the reply is -2147483648 |
| StrBuf.AmortisedGrowth | src/strbuf.c:34-46 | Over any sequence of requests the old blocks moved stay below the final capacity, which is the initial one or less than twice the largest request |
| StrBuf.StringBuffer.New | src/strbuf.c:6-32 | The initial string is cut to the capacity, and the length counts its terminator |
| StrBuf.StringBuffer.EnsureCap | src/strbuf.c:34-46 | At most one reallocation, contents kept, and the amortised bound maintained over every sequence of calls |
| StrBuf.StringBuffer.AppendNoterm | src/strbuf.c:50-60 | The raw bytes grow by exactly the data |
| StrBuf.StringBuffer.Append | src/strbuf.c:62-83 | The held string grows by the separator, if that is a single character, and the string; nothing moves when it fits |
| CommandLine.RunsExact | src/parser.c:55-78 | The tokens are exactly the maximal runs free of space, CR and LF, in order, each once |
| CommandLine.WordsSplit | src/parser.c:57-70 | Any delimiter, a lone CR included, separates the words on its left from those on its right |
| CommandLine.WordsOfJoin | src/cmd.c:220-224 | Tokenizing words joined by single spaces returns the words |
| CommandLine.JoinIsStable | src/cmd.c:220-224 | Joining and tokenizing again is stable exactly when no word is empty, so always for C strings |
| CommandLine.ComesBackExactly | src/cmd.c:220-224 | The rebuilt value is the original exactly when it has no NUL, CR or LF and no space at an end or beside another |
| Parser.Tokens.Add | src/parser.c:28-37 | A full array doubles, earlier tokens stay, the new one comes last |
| Parser.TokenText | src/parser.c:63-66 | Read from its pointer after all overwrites, a token is the C string of its run |
| Parser.Cmd.CloseRun | src/parser.c:57-70 | The delimiter branch notes a CRLF, overwrites the byte and keeps the run before it |
| Parser.Cmd.Tokenize | src/parser.c:50-81 | The pointers are the starts of the maximal runs, all delimiters are overwritten and nothing else, ready says whether there was a CRLF |
| Parser.Cmd.MatchCommand | src/parser.c:93-115 | Length and letters recognise exactly the nine command names, each as its command |
| Interpreter.CommandIsNamed | src/parser.c:93-115 | The first word decides the command: the nine names in letters, and unknown for anything else |
| Parser.Cmd.Parse | src/cmd.c:67-74 | Whatever the tokens were before, those counted read as the words of the line; a frame is ready and consumed whole; the second slot stays null until a line has had a second word |
| SetValue.JoinLengthExact | src/cmd.c:215-224 | The joined value is as long as its words and one space between neighbours |
| SetValue.RebuildValue | src/cmd.c:215-224 | The precomputed capacity suffices: nothing is cut, no append reallocates, and the final length is the sum of the token lengths plus the count minus two |
| Framing.FirstCrlfIsFirst | src/server.c:208-214 | The position is just past the first CRLF, and 0 exactly when there is none |
| Framing.FramesPartition | src/server.c:284-318 | Frames and residual make up the bytes received; each frame has its only CRLF at its end, the residual has none |
| Framing.FramesAppend | src/server.c:282-318 | Processing two parts together is processing the first, then the second behind its residual |
| Framing.ChunkIndependence | src/server.c:268-318 | Frames and residual depend on the bytes received, not on how they were cut into chunks |
| Framing.SameBytesSameFrames | src/server.c:268-318 | Two ways to cut the same bytes into chunks give the same frames and the same buffer |
| Framing.FramesOfConcat | src/server.c:284-318 | Frames sent one after the other are received as they were sent |
| Resp.DecodeEncoded | src/reply.c:71-195 | One encoded reply is read back, and the bytes after it are left |
| Resp.DecodeAllEncoded | src/reply.c:71-195 | A client decoding the stream sees the replies sent, in order (RESP2: simple strings, simple errors, integers, bulk strings) |
| Resp.RepliesFromBytes | src/reply.c:71-195 | The bytes sent determine the replies |
| Resp.EncodedBytes | src/reply.c:71-195 | The bytes of every kind of reply in the letters of the protocol: +, -, :, $ and $-1 |
| Replies.ServerReply.SimpleStr | src/reply.c:128-148 | A plus sign, the text and CRLF are sent |
| Replies.ServerReply.Err | src/reply.c:176-195 | -ERR, a space, the text and CRLF are sent |
| Replies.ServerReply.Integer | src/reply.c:150-169 | A colon, the number narrowed to int and CRLF are sent |
| Replies.ServerReply.BulkStr | src/reply.c:71-123 | A dollar sign, the length, CRLF, the value and CRLF are sent, or $-1 and CRLF for a null pointer; only the former clears the error flag |
| ServerState.Server.SetKey | src/hash.c:85-115 | Setting a key in one database leaves the fifteen others as they are |
| ServerState.Server.DelKey | src/hash.c:155-181 | Deleting a key in one database leaves the fifteen others as they are |
| ServerState.Client.RdLock | src/serializer.c:97-101 | A lock is only taken above all locks held, so in ascending order and never twice |
| ServerState.Server.GetKey | src/cmd.c:273-276 | A lookup in one database, only under the lock of the key's bucket |
| Serializer.RdLockAll | src/serializer.c:96-101 | The nested loops take all 4096 read locks, in ascending order |
| Serializer.WrLockAll | src/cmd.c:451-455 | The nested loops take all 4096 write locks, in ascending order |
| Serializer.UnlockAll | src/serializer.c:136-141 | The nested loops give back every lock of either kind |
| Handlers.LockedGet | src/cmd.c:270-276 | The lookup under the bucket's read lock finds what the table holds, and no lock is left |
| Handlers.LockedIncr | src/cmd.c:159-180 | Lookup and update under one write lock, released on the missing-key path too; the stored text always fits its buffer |
| Handlers.LockedLoad | src/cmd.c:451-464 | Whatever the file, all write locks are held during the load and released whatever it returns |
| Handlers.ArgumentPath | src/cmd.c:426-427 | The path is the second word, the default while the slot is null, and otherwise whatever the slot was left with |
| Handlers.GetCommand | src/cmd.c:253-281 | GET sends what the selected database holds for the key, and changes nothing; on a closed connection it does nothing |
| Handlers.SetCommand | src/cmd.c:200-242 | SET stores the words from the third on, joined by spaces, and sends OK |
| Handlers.DelCommand | src/cmd.c:292-326 | DEL removes the key, and sends :1 if it was there and :0 if not |
| Handlers.IncrCommand | src/cmd.c:139-185 | INCR stores and sends the next number, or sends 0 and creates nothing for a missing key |
| Handlers.SelectCommand | src/cmd.c:339-368 | SELECT changes the database of the connection and sends +OK exactly for 0 to 15, and otherwise sends an error and changes nothing |
| Handlers.QuitCommand | src/cmd.c:89-122 | A bare QUIT sends OK, closes the connection and counts one client less |
| Handlers.InfoCommand | src/cmd.c:379-413 | INFO sends the statistics with the number of keys of the selected database |
| Handlers.SaveCommand | src/cmd.c:425-434 | SAVE writes the dump of the whole store to its path, if that can be opened, and sends OK either way |
| Handlers.LoadCommand | src/cmd.c:446-469 | LOAD runs the loader on the file, if there is one, ignores its return code and sends OK |
| Handlers.Dispatch | src/cmd.c:484-530 | An incomplete line is left alone; any other goes to the handler of its command |
| Views.RanStands | src/cmd.c:139-326 | A request run on chains keeps server and session in step |
| Views.SaveStands | src/cmd.c:425-434 | After SAVE the file holds a snapshot of the session's maps |
| Views.LoadStands | src/cmd.c:446-469 | After LOAD the maps are overridden by those of the file |
| Views.HandledStands | src/cmd.c:484-530 | Line by line the handlers and the reference interpreter stay in step |
| Interpreter.Execute | src/cmd.c:484-530 | Every line gets exactly one reply, the selected database stays below 16, and only a bare QUIT closes |
| Interpreter.FrameLineOk | src/parser.c:50-81 | The words of a short frame, and the value SET rebuilds from them, are C strings below 2^31 bytes |
| Service.ServeInParts | src/server.c:282-318 | Serving two parts of a stream is serving the first, then the second behind what was left of the first |
| Service.OneReplyEach | src/server.c:284-318 | One reply for each frame, in order, up to the first accepted QUIT, and nothing is run after it |
| Service.ReplySendable | src/reply.c:128-195 | No reply carries a CR or LF inside a simple string or an error |
| Service.RepliesDecode | src/reply.c:71-195 | The bytes of a whole session decode to its replies |
| Service.LeftoversStayOut | src/cmd.c:43-47 | The answers depend on what stale slots lead to only through a SAVE or LOAD without a path on a connection that has seen a second word; all other words are those of the line, because a token is only read below the count |
| Wire.GetSends | src/cmd.c:253-281 | `GET k`: the value behind its length, or $-1, and nothing changes |
| Wire.SetSends | src/cmd.c:200-242 | `SET k v`: +OK, the key holds the words of v joined by single spaces, and nothing else changes |
| Wire.DelSends | src/cmd.c:292-326 | `DEL k`: :1 if the key was in the selected database and :0 if not; it is gone, and nothing else changes |
| Wire.IncrSends | src/cmd.c:139-185 | `INCR k`: the next number is stored and sent, wrapped at 2^31 in the answer alone; for a missing key :0 and no change |
| Wire.SelectSends | src/cmd.c:339-368 | `SELECT w`: +OK and the database that atoi makes of w, if it is one of the sixteen, and otherwise an error and no change |
| Wire.SelectNumber | src/cmd.c:353-363 | `SELECT` of the decimal text of any integer: an int is accepted exactly if it is a database number, a longer one exactly if what is left of it is |
| Wire.SelectBeyondInt | src/cmd.c:353-363 | `SELECT 4294967296` is accepted and selects database 0 |
| Wire.QuitSends | src/cmd.c:89-122 | A bare `QUIT`: +OK, the connection is closed and one client less is counted |
| Wire.InfoSends | src/cmd.c:379-413 | A bare `INFO`: the five lines of port, clients, selected database and number of its keys, as one bulk string |
| Wire.FieldReadsBack | src/cmd.c:395-403 | Every number of INFO can be read back behind its label |
| Wire.SaveSends | src/cmd.c:425-434 | `SAVE p`: +OK, and the file p, if it can be opened, holds exactly the sixteen maps; no other file and no map changes |
| Wire.BareSaveSends | src/serializer.c:86 | `SAVE` on a connection that has had no second word writes dump.minredis |
| Wire.LoadSends | src/cmd.c:446-469 | `LOAD p`: +OK; a snapshot overrides every map, a missing file changes nothing, and no file changes |
| Wire.LoadPair | src/serializer.c:215-269 | `LOAD p` of the literal dump of one pair sets that pair and nothing else, wherever the file comes from |
| Wire.LoadForeign | src/serializer.c:194-211 | `LOAD p` of a file that does not begin like a dump changes nothing and is answered +OK |
| Wire.MisuseSends | src/cmd.c:99-103 | Any line with a command name and a wrong number of words is answered by the message with that name, and changes nothing |
| Wire.UnknownSends | src/cmd.c:522-525 | Any line without one of the nine names is answered -ERR unknown command, and changes nothing |
| SetGet.SetThenGet | src/cmd.c:200-281 | From bytes to bytes: GET after SET answers with the words joined by single spaces, which is the value sent exactly when it is tidy, and no other key, database or file changes |
| SetGet.SetAgain | src/cmd.c:215-236 | Setting a key to the value read from it changes nothing |
| Dialogues.DelTwice | src/cmd.c:292-326 | DEL, DEL and GET of a key: the second DEL answers :0 and the GET $-1, and only that key is gone |
| Dialogues.DatabasesApart | src/cmd.c:331-333 | What is set in one database is read there, and any other database answers as before |
| Dialogues.SaveThenLoad | src/serializer.c:83-270 | `SAVE p`, any lines that neither save to p nor quit, and `LOAD p`: the maps the LOAD finds are overridden by those the SAVE found, and no file changes |
| Worker.FindCrlf | src/server.c:208-214 | The scan returns the position just past the first CRLF of the buffer |
| Worker.Consume | src/server.c:309-312 | Compaction drops exactly the executed frame from the buffer |
| Worker.RunFrame | src/server.c:290-307 | Copying, parsing in place and dispatching one frame is one line of the interpreter |
| Worker.RunFrames | src/server.c:284-318 | The inner loop runs every complete frame until none is left or the connection closes |
| Worker.RunChunks | src/server.c:264-319 | The receive loop serves the stream, and while the connection is open the buffer is its residual |
| Worker.HandleClient | src/server.c:242-324 | The whole connection refines the reference interpreter on the frames of the bytes received, whatever the chunking and whatever the files, and the client can decode its replies |
| Clients.OwnTurn | src/cmd.c:339-413 | SELECT, QUIT and every misuse are answered alike whatever the tables hold |
| Clients.CallTurn | src/cmd.c:139-469 | A line that makes a request is answered by the outcome of the request and changes the maps as the request does |
| Clients.EveryClientIsServed | src/server.c:242-324 | In every run of any number of clients and savers each client's lines are answered in the order of its stream, each as the interpreter answers it on the maps left by the log before its own place, with that effect at that place; the places ascend, and the bytes sent decode to the replies |

## Left out

- Sockets, accept, failing recv and send, signals, sleeping, logging and argument parsing: a connection is a sequence of received chunks, an empty one ending it, and an output byte sequence. A failing `close` in QUIT is not modelled.
- The client slot table and its reuse: `clients` is a counter that QUIT decrements; each connection has its own Client object, and nothing is claimed across reconnects.
- Allocation failure, NULL arguments, freeing of memory, lock initialisation, `gracefully_exit`, `hash_print`, `print_tokens`.
- That the C threads interleave only at the steps of LockProtocol is an assumption of the model. The heap code, run one line at a time, is proved to keep the locking discipline the protocol builds in; it is not itself run by several threads.
- In `Clients`, INFO's statistics and the file a LOAD finds are inputs, since INFO takes no lock and files are not locked at all; frames of 2^31 bytes or more are never begun.
- The bucket locks of a thread are a set in its Client object; waiting for a lock, and the lock around the client counter, are not part of the sequential layer. The restore at startup runs without locks and is not modelled separately.
- GET uses the value pointer after it has released the lock (src/cmd.c:274-278); the concurrent layer ends the claim at the lookup under the lock.
- The path of a SAVE or LOAD without argument, and whether a file opens, are inputs. Different paths are different files. A file is written in one piece: rdb_save truncates it before it takes a lock and writes the end marker after it has given all of them back (src/serializer.c:88, src/serializer.c:136-147), so two SAVEs of one path, or a SAVE and a LOAD of it, may meet in the file; the concurrent layer does not model that, and a LOAD there finds arbitrary bytes.
- Malformed dumps: what the loader does to the tables is proved for every file, but for files other than prefixes of saved ones and those with unknown opcodes no more is promised. A record length of 2^32-1, whose allocation size wraps to 0 (src/serializer.c:246), is treated like any other.
- Fairness: some thread can always move and all can finish, but a scheduler that never chooses one thread is not excluded.
- The periodic saver is a thread that issues SAVE requests; its 60-second timer is not modelled.
