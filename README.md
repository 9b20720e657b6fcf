# persist-queue in Dafny

A model of persist-queue, a Python library of queues that keep their items on
disk across restarts, with proofs about that model. There are two families of
queue.

The **file-based queues** are `Queue` (queue.py) and `AsyncQueue`
(async_queue.py).
- Items go into numbered chunk files `q00000`, `q00001`, and so on.
- Each record is a 4-byte little-endian length followed by its bytes.
- An `info` record holds the chunk size, the size and two cursors: the head,
  where the next record is written, and the tail, where the next one is read.
- `put` writes the record and saves the info.
- `get` advances the tail. It saves the info later, at `task_done`, unless
  `autosave` is set.

The **SQLite-backed queues** are:
- `SQLiteQueue` / `FILOSQLiteQueue` (sqlqueue.py).
- `AsyncSQLiteQueue` / `AsyncFILOSQLiteQueue` / `AsyncUniqueQ`
  (async_sqlqueue.py).
- `SQLiteAckQueue` / `FILOSQLiteAckQueue` / `UniqueAckQ` (sqlackqueue.py).
  `get` marks a row unack and caches the object it returns, so that `ack`,
  `ack_failed` and `nack` can find the row again.
- `PriorityQueue` (priorityqueue.py).
- `PDict`, a dictionary kept in a table (pdict.py).

The model also covers the msgpack and cbor2 serializers (a length prefix
around the library encoding) and the `retrying` decorator (lib.py).

How the model is built:
- Each file's state becomes the fields of a Dafny `class`, and its operations
  become methods on that class. Each method's `ensures` ties the new state to
  specification functions of the old state (`Items()`, `Contents`, `Insert`,
  `Mark`, ...).
- Lemmas prove what the library promises:
  - FIFO/FILO order and item round-trips.
  - Counters that match the table.
  - Tables that stay key-ordered.
  - Crash recovery of the chunk store: after a reopen the queue delivers the
    unsaved gets again and then the queued items, and a torn write is
    discarded.
  - The bounds of `clear_acked_data`.
- A wait is modelled as the outcome `Blocks`: the call would wait, and
  nothing else happens.
- Python's `is`, which the ack queue uses to find a handed-out item, is
  object identity, except for the values CPython shares (`None`, small ints,
  the empty and one-character ASCII strings, `b''`), which are the same
  object whenever they are equal.
- A `Serializer` records whether its `dumps` accepts `sort_keys`: the unique
  queues pass it, and a serializer without it raises TypeError there.
- Clocks (`now`), devices (`device: string -> int`), serializer libraries
  (`Packer`, `Serializer`) and `re.search` are parameters.

Files:

| File | Contents |
|---|---|
| common.dfy | shared vocabulary |
| framing.dfy | the length framing and an in-memory byte stream |
| msgpack.dfy, cbor2.dfy | the serializers |
| chunkstore.dfy | chunk file names and the chunk-store engine with its recovery invariant |
| queue.dfy, async_queue.dfy | the two file-based queues |
| sqltable.dfy | AUTOINCREMENT tables as key-ordered sequences |
| sqlqueue.dfy, async_sqlqueue.dfy, sqlackqueue.dfy, priorityqueue.dfy | the SQL queues |
| pdict.dfy | PDict |
| retry.dfy | `retrying` |

## Model

| member | source | states |
|---|---|---|
| Framing.EncodeU32 | persistqueue/serializers/msgpack.py:13-18 | `struct.pack("<L")` yields exactly four bytes |
| Framing.DecodeU32 | persistqueue/serializers/msgpack.py:26-29 | `struct.unpack("<L")` of four bytes lies in [0, 2^32) |
| Framing.DecodeEncodeU32 | persistqueue/serializers/msgpack.py:13-29 | unpacking a packed length gives the length back |
| Framing.EncodeDecodeU32 | persistqueue/serializers/msgpack.py:13-29 | packing an unpacked 4-byte prefix gives the bytes back: the codec is a bijection |
| Framing.Frame | persistqueue/serializers/msgpack.py:13-18 | one record is 4 + n bytes, with the payload after the prefix |
| Framing.FramesAppend | persistqueue/serializers/msgpack.py:13-18 | dumping one more record appends exactly its frame |
| Framing.FramesConcat | persistqueue/serializers/msgpack.py:13-18 | the frames of a concatenation are the concatenated frames |
| Framing.FramesSplit3 | persistqueue/serializers/msgpack.py:13-18 | a run of frames splits around any one frame |
| Framing.FramesSplit | persistqueue/serializers/msgpack.py:13-18 | the bytes of a run split around the j-th record, and the prefix up to j + 1 ends with that record's frame |
| Framing.FramesCons | persistqueue/serializers/msgpack.py:13-18 | a non-empty run is its first frame followed by the others |
| Framing.FrameableSlice | persistqueue/serializers/msgpack.py:13-18 | every slice of a run of framable payloads is framable |
| Framing.ReadFrame | persistqueue/serializers/msgpack.py:26-29 | a load consumes four header bytes plus at most the announced length; fewer than four bytes is a short header; with enough bytes the payload has exactly the announced length |
| Framing.ReadFrameAt | persistqueue/serializers/msgpack.py:13-29 | reading at the start of a frame returns its payload and stops at its end, whatever surrounds it |
| Framing.LoadAt | persistqueue/serializers/msgpack.py:26-29 | one load fails exactly on a short header or an undecodable payload, and leaves the stream where the read stopped |
| Framing.LoadMany | persistqueue/serializers/msgpack.py:26-29 | n successful loads give n values |
| Framing.PackAll | persistqueue/serializers/msgpack.py:21-23 | the i-th payload is the packing of the i-th value |
| Framing.LoadManyBack | persistqueue/serializers/msgpack.py:13-29 | values dumped back to back load back in the order written, whatever precedes or follows them |
| Framing.LoadHead | persistqueue/serializers/msgpack.py:13-29 | the first of several dumped values loads back and leaves the stream at the others' frames |
| Framing.LoadManyCons | persistqueue/serializers/msgpack.py:26-29 | a successful load followed by n successful loads is n + 1 successful loads |
| Framing.LoadFirst | persistqueue/serializers/msgpack.py:26-29 | a load at a frame of a decodable payload returns its value and stops after the frame |
| Framing.ByteStream.constructor | persistqueue/serializers/msgpack.py:13-29 | a stream starts at position 0 over its initial bytes |
| Framing.ByteStream.Write | persistqueue/serializers/msgpack.py:13-18 | a write appends the bytes and leaves the position at the end |
| Framing.ByteStream.Seek | persistqueue/queue.py:57-61 | a seek moves the position and keeps the data |
| Framing.ByteStream.Read | persistqueue/serializers/msgpack.py:26-29 | `read(n)` returns the next at most n bytes and moves past them |
| Framing.DumpFramed | persistqueue/serializers/msgpack.py:13-18 | a framable payload appends its frame to the stream; an oversize one raises struct.error and writes nothing |
| Framing.LoadFramed | persistqueue/serializers/msgpack.py:26-29 | the stream moves to the frame's end; a short header raises struct.error, otherwise the payload is returned |
| Msgpack.Dump | persistqueue/serializers/msgpack.py:13-18 | appends the "<L" length and the packed bytes, or raises struct.error leaving the file unchanged |
| Msgpack.Dumps | persistqueue/serializers/msgpack.py:21-23 | `loads(dumps(v)) == v` for a lawful library |
| Framing.Loads | persistqueue/serializers/msgpack.py:32-34 | `loads` of msgpack, and the same function for cbor2 (serializers/cbor2.py:70-80): a failure is a decode error, exactly on bytes the library cannot decode; the packing of v loads as v |
| Msgpack.Load | persistqueue/serializers/msgpack.py:26-29 | reads one framed record, as `LoadAt` on the stream's bytes and position |
| Msgpack.DumpLoad | persistqueue/serializers/msgpack.py:13-29 | a dumped value loads back at the position it was written, and the stream stops right after it |
| Cbor2.StrLeTotal | persistqueue/serializers/cbor2.py:26-27 | Python's str `<=` is total |
| Cbor2.StrLeTrans | persistqueue/serializers/cbor2.py:26-27 | Python's str `<=` is transitive |
| Cbor2.AllAboveMultiset | persistqueue/serializers/cbor2.py:26-27 | a sub-multiset of entries all above k stays above k |
| Cbor2.Insert | persistqueue/serializers/cbor2.py:26-27 | inserting into a key-sorted sequence keeps it sorted and adds exactly that entry |
| Cbor2.SortByKey | persistqueue/serializers/cbor2.py:26-27 | `sorted(d)` yields a key-sorted permutation of the entries |
| Cbor2.Prepare | persistqueue/serializers/cbor2.py:13-31 | with sort_keys, a top-level dict is rebuilt sorted and as a permutation; every other value is unchanged |
| Cbor2.WithSortKeys | persistqueue/serializers/cbor2.py:34-48 | `dumps(v, sort_keys)` decodes with the library's own `loads`, and for a lawful library every value comes back as its prepared form |
| Cbor2.Dump | persistqueue/serializers/cbor2.py:13-31 | appends the length and the encoding of the prepared value, or raises struct.error leaving the file unchanged |
| Cbor2.Dumps | persistqueue/serializers/cbor2.py:34-48 | `loads(dumps(v, sort_keys))` is the prepared v |
| Cbor2.Load | persistqueue/serializers/cbor2.py:51-67 | reads one framed record, as `LoadAt` on the stream |
| Cbor2.DumpAllLoadAllSorted | persistqueue/serializers/cbor2.py:13-67 | records dumped with sort_keys load back in order, each as its prepared value (the same entries in key order) |
| ChunkNames.Decimal | persistqueue/queue.py:243-244 | the decimal representation is non-empty |
| ChunkNames.DecimalValueOf | persistqueue/queue.py:243-244 | the value of n's digits is n |
| ChunkNames.Zeros | persistqueue/queue.py:243-244 | k zero characters |
| ChunkNames.LeadingZeros | persistqueue/queue.py:243-244 | zero padding does not change a decimal value |
| ChunkNames.Padded | persistqueue/queue.py:243-244 | '%05d' is at least five characters long |
| ChunkNames.PaddedValue | persistqueue/queue.py:243-244 | '%05d' % n reads back as n |
| ChunkNames.QFile | persistqueue/queue.py:243-244 | the name is 'q' followed by the padded index |
| ChunkNames.QFileInjective | persistqueue/queue.py:243-244 | distinct chunk indices name distinct files |
| ChunkStore.LoadInfo | persistqueue/queue.py:197-209 | the info file if present, else size 0, zero cursors and the given chunksize |
| ChunkStore.SpanLength | persistqueue/queue.py:117-129 | full chunks lo..hi-1 plus chunk hi hold (hi - lo) * cs + \|chunk hi\| records |
| ChunkStore.ContentsSize | persistqueue/queue.py:82-89 | a consistent state holds exactly `size` queued records |
| ChunkStore.GuardIffEmpty | persistqueue/queue.py:161-177 | the `_get` guard `[tnum, tcnt] >= [hnum, hcnt]` fires exactly on an empty queue |
| ChunkStore.SpanAppendLast | persistqueue/queue.py:117-129 | appending a record to the head chunk appends it to the span |
| ChunkStore.SpanExtend | persistqueue/queue.py:122-126 | opening an empty next chunk leaves the span unchanged |
| ChunkStore.PutCursors | persistqueue/queue.py:117-129 | `_put` keeps the cursor invariant, rotating at chunksize |
| ChunkStore.PutFilesHold | persistqueue/queue.py:117-129 | `_put` keeps every chunk file equal to the frames of its records |
| ChunkStore.PutCounts | persistqueue/queue.py:117-129 | `_put` keeps the per-chunk counts and offsets |
| ChunkStore.PutSpan | persistqueue/queue.py:117-129 | `_put` appends the record to the span of live chunks |
| ChunkStore.PutStep | persistqueue/queue.py:117-129 | `_put` keeps the state consistent and appends the record to the contents |
| ChunkStore.PutInfo | persistqueue/queue.py:117-129 | `_put` adds one to the size and keeps the tail and chunksize; the head advances by one record and 4 + n bytes in its chunk, or moves to offset 0 of the next chunk once that chunk holds chunksize records |
| ChunkStore.PutFiles | persistqueue/queue.py:117-129 | the head chunk file gains exactly the record's frame; on rotation an empty next file is opened; every other file is unchanged |
| ChunkStore.GetRead | persistqueue/queue.py:161-177 | the record at the tail cursor is framed at the tail offset, and reading it stops at the next record |
| ChunkStore.GetInfo | persistqueue/queue.py:161-177 | `_get` takes one from the size and keeps the head and chunksize; the tail advances by one record and 4 + n bytes, or moves to the start of the next chunk after chunksize records |
| ChunkStore.GetCursors | persistqueue/queue.py:161-177 | `_get` keeps the cursor invariant, rotating at chunksize |
| ChunkStore.GetCounts | persistqueue/queue.py:161-177 | `_get` keeps the per-chunk counts and offsets |
| ChunkStore.SpanFirst | persistqueue/queue.py:161-177 | the span starts with the tail chunk's records |
| ChunkStore.GetSpan | persistqueue/queue.py:161-177 | advancing the tail drops exactly the record read from the front of the contents |
| ChunkStore.GetStep | persistqueue/queue.py:161-177 | `_get` returns the oldest record and keeps the rest in order |
| ChunkStore.RemoveRun | persistqueue/queue.py:232-241 | exactly the files in an unbroken run just below tnum are removed; everything else stays |
| ChunkStore.RecoveredFiles | persistqueue/queue.py:51-61 | the head file is truncated to the head offset or created empty; other files are untouched |
| ChunkStore.SaveGood | persistqueue/queue.py:217-230 | after `_saveinfo` the saved state is the current one, with nothing pending |
| ChunkStore.GetGood | persistqueue/queue.py:161-177 | `_get` keeps the engine invariant, and the record read joins the unsaved records |
| ChunkStore.ReopenGood | persistqueue/queue.py:25-65 | reopening a good directory with any chunksize gives the unsaved records, then the queued ones |
| ChunkStore.ReopenFresh | persistqueue/queue.py:197-209 | without an info file any chunksize reopens to the empty queue |
| ChunkStore.RecoverGood | persistqueue/queue.py:25-65 | a consistent directory opens to a good state holding the directory's records |
| ChunkStore.RecoveredWhole | persistqueue/queue.py:51-55 | a consistent directory has nothing past the head offset to cut |
| ChunkStore.RecoveredTorn | persistqueue/queue.py:51-55 | bytes appended past the head offset are cut off again on reopening |
| ChunkStore.TornWriteGood | persistqueue/queue.py:51-55 | a torn `_put` (junk after the head frames, and possibly an empty next chunk opened by rotation) reopens to the saved contents |
| ChunkStore.TornHeadGood | persistqueue/queue.py:51-55 | junk after the head frames is truncated on reopening, giving back the saved contents |
| ChunkStore.EmptyPastHead | persistqueue/queue.py:117-129 | an empty chunk file beyond the head keeps the directory consistent |
| ChunkStore.EmptyPastHeadGood | persistqueue/queue.py:117-129 | an empty chunk file beyond the head keeps the store's invariant |
| ChunkStore.TornFiles | persistqueue/queue.py:117-129 | the files after a torn `_put`: the head chunk gains the junk, and rotation may add an empty next chunk; no other file changes |
| ChunkStore.Engine.constructor | persistqueue/queue.py:25-65 | the engine holds the given info, files and info file, with nothing pending |
| ChunkStore.Engine.Recover | persistqueue/queue.py:49-61 | a missing tail file (other than the head's) raises FileNotFoundError; otherwise the files are the recovered ones, and a consistent directory gives a valid engine holding its records |
| ChunkStore.Engine.ClearTailFiles | persistqueue/queue.py:232-241 | the files become `RemoveRun(files, tnum)`; nothing else changes |
| ChunkStore.Engine.SaveInfo | persistqueue/queue.py:217-230 | the info file becomes the in-memory info, nothing is pending, and the tail files are cleared |
| ChunkStore.Engine.WriteRecord | persistqueue/queue.py:117-128 | the record is framed into the head chunk, rotating (with fsync when asked) at chunksize |
| ChunkStore.Engine.Append | persistqueue/queue.py:117-129 | the items gain the record at the end, and the info is saved |
| ChunkStore.Engine.ReadNext | persistqueue/queue.py:161-177 | None exactly on size 0; otherwise the oldest item is removed and returned, the tail advances and nothing is saved |
| ChunkStore.Reopen | persistqueue/queue.py:25-65 | a crash at any point between calls reopens to the unsaved records, then the queued records: delivery is at least once |
| ChunkStore.TornPut | persistqueue/queue.py:117-129 | a crash inside `_put` before the info is replaced, including one after rotation opened the next chunk, loses nothing already saved |
| FileQueue.PutAdmission | persistqueue/queue.py:91-110 | the exact conditions for Full (no blocking, or a timeout of 0, on a full bounded queue), ValueError, waiting and proceeding |
| FileQueue.GetAdmission | persistqueue/queue.py:134-151 | the exact conditions for Empty (no blocking, or a timeout of 0, on an empty queue), ValueError, waiting and proceeding |
| FileQueue.PutKeepsBound | persistqueue/queue.py:95-110 | an admitted put keeps a bounded queue within maxsize |
| FileQueue.PutOverBound | persistqueue/queue.py:95-110 | a queue already past maxsize admits every put (the check is `==`) |
| FileQueue.GetFindsRecord | persistqueue/queue.py:137-151 | an admitted get always finds a record |
| FileQueue.CheckTempDir | persistqueue/queue.py:45-48 | ValueError exactly when a given tempdir is on another device |
| FileQueue.Queue.constructor | persistqueue/queue.py:63-65 | the unfinished count starts at the persisted size, and `update_info` is set |
| FileQueue.Queue.Open | persistqueue/queue.py:25-65 | a tempdir on another device raises ValueError; a consistent directory opens to its records, with that many unfinished tasks |
| FileQueue.Queue.Put | persistqueue/queue.py:91-115 | the outcome follows `PutAdmission`; a completed put appends the item, adds an unfinished task and saves the info; otherwise nothing changes |
| FileQueue.Queue.PutNowait | persistqueue/queue.py:131-132 | raises Full exactly when a bounded queue is full; otherwise appends |
| FileQueue.Queue.Get | persistqueue/queue.py:134-177 | the outcome follows `GetAdmission`; a completed get returns the oldest item, sets `update_info` and saves nothing |
| FileQueue.Queue.GetNowait | persistqueue/queue.py:158-159 | raises Empty exactly on an empty queue; otherwise returns the oldest item |
| FileQueue.Queue.SaveIfStale | persistqueue/queue.py:189-192 | after it the info is saved and `update_info` is clear; the items are unchanged |
| FileQueue.Queue.TaskDone | persistqueue/queue.py:179-192 | ValueError with nothing changed when no task is unfinished; otherwise one task fewer, joiners notified at zero, and the info saved |
| FileQueue.Queue.Join | persistqueue/queue.py:77-80 | returns exactly when no task is unfinished, otherwise waits |
| FileQueue.Queue.QSize | persistqueue/queue.py:82-89 | the size is the number of queued items |
| FileQueue.ReopenWhenSaved | persistqueue/queue.py:189-192 | with `update_info` clear, a reopen delivers exactly the queued items |
| AsyncFileQueue.ChooseTempDir | persistqueue/async_queue.py:65-80 | ValueError exactly for a tempdir on another device; otherwise the info file is always written on the queue's device |
| AsyncFileQueue.TempLocation | persistqueue/async_queue.py:65-80 | a non-empty tempdir is used as given; any location other than the default temp directory is the given tempdir |
| AsyncFileQueue.AsyncQueue.constructor | persistqueue/async_queue.py:83-87 | nothing is opened: no store, 0 unfinished tasks |
| AsyncFileQueue.AsyncQueue.Open | persistqueue/async_queue.py:36-91 | only the tempdir rule runs; the queue's items are the directory's |
| AsyncFileQueue.AsyncQueue.AsyncInit | persistqueue/async_queue.py:98-114 | the first call recovers the store and sets the unfinished count to the size; later calls change nothing |
| AsyncFileQueue.AsyncQueue.PutReady | persistqueue/async_queue.py:140-164 | the admission outcome, and the append with an unfinished task and a saved info |
| AsyncFileQueue.AsyncQueue.Enqueue | persistqueue/async_queue.py:166-182 | appends the item, adds an unfinished task and saves the info |
| AsyncFileQueue.AsyncQueue.Put | persistqueue/async_queue.py:140-164 | initialises, then follows `PutAdmission` on the size; a completed put appends and saves |
| AsyncFileQueue.AsyncQueue.PutNowait | persistqueue/async_queue.py:184-186 | raises Full exactly when a bounded queue is full; otherwise appends |
| AsyncFileQueue.AsyncQueue.GetReady | persistqueue/async_queue.py:188-210 | the admission outcome, and the get with the autosave rule |
| AsyncFileQueue.AsyncQueue.Serve | persistqueue/async_queue.py:216-238 | returns the oldest item; with autosave the info is saved at once, otherwise `update_info` is set and the item joins the unsaved ones |
| AsyncFileQueue.AsyncQueue.Get | persistqueue/async_queue.py:188-210 | initialises, then follows `GetAdmission`; a completed get returns the oldest item |
| AsyncFileQueue.AsyncQueue.GetNowait | persistqueue/async_queue.py:212-214 | raises Empty exactly on an empty queue; otherwise returns the oldest item |
| AsyncFileQueue.AsyncQueue.SaveIfStale | persistqueue/async_queue.py:251-257 | nothing under autosave; otherwise the info is saved and nothing is unsaved |
| AsyncFileQueue.AsyncQueue.TaskDone | persistqueue/async_queue.py:240-257 | ValueError when no task is unfinished (always before the first call that initialises); otherwise one task fewer and the info saved |
| AsyncFileQueue.AsyncQueue.QSize | persistqueue/async_queue.py:122-130 | initialises; the result is the number of items |
| AsyncFileQueue.AsyncQueue.Empty | persistqueue/async_queue.py:132-134 | true exactly when there are no items |
| AsyncFileQueue.AsyncQueue.Full | persistqueue/async_queue.py:136-138 | true exactly when the size equals maxsize, so an unbounded queue is full when empty |
| AsyncFileQueue.AsyncQueue.Join | persistqueue/async_queue.py:116-120 | returns exactly when no task is unfinished, otherwise waits |
| SqlTable.Insert | persistqueue/sqlbase.py:124-126 | the new row goes at the end under key last + 1 |
| SqlTable.InsertOrdered | persistqueue/sqlbase.py:124-126 | an insert keeps the table key-ordered |
| SqlTable.IndexOf | persistqueue/sqlbase.py:140-146 | the position of the row with the key, or no row has it |
| SqlTable.IndexOfUnique | persistqueue/sqlbase.py:140-146 | in an ordered table a key names one row |
| SqlTable.DeleteId | persistqueue/sqlbase.py:133-138 | no row with the key remains |
| SqlTable.DeleteAbsent | persistqueue/sqlbase.py:133-138 | a missing key deletes nothing |
| SqlTable.DeleteConcat | persistqueue/sqlbase.py:133-138 | a delete distributes over concatenation |
| SqlTable.RemoveOrdered | persistqueue/sqlbase.py:133-138 | removing a row keeps the table ordered |
| SqlTable.OrderedAround | persistqueue/sqlbase.py:133-138 | no other row shares row k's key |
| SqlTable.DeleteAt | persistqueue/sqlbase.py:133-138 | deleting row k's key removes exactly row k |
| SqlTable.UpdateId | persistqueue/sqlbase.py:128-131 | only the row with the key changes; keys and order stay |
| SqlTable.UpdateOrdered | persistqueue/sqlbase.py:128-131 | an update keeps the table ordered |
| SqlTable.UpdateWhere | persistqueue/sqlackqueue.py:63-70 | exactly the matching rows change |
| SqlTable.UpdateWhereOrdered | persistqueue/sqlackqueue.py:63-70 | a conditional update keeps the table ordered |
| SqlTable.FirstWhere | persistqueue/sqlackqueue.py:44-46 | the first matching row, or none matches |
| SqlTable.LastWhere | persistqueue/sqlackqueue.py:233-235 | the last matching row, or none matches |
| SqlTable.FirstWhereLeast | persistqueue/sqlackqueue.py:44-46 | `ORDER BY key ASC LIMIT 1` gives the smallest matching key |
| SqlTable.LastWhereGreatest | persistqueue/sqlackqueue.py:233-235 | `ORDER BY key DESC LIMIT 1` gives the largest matching key |
| SqlTable.HeadIndex | persistqueue/sqlqueue.py:29-37 | no row exactly on an empty table |
| SqlTable.HeadIsExtreme | persistqueue/sqlqueue.py:29-37 | the head has the smallest key (FIFO) or the largest (FILO) |
| SqlTable.Count | persistqueue/sqlbase.py:148-152 | a count never exceeds the row count |
| SqlTable.CountAppend | persistqueue/sqlbase.py:148-152 | appending a row adds its contribution |
| SqlTable.CountConcat | persistqueue/sqlbase.py:148-152 | counts add over concatenation |
| SqlTable.CountAll | persistqueue/sqlbase.py:148-152 | counting a condition every row meets gives the row count |
| SqlTable.CountNone | persistqueue/sqlbase.py:148-152 | counting a condition no row meets gives 0 |
| SqlTable.CountReplace | persistqueue/sqlbase.py:148-152 | replacing a row changes a count by the difference of contributions |
| SqlTable.CountRemove | persistqueue/sqlbase.py:148-152 | removing a row subtracts its contribution |
| SqlQueue.Values | persistqueue/sqlqueue.py:102-112 | the i-th value is the unpickled data of row i |
| SqlQueue.ValuesAround | persistqueue/sqlqueue.py:102-112 | the values split around row k, and removing row k removes its value |
| SqlQueue.ValuesInsert | persistqueue/sqlqueue.py:97-100 | an insert appends the unpickled value |
| SqlQueue.Drain | persistqueue/sqlqueue.py:102-112 | the blocking loop of `get` over a table: it never adds rows, any data it stops at is non-empty, and stopping without data leaves the table empty |
| SqlQueue.DrainFifo | persistqueue/sqlqueue.py:87-112 | in FIFO order the loop deletes the leading empty-data rows and the first row with data, which it returns; an all-empty table is emptied |
| SqlQueue.DrainFilo | persistqueue/sqlqueue.py:87-112 | in FILO order it deletes the trailing empty-data rows and the last row with data, which it returns |
| SqlQueue.SQLiteQueue.constructor | persistqueue/sqlqueue.py:66-77 | an existing table keeps its rows |
| SqlQueue.SQLiteQueue.Put | persistqueue/sqlqueue.py:97-100 | a new row under the next key, and the put event is set; for a round-tripping pickle, the items gain the item at the end |
| SqlQueue.SQLiteQueue.Select | persistqueue/sqlqueue.py:87-95 | None on an empty table; otherwise the head row is deleted and its data returned |
| SqlQueue.SQLiteQueue.Get | persistqueue/sqlqueue.py:102-112 | FIFO returns the oldest item and FILO the newest; an empty-data head row is deleted and read as empty; a non-blocking get then returns None; a blocking get waits until a put event has ever been set, and after one it runs `Drain`, returning the first row with data (and deleting the empty rows before it) or waiting on an emptied table |
| SqlQueue.SQLiteQueue.Size | persistqueue/sqlqueue.py:114-126 | the row count |
| AsyncSqlQueue.Lookup | persistqueue/async_sqlqueue.py:277-290 | `d.get(key)` finds a value exactly when the key is present |
| AsyncSqlQueue.RowId | persistqueue/async_sqlqueue.py:138-143 | an int id is itself; a raw item gives its non-None "pqid"; anything else means the head |
| AsyncSqlQueue.TextKey | persistqueue/async_sqlqueue.py:230-254 | a text id compares equal to an integer key exactly when it is an optionally signed string of decimal digits, and then it is that integer |
| AsyncSqlQueue.DecimalDigits | persistqueue/async_sqlqueue.py:230-254 | the decimal form of a number is all digits |
| AsyncSqlQueue.TextOfKey | persistqueue/async_sqlqueue.py:230-254 | the text `str(n)`, or `-` followed by it, matches the key n, or -n |
| AsyncSqlQueue.KeyOf | persistqueue/async_sqlqueue.py:230-254 | `_id = ?` matches an int, an integral float, or a text of decimal digits (under the integer affinity of the key column); nothing else matches a key |
| AsyncSqlQueue.Target | persistqueue/async_sqlqueue.py:230-254 | the head row without an id; otherwise the row whose key the id is, if any |
| AsyncSqlQueue.UpdateKey | persistqueue/async_sqlqueue.py:277-290 | an explicit id wins; otherwise a raw item's "pqid" and "data"; with neither, ValueError |
| AsyncSqlQueue.UpdateKeyAsWrittenDiffers | persistqueue/async_sqlqueue.py:277-290 | the code as written differs from `UpdateKey` exactly when no id and no raw item are given, and then raises UnboundLocalError |
| AsyncSqlQueue.UpdateKeyAsWritten | persistqueue/async_sqlqueue.py:277-290 | (as written) an explicit id wins; a raw item gives its "pqid"; with neither, UnboundLocalError, not ValueError |
| AsyncSqlQueue.UpdateWithoutIdRaisesUnbound | persistqueue/async_sqlqueue.py:277-290 | `update(5)` raises UnboundLocalError as written |
| AsyncSqlQueue.FiloRawPopLosesItem | persistqueue/async_sqlqueue.py:188-228 | a raw FILO `get` deletes the newest row, then raises IndexError |
| AsyncSqlQueue.SelectedColumns | persistqueue/async_sqlqueue.py:341-347 | the FILO head select that `AsyncFILOSQLiteQueue` defines returns two columns; a select by id, and the FIFO head select it replaces (lines 30-37), return three |
| AsyncSqlQueue.RawItem | persistqueue/async_sqlqueue.py:199-204 | the raw dict maps "pqid" to the row key, "data" to the item and "timestamp" to the row's timestamp, and its pqid is a valid id for that row |
| AsyncSqlQueue.PopAsWritten | persistqueue/async_sqlqueue.py:188-228 | (as written) no target changes nothing; otherwise the row is deleted and `total` drops, then IndexError exactly for a raw FILO head pop, else the item |
| AsyncSqlQueue.DistinctRemove | persistqueue/async_sqlqueue.py:350-357 | deleting a row keeps the data distinct |
| AsyncSqlQueue.DataIndex | persistqueue/async_sqlqueue.py:350-372 | a row holding the data, or none does |
| AsyncSqlQueue.TakeGood | persistqueue/async_sqlqueue.py:188-228 | deleting a row keeps the table ordered and `total` equal to the row count |
| AsyncSqlQueue.InsertGood | persistqueue/async_sqlqueue.py:114-123 | inserting new data keeps the invariant |
| AsyncSqlQueue.UpdateGood | persistqueue/async_sqlqueue.py:292-301 | rewriting a row's data keeps the invariant when it stays unique |
| AsyncSqlQueue.AsyncSQLiteQueue.constructor | persistqueue/async_sqlqueue.py:41-61 | nothing is connected, and the table is taken as it is |
| AsyncSqlQueue.AsyncSQLiteQueue.Init | persistqueue/async_sqlqueue.py:63-81 | connects once; without auto-commit the cursor is one below the head key (0 when empty) |
| AsyncSqlQueue.AsyncSQLiteQueue.Put | persistqueue/async_sqlqueue.py:91-372 | returns the new row's key and appends the item (lines 91-112); AsyncUniqueQ (lines 359-372) raises TypeError, changing nothing, when the serializer's `dumps` takes no `sort_keys`, and returns None and changes nothing on duplicate data |
| AsyncSqlQueue.AsyncSQLiteQueue.PutNowaitAsWritten | persistqueue/async_sqlqueue.py:110-112 | (as written) on AsyncUniqueQ the call `put(item, block=False)` raises TypeError and changes nothing, since that class's `put` (line 359) takes no `block`; elsewhere it inserts like `put` |
| AsyncSqlQueue.AsyncSQLiteQueue.PutNowait | persistqueue/async_sqlqueue.py:110-112 | the same outcome and state as `put` on every queue kind |
| AsyncSqlQueue.AsyncSQLiteQueue.Append | persistqueue/async_sqlqueue.py:114-123 | the row goes in under the next key, which is returned, and the items gain the item |
| AsyncSqlQueue.AsyncSQLiteQueue.Pop | persistqueue/async_sqlqueue.py:188-228 | deletes the target row and returns its item (raw: a dict with pqid, data and timestamp); FIFO returns the oldest, FILO the newest |
| AsyncSqlQueue.AsyncSQLiteQueue.Take | persistqueue/async_sqlqueue.py:194-206 | row k is deleted, its item returned, `total` drops, and the cursor moves without auto-commit |
| AsyncSqlQueue.AsyncSQLiteQueue.Get | persistqueue/async_sqlqueue.py:125-186 | negative timeout raises ValueError; a missing target raises Empty or waits per block, id and timeout; otherwise the row is deleted and returned |
| AsyncSqlQueue.AsyncSQLiteQueue.Update | persistqueue/async_sqlqueue.py:277-301 | the keyed row's data is rewritten and the key returned; a missing key changes nothing; a duplicate in AsyncUniqueQ raises IntegrityError |
| AsyncSqlQueue.AsyncSQLiteQueue.QSize | persistqueue/async_sqlqueue.py:308-318 | the row count, equal to `total` |
| AsyncSqlQueue.AsyncSQLiteQueue.Empty | persistqueue/async_sqlqueue.py:308-318 | true exactly when there are no items |
| AsyncSqlQueue.AsyncSQLiteQueue.Full | persistqueue/async_sqlqueue.py:308-318 | never full |
| SqlAckQueue.WaitingStatuses | persistqueue/sqlackqueue.py:22-27 | `status < unack` holds exactly for inited and ready |
| SqlAckQueue.ToReady | persistqueue/sqlackqueue.py:63-70 | an entry set to ready is waiting again, with its data and timestamp kept |
| SqlAckQueue.Resumed | persistqueue/sqlackqueue.py:63-70 | every unack row becomes ready; keys, data and other statuses are kept |
| SqlAckQueue.Mark | persistqueue/sqlackqueue.py:110-112 | only row k's status changes |
| SqlAckQueue.CacheIndex | persistqueue/sqlackqueue.py:145-150 | the first cache entry whose value `is` the item: the same object, or an equal value CPython shares (None, ints -5..256, the empty or a one-character ASCII str, b'') |
| SqlAckQueue.KeyIndex | persistqueue/sqlackqueue.py:131-143 | the cache entry under the key |
| SqlAckQueue.Is | persistqueue/sqlackqueue.py:145-148 | `value is item`: holds for the same object; for a shared value it holds exactly for an equal value, for any other exactly for the same object; it never holds between different values |
| SqlAckQueue.SharedItemFindsFirst | persistqueue/sqlackqueue.py:145-158 | after two gets of the int 7, acking the second (or a literal 7) settles the first entry |
| SqlAckQueue.UnsharedItemFindsOwn | persistqueue/sqlackqueue.py:145-158 | after two gets of the int 1000, acking the second settles its own entry |
| SqlAckQueue.CacheSet | persistqueue/sqlackqueue.py:140 | a present key keeps its place with the new object; a new key goes at the end |
| SqlAckQueue.CachePop | persistqueue/sqlackqueue.py:152-158 | exactly entry i leaves, and the order is kept |
| SqlAckQueue.CacheSetDistinct | persistqueue/sqlackqueue.py:140 | the cache keys stay distinct, and the key now finds the object |
| SqlAckQueue.BandFrom | persistqueue/sqlackqueue.py:114-124 | the number of acked ranks that fall in `OFFSET max LIMIT 1000`, in closed form |
| SqlAckQueue.TrimCounts | persistqueue/sqlackqueue.py:114-124 | `clear_acked_data` keeps every row that is not acked |
| SqlAckQueue.TrimAcked | persistqueue/sqlackqueue.py:114-124 | it deletes as many acked rows as fall in the band |
| SqlAckQueue.TrimIn | persistqueue/sqlackqueue.py:114-124 | it only deletes rows |
| SqlAckQueue.TrimOrdered | persistqueue/sqlackqueue.py:114-124 | it keeps the key order |
| SqlAckQueue.TrimKeeps | persistqueue/sqlackqueue.py:114-124 | a row outside the deleted band survives |
| SqlAckQueue.Trim | persistqueue/sqlackqueue.py:114-124 | the `DELETE ... LIMIT 1000 OFFSET max` over the ranked acked rows never adds a row |
| SqlAckQueue.Band | persistqueue/sqlackqueue.py:114-124 | at most n of n consecutive ranks fall in the band |
| SqlAckQueue.ClearAckedCounts | persistqueue/sqlackqueue.py:114-124 | it deletes the acked rows beyond the newest `_MAX_ACKED_LENGTH`, at most 1000 in one call, and nothing else |
| SqlAckQueue.ClearAcked | persistqueue/sqlackqueue.py:114-124 | `clear_acked_data` only deletes: every remaining row was a row before |
| SqlAckQueue.PopGood | persistqueue/sqlackqueue.py:131-143 | handing out a waiting row keeps the invariant, with `total` one lower |
| SqlAckQueue.PopCacheRows | persistqueue/sqlackqueue.py:137-140 | every cached key stays on a handed-out row |
| SqlAckQueue.HandedRow | persistqueue/sqlackqueue.py:152-175 | a cached key finds its handed-out row |
| SqlAckQueue.KeyIndexOf | persistqueue/sqlackqueue.py:145-158 | with distinct keys an entry is the one its key finds |
| SqlAckQueue.SettleGood | persistqueue/sqlackqueue.py:152-175 | ack, ack_failed and nack keep the invariant; nack adds one to `total` |
| SqlAckQueue.InsertGood | persistqueue/sqlackqueue.py:72-76 | a new inited row keeps the invariant, with `total` one higher |
| SqlAckQueue.ResumeGood | persistqueue/sqlackqueue.py:63-70 | resuming keeps the cache on handed-out rows; `total` stays exact only if nothing was resumed |
| SqlAckQueue.ClearDistinct | persistqueue/sqlackqueue.py:238-244 | clearing keeps the data of a unique queue distinct |
| SqlAckQueue.CacheRowsKept | persistqueue/sqlackqueue.py:114-124 | a table keeping every non-acked row keeps every cached row |
| SqlAckQueue.ClearCacheRows | persistqueue/sqlackqueue.py:114-124 | clearing keeps every cached row |
| SqlAckQueue.ClearGood | persistqueue/sqlackqueue.py:114-124 | clearing keeps the invariant and `total` |
| SqlAckQueue.ResumeLag | persistqueue/sqlackqueue.py:54-82 | resuming makes every unack row ready and waiting, none unack; `total`, counted before, misses them |
| SqlAckQueue.CountIsRows | persistqueue/sqlackqueue.py:91-96 | `COUNT ... WHERE status = ?` is the number of rows in that status |
| SqlAckQueue.GetResult | persistqueue/sqlackqueue.py:177-201 | `get` raises Empty exactly when `_pop` found no row and the call does not block or has timeout 0, waits exactly when it found none and blocks with another timeout, and otherwise returns the popped object |
| SqlAckQueue.GetResultAsWritten | persistqueue/sqlackqueue.py:177-201 | (as written) the same with every `serialized is None` test also passed by a popped item that is None |
| SqlAckQueue.GetResultAgrees | persistqueue/sqlackqueue.py:177-201 | the two readings agree on every item that is not None, whatever block and timeout |
| SqlAckQueue.NoneItemReadAsEmpty | persistqueue/sqlackqueue.py:131-201 | `put(None)` then `get(block=False)` or `get(timeout=0)` raises Empty as written, and `get()` waits, although the row was handed out; the corrected reading returns the item in every case |
| SqlAckQueue.SQLiteAckQueue.constructor | persistqueue/sqlackqueue.py:54-82 | `total` counts the waiting rows, then auto_resume makes unack rows ready; the cache is empty |
| SqlAckQueue.SQLiteAckQueue.ResumeUnackTasks | persistqueue/sqlackqueue.py:63-70 | the rows become `Resumed(rows)`; the cache and `total` are kept |
| SqlAckQueue.SQLiteAckQueue.Put | persistqueue/sqlackqueue.py:72-254 | an inited row under the next key and one more in `total` (lines 72-76); UniqueAckQ (lines 246-254) raises TypeError, changing nothing, when the serializer's `dumps` takes no `sort_keys`, and changes nothing on duplicate data |
| SqlAckQueue.SQLiteAckQueue.Append | persistqueue/sqlackqueue.py:72-76 | the insert with one more in `total` |
| SqlAckQueue.SQLiteAckQueue.SelectIndex | persistqueue/sqlackqueue.py:44-46 | the first waiting row, or the last for FILO |
| SqlAckQueue.SQLiteAckQueue.Pop | persistqueue/sqlackqueue.py:131-143 | the selected row becomes unack, its unpickled item (a new object unless CPython shares the value) is cached under its key and returned, and `total` drops; None with nothing changed when no row waits |
| SqlAckQueue.SQLiteAckQueue.FindItemId | persistqueue/sqlackqueue.py:145-150 | the key of the first entry whose value `is` the item, shared values included, or None |
| SqlAckQueue.SQLiteAckQueue.Settle | persistqueue/sqlackqueue.py:152-175 | an uncached object changes nothing; otherwise its row takes the status and its entry leaves the cache |
| SqlAckQueue.SQLiteAckQueue.Ack | persistqueue/sqlackqueue.py:152-158 | the row becomes acked and leaves the cache |
| SqlAckQueue.SQLiteAckQueue.AckFailed | persistqueue/sqlackqueue.py:160-166 | the row becomes ack_failed and leaves the cache |
| SqlAckQueue.SQLiteAckQueue.Nack | persistqueue/sqlackqueue.py:168-175 | the row becomes ready again and `total` grows |
| SqlAckQueue.SQLiteAckQueue.Get | persistqueue/sqlackqueue.py:177-204 | negative timeout raises ValueError; no waiting row gives `GetResult`: Empty or a wait; otherwise the selected row is handed out and its item returned, None included |
| SqlAckQueue.SQLiteAckQueue.GetAsWritten | persistqueue/sqlackqueue.py:177-204 | (as written) as `Get`, except that a handed-out item that is None, its row already unack, cached and out of `total`, raises Empty or waits |
| SqlAckQueue.SQLiteAckQueue.ClearAckedData | persistqueue/sqlackqueue.py:114-124 | the rows become `ClearAcked(rows)`; the cache and `total` are kept |
| SqlAckQueue.SQLiteAckQueue.StatusCount | persistqueue/sqlackqueue.py:91-108 | the number of rows in the status |
| SqlAckQueue.SQLiteAckQueue.QSize | persistqueue/sqlackqueue.py:211-222 | `total`, the number of waiting rows while no resume has run behind it |
| SqlAckQueue.SQLiteAckQueue.Empty | persistqueue/sqlackqueue.py:218-219 | true exactly when `total` is 0 |
| PrioritySqlQueue.TopIndex | persistqueue/priorityqueue.py:33-36 | no row comes strictly before the head, and the head comes strictly before every earlier row |
| PrioritySqlQueue.TopUnique | persistqueue/priorityqueue.py:33-36 | that order picks exactly one head |
| PrioritySqlQueue.TopInsert | persistqueue/priorityqueue.py:45-51 | after a put the head is the new row exactly when it comes strictly before the old head |
| PrioritySqlQueue.PriorityQueue.Head | persistqueue/priorityqueue.py:33-36 | a row that no row comes before, or none on an empty table |
| PrioritySqlQueue.PriorityQueue.constructor | persistqueue/priorityqueue.py:56-65 | `total` is the row count; without auto-commit the cursor is one below the head key (0 when empty) |
| PrioritySqlQueue.PriorityQueue.Put | persistqueue/priorityqueue.py:45-51 | a row with the priority under the next key, `total` one higher, and the new key returned |
| PrioritySqlQueue.PriorityQueue.PutAsWritten | persistqueue/priorityqueue.py:45-51 | (as written) the row is inserted under the next key, but the call returns None rather than that key |
| PrioritySqlQueue.PriorityQueue.PutNowait | persistqueue/priorityqueue.py:53-54 | the same as `put` |
| PersistDict.TableName | persistqueue/sqlbase.py:158-160 | the table is "dict_" followed by the name |
| PersistDict.TableNameInjective | persistqueue/sqlbase.py:158-160 | different names use different tables |
| PersistDict.InsertRow | persistqueue/pdict.py:14-16 | IntegrityError exactly on a present key; otherwise the key is added |
| PersistDict.UpdateRow | persistqueue/pdict.py:19 | a present key takes the blob; a missing key changes nothing |
| PersistDict.Upsert | persistqueue/pdict.py:52-57 | the key ends up holding the blob and no other key changes |
| PersistDict.Lookup | persistqueue/pdict.py:59-64 | the unpickled data of a present key; otherwise KeyError |
| PersistDict.SetThenGet | persistqueue/pdict.py:52-64 | `pd[k] = v` then `pd[k]` gives v |
| PersistDict.SetKeepsOthers | persistqueue/pdict.py:52-64 | setting one key leaves every other lookup unchanged |
| PersistDict.DeleteOnly | persistqueue/pdict.py:66-67 | after `del pd[k]` k is missing and every other key unchanged |
| PersistDict.Database.constructor | persistqueue/pdict.py:21-25 | a new database has no tables |
| PersistDict.PDict.constructor | persistqueue/pdict.py:21-25 | the table is created if missing, and other tables are untouched |
| PersistDict.PDict.SetItem | persistqueue/pdict.py:52-57 | the table becomes `Upsert(table, key, pickle)` |
| PersistDict.PDict.GetItem | persistqueue/pdict.py:59-64 | the `Lookup` result |
| PersistDict.PDict.Contains | persistqueue/pdict.py:48-50 | true exactly when the key has a row, exactly when the lookup succeeds |
| PersistDict.PDict.DelItem | persistqueue/pdict.py:66-67 | the key's row is deleted; a missing key raises nothing |
| PersistDict.PDict.Len | persistqueue/pdict.py:69-70 | the row count |
| PersistDict.PDict.Unsupported | persistqueue/pdict.py:27-46 | every dict view raises NotImplementedError |
| Retry.RetryOnException | persistqueue/lib.py:43-59 | retry exactly on an instance of error_clz whose text matches msg, when msg is given |
| Retry.RaiseIfMaxReached | persistqueue/lib.py:38-40 | MaxRetriesReached, with the original exception, exactly once i reaches max |
| Retry.Limit | persistqueue/lib.py:20-33 | at least one call and at least `max` |
| Retry.Retrying | persistqueue/lib.py:10-35 | max < 0 returns None without calling; otherwise at most Limit(max) calls, every earlier call retryable, and the result is the value, the re-raised exception, or MaxRetriesReached after the last call |

## Left out

- Blocking and time. A call that would wait (for a put event, a free slot, `join`, or a deadline that has not passed) is the outcome `Blocks`, with nothing else happening. A timeout of 0 has its deadline already passed at the first test, so it raises Full or Empty at once. Locks, conditions, events, threads and event loops are not modelled. The clock is the parameter `now`.
- Concurrency. Each call is atomic. Interleavings between threads or coroutines, and several processes sharing one database or directory, are not modelled.
- Serializer internals. pickle, msgpack, cbor2 and json are a `Packer` or a `Serializer` assumed to round-trip. The byte formats and their failure modes are not modelled.
- The record codec of `Queue` and `AsyncQueue`. The chunk files are modelled with the length framing of the msgpack serializer. The pickle default's own stream framing is not modelled.
- The file system. The chunk files and the info file are values (`Disk`), and the ghost `Chunks` records what they hold. The following are not modelled:
  - os.fsync, beyond the `synced` list;
  - mkstemp naming;
  - the winerror-183 fallback of `_saveinfo` (Windows rename over an existing file);
  - permission and disk-full errors;
  - `async_queue.py` close, `__aenter__` and `__aexit__`.
- SQL and SQLite. Transactions, `commit`, `task_done` of the SQL queues (`commit_ignore_error`), the `auto_commit=False` rollback behaviour, WAL mode and multithreading flags are not modelled.
- SQLite type affinity. `PDict` keys are modelled as strings only.
- AsyncSqlQueue.KeyOf: a text id matches an integer key only as an optionally signed digit string. SQLite also converts other numeric texts (' 2', '2.0', '2e0') and digit strings beyond 64 bits in its own way; those are read as matching no key. A raw item whose "pqid" is a list, a dict or another value sqlite3 cannot bind makes the `execute` of `_pop` (line 243) or `_update` (line 299) raise sqlite3.ProgrammingError; the model reads such a key as matching no row instead.
- AsyncFileQueue.AsyncQueue.Enqueue and Serve: the model assumes that the serializer's `dump` (async_queue.py:170) writes the framed record into the head chunk and its `load` (async_queue.py:223) reads it back from the tail chunk. The code as written does not ensure this. Both handles come from `aiofiles.open` (async_queue.py:259-263), whose `write` and `read` the package treats as coroutines elsewhere: the async pickle serializer awaits them, and `_saveinfo`/`_loadinfo` go through `io.BytesIO` (async_queue.py:269-273, 293-298). The default serializer is the synchronous pickle (async_queue.py:42). With that serializer a put may write no bytes while the head cursor and the size still move forward, and a later get would then fail inside `load`. aiofiles is not part of this model, so this is not claimed either way.
- AsyncFileQueue.AsyncQueue.AsyncInit: a directory whose tail chunk file is missing lies outside `Valid`. The FileNotFoundError of async_queue.py:110-111, and the half-initialised queue it leaves behind (info set, head file open, no tail handle), are not modelled; `ChunkStore.Engine.Recover` states the error itself.
- SqlAckQueue.SQLiteAckQueue.GetAsWritten: a None item popped in a blocking branch gives one `Blocks` outcome. The retry that, as written, then pops the next waiting row (leaving the None row unack) is one more call of the model, not part of the same outcome.
- SqlAckQueue.Is: whether CPython shares a one-character str beyond ASCII, or other interned strings, depends on the interpreter; the model treats only the values `Common.Shared` lists as shared.
- Sorting of equal elements. The order SQLite uses among rows equal in priority and timestamp is taken to be key order.
- Modules not modelled: mysqlqueue.py, serializers/json.py, serializers/pickle.py, serializers/async_pickle.py, common.py, exceptions.py and the benchmark and example scripts. They are outside the core.
- `PriorityQueue.get` is defined in neither priorityqueue.py nor sqlbase.py: it is inherited from a queue class outside the modelled files, so it is not part of this model. `PDict.get` is Python's own `dict.get`. The op/column branch of `SQLiteBase._select` (sqlbase.py:143-145) and the `_sql_select_where` it uses (sqlbase.py:186-190) are not modelled: no file of the package calls `_select` with both an op and a column.
- `AsyncSQLiteQueue.close` and the connection itself.
- Retry.Retrying: the sleep between calls is not modelled. `error_clz` given as a tuple of classes and `re.search` are parameters (an exception's class names, and `search`).
- SqlAckQueue.SQLiteAckQueue.QSize: equals the number of waiting rows only while `counted` holds. Resuming unack rows at open (sqlackqueue.py:60-61, after `_init` counted) leaves `total` short. `ResumeLag` states by how much.
- SqlQueue.SQLiteQueue.Get: a row whose data is the empty blob is deleted and read as empty, as the code does; the model does not list this under Findings. The put event is a flag that `put` sets and nothing clears, so a blocking `get` after any put loops over `_select` without waiting, as the code does; the model does not say how long it spins.
- PersistDict.PDict.DelItem: a missing key raises no KeyError, as the code does. The model follows the code, not the dict protocol.
- AsyncFileQueue.AsyncQueue.Put and Get: state `Unfinished()` and `Unsaved()` relative to the state before the first call, which initialises lazily.

## Findings

| source | as written | input that shows it | evidently intended | confidence | as-written member | corrected member |
|---|---|---|---|---|---|---|
| persistqueue/async_sqlqueue.py:277-290 | `_id` is bound only for a raw item; `if _id is None` then reads an unbound local | `await q.update(5)` with no id | raise ValueError("Provide id or raw item") | high, not executed | AsyncSqlQueue.UpdateKeyAsWritten | AsyncSqlQueue.UpdateKey |
| persistqueue/async_sqlqueue.py:341-347 | `AsyncFILOSQLiteQueue` selects only the key and data, but `_pop` builds the raw dict from `row[2]` after deleting the row and decrementing `total` (lines 194-204) | `await q.get(raw=True)` on a non-empty FILO queue | return the raw dict with the row's timestamp | high, not executed | AsyncSqlQueue.PopAsWritten | AsyncSqlQueue.AsyncSQLiteQueue.Pop |
| persistqueue/async_sqlqueue.py:110-112 | `put_nowait` calls `self.put(item, block=False)`, but `AsyncUniqueQ.put(self, item)` (line 359) takes no `block` | `await q.put_nowait(x)` on an AsyncUniqueQ | insert like `put` | high, not executed | AsyncSqlQueue.AsyncSQLiteQueue.PutNowaitAsWritten | AsyncSqlQueue.AsyncSQLiteQueue.PutNowait |
| persistqueue/priorityqueue.py:45-51 | `_insert_into` goes through `with_conditional_transaction` (sqlbase.py:13-20), whose wrapper returns nothing, so `put` returns None despite `-> int` | `q.put("a")` | return the new row's key | high, not executed | PrioritySqlQueue.PriorityQueue.PutAsWritten | PrioritySqlQueue.PriorityQueue.Put |
| persistqueue/sqlackqueue.py:177-201 | every branch of `get` tests the popped item against None, so an item that is None reads as an empty queue (Empty, or a wait) after `_pop` marked its row unack (lines 131-143) | `q.put(None); q.get(block=False)` | return None and leave it to be acked | medium, not executed | SqlAckQueue.SQLiteAckQueue.GetAsWritten | SqlAckQueue.SQLiteAckQueue.Get |
