/** `AsyncSQLiteQueue` (alias `AsyncFIFOSQLiteQueue`), `AsyncFILOSQLiteQueue`
    and `AsyncUniqueQ`: SQL-backed queues whose connection, and with it the
    counters `total` and `cursor`, is set up lazily by the first call.
    `get` can name the row it wants, and can return the row "raw" as a dict
    with its key and timestamp; `update` rewrites the data of a row. */
module AsyncSqlQueue {
  import opened Common
  import opened SqlTable
  import opened SqlQueue
  import ChunkNames

  /** The three classes share everything but the table, the head order and
      `put`. */
  datatype Kind = FifoQueue | FiloQueue | UniqueQueue

  function OrderOf(kind: Kind): Order {
    if kind == FiloQueue then Filo else Fifo
  }

  /** `d.get(key)` on a Python dict: the value of the key, if present. */
  function Lookup(items: seq<(string, PyValue)>, key: string): (r: Option<PyValue>)
    ensures r.Some? <==> exists i :: 0 <= i < |items| && items[i].0 == key
    ensures r.Some? ==> exists i :: 0 <= i < |items| && items[i] == (key, r.value)
  {
    if items == [] then None
    else if items[0].0 == key then Some(items[0].1)
    else Lookup(items[1..], key)
  }

  /** How `get` reads its `id` argument: the "pqid" of a raw item, or an int
      itself; anything else, and a "pqid" of None, means "the head row". */
  function RowId(id: PyValue): (r: Option<PyValue>)
    ensures r.Some? ==> r.value != PyNone
    ensures id.PyInt? ==> r == Some(id)
    ensures (!id.PyInt? && !id.PyDict?) ==> r.None?
    ensures id.PyDict? ==> (r.Some? <==> Lookup(id.items, "pqid").Some? && Lookup(id.items, "pqid").value != PyNone)
    ensures id.PyDict? && r.Some? ==> r == Lookup(id.items, "pqid")
  {
    match id
    case PyDict(items) =>
      (match Lookup(items, "pqid")
       case Some(v) => if v == PyNone then None else Some(v)
       case None => None)
    case PyInt(_) => Some(id)
    case _ => None
  }

  predicate IsDigit(c: char) {
    '0' <= c <= '9'
  }

  predicate AllDigits(s: string) {
    forall i :: 0 <= i < |s| ==> IsDigit(s[i])
  }

  /** The integer a text turns into when it meets the INTEGER PRIMARY KEY
      column: SQLite applies numeric affinity to it, which makes an
      optionally signed run of decimal digits that integer. */
  function TextKey(s: string): (k: Option<int>)
    ensures k.Some? <==> (|s| > 0 && AllDigits(s))
                         || (|s| > 1 && (s[0] == '-' || s[0] == '+') && AllDigits(s[1..]))
    ensures k.Some? && AllDigits(s) ==> k.value == ChunkNames.DecimalValue(s)
    ensures k.Some? && s[0] == '-' ==> k.value == -ChunkNames.DecimalValue(s[1..])
    ensures k.Some? && s[0] == '+' ==> k.value == ChunkNames.DecimalValue(s[1..])
  {
    if |s| > 0 && AllDigits(s) then Some(ChunkNames.DecimalValue(s))
    else if |s| > 1 && s[0] == '-' && AllDigits(s[1..]) then Some(-ChunkNames.DecimalValue(s[1..]))
    else if |s| > 1 && s[0] == '+' && AllDigits(s[1..]) then Some(ChunkNames.DecimalValue(s[1..]))
    else None
  }

  /** The integer key `WHERE _id = ?` compares with: an int, a float with an
      integral value, or a text SQLite converts to an integer; no key
      matches any other value. */
  function KeyOf(v: PyValue): (k: Option<int>)
    ensures v.PyInt? ==> k == Some(v.i)
    ensures v.PyStr? ==> k == TextKey(v.s)
    ensures k.Some? ==> v == PyInt(k.value) || v == PyFloat(k.value as real) || (v.PyStr? && TextKey(v.s).Some?)
  {
    match v
    case PyInt(i) => Some(i)
    case PyFloat(f) => if f.Floor as real == f then Some(f.Floor) else None
    case PyStr(s) => TextKey(s)
    case _ => None
  }

  lemma {:induction false} DecimalDigits(n: nat)
    ensures AllDigits(ChunkNames.Decimal(n))
    decreases n
  {
    var s := ChunkNames.Decimal(n);
    if n >= 10 {
      DecimalDigits(n / 10);
      assert s == ChunkNames.Decimal(n / 10) + [ChunkNames.DigitChar(n % 10)];
    }
    assert forall d: nat :: d < 10 ==> IsDigit(ChunkNames.DigitChar(d));
  }

  /** The text of a key, `str(n)` or `str(-n)`, names the row with that key:
      `get(id={"pqid": "2"})` and `update(x, id="2")` reach row 2. */
  lemma TextOfKey(n: nat)
    ensures KeyOf(PyStr(ChunkNames.Decimal(n))) == Some(n)
    ensures n > 0 ==> KeyOf(PyStr("-" + ChunkNames.Decimal(n))) == Some(-(n as int))
  {
    DecimalDigits(n);
    ChunkNames.DecimalValueOf(n);
    var t := "-" + ChunkNames.Decimal(n);
    assert t[1..] == ChunkNames.Decimal(n);
    assert !AllDigits(t) by { assert !IsDigit(t[0]); }
  }

  /** The row `_select(rowid=...)` finds: the head row without a row id,
      else the row whose key the row id is. */
  function Target(rows: seq<Row<Entry>>, order: Order, rowid: Option<PyValue>): (k: Option<nat>)
    ensures k.Some? ==> k.value < |rows|
    ensures rowid.None? ==> k == HeadIndex(rows, order)
    ensures rowid.Some? ==> (k.Some? <==> KeyOf(rowid.value).Some?
                                          && exists i :: 0 <= i < |rows| && rows[i].id == KeyOf(rowid.value).value)
    ensures rowid.Some? && k.Some? ==> rows[k.value].id == KeyOf(rowid.value).value
  {
    match rowid
    case None => HeadIndex(rows, order)
    case Some(key) =>
      match KeyOf(key)
      case None => None
      case Some(i) => IndexOf(rows, i)
  }

  /** The dict a raw `get` returns: its "pqid" names the row again, for
      `get(id=...)` and for `update`. */
  function RawItem(row: Row<Entry>, item: PyValue): (r: PyValue)
    ensures r.PyDict? && Lookup(r.items, "pqid") == Some(PyInt(row.id))
    ensures Lookup(r.items, "data") == Some(item)
    ensures Lookup(r.items, "timestamp") == Some(PyFloat(row.cols.timestamp))
    ensures RowId(r) == Some(PyInt(row.id)) && KeyOf(RowId(r).value) == Some(row.id)
  {
    var items := [("pqid", PyInt(row.id)), ("data", item), ("timestamp", PyFloat(row.cols.timestamp))];
    assert items[1..][1..] == [items[2]];
    PyDict(items)
  }

  /** What `update` writes and where: the explicit `id` when one is given,
      else the "pqid" of a raw item (whose "data" is then the new item, None
      when missing). With neither, `update` raises ValueError. */
  function UpdateKey(item: PyValue, id: PyValue): (r: Result<(PyValue, PyValue), Exc>)
    ensures r.Err? ==> r.error == ValueError
    ensures r.Ok? ==> r.value.0 != PyNone
    ensures id != PyNone ==> r.Ok? && r.value.0 == id
    ensures id == PyNone ==>
              (r.Ok? <==> item.PyDict? && Lookup(item.items, "pqid").Some? && Lookup(item.items, "pqid").value != PyNone)
    ensures r.Ok? && item.PyDict? && Lookup(item.items, "pqid").Some? ==>
              r.value.1 == (if Lookup(item.items, "data").Some? then Lookup(item.items, "data").value else PyNone)
    ensures r.Ok? && !(item.PyDict? && Lookup(item.items, "pqid").Some?) ==> r.value.1 == item
  {
    var raw := item.PyDict? && Lookup(item.items, "pqid").Some?;
    var value := if !raw then item
                 else if Lookup(item.items, "data").Some? then Lookup(item.items, "data").value
                 else PyNone;
    if id != PyNone then Ok((id, value))
    else if !raw then Err(ValueError)
    else if Lookup(item.items, "pqid").value == PyNone then Err(ValueError)
    else Ok((Lookup(item.items, "pqid").value, value))
  }

  /** `update` as written: without an explicit id and without a raw item,
      the local `_id` is never bound, and testing it raises
      UnboundLocalError instead of the ValueError the code means to raise. */
  function UpdateKeyAsWritten(item: PyValue, id: PyValue): (r: Result<(PyValue, PyValue), Exc>)
    ensures id != PyNone ==> r.Ok? && r.value.0 == id
    ensures id == PyNone && !(item.PyDict? && Lookup(item.items, "pqid").Some?) ==> r == Err(UnboundLocalError)
    ensures r.Err? ==> r.error == UnboundLocalError || r.error == ValueError
    ensures r.Ok? ==> r.value.0 != PyNone
  {
    var raw := item.PyDict? && Lookup(item.items, "pqid").Some?;
    var value := if !raw then item
                 else if Lookup(item.items, "data").Some? then Lookup(item.items, "data").value
                 else PyNone;
    if id != PyNone then Ok((id, value))
    else if !raw then Err(UnboundLocalError)
    else if Lookup(item.items, "pqid").value == PyNone then Err(ValueError)
    else Ok((Lookup(item.items, "pqid").value, value))
  }

  /** The two differ exactly when neither an id nor a raw item is given. */
  lemma UpdateKeyAsWrittenDiffers(item: PyValue, id: PyValue)
    ensures UpdateKeyAsWritten(item, id) != UpdateKey(item, id)
            <==> id == PyNone && !(item.PyDict? && Lookup(item.items, "pqid").Some?)
    ensures UpdateKeyAsWritten(item, id) != UpdateKey(item, id)
            ==> UpdateKeyAsWritten(item, id) == Err(UnboundLocalError) && UpdateKey(item, id) == Err(ValueError)
  {
  }

  /** `await q.update(5)` on any queue. */
  lemma UpdateWithoutIdRaisesUnbound()
    ensures UpdateKeyAsWritten(PyInt(5), PyNone) == Err(UnboundLocalError)
    ensures UpdateKey(PyInt(5), PyNone) == Err(ValueError)
  {
  }

  /** The columns a `_select` returns as written: `AsyncFILOSQLiteQueue`
      replaces the head select by one without the timestamp column. */
  function SelectedColumns(kind: Kind, rowid: Option<PyValue>): (n: nat)
    ensures n == 2 || n == 3
    ensures n == 2 <==> kind == FiloQueue && rowid.None?
  {
    if kind == FiloQueue && rowid.None? then 2 else 3
  }

  /** `_pop` as written, on the table and `total`: the row is deleted and
      `total` decremented before the raw dict is built, and building it
      from a two-column row raises IndexError. */
  function PopAsWritten(rows: seq<Row<Entry>>, total: int, kind: Kind, ser: Serializer,
                        rowid: Option<PyValue>, raw: bool): (r: (seq<Row<Entry>>, int, Result<Option<PyValue>, Exc>))
    ensures Target(rows, OrderOf(kind), rowid).None? ==> r == (rows, total, Ok(None))
    ensures Target(rows, OrderOf(kind), rowid).Some? ==>
              var k := Target(rows, OrderOf(kind), rowid).value;
              r.0 == DeleteId(rows, rows[k].id) && r.1 == total - 1
              && (r.2.Err? <==> raw && kind == FiloQueue && rowid.None?)
              && (r.2.Ok? ==> r.2.value == Some(if raw then RawItem(rows[k], ser.loads(rows[k].cols.data))
                                                else ser.loads(rows[k].cols.data)))
  {
    match Target(rows, OrderOf(kind), rowid)
    case None => (rows, total, Ok(None))
    case Some(k) =>
      var item := ser.loads(rows[k].cols.data);
      var rest := DeleteId(rows, rows[k].id);
      if !raw then (rest, total - 1, Ok(Some(item)))
      else if SelectedColumns(kind, rowid) < 3 then (rest, total - 1, Err(IndexError))
      else (rest, total - 1, Ok(Some(RawItem(rows[k], item))))
  }

  /** A raw `get` without an id on a non-empty FILO queue deletes the newest
      row and raises IndexError: that item is lost. */
  lemma FiloRawPopLosesItem(rows: seq<Row<Entry>>, last: int, total: int, ser: Serializer)
    requires Ordered(rows, last) && rows != []
    ensures var (rest, total', out) := PopAsWritten(rows, total, FiloQueue, ser, None, true);
            out == Err(IndexError) && rest == rows[..|rows| - 1] && total' == total - 1
  {
    DeleteAt(rows, last, |rows| - 1);
  }

  /** No two rows of a `UNIQUE (data)` table hold the same data. */
  ghost predicate DistinctData(rows: seq<Row<Entry>>) {
    forall i, j :: 0 <= i < j < |rows| ==> rows[i].cols.data != rows[j].cols.data
  }

  lemma DistinctRemove(rows: seq<Row<Entry>>, k: nat)
    requires DistinctData(rows) && k < |rows|
    ensures DistinctData(rows[..k] + rows[k + 1..])
  {
    var rest := rows[..k] + rows[k + 1..];
    forall i, j | 0 <= i < j < |rest| ensures rest[i].cols.data != rest[j].cols.data {
      var i', j' := if i < k then i else i + 1, if j < k then j else j + 1;
      assert rest[i] == rows[i'] && rest[j] == rows[j'];
    }
  }

  /** The position of a row holding `obj`, if any. */
  function DataIndex(rows: seq<Row<Entry>>, obj: Blob): (k: Option<nat>)
    ensures k.Some? ==> k.value < |rows| && rows[k.value].cols.data == obj
    ensures k.None? ==> forall i :: 0 <= i < |rows| ==> rows[i].cols.data != obj
  {
    FirstWhere(rows, (e: Entry) => e.data == obj)
  }

  /** The state a queue keeps: an ordered table, distinct data in a unique
      queue, and once connected a `total` equal to the row count. */
  ghost predicate Good(kind: Kind, rows: seq<Row<Entry>>, last: int, connected: bool, total: int, cursor: int) {
    Ordered(rows, last) && last >= 0
    && (kind == UniqueQueue ==> DistinctData(rows))
    && (connected ==> total == |rows|)
    && (!connected ==> total == 0 && cursor == 0)
  }

  /** Deleting a row keeps a connected queue's state good. */
  lemma TakeGood(kind: Kind, rows: seq<Row<Entry>>, last: int, total: int, cursor: int, k: nat, cursor': int)
    requires Good(kind, rows, last, true, total, cursor) && k < |rows|
    ensures DeleteId(rows, rows[k].id) == rows[..k] + rows[k + 1..]
    ensures Good(kind, rows[..k] + rows[k + 1..], last, true, total - 1, cursor')
  {
    DeleteAt(rows, last, k);
    if kind == UniqueQueue {
      DistinctRemove(rows, k);
    }
  }

  /** Inserting a row, with data no row holds in a unique queue, keeps a
      connected queue's state good. */
  lemma InsertGood(kind: Kind, rows: seq<Row<Entry>>, last: int, total: int, cursor: int, e: Entry)
    requires Good(kind, rows, last, true, total, cursor)
    requires kind == UniqueQueue ==> DataIndex(rows, e.data).None?
    ensures Good(kind, Insert(rows, last, e), last + 1, true, total + 1, cursor)
  {
    InsertOrdered(rows, last, e);
    var r := Insert(rows, last, e);
    if kind == UniqueQueue {
      forall i, j | 0 <= i < j < |r| ensures r[i].cols.data != r[j].cols.data {
        assert r[i] == rows[i];
        if j < |rows| { assert r[j] == rows[j]; }
      }
    }
  }

  /** Rewriting the data of row k keeps the state good, when in a unique
      queue no other row holds the new data. */
  lemma UpdateGood(kind: Kind, rows: seq<Row<Entry>>, last: int, total: int, cursor: int, k: nat, obj: Blob)
    requires Good(kind, rows, last, true, total, cursor) && k < |rows|
    requires kind == UniqueQueue ==> DataIndex(rows, obj).None? || rows[DataIndex(rows, obj).value].id == rows[k].id
    ensures Good(kind, rows[k := Row(rows[k].id, Entry(obj, rows[k].cols.timestamp))], last, true, total, cursor)
  {
    var r' := rows[k := Row(rows[k].id, Entry(obj, rows[k].cols.timestamp))];
    assert forall i :: 0 <= i < |rows| ==> r'[i].id == rows[i].id;
    if kind == UniqueQueue {
      var di := DataIndex(rows, obj);
      if di.Some? {
        IndexOfUnique(rows, last, k);
        IndexOfUnique(rows, last, di.value);
        assert di.value == k;
      }
      assert forall o :: 0 <= o < |rows| && o != k ==> rows[o].cols.data != obj;
      forall i, j | 0 <= i < j < |r'| ensures r'[i].cols.data != r'[j].cols.data {
        if i != k && j != k {
          assert r'[i] == rows[i] && r'[j] == rows[j];
        }
      }
    }
  }

  /** Cutting the first or the last element out of a sequence. */
  lemma EndSplit<T>(s: seq<T>, k: nat)
    requires k < |s|
    ensures k == 0 ==> s == [s[k]] + (s[..k] + s[k + 1..])
    ensures k == |s| - 1 ==> s == (s[..k] + s[k + 1..]) + [s[k]]
  {
    if k == 0 {
      assert s[..k] + s[k + 1..] == s[1..];
    }
    if k == |s| - 1 {
      assert s[..k] + s[k + 1..] == s[..k];
    }
  }

  class AsyncSQLiteQueue {
    const kind: Kind
    const ser: Serializer
    const autoCommit: bool
    /** Whether `_init` has opened the connection. */
    var connected: bool
    var rows: seq<Row<Entry>>
    var last: int
    var total: int
    var cursor: int

    ghost predicate Valid()
      reads this
    {
      Good(kind, rows, last, connected, total, cursor)
    }

    ghost function Items(): seq<PyValue>
      reads this
    {
      Values(ser, rows)
    }

    /** The constructor opens nothing: the database file's table is taken
        as it is. */
    constructor (kind: Kind, ser: Serializer, autoCommit: bool, rows0: seq<Row<Entry>>, last0: int)
      requires Ordered(rows0, last0) && last0 >= 0
      requires kind == UniqueQueue ==> DistinctData(rows0)
      ensures Valid() && !connected
      ensures this.kind == kind && this.ser == ser && this.autoCommit == autoCommit
      ensures rows == rows0 && last == last0
    {
      this.kind := kind;
      this.ser := ser;
      this.autoCommit := autoCommit;
      connected := false;
      rows := rows0;
      last := last0;
      total := 0;
      cursor := 0;
    }

    /** `_init`: on the first call, `total` becomes the row count and,
        without auto-commit, `cursor` one below the head row's key (0 on
        an empty table). */
    method Init()
      requires Valid()
      modifies this
      ensures Valid() && connected
      ensures rows == old(rows) && last == old(last)
      ensures old(connected) ==> cursor == old(cursor)
      ensures !old(connected) ==>
                cursor == (if autoCommit then old(cursor)
                           else match HeadIndex(rows, OrderOf(kind))
                                case None => 0
                                case Some(k) => rows[k].id - 1)
    {
      if !connected {
        if !autoCommit {
          var head := HeadIndex(rows, OrderOf(kind));
          cursor := if head.None? then 0 else rows[head.value].id - 1;
        }
        total := |rows|;
        connected := true;
      }
    }

    /** `put`: on `AsyncSQLiteQueue` and
        `AsyncFILOSQLiteQueue` a new row and its key. `AsyncUniqueQ` dumps
        the item with `sort_keys=True`: a serializer whose `dumps` takes no
        such argument, as the default pickle one, raises TypeError after the
        connection is set up; otherwise data a row already holds gives None
        and no change. */
    method Put(item: PyValue, now: real) returns (r: Result<Option<int>, Exc>)
      requires Valid()
      modifies this
      ensures Valid() && connected
      ensures r.Err? <==> kind == UniqueQueue && !ser.sortKeys
      ensures r.Err? ==> r.error == TypeError && rows == old(rows) && last == old(last)
      ensures r.Ok? ==>
              var obj := ser.dumps(item, kind == UniqueQueue);
              if kind == UniqueQueue && DataIndex(old(rows), obj).Some? then
                r.value.None? && rows == old(rows) && last == old(last)
              else
                r.value == Some(old(last) + 1) && rows == Insert(old(rows), old(last), Entry(obj, now))
                && last == old(last) + 1
      ensures r.Ok? && r.value.Some? && kind != UniqueQueue && RoundTrips(ser) ==> Items() == old(Items()) + [item]
      ensures kind != UniqueQueue ==> r.Ok? && r.value.Some?
    {
      Init();
      if kind == UniqueQueue && !ser.sortKeys {
        return Err(TypeError);
      }
      var obj := ser.dumps(item, kind == UniqueQueue);
      if kind == UniqueQueue && DataIndex(rows, obj).Some? {
        return Ok(None);
      }
      var key := Append(Entry(obj, now));
      r := Ok(Some(key));
    }

    /** `put_nowait` as written: it calls `put(item, block=False)`, which
        `AsyncUniqueQ.put(self, item)` does not accept, so on a unique queue
        it raises TypeError before anything is connected or inserted; on the
        other queues it is `put`. */
    method PutNowaitAsWritten(item: PyValue, now: real) returns (r: Result<Option<int>, Exc>)
      requires Valid()
      modifies this
      ensures Valid()
      ensures kind == UniqueQueue ==> r == Err(TypeError) && unchanged(this)
      ensures kind != UniqueQueue ==>
                connected && r == Ok(Some(old(last) + 1))
                && rows == Insert(old(rows), old(last), Entry(ser.dumps(item, false), now))
                && last == old(last) + 1
    {
      if kind == UniqueQueue {
        return Err(TypeError);
      }
      r := Put(item, now);
    }

    /** `put_nowait` as intended: `put` without blocking, which on every kind
        of queue is `put` itself, so a unique queue also inserts new data and
        gives None on a duplicate. */
    method PutNowait(item: PyValue, now: real) returns (r: Result<Option<int>, Exc>)
      requires Valid()
      modifies this
      ensures Valid() && connected
      ensures r.Err? <==> kind == UniqueQueue && !ser.sortKeys
      ensures r.Err? ==> r.error == TypeError && rows == old(rows) && last == old(last)
      ensures r.Ok? ==>
              var obj := ser.dumps(item, kind == UniqueQueue);
              if kind == UniqueQueue && DataIndex(old(rows), obj).Some? then
                r.value.None? && rows == old(rows) && last == old(last)
              else
                r.value == Some(old(last) + 1) && rows == Insert(old(rows), old(last), Entry(obj, now))
                && last == old(last) + 1
    {
      r := Put(item, now);
    }

    /** The insert half of `put`: the row goes in under the next key, which
        is returned, and `total` grows by one. */
    method Append(e: Entry) returns (id: int)
      requires Valid() && connected
      requires kind == UniqueQueue ==> DataIndex(rows, e.data).None?
      modifies this
      ensures Valid() && connected
      ensures rows == Insert(old(rows), old(last), e) && last == old(last) + 1 && id == last
      ensures Items() == old(Items()) + [ser.loads(e.data)]
    {
      InsertGood(kind, rows, last, total, cursor, e);
      ValuesInsert(ser, rows, last, e);
      rows, last, total := Insert(rows, last, e), last + 1, total + 1;
      id := last;
    }

    /** `_pop`: the target row is deleted and its item returned, as the raw
        dict when `raw` is set; None stands for the `_EMPTY` sentinel. Every
        select here carries the timestamp column. */
    method Pop(rowid: Option<PyValue>, raw: bool) returns (p: Option<PyValue>)
      requires Valid()
      modifies this
      ensures Valid() && connected && last == old(last)
      ensures var k := Target(old(rows), OrderOf(kind), rowid);
              if k.None? then p.None? && rows == old(rows) && (autoCommit || old(connected) ==> cursor == old(cursor))
              else
                var row := old(rows)[k.value];
                var item := ser.loads(row.cols.data);
                rows == old(rows)[..k.value] + old(rows)[k.value + 1..]
                && p == Some(if raw then RawItem(row, item) else item)
                && (if autoCommit then cursor == old(cursor) else cursor == row.id)
      ensures p.Some? && !raw && rowid.None? && kind != FiloQueue ==> old(Items()) == [p.value] + Items()
      ensures p.Some? && !raw && rowid.None? && kind == FiloQueue ==> old(Items()) == Items() + [p.value]
    {
      Init();
      var k := Target(rows, OrderOf(kind), rowid);
      if k.None? {
        return None;
      }
      p := Take(k.value, raw);
    }

    /** The found half of `_pop`: row k is deleted, `total` drops, and the
        cursor moves to the row's key without auto-commit. */
    method Take(k: nat, raw: bool) returns (p: Option<PyValue>)
      requires Valid() && connected && k < |rows|
      modifies this
      ensures Valid() && connected && last == old(last)
      ensures var row := old(rows)[k];
              var item := ser.loads(row.cols.data);
              rows == old(rows)[..k] + old(rows)[k + 1..]
              && p == Some(if raw then RawItem(row, item) else item)
              && (if autoCommit then cursor == old(cursor) else cursor == row.id)
      ensures Items() == old(Items())[..k] + old(Items())[k + 1..]
      ensures !raw ==> p == Some(old(Items())[k])
      ensures !raw && k == 0 ==> old(Items()) == [p.value] + Items()
      ensures !raw && k == |old(rows)| - 1 ==> old(Items()) == Items() + [p.value]
    {
      EndSplit(Items(), k);
      var row := rows[k];
      var c := if autoCommit then cursor else row.id;
      TakeGood(kind, rows, last, total, cursor, k, c);
      ValuesAround(ser, rows, k);
      var item := ser.loads(row.cols.data);
      rows, total, cursor := DeleteId(rows, row.id), total - 1, c;
      p := Some(if raw then RawItem(row, item) else item);
    }

    /** `get`. Without blocking, an empty target raises Empty. Blocking, a
        named row that is missing raises Empty at once; otherwise the call
        waits for a put, and with a timeout raises Empty when it runs out
        (at once for a timeout of 0). A negative timeout raises ValueError
        before anything is read. */
    method Get(block: bool, timeout: Option<real>, id: PyValue, raw: bool) returns (r: Call<PyValue>)
      requires Valid()
      modifies this
      ensures Valid() && last == old(last)
      ensures block && timeout.Some? && timeout.value < 0.0 ==>
                r == Raised(ValueError) && rows == old(rows) && connected == old(connected)
      ensures !(block && timeout.Some? && timeout.value < 0.0) ==>
                var rowid := RowId(id);
                var k := Target(old(rows), OrderOf(kind), rowid);
                connected
                && (k.None? ==>
                      rows == old(rows)
                      && r == (if !block || rowid.Some? || timeout == Some(0.0) then Raised(Exc.Empty) else Blocks))
                && (k.Some? ==>
                      var row := old(rows)[k.value];
                      var item := ser.loads(row.cols.data);
                      rows == old(rows)[..k.value] + old(rows)[k.value + 1..]
                      && r == Returned(if raw then RawItem(row, item) else item))
    {
      var rowid := RowId(id);
      if block && timeout.Some? && timeout.value < 0.0 {
        return Raised(ValueError);
      }
      var p := Pop(rowid, raw);
      if p.Some? {
        r := Returned(p.value);
      } else if !block || rowid.Some? || timeout == Some(0.0) {
        r := Raised(Exc.Empty);
      } else {
        r := Blocks;
      }
    }

    /** `update`: the target row's data is replaced by the dumped item and
        its key returned. A key no row has changes nothing; on
        `AsyncUniqueQ` data another row already holds raises
        IntegrityError and changes nothing. */
    method Update(item: PyValue, id: PyValue) returns (r: Result<PyValue, Exc>)
      requires Valid()
      modifies this
      ensures Valid() && last == old(last)
      ensures UpdateKey(item, id).Err? ==> r == Err(ValueError) && rows == old(rows) && connected == old(connected)
      ensures UpdateKey(item, id).Ok? ==>
                var (key, value) := UpdateKey(item, id).value;
                var obj := ser.dumps(value, false);
                var k := Target(old(rows), Fifo, Some(key));
                connected
                && if k.Some? && kind == UniqueQueue && DataIndex(old(rows), obj).Some?
                      && old(rows)[DataIndex(old(rows), obj).value].id != old(rows)[k.value].id then
                     r == Err(IntegrityError) && rows == old(rows)
                   else
                     r == Ok(key)
                     && (k.None? ==> rows == old(rows))
                     && (k.Some? ==> rows == old(rows)[k.value := Row(old(rows)[k.value].id, Entry(obj, old(rows)[k.value].cols.timestamp))])
    {
      var u := UpdateKey(item, id);
      if u.Err? {
        return Err(u.error);
      }
      var (key, value) := u.value;
      Init();
      var obj := ser.dumps(value, false);
      var k := Target(rows, Fifo, Some(key));
      if k.None? {
        return Ok(key);
      }
      var d := DataIndex(rows, obj);
      if kind == UniqueQueue && d.Some? && rows[d.value].id != rows[k.value].id {
        return Err(IntegrityError);
      }
      UpdateGood(kind, rows, last, total, cursor, k.value, obj);
      rows := rows[k.value := Row(rows[k.value].id, Entry(obj, rows[k.value].cols.timestamp))];
      r := Ok(key);
    }

    /** `qsize`: `COUNT(*)` over the table. */
    method QSize() returns (n: int)
      requires Valid()
      modifies this
      ensures Valid() && connected && rows == old(rows) && last == old(last)
      ensures n == |Items()| && n == total
    {
      Init();
      n := |rows|;
    }

    method Empty() returns (b: bool)
      requires Valid()
      modifies this
      ensures Valid() && connected && rows == old(rows) && last == old(last)
      ensures b <==> Items() == []
    {
      var n := QSize();
      b := n == 0;
    }

    /** `full`: an SQL queue is never full. */
    method Full() returns (b: bool)
      requires Valid()
      ensures !b
    {
      b := false;
    }
  }
}
