/** `SQLiteQueue` (also exported as `FIFOSQLiteQueue`) and `FILOSQLiteQueue`:
    a table of pickled items with their insertion time. `get` reads the row
    with the smallest key (FIFO) or the largest (FILO), deletes it and
    unpickles its data. */
module SqlQueue {
  import opened Common
  import opened SqlTable

  /** The `data BLOB, timestamp FLOAT` columns. */
  datatype Entry = Entry(data: Blob, timestamp: real)

  /** The values the rows hold, in key order. */
  function Values(pickle: Serializer, rows: seq<Row<Entry>>): (vs: seq<PyValue>)
    ensures |vs| == |rows|
    ensures forall i :: 0 <= i < |rows| ==> vs[i] == pickle.loads(rows[i].cols.data)
  {
    seq(|rows|, i requires 0 <= i < |rows| => pickle.loads(rows[i].cols.data))
  }

  /** Values of a table with row k cut out, next to row k's value. */
  lemma ValuesAround(pickle: Serializer, rows: seq<Row<Entry>>, k: nat)
    requires k < |rows|
    ensures Values(pickle, rows) == Values(pickle, rows[..k]) + [pickle.loads(rows[k].cols.data)] + Values(pickle, rows[k + 1..])
    ensures Values(pickle, rows[..k] + rows[k + 1..]) == Values(pickle, rows[..k]) + Values(pickle, rows[k + 1..])
    ensures Values(pickle, rows[..k]) == Values(pickle, rows)[..k]
    ensures Values(pickle, rows[k + 1..]) == Values(pickle, rows)[k + 1..]
  {
    var xs, ys := rows[..k], rows[k + 1..];
    assert Values(pickle, xs + ys) == Values(pickle, xs) + Values(pickle, ys) by {
      var zs := xs + ys;
      assert forall i :: 0 <= i < |zs| ==> zs[i] == if i < |xs| then xs[i] else ys[i - |xs|];
    }
  }

  lemma ValuesInsert(pickle: Serializer, rows: seq<Row<Entry>>, last: int, e: Entry)
    ensures Values(pickle, Insert(rows, last, e)) == Values(pickle, rows) + [pickle.loads(e.data)]
  {
  }

  /** A blocking `get` once `put_event` is set: `_select` runs again and
      again, each time deleting the head row, until a row holding data comes
      up. Returns the table left and that data, or None once the table is
      empty (from then on the loop spins without end). */
  function Drain(rows: seq<Row<Entry>>, order: Order): (r: (seq<Row<Entry>>, Option<Blob>))
    ensures |r.0| <= |rows|
    ensures r.1.Some? ==> r.1.value != []
    ensures r.1.None? ==> r.0 == []
    decreases |rows|
  {
    match HeadIndex(rows, order)
    case None => (rows, None)
    case Some(k) =>
      var rest := rows[..k] + rows[k + 1..];
      if rows[k].cols.data != [] then (rest, Some(rows[k].cols.data)) else Drain(rest, order)
  }

  /** For `SQLiteQueue`: the first row holding data is returned, and it and
      the empty rows before it are deleted; with no such row, every row is. */
  lemma {:induction false} DrainFifo(rows: seq<Row<Entry>>)
    ensures var (rest, d) := Drain(rows, Fifo);
            (d.None? ==> forall i :: 0 <= i < |rows| ==> rows[i].cols.data == [])
            && (d.Some? ==> exists j :: 0 <= j < |rows| && rest == rows[j + 1..] && d.value == rows[j].cols.data
                                        && forall i :: 0 <= i < j ==> rows[i].cols.data == [])
    decreases |rows|
  {
    if rows != [] {
      var tail := rows[..0] + rows[1..];
      assert tail == rows[1..];
      if rows[0].cols.data == [] {
        DrainFifo(tail);
        var (rest, d) := Drain(tail, Fifo);
        if d.Some? {
          var j :| 0 <= j < |tail| && rest == tail[j + 1..] && d.value == tail[j].cols.data
                   && forall i :: 0 <= i < j ==> tail[i].cols.data == [];
          assert rest == rows[j + 2..];
          assert forall i :: 0 <= i < j + 1 ==> rows[i].cols.data == [] by {
            forall i | 0 <= i < j + 1 ensures rows[i].cols.data == [] {
              if i > 0 { assert rows[i] == tail[i - 1]; }
            }
          }
        } else {
          assert forall i :: 0 <= i < |rows| ==> rows[i].cols.data == [] by {
            forall i | 0 <= i < |rows| ensures rows[i].cols.data == [] {
              if i > 0 { assert rows[i] == tail[i - 1]; }
            }
          }
        }
      }
    }
  }

  /** One `_select` of the FILO loop: the last row is deleted. */
  lemma DrainFiloStep(rows: seq<Row<Entry>>)
    requires rows != []
    ensures var n := |rows| - 1;
            Drain(rows, Filo) == if rows[n].cols.data != [] then (rows[..n], Some(rows[n].cols.data))
                                 else Drain(rows[..n], Filo)
  {
    var n := |rows| - 1;
    assert rows[..n] + rows[n + 1..] == rows[..n];
  }

  /** For `FILOSQLiteQueue`: the last row holding data is returned, and it
      and the empty rows after it are deleted; with no such row, every row
      is. */
  lemma {:induction false} DrainFilo(rows: seq<Row<Entry>>)
    ensures var (rest, d) := Drain(rows, Filo);
            (d.None? ==> forall i :: 0 <= i < |rows| ==> rows[i].cols.data == [])
            && (d.Some? ==> exists j :: 0 <= j < |rows| && rest == rows[..j] && d.value == rows[j].cols.data
                                        && forall i :: j < i < |rows| ==> rows[i].cols.data == [])
    decreases |rows|
  {
    if rows != [] {
      var n := |rows| - 1;
      var front := rows[..n];
      DrainFiloStep(rows);
      if rows[n].cols.data == [] {
        DrainFilo(front);
        var (rest, d) := Drain(front, Filo);
        if d.Some? {
          var j :| 0 <= j < |front| && rest == front[..j] && d.value == front[j].cols.data
                   && forall i :: j < i < |front| ==> front[i].cols.data == [];
          assert rest == rows[..j];
          assert forall i :: j < i < |rows| ==> rows[i].cols.data == [] by {
            forall i | j < i < |rows| ensures rows[i].cols.data == [] {
              if i < n { assert rows[i] == front[i]; }
            }
          }
        } else {
          assert forall i :: 0 <= i < |rows| ==> rows[i].cols.data == [] by {
            forall i | 0 <= i < |rows| ensures rows[i].cols.data == [] {
              if i < n { assert rows[i] == front[i]; }
            }
          }
        }
      } else {
        assert Drain(rows, Filo) == (rows[..n], Some(rows[n].cols.data));
      }
    }
  }

  /** Whether the row a `_select` finds holds data. */
  predicate HeadHasData(rows: seq<Row<Entry>>, order: Order) {
    rows != [] && rows[HeadIndex(rows, order).value].cols.data != []
  }

  class SQLiteQueue {
    /** `Fifo` for `SQLiteQueue`, `Filo` for `FILOSQLiteQueue`. */
    const order: Order
    const pickle: Serializer
    /** The table, and its AUTOINCREMENT sequence value. */
    var rows: seq<Row<Entry>>
    var last: int
    /** `put_event`: unset when the queue is opened, set by every `put`,
        never cleared. */
    var putEvent: bool

    ghost predicate Valid()
      reads this
    {
      Ordered(rows, last) && last >= 0
    }

    ghost function Items(): seq<PyValue>
      reads this
    {
      Values(pickle, rows)
    }

    /** Opening a database: the table is created if missing, and a table
        that exists keeps its rows. */
    constructor (order: Order, pickle: Serializer, rows0: seq<Row<Entry>>, last0: int)
      requires Ordered(rows0, last0) && last0 >= 0
      ensures Valid()
      ensures this.order == order && this.pickle == pickle && rows == rows0 && last == last0
      ensures !putEvent
    {
      this.order := order;
      this.pickle := pickle;
      rows := rows0;
      last := last0;
      putEvent := false;
    }

    /** `put`: one new row holding the pickled item and the time `now`, and
        `put_event` set. */
    method Put(item: PyValue, now: real)
      requires Valid()
      modifies this
      ensures Valid()
      ensures rows == Insert(old(rows), old(last), Entry(pickle.dumps(item, false), now))
      ensures last == old(last) + 1 && putEvent
      ensures RoundTrips(pickle) ==> Items() == old(Items()) + [item]
    {
      var obj := pickle.dumps(item, false);
      InsertOrdered(rows, last, Entry(obj, now));
      rows := Insert(rows, last, Entry(obj, now));
      last := last + 1;
      putEvent := true;
    }

    /** `_select`: the head row's data, after deleting that row; None on an
        empty table. Keys start at 1, so the key is always truthy and the
        delete always runs. */
    method Select() returns (d: Option<Blob>)
      requires Valid()
      modifies this
      ensures Valid() && last == old(last) && putEvent == old(putEvent)
      ensures old(rows) == [] ==> d.None? && rows == old(rows)
      ensures old(rows) != [] ==>
                var k := HeadIndex(old(rows), order).value;
                d == Some(old(rows)[k].cols.data) && rows == old(rows)[..k] + old(rows)[k + 1..]
                && Items() == old(Items())[..k] + old(Items())[k + 1..]
                && pickle.loads(d.value) == old(Items())[k]
    {
      var k := HeadIndex(rows, order);
      if k.None? {
        return None;
      }
      DeleteAt(rows, last, k.value);
      ValuesAround(pickle, rows, k.value);
      d := Some(rows[k.value].cols.data);
      rows := DeleteId(rows, rows[k.value].id);
    }

    /** `get`: the unpickled head item. An empty queue gives None, or waits
        when `block` is set; a head row with empty data is deleted and
        treated the same way. A blocking call then waits on `put_event`:
        unset, it waits for a put; set, it selects again at once, deleting
        rows until one holds data (Drain), and spins on an empty table. */
    method Get(block: bool) returns (r: Call<Option<PyValue>>)
      requires Valid()
      modifies this
      ensures Valid() && last == old(last) && putEvent == old(putEvent)
      ensures !(block && putEvent) ==>
                (old(rows) == [] ==> rows == old(rows) && r == (if block then Blocks else Returned(None)))
                && (old(rows) != [] ==>
                      var k := HeadIndex(old(rows), order).value;
                      var data := old(rows)[k].cols.data;
                      rows == old(rows)[..k] + old(rows)[k + 1..]
                      && r == (if data != [] then Returned(Some(pickle.loads(data)))
                               else if block then Blocks else Returned(None)))
      ensures block && putEvent ==>
                var (rest, d) := Drain(old(rows), order);
                rows == rest && r == (if d.Some? then Returned(Some(pickle.loads(d.value))) else Blocks)
      ensures HeadHasData(old(rows), order) && order == Fifo ==> old(Items()) == [r.value.value] + Items()
      ensures HeadHasData(old(rows), order) && order == Filo ==> old(Items()) == Items() + [r.value.value]
    {
      ghost var before := Items();
      var u := Select();
      if u.Some? && u.value != [] {
        r := Returned(Some(pickle.loads(u.value)));
        ghost var k := HeadIndex(old(rows), order).value;
        assert before == before[..k] + [before[k]] + before[k + 1..];
        return;
      }
      if !block {
        return Returned(None);
      }
      if !putEvent {
        return Blocks;
      }
      while rows != []
        invariant Valid() && last == old(last) && putEvent == old(putEvent)
        invariant Drain(rows, order) == Drain(old(rows), order)
        decreases |rows|
      {
        u := Select();
        if u.value != [] {
          return Returned(Some(pickle.loads(u.value)));
        }
      }
      r := Blocks;
    }

    /** `size`, `qsize` and `len`: `COUNT(_id)` over the table. */
    method Size() returns (n: nat)
      requires Valid()
      ensures n == |Items()|
    {
      n := |rows|;
    }
  }
}
