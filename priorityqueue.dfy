/** `PriorityQueue`: a SQLite table of (key, data, timestamp, priority)
    rows whose head is the row with the smallest priority value, the
    earliest timestamp among equal priorities. */
module PrioritySqlQueue {
  import opened Common
  import opened SqlTable

  datatype PEntry = PEntry(data: Blob, timestamp: real, priority: int)

  /** `ORDER BY priority ASC, timestamp ASC`: a comes strictly before b. */
  predicate Before(a: PEntry, b: PEntry) {
    a.priority < b.priority || (a.priority == b.priority && a.timestamp < b.timestamp)
  }

  /** The row `_select` returns (`LIMIT 1` of that order). Rows equal in
      both columns are left in key order, so the head is the first of
      them. */
  function TopIndex(rows: seq<Row<PEntry>>): (k: Option<nat>)
    ensures k.None? <==> rows == []
    ensures k.Some? ==> k.value < |rows|
                        && (forall i :: 0 <= i < |rows| ==> !Before(rows[i].cols, rows[k.value].cols))
                        && (forall i :: 0 <= i < k.value ==> Before(rows[k.value].cols, rows[i].cols))
  {
    if rows == [] then None
    else
      var n := |rows| - 1;
      match TopIndex(rows[..n])
      case None => Some(0)
      case Some(k) =>
        assert rows[..n][k] == rows[k];
        if Before(rows[n].cols, rows[k].cols) then Some(n) else Some(k)
  }

  /** The order picks one head: any row that nothing precedes and that
      precedes every earlier row is the one `TopIndex` finds. */
  lemma TopUnique(rows: seq<Row<PEntry>>, k: nat)
    requires k < |rows|
    requires forall i :: 0 <= i < |rows| ==> !Before(rows[i].cols, rows[k].cols)
    requires forall i :: 0 <= i < k ==> Before(rows[k].cols, rows[i].cols)
    ensures TopIndex(rows) == Some(k)
  {
    var t := TopIndex(rows).value;
    assert !Before(rows[t].cols, rows[k].cols) && !Before(rows[k].cols, rows[t].cols);
  }

  /** After an insert the head is the new row exactly when it comes
      strictly before the old head. */
  lemma TopInsert(rows: seq<Row<PEntry>>, last: int, e: PEntry)
    ensures TopIndex(Insert(rows, last, e)) ==
            if rows == [] || Before(e, rows[TopIndex(rows).value].cols) then Some(|rows|) else TopIndex(rows)
  {
    var r := Insert(rows, last, e);
    assert r[..|rows|] == rows;
  }

  class PriorityQueue {
    const ser: Serializer
    const autoCommit: bool
    /** The table, and its AUTOINCREMENT sequence value. */
    var rows: seq<Row<PEntry>>
    var last: int
    var total: int
    /** Set by `_init` only when `auto_commit` is off. */
    var cursor: Option<int>

    ghost predicate Valid()
      reads this
    {
      Ordered(rows, last) && last >= 0 && total == |rows|
    }

    /** The head row, if the table has one. */
    function Head(): (h: Option<Row<PEntry>>)
      reads this
      ensures h.None? <==> rows == []
      ensures h.Some? ==> h.value in rows && forall i :: 0 <= i < |rows| ==> !Before(rows[i].cols, h.value.cols)
    {
      match TopIndex(rows)
      case None => None
      case Some(k) => Some(rows[k])
    }

    /** `_init`: on an existing table, `total` counts its rows and, without
        auto-commit, `cursor` is one below the head's key (0 when empty). */
    constructor (ser: Serializer, autoCommit: bool, rows0: seq<Row<PEntry>>, last0: int)
      requires Ordered(rows0, last0) && last0 >= 0
      ensures Valid()
      ensures this.ser == ser && this.autoCommit == autoCommit && rows == rows0 && last == last0
      ensures total == |rows0|
      ensures cursor == if autoCommit then None
                        else match TopIndex(rows0) case None => Some(0) case Some(k) => Some(rows0[k].id - 1)
    {
      this.ser := ser;
      this.autoCommit := autoCommit;
      rows := rows0;
      last := last0;
      new;
      if !autoCommit {
        var head := Head();
        if head.Some? {
          cursor := Some(head.value.id - 1);
        } else {
          cursor := Some(0);
        }
      } else {
        cursor := None;
      }
      total := |rows|;
    }

    /** `put`: a row with the dumped item, time `now` and the priority goes
        in under the next key, `total` grows by one and the new key is
        returned (`TopInsert` says how the head moves). */
    method Put(item: PyValue, priority: int, now: real) returns (id: int)
      requires Valid()
      modifies this
      ensures Valid()
      ensures rows == Insert(old(rows), old(last), PEntry(ser.dumps(item, false), now, priority))
      ensures last == old(last) + 1 && total == old(total) + 1 && cursor == old(cursor)
      ensures id == last && IndexOf(rows, id) == Some(|rows| - 1)
    {
      var e := PEntry(ser.dumps(item, false), now, priority);
      InsertOrdered(rows, last, e);
      rows, last, total := Insert(rows, last, e), last + 1, total + 1;
      IndexOfUnique(rows, last, |rows| - 1);
      id := last;
    }

    /** `put` as written: `_insert_into` is wrapped by
        `with_conditional_transaction`, whose wrapper runs the insert and
        returns nothing, so the row is added but its key, declared as the
        `-> int` result, never reaches the caller. */
    method PutAsWritten(item: PyValue, priority: int, now: real) returns (r: Option<int>)
      requires Valid()
      modifies this
      ensures Valid()
      ensures rows == Insert(old(rows), old(last), PEntry(ser.dumps(item, false), now, priority))
      ensures last == old(last) + 1 && total == old(total) + 1 && cursor == old(cursor)
      ensures r.None? && r != Some(last)
    {
      var key := Put(item, priority, now);
      r := None;
    }

    /** `put_nowait`: `put` with the same priority. */
    method PutNowait(item: PyValue, priority: int, now: real) returns (id: int)
      requires Valid()
      modifies this
      ensures Valid()
      ensures rows == Insert(old(rows), old(last), PEntry(ser.dumps(item, false), now, priority))
      ensures last == old(last) + 1 && total == old(total) + 1 && cursor == old(cursor)
      ensures id == last
    {
      id := Put(item, priority, now);
    }
  }
}
