/** SQLite tables whose key column is `INTEGER PRIMARY KEY AUTOINCREMENT`, as
    the SQL-backed queues use them. A table is the sequence of its rows in
    key order: AUTOINCREMENT gives every new row a key one above the largest
    ever issued (`last`, the sqlite_sequence value), so an insert appends
    and the order of the sequence is the order of the keys. SQL `WHERE`
    conditions are predicates on the non-key columns. */
module SqlTable {
  import opened Common

  datatype Row<A> = Row(id: int, cols: A)

  /** Keys strictly increase along the table and are between 1 and `last`. */
  ghost predicate Ordered<A>(rows: seq<Row<A>>, last: int) {
    (forall i, j :: 0 <= i < j < |rows| ==> rows[i].id < rows[j].id)
    && (forall i :: 0 <= i < |rows| ==> 0 < rows[i].id <= last)
  }

  /** `INSERT`: the new row gets key last + 1. */
  function Insert<A>(rows: seq<Row<A>>, last: int, a: A): (r: seq<Row<A>>)
    ensures |r| == |rows| + 1 && r[..|rows|] == rows && r[|rows|] == Row(last + 1, a)
  {
    rows + [Row(last + 1, a)]
  }

  lemma InsertOrdered<A>(rows: seq<Row<A>>, last: int, a: A)
    requires Ordered(rows, last) && last >= 0
    ensures Ordered(Insert(rows, last, a), last + 1)
  {
    var r := Insert(rows, last, a);
    forall i, j | 0 <= i < j < |r| ensures r[i].id < r[j].id {
      if j < |rows| { assert r[i] == rows[i] && r[j] == rows[j]; }
      else { assert r[i] == rows[i]; }
    }
  }

  /** The position of the row with key `id`, if any. */
  function IndexOf<A>(rows: seq<Row<A>>, id: int): (k: Option<nat>)
    ensures k.Some? ==> k.value < |rows| && rows[k.value].id == id
    ensures k.None? ==> forall i :: 0 <= i < |rows| ==> rows[i].id != id
  {
    if rows == [] then None
    else if rows[0].id == id then Some(0)
    else match IndexOf(rows[1..], id)
      case None => None
      case Some(k) => Some(k + 1)
  }

  /** In an ordered table a key names one row. */
  lemma IndexOfUnique<A>(rows: seq<Row<A>>, last: int, k: nat)
    requires Ordered(rows, last) && k < |rows|
    ensures IndexOf(rows, rows[k].id) == Some(k)
  {
    var r := IndexOf(rows, rows[k].id);
    assert r.Some?;
    assert forall i :: 0 <= i < |rows| && i != k ==> rows[i].id != rows[k].id by {
      forall i | 0 <= i < |rows| && i != k ensures rows[i].id != rows[k].id {
        if i < k { assert rows[i].id < rows[k].id; } else { assert rows[k].id < rows[i].id; }
      }
    }
  }

  /** `DELETE ... WHERE key = id`. */
  function DeleteId<A>(rows: seq<Row<A>>, id: int): (r: seq<Row<A>>)
    ensures |r| <= |rows|
    ensures forall i :: 0 <= i < |r| ==> r[i].id != id
  {
    if rows == [] then []
    else if rows[0].id == id then DeleteId(rows[1..], id)
    else [rows[0]] + DeleteId(rows[1..], id)
  }

  /** A key that is absent deletes nothing. */
  lemma {:induction false} DeleteAbsent<A>(rows: seq<Row<A>>, id: int)
    requires forall i :: 0 <= i < |rows| ==> rows[i].id != id
    ensures DeleteId(rows, id) == rows
  {
    if rows != [] {
      DeleteAbsent(rows[1..], id);
      assert [rows[0]] + rows[1..] == rows;
    }
  }

  lemma {:induction false} DeleteConcat<A>(xs: seq<Row<A>>, ys: seq<Row<A>>, id: int)
    ensures DeleteId(xs + ys, id) == DeleteId(xs, id) + DeleteId(ys, id)
  {
    if xs != [] {
      assert (xs + ys)[1..] == xs[1..] + ys;
      DeleteConcat(xs[1..], ys, id);
    } else {
      assert xs + ys == ys;
    }
  }

  /** Removing a row keeps a table ordered. */
  lemma RemoveOrdered<A>(rows: seq<Row<A>>, last: int, k: nat)
    requires Ordered(rows, last) && k < |rows|
    ensures Ordered(rows[..k] + rows[k + 1..], last)
  {
    var r := rows[..k] + rows[k + 1..];
    assert forall i :: 0 <= i < |r| ==> r[i] == rows[if i < k then i else i + 1];
  }

  lemma Split3<T>(s: seq<T>, k: nat)
    requires k < |s|
    ensures s == s[..k] + ([s[k]] + s[k + 1..]) && s[..k + 1] == s[..k] + [s[k]]
  { }

  /** Keys before row k are smaller than its key, keys after it larger. */
  lemma OrderedAround<A>(rows: seq<Row<A>>, last: int, k: nat, xs: seq<Row<A>>, ys: seq<Row<A>>)
    requires Ordered(rows, last) && k < |rows| && xs == rows[..k] && ys == rows[k + 1..]
    ensures forall i :: 0 <= i < |xs| ==> xs[i].id != rows[k].id
    ensures forall i :: 0 <= i < |ys| ==> ys[i].id != rows[k].id
  {
    forall i | 0 <= i < |xs| ensures xs[i].id != rows[k].id {
      assert xs[i] == rows[i] && rows[i].id < rows[k].id;
    }
    forall i | 0 <= i < |ys| ensures ys[i].id != rows[k].id {
      assert ys[i] == rows[k + 1 + i] && rows[k].id < rows[k + 1 + i].id;
    }
  }

  /** In an ordered table, deleting the key of row k removes exactly row k. */
  lemma DeleteAt<A>(rows: seq<Row<A>>, last: int, k: nat)
    requires Ordered(rows, last) && k < |rows|
    ensures DeleteId(rows, rows[k].id) == rows[..k] + rows[k + 1..]
    ensures Ordered(rows[..k] + rows[k + 1..], last)
  {
    var id := rows[k].id;
    var xs, ys := rows[..k], rows[k + 1..];
    Split3(rows, k);
    DeleteConcat(xs, [rows[k]] + ys, id);
    DeleteConcat([rows[k]], ys, id);
    assert DeleteId([rows[k]], id) == [] by {
      assert [rows[k]][1..] == [];
    }
    OrderedAround(rows, last, k, xs, ys);
    DeleteAbsent(xs, id);
    DeleteAbsent(ys, id);
    RemoveOrdered(rows, last, k);
  }

  /** `UPDATE ... SET cols WHERE key = id`: keys and order stay. */
  function UpdateId<A>(rows: seq<Row<A>>, id: int, f: A -> A): (r: seq<Row<A>>)
    ensures |r| == |rows|
    ensures forall i :: 0 <= i < |rows| ==>
              r[i] == if rows[i].id == id then Row(id, f(rows[i].cols)) else rows[i]
  {
    seq(|rows|, i requires 0 <= i < |rows| => if rows[i].id == id then Row(id, f(rows[i].cols)) else rows[i])
  }

  lemma UpdateOrdered<A>(rows: seq<Row<A>>, last: int, id: int, f: A -> A)
    requires Ordered(rows, last)
    ensures Ordered(UpdateId(rows, id, f), last)
  {
    var r := UpdateId(rows, id, f);
    assert forall i :: 0 <= i < |rows| ==> r[i].id == rows[i].id;
  }

  /** `UPDATE ... SET cols WHERE cond` over the whole table. */
  function UpdateWhere<A>(rows: seq<Row<A>>, p: A -> bool, f: A -> A): (r: seq<Row<A>>)
    ensures |r| == |rows|
    ensures forall i :: 0 <= i < |rows| ==>
              r[i] == if p(rows[i].cols) then Row(rows[i].id, f(rows[i].cols)) else rows[i]
  {
    seq(|rows|, i requires 0 <= i < |rows| => if p(rows[i].cols) then Row(rows[i].id, f(rows[i].cols)) else rows[i])
  }

  lemma UpdateWhereOrdered<A>(rows: seq<Row<A>>, last: int, p: A -> bool, f: A -> A)
    requires Ordered(rows, last)
    ensures Ordered(UpdateWhere(rows, p, f), last)
  {
    var r := UpdateWhere(rows, p, f);
    assert forall i :: 0 <= i < |rows| ==> r[i].id == rows[i].id;
  }

  /** `SELECT ... WHERE cond ORDER BY key ASC LIMIT 1`: the first matching row. */
  function FirstWhere<A>(rows: seq<Row<A>>, p: A -> bool): (k: Option<nat>)
    ensures k.Some? ==> k.value < |rows| && p(rows[k.value].cols)
                        && forall j :: 0 <= j < k.value ==> !p(rows[j].cols)
    ensures k.None? ==> forall j :: 0 <= j < |rows| ==> !p(rows[j].cols)
  {
    if rows == [] then None
    else if p(rows[0].cols) then Some(0)
    else match FirstWhere(rows[1..], p)
      case None => None
      case Some(k) => Some(k + 1)
  }

  /** `SELECT ... WHERE cond ORDER BY key DESC LIMIT 1`: the last matching row. */
  function LastWhere<A>(rows: seq<Row<A>>, p: A -> bool): (k: Option<nat>)
    ensures k.Some? ==> k.value < |rows| && p(rows[k.value].cols)
                        && forall j :: k.value < j < |rows| ==> !p(rows[j].cols)
    ensures k.None? ==> forall j :: 0 <= j < |rows| ==> !p(rows[j].cols)
    decreases |rows|
  {
    if rows == [] then None
    else if p(rows[|rows| - 1].cols) then Some(|rows| - 1)
    else LastWhere(rows[..|rows| - 1], p)
  }

  /** What the ordering clauses mean: in an ordered table the first
      matching row has the smallest key of all matching rows, and the last
      the largest. */
  lemma FirstWhereLeast<A>(rows: seq<Row<A>>, last: int, p: A -> bool)
    requires Ordered(rows, last) && FirstWhere(rows, p).Some?
    ensures var k := FirstWhere(rows, p).value;
            forall j :: 0 <= j < |rows| && p(rows[j].cols) ==> rows[k].id <= rows[j].id
  {
  }

  lemma LastWhereGreatest<A>(rows: seq<Row<A>>, last: int, p: A -> bool)
    requires Ordered(rows, last) && LastWhere(rows, p).Some?
    ensures var k := LastWhere(rows, p).value;
            forall j :: 0 <= j < |rows| && p(rows[j].cols) ==> rows[j].id <= rows[k].id
  {
  }

  /** The direction of `ORDER BY key ASC|DESC LIMIT 1`. */
  datatype Order = Fifo | Filo

  /** The row a `SELECT ... ORDER BY key LIMIT 1` without a condition finds. */
  function HeadIndex<A>(rows: seq<Row<A>>, order: Order): (k: Option<nat>)
    ensures k.None? <==> rows == []
    ensures k.Some? ==> k.value < |rows|
  {
    if rows == [] then None else if order == Fifo then Some(0) else Some(|rows| - 1)
  }

  /** In an ordered table that row has the smallest key (FIFO) or the largest (FILO). */
  lemma HeadIsExtreme<A>(rows: seq<Row<A>>, last: int, order: Order)
    requires Ordered(rows, last) && rows != []
    ensures var k := HeadIndex(rows, order).value;
            forall j :: 0 <= j < |rows| ==>
              (order == Fifo ==> rows[k].id <= rows[j].id) && (order == Filo ==> rows[j].id <= rows[k].id)
  {
  }

  /** `SELECT COUNT(key) ... WHERE cond`. */
  function Count<A>(rows: seq<Row<A>>, p: A -> bool): (n: nat)
    ensures n <= |rows|
  {
    if rows == [] then 0 else Count(rows[..|rows| - 1], p) + (if p(rows[|rows| - 1].cols) then 1 else 0)
  }

  lemma CountAppend<A>(rows: seq<Row<A>>, r: Row<A>, p: A -> bool)
    ensures Count(rows + [r], p) == Count(rows, p) + (if p(r.cols) then 1 else 0)
  {
    assert (rows + [r])[..|rows|] == rows;
  }

  lemma {:induction false} CountConcat<A>(xs: seq<Row<A>>, ys: seq<Row<A>>, p: A -> bool)
    ensures Count(xs + ys, p) == Count(xs, p) + Count(ys, p)
    decreases |ys|
  {
    if ys == [] {
      assert xs + ys == xs;
    } else {
      var y := ys[|ys| - 1];
      var ys' := ys[..|ys| - 1];
      assert xs + ys == (xs + ys') + [y];
      CountAppend(xs + ys', y, p);
      CountConcat(xs, ys', p);
      assert ys == ys' + [y];
      CountAppend(ys', y, p);
    }
  }

  lemma CountAll<A>(rows: seq<Row<A>>, p: A -> bool)
    requires forall i :: 0 <= i < |rows| ==> p(rows[i].cols)
    ensures Count(rows, p) == |rows|
  {
    if rows != [] {
      CountAll(rows[..|rows| - 1], p);
    }
  }

  lemma CountNone<A>(rows: seq<Row<A>>, p: A -> bool)
    requires forall i :: 0 <= i < |rows| ==> !p(rows[i].cols)
    ensures Count(rows, p) == 0
  {
    if rows != [] {
      CountNone(rows[..|rows| - 1], p);
    }
  }

  /** Changing one row changes a count by at most that row's contribution. */
  lemma CountReplace<A>(rows: seq<Row<A>>, k: nat, r: Row<A>, p: A -> bool)
    requires k < |rows|
    ensures Count(rows[k := r], p) == Count(rows, p) - (if p(rows[k].cols) then 1 else 0)
                                                    + (if p(r.cols) then 1 else 0)
  {
    var xs, ys := rows[..k], rows[k + 1..];
    assert rows == xs + [rows[k]] + ys;
    assert rows[k := r] == xs + [r] + ys;
    CountConcat(xs + [rows[k]], ys, p);
    CountConcat(xs + [r], ys, p);
    CountAppend(xs, rows[k], p);
    CountAppend(xs, r, p);
  }

  lemma CountRemove<A>(rows: seq<Row<A>>, k: nat, p: A -> bool)
    requires k < |rows|
    ensures Count(rows[..k] + rows[k + 1..], p) == Count(rows, p) - (if p(rows[k].cols) then 1 else 0)
  {
    var xs, ys := rows[..k], rows[k + 1..];
    Split3(rows, k);
    CountConcat(xs, [rows[k]] + ys, p);
    CountConcat([rows[k]], ys, p);
    CountConcat(xs, ys, p);
    CountAppend([], rows[k], p);
    assert [] + [rows[k]] == [rows[k]];
  }
}
