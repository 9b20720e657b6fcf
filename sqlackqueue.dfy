/** `SQLiteAckQueue` (alias `FIFOSQLiteAckQueue`), `FILOSQLiteAckQueue` and
    `UniqueAckQ`: a table whose rows carry an acknowledgement status. `get`
    marks the row it hands out unack and remembers the returned object in
    an in-memory cache under the row's key; `ack`, `ack_failed` and `nack`
    find the row again through that object and settle it. `total` is a
    cached count of the rows still to be handed out. */
module SqlAckQueue {
  import opened Common
  import opened SqlTable

  /** The status codes: inited 0, ready 1, unack 2, acked 5, ack_failed 9. */
  datatype AckStatus = Inited | Ready | Unack | Acked | AckFailed

  function Code(s: AckStatus): int {
    match s
    case Inited => 0
    case Ready => 1
    case Unack => 2
    case Acked => 5
    case AckFailed => 9
  }

  /** The `data BLOB, timestamp FLOAT, status INTEGER` columns. */
  datatype AckEntry = AckEntry(data: Blob, timestamp: real, status: AckStatus)

  /** `status < unack`: the rows `get` may hand out. */
  predicate Waiting(e: AckEntry) { Code(e.status) < Code(Unack) }
  predicate IsUnack(e: AckEntry) { e.status == Unack }
  predicate IsReady(e: AckEntry) { e.status == Ready }
  predicate IsAcked(e: AckEntry) { e.status == Acked }

  /** The two statuses are exactly the codes 0 and 1. */
  lemma WaitingStatuses(e: AckEntry)
    ensures Waiting(e) <==> e.status == Inited || e.status == Ready
  {
  }

  /** An entry set back to `ready`: `get` may hand it out again. */
  function ToReady(e: AckEntry): (r: AckEntry)
    ensures Waiting(r) && r.status == Ready
    ensures r.data == e.data && r.timestamp == e.timestamp
  {
    e.(status := Ready)
  }

  /** `resume_unack_tasks`: every unack row becomes ready. */
  function Resumed(rows: seq<Row<AckEntry>>): (r: seq<Row<AckEntry>>)
    ensures |r| == |rows|
    ensures forall i :: 0 <= i < |rows| ==>
              r[i].id == rows[i].id && r[i].cols.data == rows[i].cols.data
              && r[i].cols.status == (if rows[i].cols.status == Unack then Ready else rows[i].cols.status)
  {
    UpdateWhere(rows, IsUnack, ToReady)
  }

  /** Row k with a new status: `UPDATE ... SET status = ? WHERE _id = ?` on
      the key of row k, which in an ordered table names that row alone. */
  function Mark(rows: seq<Row<AckEntry>>, k: nat, s: AckStatus): (r: seq<Row<AckEntry>>)
    requires k < |rows|
    ensures |r| == |rows| && r[k].id == rows[k].id && r[k].cols == rows[k].cols.(status := s)
    ensures forall i :: 0 <= i < |rows| && i != k ==> r[i] == rows[i]
  {
    rows[k := Row(rows[k].id, rows[k].cols.(status := s))]
  }

  // ---------------------------------------------------------------------
  // The unack cache: a Python dict from row key to the object handed out.

  type Cache = seq<(int, PyObject)>

  /** `is`: the same object. A value CPython shares is one object, so every
      equal one is it; any other value is a new object each time it is made. */
  function Is(a: PyObject, b: PyObject): (r: bool)
    ensures a == b ==> r
    ensures r ==> a.value == b.value
    ensures Shared(a.value) ==> (r <==> a.value == b.value)
    ensures !Shared(a.value) ==> (r <==> a == b)
  {
    a == b || (Shared(a.value) && a.value == b.value)
  }

  /** `_find_item_id`: the first entry, in insertion order, whose object is
      `item`. */
  function CacheIndex(cache: Cache, item: PyObject): (k: Option<nat>)
    ensures k.Some? ==> k.value < |cache| && Is(cache[k.value].1, item)
                        && forall j :: 0 <= j < k.value ==> !Is(cache[j].1, item)
    ensures k.None? ==> forall j :: 0 <= j < |cache| ==> !Is(cache[j].1, item)
  {
    if cache == [] then None
    else if Is(cache[0].1, item) then Some(0)
    else match CacheIndex(cache[1..], item)
      case None => None
      case Some(k) => Some(k + 1)
  }

  /** `put(7); put(7); a = get(); b = get()`: both gets hand out the shared
      int 7, so `ack(b)`, like `ack(7)` with a literal, settles the row of the
      first entry. */
  lemma SharedItemFindsFirst(a: PyObject, b: PyObject, c: PyObject)
    requires a.value == PyInt(7) && b.value == PyInt(7) && c.value == PyInt(7)
    ensures CacheIndex([(1, a), (2, b)], b) == Some(0)
    ensures CacheIndex([(1, a), (2, b)], c) == Some(0)
  {
  }

  /** The same with a value CPython does not share: each get makes its own
      object, and `ack(b)` settles b's own row. */
  lemma UnsharedItemFindsOwn(a: PyObject, b: PyObject)
    requires a != b && a.value == PyInt(1000) && b.value == PyInt(1000)
    ensures CacheIndex([(1, a), (2, b)], b) == Some(1)
  {
  }

  /** The entry for a key. */
  function KeyIndex(cache: Cache, key: int): (k: Option<nat>)
    ensures k.Some? ==> k.value < |cache| && cache[k.value].0 == key
    ensures k.None? ==> forall j :: 0 <= j < |cache| ==> cache[j].0 != key
  {
    if cache == [] then None
    else if cache[0].0 == key then Some(0)
    else match KeyIndex(cache[1..], key)
      case None => None
      case Some(k) => Some(k + 1)
  }

  ghost predicate DistinctKeys(cache: Cache) {
    forall i, j :: 0 <= i < j < |cache| ==> cache[i].0 != cache[j].0
  }

  /** `cache[key] = item`: an existing key keeps its place and takes the new
      object; a new key goes at the end. */
  function CacheSet(cache: Cache, key: int, item: PyObject): (c: Cache)
    ensures KeyIndex(cache, key).Some? ==> c == cache[KeyIndex(cache, key).value := (key, item)]
    ensures KeyIndex(cache, key).None? ==> c == cache + [(key, item)]
  {
    match KeyIndex(cache, key)
    case Some(i) => cache[i := (key, item)]
    case None => cache + [(key, item)]
  }

  /** `cache.pop(key)` of a key that is present. */
  function CachePop(cache: Cache, i: nat): (c: Cache)
    requires i < |cache|
    ensures |c| == |cache| - 1
    ensures forall j :: 0 <= j < |c| ==> c[j] == cache[if j < i then j else j + 1]
  {
    cache[..i] + cache[i + 1..]
  }

  lemma CacheSetDistinct(cache: Cache, key: int, item: PyObject)
    requires DistinctKeys(cache)
    ensures DistinctKeys(CacheSet(cache, key, item))
    ensures var c := CacheSet(cache, key, item);
            KeyIndex(c, key).Some? && c[KeyIndex(c, key).value].1 == item
  {
    var c := CacheSet(cache, key, item);
    var ki := KeyIndex(cache, key);
    forall i, j | 0 <= i < j < |c| ensures c[i].0 != c[j].0 {
      if j < |cache| && (ki.None? || (i != ki.value && j != ki.value)) {
        assert c[i] == cache[i] && c[j] == cache[j];
      }
    }
    var n := if ki.Some? then ki.value else |cache|;
    assert c[n] == (key, item);
    var kc := KeyIndex(c, key).value;
    assert forall m :: 0 <= m < |c| && m != n ==> c[m].0 != c[n].0 by {
      forall m | 0 <= m < |c| && m != n ensures c[m].0 != c[n].0 {
        if m < n { assert c[m].0 != c[n].0; } else { assert c[n].0 != c[m].0; }
      }
    }
    assert kc == n;
  }

  // ---------------------------------------------------------------------
  // clear_acked_data

  /** How many newest acked rows `clear_acked_data` leaves, and how many
      older ones one call deletes. */
  const ClearLimit: nat := 1000

  /** Whether acked rank `rank` (0 for the newest) is in the deleted band. */
  predicate InBand(maxAcked: nat, rank: nat) {
    maxAcked <= rank < maxAcked + ClearLimit
  }

  /** The table after `clear_acked_data`: acked rows are ranked from the
      newest key down, `seen` of them lying after `rows`; those ranked from
      `maxAcked` up to `maxAcked + 1000` are deleted. */
  function Trim(rows: seq<Row<AckEntry>>, maxAcked: nat, seen: nat): (r: seq<Row<AckEntry>>)
    ensures |r| <= |rows|
    decreases |rows|
  {
    if rows == [] then []
    else
      var r := rows[|rows| - 1];
      if r.cols.status == Acked then
        Trim(rows[..|rows| - 1], maxAcked, seen + 1)
        + (if InBand(maxAcked, seen) then [] else [r])
      else Trim(rows[..|rows| - 1], maxAcked, seen) + [r]
  }

  function ClearAcked(rows: seq<Row<AckEntry>>, maxAcked: nat): (r: seq<Row<AckEntry>>)
    ensures |r| <= |rows|
    ensures forall j :: 0 <= j < |r| ==> r[j] in rows
  {
    TrimIn(rows, maxAcked, 0);
    Trim(rows, maxAcked, 0)
  }

  /** How many of the ranks seen .. seen + n - 1 fall in the deleted band. */
  function Band(maxAcked: nat, seen: nat, n: nat): (r: nat)
    ensures r <= n
    decreases n
  {
    if n == 0 then 0
    else Band(maxAcked, seen + 1, n - 1) + (if InBand(maxAcked, seen) then 1 else 0)
  }

  /** The band count in closed form, from rank 0. */
  lemma {:induction false} BandFrom(maxAcked: nat, seen: nat, n: nat)
    ensures var lo := if seen < maxAcked then maxAcked else seen;
            var hi := if seen + n < maxAcked + ClearLimit then seen + n else maxAcked + ClearLimit;
            Band(maxAcked, seen, n) == if lo < hi then hi - lo else 0
    decreases n
  {
    if n > 0 {
      BandFrom(maxAcked, seen + 1, n - 1);
    }
  }

  /** Trimming keeps the rows that are not acked. */
  lemma {:induction false} TrimCounts(rows: seq<Row<AckEntry>>, maxAcked: nat, seen: nat, p: AckEntry -> bool)
    requires forall e: AckEntry :: p(e) ==> e.status != Acked
    ensures Count(Trim(rows, maxAcked, seen), p) == Count(rows, p)
    decreases |rows|
  {
    if rows != [] {
      var r := rows[|rows| - 1];
      var front := rows[..|rows| - 1];
      var s := if r.cols.status == Acked then seen + 1 else seen;
      TrimCounts(front, maxAcked, s, p);
      var t := Trim(front, maxAcked, s);
      if r.cols.status == Acked && InBand(maxAcked, seen) {
        assert t + [] == t;
        assert !p(r.cols);
      } else {
        CountAppend(t, r, p);
      }
    }
  }

  /** Trimming deletes as many acked rows as their ranks overlap the band. */
  lemma {:induction false} TrimAcked(rows: seq<Row<AckEntry>>, maxAcked: nat, seen: nat)
    ensures Count(Trim(rows, maxAcked, seen), IsAcked)
            == Count(rows, IsAcked) - Band(maxAcked, seen, Count(rows, IsAcked))
    decreases |rows|
  {
    if rows != [] {
      var r := rows[|rows| - 1];
      var front := rows[..|rows| - 1];
      var n := Count(front, IsAcked);
      if r.cols.status == Acked {
        assert Count(rows, IsAcked) == n + 1;
        TrimAcked(front, maxAcked, seen + 1);
        var t := Trim(front, maxAcked, seen + 1);
        assert Band(maxAcked, seen, n + 1) == Band(maxAcked, seen + 1, n) + (if InBand(maxAcked, seen) then 1 else 0);
        if InBand(maxAcked, seen) {
          assert t + [] == t;
        } else {
          CountAppend(t, r, IsAcked);
        }
      } else {
        assert Count(rows, IsAcked) == n;
        TrimAcked(front, maxAcked, seen);
        CountAppend(Trim(front, maxAcked, seen), r, IsAcked);
      }
    }
  }

  /** Every row of the trimmed table is a row of the table. */
  lemma {:induction false} TrimIn(rows: seq<Row<AckEntry>>, maxAcked: nat, seen: nat)
    ensures forall j :: 0 <= j < |Trim(rows, maxAcked, seen)| ==> Trim(rows, maxAcked, seen)[j] in rows
    decreases |rows|
  {
    if rows != [] {
      var r := rows[|rows| - 1];
      var front := rows[..|rows| - 1];
      var s := if r.cols.status == Acked then seen + 1 else seen;
      TrimIn(front, maxAcked, s);
      var t := Trim(front, maxAcked, s);
      var u := Trim(rows, maxAcked, seen);
      assert u == t || u == t + [r];
      forall j | 0 <= j < |u| ensures u[j] in rows {
        if j < |t| {
          assert u[j] == t[j] && t[j] in front;
        }
      }
    }
  }

  /** The trimmed table keeps the table's key order. */
  lemma {:induction false} TrimOrdered(rows: seq<Row<AckEntry>>, last: int, maxAcked: nat, seen: nat)
    requires Ordered(rows, last)
    ensures Ordered(Trim(rows, maxAcked, seen), last)
    ensures forall j :: 0 <= j < |Trim(rows, maxAcked, seen)| ==> Trim(rows, maxAcked, seen)[j] in rows
    decreases |rows|
  {
    TrimIn(rows, maxAcked, seen);
    if rows != [] {
      var r := rows[|rows| - 1];
      var front := rows[..|rows| - 1];
      assert Ordered(front, last);
      var s := if r.cols.status == Acked then seen + 1 else seen;
      TrimOrdered(front, last, maxAcked, s);
      var t := Trim(front, maxAcked, s);
      assert forall j :: 0 <= j < |t| ==> t[j].id < r.id by {
        forall j | 0 <= j < |t| ensures t[j].id < r.id {
          assert t[j] in front;
          var i :| 0 <= i < |front| && front[i] == t[j];
          assert rows[i] == t[j];
        }
      }
      InsertKeepsOrder(t, last, r);
    }
  }

  lemma InsertKeepsOrder(t: seq<Row<AckEntry>>, last: int, r: Row<AckEntry>)
    requires Ordered(t, last) && 0 < r.id <= last
    requires forall j :: 0 <= j < |t| ==> t[j].id < r.id
    ensures Ordered(t + [r], last)
  {
    var u := t + [r];
    forall i, j | 0 <= i < j < |u| ensures u[i].id < u[j].id {
      assert u[i] == t[i];
      if j < |t| { assert u[j] == t[j]; }
    }
  }

  /** A row that is not acked, or is among the newest `maxAcked` acked rows
      or older than the band, survives trimming. */
  lemma {:induction false} TrimKeeps(rows: seq<Row<AckEntry>>, maxAcked: nat, seen: nat, i: nat)
    requires i < |rows|
    requires rows[i].cols.status != Acked
             || seen + Count(rows[i + 1..], IsAcked) < maxAcked
             || seen + Count(rows[i + 1..], IsAcked) >= maxAcked + ClearLimit
    ensures rows[i] in Trim(rows, maxAcked, seen)
    decreases |rows|
  {
    var r := rows[|rows| - 1];
    var front := rows[..|rows| - 1];
    var s := if r.cols.status == Acked then seen + 1 else seen;
    if i == |rows| - 1 {
      assert rows[i + 1..] == [];
    } else {
      assert front[i + 1..] + [r] == rows[i + 1..];
      CountAppend(front[i + 1..], r, IsAcked);
      assert front[i] == rows[i];
      TrimKeeps(front, maxAcked, s, i);
    }
  }

  /** `clear_acked_data` with n acked rows: it deletes the acked rows beyond
      the newest `maxAcked`, at most 1000 of them, and nothing else. */
  lemma ClearAckedCounts(rows: seq<Row<AckEntry>>, maxAcked: nat, p: AckEntry -> bool)
    requires forall e: AckEntry :: p(e) ==> e.status != Acked
    ensures var n := Count(rows, IsAcked);
            var removed := Count(rows, IsAcked) - Count(ClearAcked(rows, maxAcked), IsAcked);
            Count(ClearAcked(rows, maxAcked), p) == Count(rows, p)
            && removed <= ClearLimit
            && (n <= maxAcked ==> removed == 0)
            && (maxAcked <= n <= maxAcked + ClearLimit ==> removed == n - maxAcked)
            && (n >= maxAcked + ClearLimit ==> removed == ClearLimit)
  {
    TrimCounts(rows, maxAcked, 0, p);
    TrimAcked(rows, maxAcked, 0);
    BandFrom(maxAcked, 0, Count(rows, IsAcked));
  }

  // ---------------------------------------------------------------------
  // The queue's state.

  /** The three classes share everything but the table, the head order and
      `put`. */
  datatype Kind = FifoAck | FiloAck | UniqueAck

  ghost predicate DistinctData(rows: seq<Row<AckEntry>>) {
    forall i, j :: 0 <= i < j < |rows| ==> rows[i].cols.data != rows[j].cols.data
  }

  /** Every cached key is the key of a row that was handed out: unack, or
      ready after a resume. With `strict`, unack only. */
  ghost predicate CacheRows(rows: seq<Row<AckEntry>>, cache: Cache, strict: bool) {
    forall i :: 0 <= i < |cache| ==> HandedOut(rows, cache[i].0, strict)
  }

  /** The row with this key is unack, or ready after a resume unless `strict`. */
  ghost predicate HandedOut(rows: seq<Row<AckEntry>>, key: int, strict: bool) {
    exists j :: 0 <= j < |rows| && rows[j].id == key
                && (rows[j].cols.status == Unack || (!strict && rows[j].cols.status == Ready))
  }

  /** The state a queue keeps. While `counted` holds (no unack row has been
      resumed behind `total`'s back), `total` is the number of waiting rows. */
  ghost predicate Good(kind: Kind, rows: seq<Row<AckEntry>>, last: int, cache: Cache, total: int, counted: bool) {
    Ordered(rows, last) && last >= 0
    && (kind == UniqueAck ==> DistinctData(rows))
    && DistinctKeys(cache)
    && CacheRows(rows, cache, counted)
    && (counted ==> total == Count(rows, Waiting))
  }

  /** Handing out row k, the first or last waiting row. */
  lemma PopGood(kind: Kind, rows: seq<Row<AckEntry>>, last: int, cache: Cache, total: int, counted: bool,
                k: nat, item: PyObject)
    requires Good(kind, rows, last, cache, total, counted)
    requires k < |rows| && Waiting(rows[k].cols)
    ensures Good(kind, Mark(rows, k, Unack), last, CacheSet(cache, rows[k].id, item), total - 1, counted)
  {
    var r := Mark(rows, k, Unack);
    assert Ordered(r, last) by {
      assert forall i :: 0 <= i < |rows| ==> r[i].id == rows[i].id;
    }
    if kind == UniqueAck {
      assert forall i :: 0 <= i < |rows| ==> r[i].cols.data == rows[i].cols.data;
    }
    CacheSetDistinct(cache, rows[k].id, item);
    PopCacheRows(rows, cache, counted, k, item);
    CountReplace(rows, k, Row(rows[k].id, rows[k].cols.(status := Unack)), Waiting);
  }

  /** Caching row k's object under its key, with row k now unack, keeps
      every cached key on a handed-out row. */
  lemma PopCacheRows(rows: seq<Row<AckEntry>>, cache: Cache, counted: bool, k: nat, item: PyObject)
    requires CacheRows(rows, cache, counted) && k < |rows|
    ensures CacheRows(Mark(rows, k, Unack), CacheSet(cache, rows[k].id, item), counted)
  {
    var r := Mark(rows, k, Unack);
    var c := CacheSet(cache, rows[k].id, item);
    forall i | 0 <= i < |c|
      ensures HandedOut(r, c[i].0, counted)
    {
      if c[i].0 == rows[k].id {
        assert r[k].id == c[i].0 && r[k].cols.status == Unack;
      } else {
        var ki := KeyIndex(cache, rows[k].id);
        assert i < |cache| && c[i] == cache[i] by {
          if ki.Some? { assert c[ki.value].0 == rows[k].id; } else { assert c[|cache|].0 == rows[k].id; }
        }
        var j :| 0 <= j < |rows| && rows[j].id == cache[i].0
                 && (rows[j].cols.status == Unack || (!counted && rows[j].cols.status == Ready));
        assert j != k;
        assert r[j] == rows[j];
      }
    }
  }

  /** A cache entry's key finds its handed-out row. */
  lemma HandedRow(rows: seq<Row<AckEntry>>, last: int, key: int, strict: bool)
    requires Ordered(rows, last) && HandedOut(rows, key, strict)
    ensures IndexOf(rows, key).Some?
    ensures var k := IndexOf(rows, key).value;
            rows[k].cols.status == Unack || (!strict && rows[k].cols.status == Ready)
  {
    var j :| 0 <= j < |rows| && rows[j].id == key
             && (rows[j].cols.status == Unack || (!strict && rows[j].cols.status == Ready));
    IndexOfUnique(rows, last, j);
  }

  /** With distinct keys, an entry is the one its key finds. */
  lemma KeyIndexOf(cache: Cache, c: nat)
    requires DistinctKeys(cache) && c < |cache|
    ensures KeyIndex(cache, cache[c].0) == Some(c)
  {
    var ki := KeyIndex(cache, cache[c].0);
    assert forall m :: 0 <= m < |cache| && m != c ==> cache[m].0 != cache[c].0 by {
      forall m | 0 <= m < |cache| && m != c ensures cache[m].0 != cache[c].0 {
        if m < c { assert cache[m].0 != cache[c].0; } else { assert cache[c].0 != cache[m].0; }
      }
    }
  }

  /** Settling the row of cache entry c with status s (ack, ack_failed or
      nack), and dropping the entry. */
  lemma SettleGood(kind: Kind, rows: seq<Row<AckEntry>>, last: int, cache: Cache, total: int, counted: bool,
                   c: nat, k: nat, s: AckStatus)
    requires Good(kind, rows, last, cache, total, counted)
    requires c < |cache| && k < |rows| && rows[k].id == cache[c].0
    requires rows[k].cols.status == Unack || (!counted && rows[k].cols.status == Ready)
    requires s == Acked || s == AckFailed || s == Ready
    ensures Good(kind, Mark(rows, k, s), last, CachePop(cache, c), if s == Ready then total + 1 else total, counted)
  {
    var r := Mark(rows, k, s);
    var cp := CachePop(cache, c);
    assert Ordered(r, last) by {
      assert forall i :: 0 <= i < |rows| ==> r[i].id == rows[i].id;
    }
    if kind == UniqueAck {
      assert forall i :: 0 <= i < |rows| ==> r[i].cols.data == rows[i].cols.data;
    }
    forall i | 0 <= i < |cp| ensures HandedOut(r, cp[i].0, counted) {
      var i' := if i < c then i else i + 1;
      assert cp[i] == cache[i'] && i' != c;
      var j :| 0 <= j < |rows| && rows[j].id == cache[i'].0
               && (rows[j].cols.status == Unack || (!counted && rows[j].cols.status == Ready));
      assert j != k;
      assert r[j] == rows[j];
    }
    CountReplace(rows, k, Row(rows[k].id, rows[k].cols.(status := s)), Waiting);
  }

  lemma InsertGood(kind: Kind, rows: seq<Row<AckEntry>>, last: int, cache: Cache, total: int, counted: bool, e: AckEntry)
    requires Good(kind, rows, last, cache, total, counted) && e.status == Inited
    requires kind == UniqueAck ==> forall i :: 0 <= i < |rows| ==> rows[i].cols.data != e.data
    ensures Good(kind, Insert(rows, last, e), last + 1, cache, total + 1, counted)
  {
    InsertOrdered(rows, last, e);
    var r := Insert(rows, last, e);
    if kind == UniqueAck {
      forall i, j | 0 <= i < j < |r| ensures r[i].cols.data != r[j].cols.data {
        assert r[i] == rows[i];
        if j < |rows| { assert r[j] == rows[j]; }
      }
    }
    forall i | 0 <= i < |cache|
      ensures HandedOut(r, cache[i].0, counted)
    {
      var j :| 0 <= j < |rows| && rows[j].id == cache[i].0
               && (rows[j].cols.status == Unack || (!counted && rows[j].cols.status == Ready));
      assert r[j] == rows[j];
    }
    CountAppend(rows, Row(last + 1, e), Waiting);
  }

  /** Resuming keeps the cache pointing at handed-out rows; `total` stays
      exact only if there was nothing to resume. */
  lemma ResumeGood(kind: Kind, rows: seq<Row<AckEntry>>, last: int, cache: Cache, total: int, counted: bool)
    requires Good(kind, rows, last, cache, total, counted)
    ensures Good(kind, Resumed(rows), last, cache, total, counted && Count(rows, IsUnack) == 0)
  {
    var r := Resumed(rows);
    var strict := counted && Count(rows, IsUnack) == 0;
    assert Ordered(r, last);
    if Count(rows, IsUnack) == 0 {
      forall i | 0 <= i < |rows| ensures r[i] == rows[i] {
        if rows[i].cols.status == Unack {
          CountPositive(rows, i, IsUnack);
        }
      }
      assert r == rows;
    }
    forall i | 0 <= i < |cache|
      ensures HandedOut(r, cache[i].0, strict)
    {
      var j :| 0 <= j < |rows| && rows[j].id == cache[i].0
               && (rows[j].cols.status == Unack || (!counted && rows[j].cols.status == Ready));
      assert r[j].id == rows[j].id;
    }
  }

  lemma CountPositive<A>(rows: seq<Row<A>>, i: nat, p: A -> bool)
    requires i < |rows| && p(rows[i].cols)
    ensures Count(rows, p) > 0
  {
    CountRemove(rows, i, p);
  }

  lemma ClearDistinct(rows: seq<Row<AckEntry>>, last: int, maxAcked: nat)
    requires Ordered(rows, last) && DistinctData(rows)
    ensures DistinctData(ClearAcked(rows, maxAcked))
  {
    var r := ClearAcked(rows, maxAcked);
    TrimOrdered(rows, last, maxAcked, 0);
    forall i, j | 0 <= i < j < |r| ensures r[i].cols.data != r[j].cols.data {
      assert r[i] in rows && r[j] in rows;
      var i' :| 0 <= i' < |rows| && rows[i'] == r[i];
      var j' :| 0 <= j' < |rows| && rows[j'] == r[j];
      assert r[i].id < r[j].id;
      assert i' != j';
    }
  }

  /** Cache entries point at unack or ready rows, so a table that keeps every
      row that is not acked keeps them. */
  lemma CacheRowsKept(rows: seq<Row<AckEntry>>, r: seq<Row<AckEntry>>, cache: Cache, strict: bool)
    requires CacheRows(rows, cache, strict)
    requires forall j :: 0 <= j < |rows| && rows[j].cols.status != Acked ==> rows[j] in r
    ensures CacheRows(r, cache, strict)
  {
    forall i | 0 <= i < |cache|
      ensures HandedOut(r, cache[i].0, strict)
    {
      var j :| 0 <= j < |rows| && rows[j].id == cache[i].0
               && (rows[j].cols.status == Unack || (!strict && rows[j].cols.status == Ready));
      assert rows[j] in r;
      var j' :| 0 <= j' < |r| && r[j'] == rows[j];
    }
  }

  lemma ClearCacheRows(rows: seq<Row<AckEntry>>, cache: Cache, strict: bool, maxAcked: nat)
    requires CacheRows(rows, cache, strict)
    ensures CacheRows(ClearAcked(rows, maxAcked), cache, strict)
  {
    forall j | 0 <= j < |rows| && rows[j].cols.status != Acked ensures rows[j] in ClearAcked(rows, maxAcked) {
      TrimKeeps(rows, maxAcked, 0, j);
    }
    CacheRowsKept(rows, ClearAcked(rows, maxAcked), cache, strict);
  }

  lemma ClearGood(kind: Kind, rows: seq<Row<AckEntry>>, last: int, cache: Cache, total: int, counted: bool, maxAcked: nat)
    requires Good(kind, rows, last, cache, total, counted)
    ensures Good(kind, ClearAcked(rows, maxAcked), last, cache, total, counted)
  {
    TrimOrdered(rows, last, maxAcked, 0);
    if kind == UniqueAck {
      ClearDistinct(rows, last, maxAcked);
    }
    ClearCacheRows(rows, cache, counted, maxAcked);
    TrimCounts(rows, maxAcked, 0, Waiting);
  }

  /** Reopening with `auto_resume` (tests/test_sqlackqueue.py, resume case):
      `total` was counted before the resume, so each resumed row is ready
      but not in `qsize` until the queue is reopened again. */
  lemma {:induction false} ResumeLag(rows: seq<Row<AckEntry>>)
    ensures Count(Resumed(rows), IsReady) == Count(rows, IsReady) + Count(rows, IsUnack)
    ensures Count(Resumed(rows), Waiting) == Count(rows, Waiting) + Count(rows, IsUnack)
    ensures Count(Resumed(rows), IsUnack) == 0
    decreases |rows|
  {
    if rows != [] {
      var front := rows[..|rows| - 1];
      assert Resumed(rows)[..|rows| - 1] == Resumed(front);
      ResumeLag(front);
    }
  }

  function StatusIs(s: AckStatus): AckEntry -> bool {
    (e: AckEntry) => e.status == s
  }

  /** The positions of the rows in status s. */
  function RowsIn(rows: seq<Row<AckEntry>>, s: AckStatus): set<nat> {
    set i: nat | i < |rows| && rows[i].cols.status == s
  }

  lemma {:induction false} CountIsRows(rows: seq<Row<AckEntry>>, s: AckStatus)
    ensures Count(rows, StatusIs(s)) == |RowsIn(rows, s)|
    decreases |rows|
  {
    if rows != [] {
      var front := rows[..|rows| - 1];
      CountIsRows(front, s);
      var n := |rows| - 1;
      if rows[n].cols.status == s {
        assert RowsIn(rows, s) == RowsIn(front, s) + {n};
      } else {
        assert RowsIn(rows, s) == RowsIn(front, s);
      }
    }
  }

  /** What `get` makes of `_pop`'s result, as the code means it: a popped
      item is returned, whatever it is. No row raises Empty without
      blocking, and at once for a timeout of 0; otherwise the call waits. */
  function GetResult(block: bool, timeout: Option<real>, popped: Option<PyObject>): (r: Call<PyObject>)
    ensures r.Returned? <==> popped.Some?
    ensures r.Returned? ==> r.value == popped.value
    ensures r == Raised(Exc.Empty) <==> popped.None? && (!block || timeout == Some(0.0))
    ensures r == Blocks <==> popped.None? && block && timeout != Some(0.0)
  {
    if popped.Some? then Returned(popped.value)
    else if !block || timeout == Some(0.0) then Raised(Exc.Empty)
    else Blocks
  }

  /** Whether `get` as written takes `_pop`'s result for "no row": every
      branch tests `serialized is None`, which a popped None item passes
      too. */
  predicate ReadsAsNoRow(popped: Option<PyObject>) {
    popped.None? || popped.value.value == PyNone
  }

  /** `get` as written: a popped None item is handled like no row at all.
      Without blocking, and at the deadline of a zero timeout, it raises
      Empty; otherwise the call waits and then pops again. */
  function GetResultAsWritten(block: bool, timeout: Option<real>, popped: Option<PyObject>): (r: Call<PyObject>)
    ensures r.Returned? <==> !ReadsAsNoRow(popped)
    ensures r.Returned? ==> r.value == popped.value
    ensures r == Raised(Exc.Empty) <==> ReadsAsNoRow(popped) && (!block || timeout == Some(0.0))
    ensures r == Blocks <==> ReadsAsNoRow(popped) && block && timeout != Some(0.0)
  {
    if !ReadsAsNoRow(popped) then Returned(popped.value)
    else if !block || timeout == Some(0.0) then Raised(Exc.Empty)
    else Blocks
  }

  /** `put(None)` then `get(block=False)` or `get(timeout=0)`: the caller is
      told the queue is empty, and a plain `get()` waits instead of
      returning the item. `_pop` has already marked the row unack and
      counted it out of `total`, and the caller holds no object to ack or
      nack it with. */
  lemma NoneItemReadAsEmpty(obj: PyObject)
    requires obj.value == PyNone
    ensures GetResultAsWritten(false, None, Some(obj)) == Raised(Exc.Empty)
    ensures GetResultAsWritten(true, Some(0.0), Some(obj)) == Raised(Exc.Empty)
    ensures GetResultAsWritten(true, None, Some(obj)) == Blocks
    ensures forall block: bool, timeout: Option<real> :: GetResult(block, timeout, Some(obj)) == Returned(obj)
  {
  }

  /** Both readings agree on every result but a popped None item. */
  lemma GetResultAgrees(block: bool, timeout: Option<real>, popped: Option<PyObject>)
    requires popped.None? || popped.value.value != PyNone
    ensures GetResultAsWritten(block, timeout, popped) == GetResult(block, timeout, popped)
  {
  }

  class SQLiteAckQueue {
    const kind: Kind
    const ser: Serializer
    /** `_MAX_ACKED_LENGTH`, 1000 unless the instance overrides it. */
    const maxAcked: nat
    var rows: seq<Row<AckEntry>>
    var last: int
    var cache: Cache
    var total: int
    ghost var counted: bool

    ghost predicate Valid()
      reads this
    {
      Good(kind, rows, last, cache, total, counted)
    }

    /** Opening: `total` counts the waiting rows, then with `auto_resume`
        the unack rows left by an earlier process become ready. */
    constructor (kind: Kind, ser: Serializer, maxAcked: nat, rows0: seq<Row<AckEntry>>, last0: int, autoResume: bool)
      requires Ordered(rows0, last0) && last0 >= 0
      requires kind == UniqueAck ==> DistinctData(rows0)
      ensures Valid()
      ensures this.kind == kind && this.ser == ser && this.maxAcked == maxAcked
      ensures cache == [] && last == last0
      ensures total == Count(rows0, Waiting)
      ensures rows == if autoResume then Resumed(rows0) else rows0
    {
      this.kind := kind;
      this.ser := ser;
      this.maxAcked := maxAcked;
      rows := rows0;
      last := last0;
      cache := [];
      total := Count(rows0, Waiting);
      counted := true;
      new;
      if autoResume {
        ResumeUnackTasks();
      }
    }

    /** `resume_unack_tasks`. */
    method ResumeUnackTasks()
      requires Valid()
      modifies this
      ensures Valid()
      ensures rows == Resumed(old(rows))
      ensures last == old(last) && cache == old(cache) && total == old(total)
    {
      ResumeGood(kind, rows, last, cache, total, counted);
      counted := counted && Count(rows, IsUnack) == 0;
      rows := Resumed(rows);
    }

    /** `put`: a new inited row and one more in `total`. `UniqueAckQ` dumps
        the item with `sort_keys=True`, which raises TypeError, with nothing
        changed, on a serializer whose `dumps` takes no such argument; and
        data a row already holds changes nothing. */
    method Put(item: PyValue, now: real) returns (r: Outcome)
      requires Valid()
      modifies this
      ensures Valid()
      ensures kind == UniqueAck && !ser.sortKeys ==> r == Fail(TypeError) && unchanged(this)
      ensures !(kind == UniqueAck && !ser.sortKeys) ==> r == Pass
      ensures r == Pass ==>
              var obj := ser.dumps(item, kind == UniqueAck);
              if kind == UniqueAck && exists i :: 0 <= i < |old(rows)| && old(rows)[i].cols.data == obj then
                rows == old(rows) && last == old(last) && total == old(total)
              else
                rows == Insert(old(rows), old(last), AckEntry(obj, now, Inited))
                && last == old(last) + 1 && total == old(total) + 1
      ensures cache == old(cache)
    {
      if kind == UniqueAck && !ser.sortKeys {
        return Fail(TypeError);
      }
      r := Pass;
      var obj := ser.dumps(item, kind == UniqueAck);
      if kind == UniqueAck && exists i :: 0 <= i < |rows| && rows[i].cols.data == obj {
        return;
      }
      Append(AckEntry(obj, now, Inited));
    }

    /** The insert half of `put`: an inited row under the next key. */
    method Append(e: AckEntry)
      requires Valid() && e.status == Inited
      requires kind == UniqueAck ==> forall i :: 0 <= i < |rows| ==> rows[i].cols.data != e.data
      modifies this
      ensures Valid()
      ensures rows == Insert(old(rows), old(last), e) && last == old(last) + 1 && total == old(total) + 1
      ensures cache == old(cache)
    {
      InsertGood(kind, rows, last, cache, total, counted, e);
      rows, last, total := Insert(rows, last, e), last + 1, total + 1;
    }

    /** The row `_select` finds: the first waiting row, or the last for
        `FILOSQLiteAckQueue`. */
    function SelectIndex(): (k: Option<nat>)
      reads this
      ensures k == if kind == FiloAck then LastWhere(rows, Waiting) else FirstWhere(rows, Waiting)
    {
      if kind == FiloAck then LastWhere(rows, Waiting) else FirstWhere(rows, Waiting)
    }

    /** `_pop`: the selected row becomes unack, the object `loads` makes of
        its data (a new one, unless CPython shares the value) is cached
        under its key and returned, and `total` drops. */
    method Pop() returns (p: Option<PyObject>)
      requires Valid()
      modifies this
      ensures Valid() && last == old(last)
      ensures old(SelectIndex()).None? ==> p.None? && unchanged(this)
      ensures old(SelectIndex()).Some? ==>
                var k := old(SelectIndex()).value;
                p.Some? && (Shared(p.value.value) || fresh(p.value)) && p.value.value == ser.loads(old(rows)[k].cols.data)
                && rows == Mark(old(rows), k, Unack)
                && cache == CacheSet(old(cache), old(rows)[k].id, p.value)
                && total == old(total) - 1
    {
      var k := SelectIndex();
      if k.None? {
        return None;
      }
      var row := rows[k.value];
      var item := new PyObject(ser.loads(row.cols.data));
      PopGood(kind, rows, last, cache, total, counted, k.value, item);
      rows, cache, total := Mark(rows, k.value, Unack), CacheSet(cache, row.id, item), total - 1;
      p := Some(item);
    }

    /** `_find_item_id`: the key of the first cache entry holding `item`. */
    method FindItemId(item: PyObject) returns (r: Option<int>)
      ensures r == match CacheIndex(cache, item) case None => None case Some(i) => Some(cache[i].0)
    {
      var i := 0;
      while i < |cache|
        invariant 0 <= i <= |cache|
        invariant forall j :: 0 <= j < i ==> !Is(cache[j].1, item)
      {
        if Is(cache[i].1, item) {
          return Some(cache[i].0);
        }
        i := i + 1;
      }
      return None;
    }

    /** The shared body of `ack`, `ack_failed` and `nack`: an item not in
        the cache is ignored; otherwise its row takes status `s`, its
        entry leaves the cache, and a nack returns it to `total`. */
    method Settle(item: PyObject, s: AckStatus)
      requires Valid() && (s == Acked || s == AckStatus.AckFailed || s == Ready)
      modifies this
      ensures Valid() && last == old(last)
      ensures CacheIndex(old(cache), item).None? ==> unchanged(this)
      ensures CacheIndex(old(cache), item).Some? ==>
                var c := CacheIndex(old(cache), item).value;
                var k := IndexOf(old(rows), old(cache)[c].0);
                k.Some?
                && (old(rows)[k.value].cols.status == Unack || (!old(counted) && old(rows)[k.value].cols.status == Ready))
                && rows == Mark(old(rows), k.value, s)
                && cache == CachePop(old(cache), c)
                && total == (if s == Ready then old(total) + 1 else old(total))
    {
      var id := FindItemId(item);
      if id.None? {
        return;
      }
      ghost var c := CacheIndex(cache, item).value;
      HandedRow(rows, last, id.value, counted);
      KeyIndexOf(cache, c);
      var k := IndexOf(rows, id.value);
      var ki := KeyIndex(cache, id.value);
      SettleGood(kind, rows, last, cache, total, counted, c, k.value, s);
      rows, cache := Mark(rows, k.value, s), CachePop(cache, ki.value);
      if s == Ready {
        total := total + 1;
      }
    }

    /** `ack`. */
    method Ack(item: PyObject)
      requires Valid()
      modifies this
      ensures Valid()
      ensures CacheIndex(old(cache), item).None? ==> unchanged(this)
      ensures CacheIndex(old(cache), item).Some? ==>
                var c := CacheIndex(old(cache), item).value;
                var k := IndexOf(old(rows), old(cache)[c].0).value;
                rows == Mark(old(rows), k, Acked) && cache == CachePop(old(cache), c) && total == old(total)
    {
      Settle(item, Acked);
    }

    /** `ack_failed`. */
    method AckFailed(item: PyObject)
      requires Valid()
      modifies this
      ensures Valid()
      ensures CacheIndex(old(cache), item).None? ==> unchanged(this)
      ensures CacheIndex(old(cache), item).Some? ==>
                var c := CacheIndex(old(cache), item).value;
                var k := IndexOf(old(rows), old(cache)[c].0).value;
                rows == Mark(old(rows), k, AckStatus.AckFailed) && cache == CachePop(old(cache), c) && total == old(total)
    {
      Settle(item, AckStatus.AckFailed);
    }

    /** `nack`: the row is ready to be handed out again. */
    method Nack(item: PyObject)
      requires Valid()
      modifies this
      ensures Valid()
      ensures CacheIndex(old(cache), item).None? ==> unchanged(this)
      ensures CacheIndex(old(cache), item).Some? ==>
                var c := CacheIndex(old(cache), item).value;
                var k := IndexOf(old(rows), old(cache)[c].0).value;
                rows == Mark(old(rows), k, Ready) && cache == CachePop(old(cache), c) && total == old(total) + 1
    {
      Settle(item, Ready);
    }

    /** `get`, with a popped item read as the code means it (GetResult).
        Without blocking, no waiting row raises Empty. Blocking, the call
        waits for a put, and with a timeout raises Empty when it runs out
        (at once for a timeout of 0). A negative timeout raises ValueError
        before anything is read. */
    method Get(block: bool, timeout: Option<real>) returns (r: Call<PyObject>)
      requires Valid()
      modifies this
      ensures Valid() && last == old(last)
      ensures block && timeout.Some? && timeout.value < 0.0 ==> r == Raised(ValueError) && unchanged(this)
      ensures !(block && timeout.Some? && timeout.value < 0.0) ==>
                (old(SelectIndex()).None? ==> unchanged(this) && r == GetResult(block, timeout, None))
                && (old(SelectIndex()).Some? ==>
                      var k := old(SelectIndex()).value;
                      r.Returned? && (Shared(r.value.value) || fresh(r.value))
                      && r.value.value == ser.loads(old(rows)[k].cols.data)
                      && rows == Mark(old(rows), k, Unack)
                      && cache == CacheSet(old(cache), old(rows)[k].id, r.value)
                      && total == old(total) - 1)
    {
      if block && timeout.Some? && timeout.value < 0.0 {
        return Raised(ValueError);
      }
      var p := Pop();
      r := GetResult(block, timeout, p);
    }

    /** `get` as written (GetResultAsWritten): a popped None item has its
        row marked unack and counted out of `total`, and is then handled
        like no row at all. */
    method GetAsWritten(block: bool, timeout: Option<real>) returns (r: Call<PyObject>)
      requires Valid()
      modifies this
      ensures Valid() && last == old(last)
      ensures block && timeout.Some? && timeout.value < 0.0 ==> r == Raised(ValueError) && unchanged(this)
      ensures !(block && timeout.Some? && timeout.value < 0.0) ==>
                (old(SelectIndex()).None? ==> unchanged(this) && r == GetResultAsWritten(block, timeout, None))
                && (old(SelectIndex()).Some? ==>
                      var k := old(SelectIndex()).value;
                      var v := ser.loads(old(rows)[k].cols.data);
                      rows == Mark(old(rows), k, Unack) && total == old(total) - 1
                      && KeyIndex(cache, old(rows)[k].id).Some?
                      && (v == PyNone ==> r == (if !block || timeout == Some(0.0) then Raised(Exc.Empty) else Blocks))
                      && (v != PyNone ==> r.Returned? && r.value.value == v))
    {
      if block && timeout.Some? && timeout.value < 0.0 {
        return Raised(ValueError);
      }
      var p := Pop();
      if p.Some? {
        CacheSetDistinct(old(cache), old(rows)[old(SelectIndex()).value].id, p.value);
      }
      r := GetResultAsWritten(block, timeout, p);
    }

    /** `clear_acked_data`. */
    method ClearAckedData()
      requires Valid()
      modifies this
      ensures Valid()
      ensures rows == ClearAcked(old(rows), maxAcked)
      ensures last == old(last) && cache == old(cache) && total == old(total)
    {
      ClearGood(kind, rows, last, cache, total, counted, maxAcked);
      rows := ClearAcked(rows, maxAcked);
    }

    /** `unack_count`, `acked_count`, `ready_count`, `ack_failed_count`:
        `COUNT(_id) ... WHERE status = ?`, the number of rows in status s. */
    method StatusCount(s: AckStatus) returns (n: nat)
      ensures n == |RowsIn(rows, s)|
    {
      n := Count(rows, StatusIs(s));
      CountIsRows(rows, s);
    }

    /** `size`, `qsize` and `len`: the cached `total`, which while
        `counted` holds is the number of waiting rows. */
    method QSize() returns (n: int)
      requires Valid()
      ensures n == total
      ensures counted ==> n == Count(rows, Waiting)
    {
      n := total;
    }

    method Empty() returns (b: bool)
      requires Valid()
      ensures b <==> total == 0
    {
      b := total == 0;
    }
  }
}
