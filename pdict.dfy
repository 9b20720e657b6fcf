/** `PDict`: a dictionary kept in a SQLite table `dict_<name>` with a
    `key TEXT PRIMARY KEY` column and a pickled `data` column. Several
    dictionaries can share one database file; each owns its own table. */
module PersistDict {
  import opened Common

  /** A `dict_<name>` table: its rows by key. */
  type Table = map<string, Blob>

  /** `_table_name`: the table prefix, an underscore and the name. */
  function TableName(name: string): (t: string)
    ensures |t| == |name| + 5 && t[..5] == "dict_" && t[5..] == name
  {
    "dict_" + name
  }

  /** Dictionaries with different names never share a table. */
  lemma TableNameInjective(a: string, b: string)
    requires a != b
    ensures TableName(a) != TableName(b)
  {
    assert TableName(a)[5..] == a && TableName(b)[5..] == b;
  }

  /** `INSERT INTO ... (key, data)`: a key already present fails the
      primary-key constraint and leaves the table as it was. */
  function InsertRow(t: Table, key: string, obj: Blob): (r: Result<Table, Exc>)
    ensures r.Err? <==> key in t
    ensures r.Err? ==> r.error == IntegrityError
    ensures r.Ok? ==> r.value == t[key := obj] && |r.value| == |t| + 1
  {
    if key in t then Err(IntegrityError) else Ok(t[key := obj])
  }

  /** `UPDATE ... SET data = ? WHERE key = ?`: no row matches a missing key. */
  function UpdateRow(t: Table, key: string, obj: Blob): (r: Table)
    ensures key in t ==> r == t[key := obj] && |r| == |t|
    ensures key !in t ==> r == t
  {
    if key in t then t[key := obj] else t
  }

  /** `__setitem__`: insert, and update when the insert hits the key. Either
      way the key ends up holding the blob and no other key changes. */
  function Upsert(t: Table, key: string, obj: Blob): (r: Table)
    ensures r == t[key := obj]
    ensures |r| == if key in t then |t| else |t| + 1
  {
    match InsertRow(t, key, obj)
    case Ok(t') => t'
    case Err(_) => UpdateRow(t, key, obj)
  }

  /** `__getitem__`: the unpickled data of the key's row; KeyError when
      there is none. */
  function Lookup(t: Table, pickle: Serializer, key: string): (r: Result<PyValue, Exc>)
    ensures r.Ok? <==> key in t
    ensures r.Ok? ==> r.value == pickle.loads(t[key])
    ensures r.Err? ==> r.error == KeyError
  {
    if key in t then Ok(pickle.loads(t[key])) else Err(KeyError)
  }

  /** `pd[k] = v` then `pd[k]` gives v back. */
  lemma {:induction false} SetThenGet(t: Table, pickle: Serializer, key: string, v: PyValue)
    requires RoundTrips(pickle)
    ensures Lookup(Upsert(t, key, pickle.dumps(v, false)), pickle, key) == Ok(v)
  {
    assert pickle.loads(pickle.dumps(v, false)) == v;
  }

  /** Setting one key leaves every other key's lookup as it was. */
  lemma SetKeepsOthers(t: Table, pickle: Serializer, key: string, obj: Blob, other: string)
    requires other != key
    ensures Lookup(Upsert(t, key, obj), pickle, other) == Lookup(t, pickle, other)
  {
  }

  /** `del pd[k]` makes k missing and leaves every other key as it was. */
  lemma DeleteOnly(t: Table, pickle: Serializer, key: string, other: string)
    ensures Lookup(t - {key}, pickle, key) == Err(KeyError)
    ensures other != key ==> Lookup(t - {key}, pickle, other) == Lookup(t, pickle, other)
  {
  }

  /** The dict views that are not supported. */
  datatype View = Iter | Keys | IterKeys | Values | IterValues | IterItems | Items

  /** The SQLite database file the dictionaries live in. */
  class Database {
    var tables: map<string, Table>

    constructor ()
      ensures tables == map[]
    {
      tables := map[];
    }
  }

  class PDict {
    const db: Database
    const name: string
    const pickle: Serializer

    ghost predicate Valid()
      reads this, db
    {
      TableName(name) in db.tables
    }

    /** This dictionary's table. */
    ghost function Rows(): Table
      reads this, db
      requires Valid()
    {
      db.tables[TableName(name)]
    }

    /** Opening: `CREATE TABLE IF NOT EXISTS dict_<name>`; a table that
        exists keeps its rows, and no other table changes. PDict always
        auto-commits. */
    constructor (db: Database, name: string, pickle: Serializer)
      modifies db
      ensures Valid()
      ensures this.db == db && this.name == name && this.pickle == pickle
      ensures db.tables == if TableName(name) in old(db.tables) then old(db.tables)
                           else old(db.tables)[TableName(name) := map[]]
    {
      this.db := db;
      this.name := name;
      this.pickle := pickle;
      new;
      var t := TableName(name);
      if t !in db.tables {
        db.tables := db.tables[t := map[]];
      }
    }

    /** `pd[key] = value`: the pickled value is inserted, or updated into
        the row when the key exists; other tables are untouched. */
    method SetItem(key: string, value: PyValue)
      requires Valid()
      modifies db
      ensures Valid()
      ensures db.tables == old(db.tables)[TableName(name) := Upsert(old(Rows()), key, pickle.dumps(value, false))]
    {
      var obj := pickle.dumps(value, false);
      var t := TableName(name);
      var rows := db.tables[t];
      match InsertRow(rows, key, obj)
      case Ok(r) =>
        db.tables := db.tables[t := r];
      case Err(_) =>
        db.tables := db.tables[t := UpdateRow(rows, key, obj)];
    }

    /** `pd[key]`. */
    method GetItem(key: string) returns (r: Result<PyValue, Exc>)
      requires Valid()
      ensures r == Lookup(Rows(), pickle, key)
    {
      var rows := db.tables[TableName(name)];
      if key in rows {
        r := Ok(pickle.loads(rows[key]));
      } else {
        r := Err(KeyError);
      }
    }

    /** `key in pd`: whether `_select` finds a row. */
    method Contains(key: string) returns (b: bool)
      requires Valid()
      ensures b <==> key in Rows()
      ensures b <==> Lookup(Rows(), pickle, key).Ok?
    {
      b := key in db.tables[TableName(name)];
    }

    /** `del pd[key]`: `DELETE ... WHERE key = ?`; a missing key deletes
        nothing and raises nothing. */
    method DelItem(key: string)
      requires Valid()
      modifies db
      ensures Valid()
      ensures db.tables == old(db.tables)[TableName(name) := old(Rows()) - {key}]
    {
      var t := TableName(name);
      db.tables := db.tables[t := db.tables[t] - {key}];
    }

    /** `len(pd)`: the number of rows. */
    method Len() returns (n: nat)
      requires Valid()
      ensures n == |Rows()|
    {
      n := |db.tables[TableName(name)]|;
    }

    /** `iter`, `keys`, `iterkeys`, `values`, `itervalues`, `iteritems` and
        `items` all raise NotImplementedError. */
    method Unsupported(view: View) returns (r: Outcome)
      ensures r == Fail(NotImplementedError)
    {
      r := Fail(NotImplementedError);
    }
  }
}
