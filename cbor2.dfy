/** The cbor2 serializer: cbor2 itself plus the same 4-byte "<L" length
    prefix as the msgpack serializer, and a `sort_keys` option that rebuilds
    a top-level dict in sorted key order before it is encoded. The cbor2
    library is a `Packer` whose only assumed property is its round-trip law
    (`cbor2.loads` raising is its `unpack` returning None). */
module Cbor2 {
  import opened Common
  import opened Framing

  /** Python's `<=` on str: lexicographic by code point, a prefix first. */
  predicate StrLe(a: string, b: string)
    decreases |a|
  {
    |a| == 0 || (|b| > 0 && (a[0] < b[0] || (a[0] == b[0] && StrLe(a[1..], b[1..]))))
  }

  lemma {:induction false} StrLeTotal(a: string, b: string)
    ensures StrLe(a, b) || StrLe(b, a)
    decreases |a|
  {
    if |a| > 0 && |b| > 0 && a[0] == b[0] {
      StrLeTotal(a[1..], b[1..]);
    }
  }

  lemma {:induction false} StrLeTrans(a: string, b: string, c: string)
    requires StrLe(a, b) && StrLe(b, c)
    ensures StrLe(a, c)
    decreases |a|
  {
    if |a| > 0 && a[0] == b[0] && b[0] == c[0] {
      StrLeTrans(a[1..], b[1..], c[1..]);
    }
  }

  type Entry = (string, PyValue)

  ghost predicate SortedByKey(s: seq<Entry>) {
    forall i, j :: 0 <= i < j < |s| ==> StrLe(s[i].0, s[j].0)
  }

  /** Every entry of `s` has a key at least `k`. */
  ghost predicate AllAbove(k: string, s: seq<Entry>) {
    forall i :: 0 <= i < |s| ==> StrLe(k, s[i].0)
  }

  lemma AllAboveMultiset(k: string, s: seq<Entry>, t: seq<Entry>)
    requires AllAbove(k, s) && multiset(t) <= multiset(s)
    ensures AllAbove(k, t)
  {
    forall i | 0 <= i < |t| ensures StrLe(k, t[i].0) {
      assert t[i] in multiset(t);
      assert t[i] in multiset(s);
      var j :| 0 <= j < |s| && s[j] == t[i];
    }
  }

  /** Insert one entry into a key-sorted sequence. */
  function Insert(e: Entry, s: seq<Entry>): (r: seq<Entry>)
    requires SortedByKey(s)
    ensures SortedByKey(r) && multiset(r) == multiset(s) + multiset{e}
    decreases |s|
  {
    if s == [] then [e]
    else if StrLe(e.0, s[0].0) then
      assert AllAbove(e.0, s) by {
        forall i | 0 <= i < |s| ensures StrLe(e.0, s[i].0) {
          if i > 0 { StrLeTrans(e.0, s[0].0, s[i].0); }
        }
      }
      assert s == [s[0]] + s[1..];
      [e] + s
    else
      assert SortedByKey(s[1..]) by {
        forall i, j | 0 <= i < j < |s[1..]| ensures StrLe(s[1..][i].0, s[1..][j].0) {
          assert s[1..][i] == s[i + 1] && s[1..][j] == s[j + 1];
        }
      }
      var t := Insert(e, s[1..]);
      assert s == [s[0]] + s[1..];
      StrLeTotal(e.0, s[0].0);
      assert AllAbove(s[0].0, s[1..] + [e]) by {
        forall i | 0 <= i < |s[1..] + [e]| ensures StrLe(s[0].0, (s[1..] + [e])[i].0) {
          if i < |s[1..]| { assert (s[1..] + [e])[i] == s[i + 1]; }
        }
      }
      AllAboveMultiset(s[0].0, s[1..] + [e], t);
      [s[0]] + t
  }

  /** `sorted(d)` followed by the dict comprehension: the entries in key order. */
  function SortByKey(s: seq<Entry>): (r: seq<Entry>)
    ensures SortedByKey(r) && multiset(r) == multiset(s)
    decreases |s|
  {
    if s == [] then []
    else
      assert s == [s[0]] + s[1..];
      Insert(s[0], SortByKey(s[1..]))
  }

  /** The value cbor2 encodes: with `sort_keys`, a top-level dict rebuilt in
      sorted key order; anything else (and nested dicts) untouched. */
  function Prepare(value: PyValue, sortKeys: bool): (r: PyValue)
    ensures !(sortKeys && value.PyDict?) ==> r == value
    ensures sortKeys && value.PyDict? ==>
              r.PyDict? && SortedByKey(r.items) && multiset(r.items) == multiset(value.items)
  {
    if sortKeys && value.PyDict? then PyDict(SortByKey(value.items)) else value
  }

  /** One `dump`/`load` pair as a `Packer`: what is encoded for `sort_keys`
      and how it is decoded. */
  function WithSortKeys(lib: Packer, sortKeys: bool): (r: Packer)
    ensures r.unpack == lib.unpack
    ensures Lawful(lib) ==> forall v :: r.unpack(r.pack(v)) == Some(Prepare(v, sortKeys))
  {
    Packer(v => lib.pack(Prepare(v, sortKeys)), lib.unpack)
  }

  /** dump(value, fp, sort_keys): prepare, encode, write the "<L" length and
      the encoded bytes. */
  method Dump(lib: Packer, value: PyValue, fp: ByteStream, sortKeys: bool) returns (r: Outcome)
    requires fp.Valid()
    modifies fp
    ensures fp.Valid()
    ensures Frameable(Dumps(lib, value, sortKeys)) ==>
              r == Pass
              && fp.data == old(fp.data) + EncodeU32(|Dumps(lib, value, sortKeys)|) + Dumps(lib, value, sortKeys)
              && fp.pos == |fp.data|
    ensures !Frameable(Dumps(lib, value, sortKeys)) ==>
              r == Fail(StructError) && fp.data == old(fp.data) && fp.pos == old(fp.pos)
  {
    var v := Prepare(value, sortKeys);
    var packed := lib.pack(v);
    r := DumpFramed(packed, fp);
  }

  /** dumps(value, sort_keys): the encoding with no length prefix; `loads`
      gives back the value as prepared. */
  function Dumps(lib: Packer, value: PyValue, sortKeys: bool): (r: Blob)
    ensures Lawful(lib) ==> Loads(lib, r) == Ok(Prepare(value, sortKeys))
  {
    lib.pack(Prepare(value, sortKeys))
  }

  /** load(fp): read the "<L" length L, read L bytes, decode; the stream is
      left just after the record. */
  method Load(lib: Packer, fp: ByteStream) returns (r: Result<PyValue, Exc>)
    requires fp.Valid()
    modifies fp
    ensures fp.Valid() && fp.data == old(fp.data)
    ensures (r, fp.pos) == LoadAt(lib, old(fp.data), old(fp.pos))
  {
    var packed := LoadFramed(fp);
    match packed
    case Err(e) =>
      r := Err(e);
    case Ok(p) =>
      r := Loads(lib, p);
  }

  /** Sorting the keys keeps every value: a dump with `sort_keys` followed by
      back-to-back loads gives each dict back with the same entries, in key
      order, and every other value as it was. */
  lemma {:induction false} DumpAllLoadAllSorted(lib: Packer, pre: seq<byte>, vs: seq<PyValue>, rest: seq<byte>, sortKeys: bool)
    requires Lawful(lib)
    requires AllFrameable(PackAll(WithSortKeys(lib, sortKeys), vs))
    ensures LoadMany(lib, pre + Frames(PackAll(WithSortKeys(lib, sortKeys), vs)) + rest, |pre|, |vs|)
            == Some(seq(|vs|, i requires 0 <= i < |vs| => Prepare(vs[i], sortKeys)))
  {
    var c := WithSortKeys(lib, sortKeys);
    var ws := seq(|vs|, i requires 0 <= i < |vs| => Prepare(vs[i], sortKeys));
    assert PackAll(c, vs) == PackAll(lib, ws);
    LoadManyBack(lib, pre, ws, rest);
  }
}
