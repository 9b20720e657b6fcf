/** The msgpack serializer: msgpack itself (`packb` with use_bin_type=True,
    `unpackb` with use_list=False, raw=False) plus a 4-byte length prefix so
    that several values can share one file. The msgpack library is a
    `Packer` whose only assumed property is its round-trip law. */
module Msgpack {
  import opened Common
  import opened Framing

  /** dump(value, fp): pack, then write the "<L" length and the packed bytes. */
  method Dump(lib: Packer, value: PyValue, fp: ByteStream) returns (r: Outcome)
    requires fp.Valid()
    modifies fp
    ensures fp.Valid()
    ensures Frameable(Dumps(lib, value)) ==>
              r == Pass && fp.data == old(fp.data) + EncodeU32(|Dumps(lib, value)|) + Dumps(lib, value)
              && fp.pos == |fp.data|
    ensures !Frameable(Dumps(lib, value)) ==>
              r == Fail(StructError) && fp.data == old(fp.data) && fp.pos == old(fp.pos)
  {
    var packed := lib.pack(value);
    r := DumpFramed(packed, fp);
  }

  /** dumps(value): the packed bytes with no length prefix; `loads` takes
      them back. */
  function Dumps(lib: Packer, value: PyValue): (r: Blob)
    ensures Lawful(lib) ==> Loads(lib, r) == Ok(value)
  {
    lib.pack(value)
  }

  /** load(fp): read four bytes, decode the length L, read L bytes, unpack.
      The stream is left just after the record. */
  method Load(lib: Packer, fp: ByteStream) returns (r: Result<PyValue, Exc>)
    requires fp.Valid()
    modifies fp
    ensures fp.Valid() && fp.data == old(fp.data)
    ensures (r, fp.pos) == LoadAt(lib, old(fp.data), old(fp.pos))
  {
    var packed := LoadFramed(fp);
    match packed
    case Err(e) =>
      r := Err(e);
    case Ok(p) =>
      r := Loads(lib, p);
  }

  /** A record written by `dump` reads back by `load` at the position where it
      was written, and the stream is left exactly after it. */
  lemma DumpLoad(lib: Packer, pre: seq<byte>, value: PyValue, rest: seq<byte>)
    requires Lawful(lib) && Frameable(Dumps(lib, value))
    ensures LoadAt(lib, pre + Frame(Dumps(lib, value)) + rest, |pre|)
            == (Ok(value), |pre| + 4 + |Dumps(lib, value)|)
  {
    ReadFrameAt(pre, Dumps(lib, value), rest);
  }
}
