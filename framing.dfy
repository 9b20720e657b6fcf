/** The record framing of the msgpack and cbor2 serializers: each record is a
    4-byte little-endian unsigned length (struct format "<L") followed by that
    many payload bytes, so records written back to back into one file can be
    read back one at a time. The same framing serves as the record codec of the
    chunk files of the file-based queue. */
module Framing {
  import opened Common

  /** One more than the largest length struct "<L" can encode. */
  const U32_LIMIT: int := 0x1_0000_0000

  /** struct.pack("<L", n). */
  function EncodeU32(n: int): (r: seq<byte>)
    requires 0 <= n < U32_LIMIT
    ensures |r| == 4
  {
    [(n % 0x100) as byte,
     (n / 0x100 % 0x100) as byte,
     (n / 0x1_0000 % 0x100) as byte,
     (n / 0x100_0000) as byte]
  }

  /** struct.unpack("<L", b)[0] on exactly four bytes. */
  function DecodeU32(b: seq<byte>): (n: int)
    requires |b| == 4
    ensures 0 <= n < U32_LIMIT
  {
    b[0] as int + 0x100 * b[1] as int + 0x1_0000 * b[2] as int + 0x100_0000 * b[3] as int
  }

  lemma DecodeEncodeU32(n: int)
    requires 0 <= n < U32_LIMIT
    ensures DecodeU32(EncodeU32(n)) == n
  {
    var b := EncodeU32(n);
    var q1, q2, q3 := n / 0x100, n / 0x1_0000, n / 0x100_0000;
    assert n == 0x100 * q1 + n % 0x100;
    assert q1 == 0x100 * (q1 / 0x100) + q1 % 0x100 && q1 / 0x100 == q2;
    assert q2 == 0x100 * (q2 / 0x100) + q2 % 0x100 && q2 / 0x100 == q3;
    assert b[0] as int == n % 0x100 && b[1] as int == q1 % 0x100 && b[2] as int == q2 % 0x100 && b[3] as int == q3;
  }

  lemma EncodeDecodeU32(b: seq<byte>)
    requires |b| == 4
    ensures EncodeU32(DecodeU32(b)) == b
  {
    var n := DecodeU32(b);
    var b0, b1, b2, b3 := b[0] as int, b[1] as int, b[2] as int, b[3] as int;
    DivMod256(n, b1 + 0x100 * b2 + 0x1_0000 * b3, b0);
    DivMod65536(n, b2 + 0x100 * b3, b0 + 0x100 * b1);
    DivMod16777216(n, b3, b0 + 0x100 * b1 + 0x1_0000 * b2);
    DivMod256(b1 + 0x100 * b2 + 0x1_0000 * b3, b2 + 0x100 * b3, b1);
    DivMod256(b2 + 0x100 * b3, b3, b2);
  }

  /** Quotient and remainder are unique, for the three divisors the byte
      split uses. */
  lemma DivMod256(n: int, q: int, r: int)
    requires n == 0x100 * q + r && 0 <= r < 0x100
    ensures n / 0x100 == q && n % 0x100 == r
  {
  }

  lemma DivMod65536(n: int, q: int, r: int)
    requires n == 0x1_0000 * q + r && 0 <= r < 0x1_0000
    ensures n / 0x1_0000 == q && n % 0x1_0000 == r
  {
  }

  lemma DivMod16777216(n: int, q: int, r: int)
    requires n == 0x100_0000 * q + r && 0 <= r < 0x100_0000
    ensures n / 0x100_0000 == q && n % 0x100_0000 == r
  {
  }

  /** A payload the 4-byte prefix can describe. */
  predicate Frameable(p: Blob) {
    |p| < U32_LIMIT
  }

  ghost predicate AllFrameable(ps: seq<Blob>) {
    forall i :: 0 <= i < |ps| ==> Frameable(ps[i])
  }

  /** The bytes `dump` writes for one packed payload. */
  function Frame(p: Blob): (r: seq<byte>)
    requires Frameable(p)
    ensures |r| == 4 + |p| && r[4..] == p
  {
    EncodeU32(|p|) + p
  }

  /** The bytes of several frames written back to back. */
  ghost function Frames(ps: seq<Blob>): seq<byte>
    requires AllFrameable(ps)
  {
    if ps == [] then [] else Frames(ps[..|ps| - 1]) + Frame(ps[|ps| - 1])
  }

  lemma FramesAppend(ps: seq<Blob>, p: Blob)
    requires AllFrameable(ps) && Frameable(p)
    ensures AllFrameable(ps + [p])
    ensures Frames(ps + [p]) == Frames(ps) + Frame(p)
  {
    var qs := ps + [p];
    assert qs[..|ps|] == ps;
    assert forall i :: 0 <= i < |qs| ==> qs[i] == (if i < |ps| then ps[i] else p);
  }

  /** Frames of a concatenation are the concatenation of the frames. */
  lemma {:induction false} FramesConcat(ps: seq<Blob>, qs: seq<Blob>)
    requires AllFrameable(ps) && AllFrameable(qs)
    ensures AllFrameable(ps + qs)
    ensures Frames(ps + qs) == Frames(ps) + Frames(qs)
    decreases |qs|
  {
    if qs == [] {
      assert ps + qs == ps;
    } else {
      var q0, q := qs[..|qs| - 1], qs[|qs| - 1];
      assert AllFrameable(q0) by {
        forall i | 0 <= i < |q0| ensures Frameable(q0[i]) {
          assert q0[i] == qs[i];
        }
      }
      FramesConcat(ps, q0);
      assert qs == q0 + [q];
      assert ps + qs == (ps + q0) + [q];
      FramesAppend(ps + q0, q);
    }
  }

  /** The bytes of a sequence of frames split around one of them. */
  lemma FramesSplit3(x: seq<Blob>, y: Blob, z: seq<Blob>)
    requires AllFrameable(x) && Frameable(y) && AllFrameable(z)
    ensures AllFrameable(x + [y] + z)
    ensures Frames(x + [y] + z) == Frames(x) + Frame(y) + Frames(z)
  {
    FramesAppend(x, y);
    FramesConcat(x + [y], z);
  }

  lemma SliceAround<T>(c: seq<T>, j: nat)
    requires j < |c|
    ensures c[..j + 1] == c[..j] + [c[j]] && c[..j + 1] + c[j + 1..] == c
  {
  }

  lemma FrameableSlice(c: seq<Blob>, lo: nat, hi: nat)
    requires lo <= hi <= |c| && AllFrameable(c)
    ensures AllFrameable(c[lo..hi])
  {
    var s := c[lo..hi];
    forall i | 0 <= i < |s| ensures Frameable(s[i]) { assert s[i] == c[lo + i]; }
  }

  /** The bytes of a run of frames split around the j-th. */
  lemma FramesSplit(c: seq<Blob>, j: nat)
    requires j < |c| && AllFrameable(c)
    ensures AllFrameable(c[..j]) && AllFrameable(c[..j + 1]) && AllFrameable(c[j + 1..])
    ensures Frames(c) == Frames(c[..j]) + Frame(c[j]) + Frames(c[j + 1..])
    ensures Frames(c[..j + 1]) == Frames(c[..j]) + Frame(c[j])
  {
    var x, a, z := c[..j], c[..j + 1], c[j + 1..];
    FrameableSlice(c, 0, j);
    FrameableSlice(c, 0, j + 1);
    FrameableSlice(c, j + 1, |c|);
    assert c[0..j] == x && c[0..j + 1] == a && c[j + 1..|c|] == z;
    SliceAround(c, j);
    FramesConcat(a, z);
    FramesAppend(x, c[j]);
  }

  /** The frames of a non-empty run: the first frame, then the others. */
  lemma FramesCons(ps: seq<Blob>)
    requires ps != [] && AllFrameable(ps)
    ensures AllFrameable(ps[1..])
    ensures Frames(ps) == Frame(ps[0]) + Frames(ps[1..])
  {
    FrameableSlice(ps, 1, |ps|);
    assert ps[1..|ps|] == ps[1..];
    FrameableSlice(ps, 0, 1);
    assert ps[0..1] == [ps[0]];
    FramesConcat([ps[0]], ps[1..]);
    assert [ps[0]] + ps[1..] == ps;
    assert Frames([ps[0]]) == Frame(ps[0]) by {
      assert [ps[0]][..0] == [];
    }
  }

  /** What one `load` consumes: four length bytes, then up to that many
      payload bytes (a read stops early at the end of the file). */
  datatype FrameRead =
    | Got(payload: Blob, next: nat)   // a length prefix was read; `payload` may be short at end of file
    | ShortHeader(next: nat)          // fewer than four bytes were left: struct.unpack raises

  function ReadFrame(data: seq<byte>, pos: nat): (r: FrameRead)
    requires pos <= |data|
    ensures pos <= r.next <= |data|
    ensures r.ShortHeader? <==> |data| - pos < 4
    ensures r.ShortHeader? ==> r.next == |data|
    ensures r.Got? ==> r.next == pos + 4 + |r.payload| && |r.payload| <= DecodeU32(data[pos..pos + 4])
    ensures r.Got? && pos + 4 + DecodeU32(data[pos..pos + 4]) <= |data| ==>
              |r.payload| == DecodeU32(data[pos..pos + 4])
  {
    if |data| - pos < 4 then ShortHeader(|data|)
    else
      var len := DecodeU32(data[pos..pos + 4]);
      var end := if pos + 4 + len <= |data| then pos + 4 + len else |data|;
      Got(data[pos + 4..end], end)
  }

  /** Reading at the start of a frame returns its payload and stops exactly at
      the frame's end, whatever follows. */
  lemma ReadFrameAt(pre: seq<byte>, p: Blob, rest: seq<byte>)
    requires Frameable(p)
    ensures ReadFrame(pre + Frame(p) + rest, |pre|) == Got(p, |pre| + 4 + |p|)
  {
    var data := pre + Frame(p) + rest;
    var pos := |pre|;
    assert data[pos..pos + 4] == EncodeU32(|p|);
    DecodeEncodeU32(|p|);
    assert data[pos + 4..pos + 4 + |p|] == p;
  }

  /** A serializer library as the framed `dump`/`load` use it: `pack` turns a
      value into bytes, `unpack` turns bytes back into a value or fails. The
      library internals are not modelled. */
  datatype Packer = Packer(pack: PyValue -> Blob, unpack: Blob -> Option<PyValue>)

  /** The round-trip law a serializer library is assumed to obey. */
  ghost predicate Lawful(c: Packer) {
    forall v :: c.unpack(c.pack(v)) == Some(v)
  }

  /** `loads(b)` of the msgpack and cbor2 serializers: decode bytes that
      carry no length prefix; a failure is a decode error. */
  function Loads(c: Packer, b: Blob): (r: Result<PyValue, Exc>)
    ensures r.Err? ==> r.error == DecodeError
    ensures r.Err? <==> c.unpack(b).None?
    ensures forall v :: Lawful(c) && b == c.pack(v) ==> r == Ok(v)
  {
    match c.unpack(b)
    case None => Err(DecodeError)
    case Some(v) => Ok(v)
  }

  /** One framed `load` at `pos`: the value read (or the exception raised)
      and the position the stream is left at. */
  function LoadAt(c: Packer, data: seq<byte>, pos: nat): (r: (Result<PyValue, Exc>, nat))
    requires pos <= |data|
    ensures r.1 == ReadFrame(data, pos).next
    ensures r.0.Err? <==> ReadFrame(data, pos).ShortHeader? || c.unpack(ReadFrame(data, pos).payload).None?
  {
    match ReadFrame(data, pos)
    case ShortHeader(next) => (Err(StructError), next)
    case Got(p, next) => (Loads(c, p), next)
  }

  /** `n` consecutive framed loads from `pos`: the values in order, or None
      when one of them raises. */
  function LoadMany(c: Packer, data: seq<byte>, pos: nat, n: nat): (r: Option<seq<PyValue>>)
    requires pos <= |data|
    ensures r.Some? ==> |r.value| == n
    decreases n
  {
    if n == 0 then Some([])
    else
      var (v, next) := LoadAt(c, data, pos);
      match v
      case Err(_) => None
      case Ok(x) =>
        match LoadMany(c, data, next, n - 1)
        case None => None
        case Some(xs) => Some([x] + xs)
  }

  /** The packed payloads of several values. */
  function PackAll(c: Packer, vs: seq<PyValue>): (r: seq<Blob>)
    ensures |r| == |vs| && forall i :: 0 <= i < |vs| ==> r[i] == c.pack(vs[i])
  {
    if vs == [] then [] else [c.pack(vs[0])] + PackAll(c, vs[1..])
  }

  /** Values dumped back to back load back in the order written, one per
      `load`, whatever precedes or follows them in the stream. */
  lemma {:induction false} LoadManyBack(c: Packer, pre: seq<byte>, vs: seq<PyValue>, rest: seq<byte>)
    requires Lawful(c) && AllFrameable(PackAll(c, vs))
    ensures LoadMany(c, pre + Frames(PackAll(c, vs)) + rest, |pre|, |vs|) == Some(vs)
    decreases |vs|
  {
    if vs != [] {
      var ps := PackAll(c, vs);
      var pre' := pre + Frame(ps[0]);
      var data := pre + Frames(ps) + rest;
      LoadHead(c, pre, vs, rest);
      LoadManyBack(c, pre', vs[1..], rest);
      LoadManyCons(c, data, |pre|, |vs| - 1, vs[0], |pre'|, vs[1..]);
      assert [vs[0]] + vs[1..] == vs;
    }
  }

  /** The first of several dumped values loads back, leaving the stream at
      the frames of the others. */
  lemma LoadHead(c: Packer, pre: seq<byte>, vs: seq<PyValue>, rest: seq<byte>)
    requires Lawful(c) && AllFrameable(PackAll(c, vs)) && vs != []
    ensures var ps := PackAll(c, vs);
            var pre' := pre + Frame(ps[0]);
            var data := pre + Frames(ps) + rest;
            AllFrameable(PackAll(c, vs[1..]))
            && data == pre' + Frames(PackAll(c, vs[1..])) + rest
            && LoadAt(c, data, |pre|) == (Ok(vs[0]), |pre'|)
  {
    var ps := PackAll(c, vs);
    var ps' := PackAll(c, vs[1..]);
    assert ps' == ps[1..] && ps[0] == c.pack(vs[0]);
    FramesCons(ps);
    ConcatAssoc(pre, Frame(ps[0]), Frames(ps'), rest);
    LoadFirst(c, pre, ps[0], vs[0], Frames(ps') + rest);
  }

  lemma ConcatAssoc<T>(a: seq<T>, b: seq<T>, c: seq<T>, d: seq<T>)
    ensures a + (b + c) + d == a + b + (c + d)
    ensures a + (b + c) + d == a + b + c + d
  {
  }

  /** A load that succeeds followed by n more that do. */
  lemma LoadManyCons(c: Packer, data: seq<byte>, pos: nat, n: nat, x: PyValue, next: nat, xs: seq<PyValue>)
    requires pos <= |data| && next <= |data|
    requires LoadAt(c, data, pos) == (Ok(x), next) && LoadMany(c, data, next, n) == Some(xs)
    ensures LoadMany(c, data, pos, n + 1) == Some([x] + xs)
  {
  }

  /** A framed `load` at the start of a frame of a decodable payload. */
  lemma LoadFirst(c: Packer, pre: seq<byte>, p: Blob, v: PyValue, tail: seq<byte>)
    requires Frameable(p) && c.unpack(p) == Some(v)
    ensures |pre| + 4 + |p| <= |pre + Frame(p) + tail|
    ensures LoadAt(c, pre + Frame(p) + tail, |pre|) == (Ok(v), |pre| + 4 + |p|)
  {
    ReadFrameAt(pre, p, tail);
  }

  /** A byte-mode file object: its contents and the current position. Writes
      append at the end, as on a file opened in append mode, and leave the
      position at the end; reads consume from the position. */
  class ByteStream {
    var data: seq<byte>
    var pos: nat

    ghost predicate Valid()
      reads this
    {
      pos <= |data|
    }

    constructor (init: seq<byte>)
      ensures Valid() && data == init && pos == 0
    {
      data := init;
      pos := 0;
    }

    method Write(b: seq<byte>)
      requires Valid()
      modifies this
      ensures Valid() && data == old(data) + b && pos == |data|
    {
      data := data + b;
      pos := |data|;
    }

    method Seek(p: nat)
      requires Valid() && p <= |data|
      modifies this
      ensures Valid() && data == old(data) && pos == p
    {
      pos := p;
    }

    /** fp.read(n): at most n bytes, fewer at the end of the file. */
    method Read(n: nat) returns (b: seq<byte>)
      requires Valid()
      modifies this
      ensures Valid() && data == old(data)
      ensures pos == if old(pos) + n <= |data| then old(pos) + n else |data|
      ensures b == data[old(pos)..pos]
    {
      var end := if pos + n <= |data| then pos + n else |data|;
      b := data[pos..end];
      pos := end;
    }
  }

  /** Write one length-prefixed record; struct.pack raises (and nothing is
      written) when the payload is too long for the prefix. */
  method DumpFramed(packed: Blob, fp: ByteStream) returns (r: Outcome)
    requires fp.Valid()
    modifies fp
    ensures fp.Valid()
    ensures Frameable(packed) ==> r == Pass && fp.data == old(fp.data) + Frame(packed) && fp.pos == |fp.data|
    ensures !Frameable(packed) ==> r == Fail(StructError) && fp.data == old(fp.data) && fp.pos == old(fp.pos)
  {
    if |packed| >= U32_LIMIT {
      return Fail(StructError);
    }
    var length := EncodeU32(|packed|);
    fp.Write(length);
    fp.Write(packed);
    r := Pass;
  }

  /** Read one length-prefixed record: read(4), unpack the length L, read(L). */
  method LoadFramed(fp: ByteStream) returns (r: Result<Blob, Exc>)
    requires fp.Valid()
    modifies fp
    ensures fp.Valid() && fp.data == old(fp.data)
    ensures fp.pos == ReadFrame(old(fp.data), old(fp.pos)).next
    ensures r == match ReadFrame(old(fp.data), old(fp.pos))
                 case ShortHeader(_) => Err(StructError)
                 case Got(p, _) => Ok(p)
  {
    var head := fp.Read(4);
    if |head| < 4 {
      return Err(StructError);
    }
    var length := DecodeU32(head);
    var payload := fp.Read(length);
    r := Ok(payload);
  }
}
