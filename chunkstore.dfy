/** The names of the chunk files: `_qfile(n)` is the queue directory joined
    with 'q%05d' % n. */
module ChunkNames {

  function DigitChar(d: nat): char
    requires d < 10
  {
    "0123456789"[d]
  }

  function DigitValue(c: char): int {
    c as int - '0' as int
  }

  /** The shortest decimal representation of n. */
  function Decimal(n: nat): (s: string)
    ensures |s| > 0
    decreases n
  {
    if n < 10 then [DigitChar(n)] else Decimal(n / 10) + [DigitChar(n % 10)]
  }

  /** The value of a string of decimal digits. */
  function DecimalValue(s: string): int
    decreases |s|
  {
    if s == [] then 0 else DecimalValue(s[..|s| - 1]) * 10 + DigitValue(s[|s| - 1])
  }

  lemma {:induction false} DecimalValueOf(n: nat)
    ensures DecimalValue(Decimal(n)) == n
    decreases n
  {
    if n >= 10 {
      DecimalValueOf(n / 10);
      var s := Decimal(n);
      assert s[..|s| - 1] == Decimal(n / 10);
    }
  }

  function Zeros(k: nat): (s: string)
    ensures |s| == k && forall i :: 0 <= i < k ==> s[i] == '0'
  {
    if k == 0 then "" else Zeros(k - 1) + "0"
  }

  lemma {:induction false} LeadingZeros(k: nat, s: string)
    ensures DecimalValue(Zeros(k) + s) == DecimalValue(s)
    decreases |s| + k
  {
    if s == [] {
      assert Zeros(k) + s == Zeros(k);
      if k > 0 {
        assert Zeros(k)[..k - 1] == Zeros(k - 1);
        LeadingZeros(k - 1, "");
        assert Zeros(k - 1) + "" == Zeros(k - 1);
      }
    } else {
      var t := Zeros(k) + s;
      assert t[..|t| - 1] == Zeros(k) + s[..|s| - 1];
      LeadingZeros(k, s[..|s| - 1]);
    }
  }

  /** '%05d' % n: the decimal digits, zero padded to five. */
  function Padded(n: nat): (s: string)
    ensures |s| >= 5
  {
    var d := Decimal(n);
    if |d| >= 5 then d else Zeros(5 - |d|) + d
  }

  lemma PaddedValue(n: nat)
    ensures DecimalValue(Padded(n)) == n
  {
    var d := Decimal(n);
    DecimalValueOf(n);
    if |d| < 5 { LeadingZeros(5 - |d|, d); }
  }

  /** 'q%05d' % n. */
  function QFile(n: nat): (name: string)
    ensures |name| >= 6 && name[0] == 'q' && name[1..] == Padded(n)
  {
    "q" + Padded(n)
  }

  /** Distinct chunk indices name distinct chunk files, so a map from index to
      contents describes the directory faithfully. */
  lemma QFileInjective(a: nat, b: nat)
    requires QFile(a) == QFile(b)
    ensures a == b
  {
    assert Padded(a) == Padded(b);
    PaddedValue(a);
    PaddedValue(b);
  }
}

/** The on-disk engine shared by the file-based queues (`Queue` in queue.py and
    `AsyncQueue` in async_queue.py): records are appended to numbered chunk
    files `q00000`, `q00001`, ...; an `info` record holds the chunk size, the
    queue size and two cursors `[chunk, count, offset]`, the head where the
    next record is written and the tail where the next record is read.
    A record is stored as a 4-byte little-endian length followed by its
    bytes. */
module ChunkStore {
  import opened Common
  import opened Framing

  /** A record as the queue stores it: the serialized item. */
  type Record = p: Blob | Frameable(p)

  /** A cursor: chunk index, records counted in that chunk, byte offset. */
  datatype Pos = Pos(num: nat, cnt: nat, offset: nat)

  /** The `info` dict. */
  datatype Info = Info(chunksize: int, size: int, head: Pos, tail: Pos)

  /** What a queue directory holds: the info file (if any) and the chunk files. */
  datatype Disk = Disk(infoFile: Option<Info>, files: map<nat, Blob>)

  /** The records each chunk file holds (a ghost view of the chunk bytes). */
  type Chunks = map<nat, seq<Record>>

  // ---------------------------------------------------------------- cursors

  /** The info a queue starts from when there is no info file. */
  function FreshInfo(chunksize: int): Info {
    Info(chunksize, 0, Pos(0, 0, 0), Pos(0, 0, 0))
  }

  /** `_loadinfo`: the info file's contents, or a fresh info with the
      constructor's chunksize. */
  function LoadInfo(infoFile: Option<Info>, chunksize: int): (r: Info)
    ensures infoFile.Some? ==> r == infoFile.value
    ensures infoFile.None? ==> r.size == 0 && r.head == r.tail == Pos(0, 0, 0) && r.chunksize == chunksize
  {
    match infoFile
    case None => FreshInfo(chunksize)
    case Some(i) => i
  }

  /** A cursor as one position in the sequence of all records ever written. */
  function Linear(p: Pos, cs: int): int {
    p.num * cs + p.cnt
  }

  /** The `_get` guard `[tnum, tcnt] >= [hnum, hcnt]` (Python list order). */
  predicate AtOrPast(t: Pos, h: Pos) {
    t.num > h.num || (t.num == h.num && t.cnt >= h.cnt)
  }

  /** The cursors describe a queue: the tail never passes the head, counts
      stay below the chunk size, and the size is the linear distance. */
  ghost predicate CursorsOk(i: Info) {
    var t, h, cs := i.tail, i.head, i.chunksize;
    t.num <= h.num
    && (cs <= 0 ==> t.num == h.num)
    && (cs > 0 ==> h.cnt < cs && t.cnt < cs)
    && (t.num == h.num ==> t.cnt <= h.cnt)
    && i.size == Linear(h, cs) - Linear(t, cs)
  }

  /** Every chunk from the tail's to the head's exists and holds the framed
      records it is recorded to hold; a chunk file beyond the head is empty
      (one a rotating `_put` opened before a crash kept it from saving the
      info). */
  ghost predicate FilesHold(i: Info, files: map<nat, Blob>, chunks: Chunks) {
    (forall k :: i.tail.num <= k <= i.head.num ==> k in files && k in chunks && files[k] == Frames(chunks[k]))
    && (forall k :: k in files && k > i.head.num ==> files[k] == [])
  }

  ghost predicate Covers(chunks: Chunks, lo: nat, hi: nat) {
    forall k :: lo <= k <= hi ==> k in chunks
  }

  /** Chunks behind the head are full; the head chunk holds head.cnt records;
      the offsets are the byte positions of the counts. */
  ghost predicate CountsOk(i: Info, files: map<nat, Blob>, chunks: Chunks)
    requires FilesHold(i, files, chunks) && i.tail.num <= i.head.num
  {
    var t, h := i.tail, i.head;
    (forall k :: t.num <= k < h.num ==> |chunks[k]| == i.chunksize)
    && |chunks[h.num]| == h.cnt
    && h.offset == |files[h.num]|
    && t.cnt <= |chunks[t.num]|
    && t.offset == |Frames(chunks[t.num][..t.cnt])|
  }

  ghost predicate Consistent(i: Info, files: map<nat, Blob>, chunks: Chunks) {
    CursorsOk(i) && FilesHold(i, files, chunks) && CountsOk(i, files, chunks)
  }

  // ---------------------------------------------------------------- contents

  /** The records of chunks lo..hi, in order. */
  ghost function Span(chunks: Chunks, lo: nat, hi: nat): seq<Record>
    requires lo <= hi && Covers(chunks, lo, hi)
    decreases hi - lo
  {
    if lo == hi then chunks[lo] else chunks[lo] + Span(chunks, lo + 1, hi)
  }

  /** The queued records, oldest first: from the tail cursor to the head. */
  ghost function Contents(i: Info, chunks: Chunks): seq<Record>
    requires CursorsOk(i) && Covers(chunks, i.tail.num, i.head.num)
    requires i.tail.cnt <= |Span(chunks, i.tail.num, i.head.num)|
  {
    Span(chunks, i.tail.num, i.head.num)[i.tail.cnt..]
  }

  lemma {:induction false} SpanLength(chunks: Chunks, lo: nat, hi: nat, cs: int)
    requires lo <= hi && Covers(chunks, lo, hi)
    requires forall k :: lo <= k < hi ==> |chunks[k]| == cs
    ensures |Span(chunks, lo, hi)| == (hi - lo) * cs + |chunks[hi]|
    ensures |chunks[lo]| <= |Span(chunks, lo, hi)|
    decreases hi - lo
  {
    if lo < hi {
      SpanLength(chunks, lo + 1, hi, cs);
      assert (hi - lo) * cs == cs + (hi - (lo + 1)) * cs;
    }
  }

  /** The contents are well defined on a consistent state and hold exactly
      `size` records: size = (hnum*cs + hcnt) - (tnum*cs + tcnt). */
  lemma ContentsSize(i: Info, files: map<nat, Blob>, chunks: Chunks)
    requires Consistent(i, files, chunks)
    ensures Covers(chunks, i.tail.num, i.head.num)
    ensures i.tail.cnt <= |Span(chunks, i.tail.num, i.head.num)|
    ensures |Contents(i, chunks)| == i.size
  {
    var t, h, cs := i.tail, i.head, i.chunksize;
    assert Covers(chunks, t.num, h.num);
    SpanLength(chunks, t.num, h.num, cs);
    Distribute(h.num, t.num, cs);
  }

  lemma Distribute(a: int, b: int, c: int)
    ensures (a - b) * c == a * c - b * c
  {
  }

  /** The `_get` guard fires exactly when the queue is empty. */
  lemma GuardIffEmpty(i: Info)
    requires CursorsOk(i)
    ensures AtOrPast(i.tail, i.head) <==> i.size == 0
  {
    var t, h, cs := i.tail, i.head, i.chunksize;
    Distribute(h.num, t.num, cs);
    assert i.size == (h.num - t.num) * cs + h.cnt - t.cnt;
    if t.num < h.num {
      MulAtLeast(h.num - t.num, cs);
    }
  }

  lemma {:induction false} MulAtLeast(x: int, c: int)
    requires x >= 1 && c > 0
    ensures x * c >= c
    decreases x
  {
    if x > 1 {
      MulAtLeast(x - 1, c);
      Distribute(x, 1, c);
    }
  }

  lemma {:induction false} SpanAppendLast(chunks: Chunks, lo: nat, hi: nat, p: Record)
    requires lo <= hi && Covers(chunks, lo, hi)
    ensures Covers(chunks[hi := chunks[hi] + [p]], lo, hi)
    ensures Span(chunks[hi := chunks[hi] + [p]], lo, hi) == Span(chunks, lo, hi) + [p]
    decreases hi - lo
  {
    if lo < hi {
      SpanAppendLast(chunks, lo + 1, hi, p);
    }
  }

  lemma {:induction false} SpanExtend(chunks: Chunks, lo: nat, hi: nat)
    requires lo <= hi && Covers(chunks, lo, hi)
    ensures Covers(chunks[hi + 1 := []], lo, hi + 1)
    ensures Span(chunks[hi + 1 := []], lo, hi + 1) == Span(chunks, lo, hi)
    decreases hi - lo
  {
    var c := chunks[hi + 1 := []];
    if lo == hi {
      assert Span(c, hi + 1, hi + 1) == [];
    } else {
      SpanExtend(chunks, lo + 1, hi);
    }
  }

  // ---------------------------------------------------------------- steps

  /** The info after `_put` of a record `p`: one more record, the head count
      advanced, rotating to the start of the next chunk at chunksize. */
  function PutInfo(i: Info, p: Record): (r: Info)
    ensures r.size == i.size + 1 && r.tail == i.tail && r.chunksize == i.chunksize
    ensures r.head.num == i.head.num ==> r.head.cnt == i.head.cnt + 1 && r.head.offset == i.head.offset + 4 + |p|
    ensures r.head.num != i.head.num ==> r.head == Pos(i.head.num + 1, 0, 0) && i.head.cnt + 1 == i.chunksize
  {
    var h := i.head;
    i.(size := i.size + 1,
       head := if h.cnt + 1 == i.chunksize then Pos(h.num + 1, 0, 0)
               else Pos(h.num, h.cnt + 1, h.offset + 4 + |p|))
  }

  /** The chunk files after `_put`: the framed record appended to the head
      chunk, and an empty next chunk created on rotation. */
  function PutFiles(files: map<nat, Blob>, i: Info, p: Record): (r: map<nat, Blob>)
    requires i.head.num in files
    ensures i.head.num in r && r[i.head.num] == files[i.head.num] + Frame(p)
    ensures i.head.cnt + 1 == i.chunksize ==> r.Keys == files.Keys + {i.head.num + 1} && r[i.head.num + 1] == []
    ensures i.head.cnt + 1 != i.chunksize ==> r.Keys == files.Keys
    ensures forall k :: k in files && k != i.head.num && k != i.head.num + 1 ==> r[k] == files[k]
  {
    var h := i.head;
    var f1 := files[h.num := files[h.num] + Frame(p)];
    if h.cnt + 1 == i.chunksize then f1[h.num + 1 := []] else f1
  }

  ghost function PutChunks(chunks: Chunks, i: Info, p: Record): Chunks
    requires i.head.num in chunks
  {
    var h := i.head;
    var c1 := chunks[h.num := chunks[h.num] + [p]];
    if h.cnt + 1 == i.chunksize then c1[h.num + 1 := []] else c1
  }

  /** The info after `_get` read a record of `len` bytes: one record fewer,
      the tail count advanced, rotating to the next chunk at chunksize. */
  function GetInfo(i: Info, len: nat): (r: Info)
    ensures r.size == i.size - 1 && r.head == i.head && r.chunksize == i.chunksize
    ensures r.tail.num == i.tail.num ==> r.tail.cnt == i.tail.cnt + 1 && r.tail.offset == i.tail.offset + 4 + len
    ensures r.tail.num != i.tail.num ==> r.tail == Pos(i.tail.num + 1, 0, 0) && i.tail.cnt + 1 == i.chunksize
  {
    var t := i.tail;
    i.(size := i.size - 1,
       tail := if t.cnt + 1 == i.chunksize && t.num <= i.head.num then Pos(t.num + 1, 0, 0)
               else Pos(t.num, t.cnt + 1, t.offset + 4 + len))
  }

  lemma PutCursors(i: Info, p: Record)
    requires CursorsOk(i)
    ensures CursorsOk(PutInfo(i, p))
  {
    var h, cs := i.head, i.chunksize;
    if h.cnt + 1 == cs {
      assert (h.num + 1) * cs == h.num * cs + cs;
    }
  }

  lemma PutFilesHold(i: Info, files: map<nat, Blob>, chunks: Chunks, p: Record)
    requires CursorsOk(i) && FilesHold(i, files, chunks)
    ensures FilesHold(PutInfo(i, p), PutFiles(files, i, p), PutChunks(chunks, i, p))
  {
    var h := i.head;
    FramesAppend(chunks[h.num], p);
    if h.cnt + 1 == i.chunksize {
      assert Frames([]) == [];
    }
  }

  lemma PutCounts(i: Info, files: map<nat, Blob>, chunks: Chunks, p: Record)
    requires Consistent(i, files, chunks)
    requires FilesHold(PutInfo(i, p), PutFiles(files, i, p), PutChunks(chunks, i, p))
    requires CursorsOk(PutInfo(i, p))
    ensures CountsOk(PutInfo(i, p), PutFiles(files, i, p), PutChunks(chunks, i, p))
  {
    var t, h := i.tail, i.head;
    var c' := PutChunks(chunks, i, p);
    if t.num == h.num {
      assert c'[t.num][..t.cnt] == chunks[t.num][..t.cnt];
    }
  }

  lemma PutSpan(i: Info, chunks: Chunks, p: Record)
    requires i.tail.num <= i.head.num && Covers(chunks, i.tail.num, i.head.num)
    ensures var i' := PutInfo(i, p);
            Covers(PutChunks(chunks, i, p), i.tail.num, i'.head.num)
            && Span(PutChunks(chunks, i, p), i.tail.num, i'.head.num) == Span(chunks, i.tail.num, i.head.num) + [p]
  {
    var t, h := i.tail, i.head;
    var c1 := chunks[h.num := chunks[h.num] + [p]];
    SpanAppendLast(chunks, t.num, h.num, p);
    if h.cnt + 1 == i.chunksize {
      SpanExtend(c1, t.num, h.num);
    }
  }

  /** `_put` on a consistent state keeps it consistent and appends the record
      to the contents. */
  lemma PutStep(i: Info, files: map<nat, Blob>, chunks: Chunks, p: Record)
    requires Consistent(i, files, chunks)
    ensures Consistent(PutInfo(i, p), PutFiles(files, i, p), PutChunks(chunks, i, p))
    ensures (ContentsSize(i, files, chunks);
             ContentsSize(PutInfo(i, p), PutFiles(files, i, p), PutChunks(chunks, i, p));
             Contents(PutInfo(i, p), PutChunks(chunks, i, p)) == Contents(i, chunks) + [p])
  {
    PutCursors(i, p);
    PutFilesHold(i, files, chunks, p);
    PutCounts(i, files, chunks, p);
    ContentsSize(i, files, chunks);
    ContentsSize(PutInfo(i, p), PutFiles(files, i, p), PutChunks(chunks, i, p));
    PutSpan(i, chunks, p);
    var sp := Span(chunks, i.tail.num, i.head.num);
    assert (sp + [p])[i.tail.cnt..] == sp[i.tail.cnt..] + [p];
  }

  /** The record at the tail cursor is framed at the tail offset. */
  lemma GetRead(i: Info, files: map<nat, Blob>, chunks: Chunks)
    requires Consistent(i, files, chunks) && !AtOrPast(i.tail, i.head)
    ensures i.tail.cnt < |chunks[i.tail.num]|
    ensures var t := i.tail;
            var c := chunks[t.num];
            t.offset <= |files[t.num]|
            && ReadFrame(files[t.num], t.offset) == Got(c[t.cnt], t.offset + 4 + |c[t.cnt]|)
            && t.offset + 4 + |c[t.cnt]| == |Frames(c[..t.cnt + 1])|
  {
    var t, h := i.tail, i.head;
    var c := chunks[t.num];
    if t.num < h.num {
      assert |c| == i.chunksize;
    }
    FramesSplit(c, t.cnt);
    ReadFrameAt(Frames(c[..t.cnt]), c[t.cnt], Frames(c[t.cnt + 1..]));
  }

  lemma GetCursors(i: Info, len: nat)
    requires CursorsOk(i) && !AtOrPast(i.tail, i.head)
    ensures CursorsOk(GetInfo(i, len))
  {
    var t, cs := i.tail, i.chunksize;
    if t.cnt + 1 == cs {
      assert (t.num + 1) * cs == t.num * cs + cs;
    }
  }

  lemma GetCounts(i: Info, files: map<nat, Blob>, chunks: Chunks)
    requires Consistent(i, files, chunks) && !AtOrPast(i.tail, i.head)
    requires i.tail.cnt < |chunks[i.tail.num]|
    requires var t := i.tail;
             t.offset + 4 + |chunks[t.num][t.cnt]| == |Frames(chunks[t.num][..t.cnt + 1])|
    requires CursorsOk(GetInfo(i, |chunks[i.tail.num][i.tail.cnt]|))
    ensures var i' := GetInfo(i, |chunks[i.tail.num][i.tail.cnt]|);
            FilesHold(i', files, chunks) && CountsOk(i', files, chunks)
  {
    var t := i.tail;
    var i' := GetInfo(i, |chunks[i.tail.num][i.tail.cnt]|);
    if i'.tail.num != t.num {
      assert chunks[t.num + 1][..0] == [];
    }
  }

  /** The records of chunks lo..hi start with those of chunk lo. */
  lemma SpanFirst(chunks: Chunks, lo: nat, hi: nat)
    requires lo <= hi && Covers(chunks, lo, hi)
    ensures |chunks[lo]| <= |Span(chunks, lo, hi)|
    ensures Span(chunks, lo, hi)[..|chunks[lo]|] == chunks[lo]
    ensures lo < hi ==> Span(chunks, lo, hi) == chunks[lo] + Span(chunks, lo + 1, hi)
  {
  }

  lemma GetSpan(i: Info, chunks: Chunks, x: Record)
    requires CursorsOk(i) && !AtOrPast(i.tail, i.head) && Covers(chunks, i.tail.num, i.head.num)
    requires i.tail.cnt < |chunks[i.tail.num]| && x == chunks[i.tail.num][i.tail.cnt]
    requires i.tail.num < i.head.num ==> |chunks[i.tail.num]| == i.chunksize
    ensures var t, i' := i.tail, GetInfo(i, |x|);
            t.cnt + 1 <= |Span(chunks, t.num, i.head.num)|
            && i'.tail.cnt <= |Span(chunks, i'.tail.num, i.head.num)|
            && Span(chunks, t.num, i.head.num)[t.cnt..] == [x] + Span(chunks, i'.tail.num, i.head.num)[i'.tail.cnt..]
  {
    var t, h := i.tail, i.head;
    var c := chunks[t.num];
    var i' := GetInfo(i, |x|);
    SpanFirst(chunks, t.num, h.num);
    var s := Span(chunks, t.num, h.num);
    if i'.tail.num != t.num {
      assert s[t.cnt..] == [c[t.cnt]] + Span(chunks, t.num + 1, h.num);
    } else {
      assert s[t.cnt] == c[t.cnt];
      assert s[t.cnt..] == [s[t.cnt]] + s[t.cnt + 1..];
    }
  }

  /** `_get` on a non-empty consistent state: the record at the tail is the
      oldest queued record, and advancing the tail leaves the rest in order. */
  lemma GetStep(i: Info, files: map<nat, Blob>, chunks: Chunks)
    requires Consistent(i, files, chunks) && !AtOrPast(i.tail, i.head)
    ensures i.tail.cnt < |chunks[i.tail.num]|
    ensures var t := i.tail;
            var c := chunks[t.num];
            t.offset <= |files[t.num]|
            && ReadFrame(files[t.num], t.offset) == Got(c[t.cnt], t.offset + 4 + |c[t.cnt]|)
    ensures var t := i.tail;
            var i' := GetInfo(i, |chunks[t.num][t.cnt]|);
            Consistent(i', files, chunks)
            && (ContentsSize(i, files, chunks); ContentsSize(i', files, chunks);
                Contents(i, chunks) == [chunks[t.num][t.cnt]] + Contents(i', chunks))
  {
    GetRead(i, files, chunks);
    GetCursors(i, |chunks[i.tail.num][i.tail.cnt]|);
    GetCounts(i, files, chunks);
    GetSpan(i, chunks, chunks[i.tail.num][i.tail.cnt]);
  }

  // ---------------------------------------------------------------- tail cleanup

  /** Every chunk index in [k, n) has a file. */
  ghost predicate RunUpTo(files: map<nat, Blob>, k: nat, n: nat) {
    forall j :: k <= j < n ==> j in files
  }

  /** What `_clear_tail_file` leaves: walking down from n - 1, chunk files are
      removed until the first missing one. Exactly the files in an unbroken
      run just below n go; everything else stays as it was. */
  function RemoveRun(files: map<nat, Blob>, n: nat): (r: map<nat, Blob>)
    ensures forall k :: k in r <==> k in files && !(k < n && RunUpTo(files, k, n))
    ensures forall k :: k in r ==> r[k] == files[k]
    decreases n
  {
    if n == 0 || n - 1 !in files then
      assert forall k: nat :: k < n ==> !RunUpTo(files, k, n) by {
        forall k: nat | k < n ensures !RunUpTo(files, k, n) {
          assert k <= n - 1 < n && n - 1 !in files;
        }
      }
      files
    else
      var f := files - {n - 1};
      var r := RemoveRun(f, n - 1);
      assert forall k: nat :: k < n - 1 ==> (RunUpTo(f, k, n - 1) <==> RunUpTo(files, k, n)) by {
        forall k: nat | k < n - 1 ensures RunUpTo(f, k, n - 1) <==> RunUpTo(files, k, n) {
          if RunUpTo(f, k, n - 1) {
            forall j | k <= j < n ensures j in files {
              if j < n - 1 { assert j in f; }
            }
          }
        }
      }
      r
  }

  // ---------------------------------------------------------------- recovery

  /** The chunk files as `__init__` / `_async_init` leave them: the head file
      is truncated to the recorded head offset if it is longer, and created
      empty if absent (it is opened in append mode). */
  function RecoveredFiles(files: map<nat, Blob>, h: Pos): (r: map<nat, Blob>)
    ensures r.Keys == files.Keys + {h.num}
    ensures forall k :: k in files && k != h.num ==> r[k] == files[k]
    ensures h.num !in files ==> r[h.num] == []
    ensures h.num in files ==>
              r[h.num] == (if h.offset < |files[h.num]| then files[h.num][..h.offset] else files[h.num])
  {
    var f := if h.num in files && h.offset < |files[h.num]| then files[h.num := files[h.num][..h.offset]]
             else files;
    if h.num in f then f else f[h.num := []]
  }

  /** A directory a queue can be reopened from: `c0` says what each chunk
      holds, and after the head truncation the chunks agree with the info. */
  ghost predicate DiskConsistent(d: Disk, chunksize: int, c0: Chunks) {
    var i := LoadInfo(d.infoFile, chunksize);
    Consistent(i, RecoveredFiles(d.files, i.head), c0)
  }

  /** The records a reopened queue delivers. */
  ghost function DiskItems(d: Disk, chunksize: int, c0: Chunks): seq<Record>
    requires DiskConsistent(d, chunksize, c0)
  {
    var i := LoadInfo(d.infoFile, chunksize);
    ContentsSize(i, RecoveredFiles(d.files, i.head), c0);
    Contents(i, c0)
  }

  // ---------------------------------------------------------------- engine state

  /** The invariant of a queue engine, on the values of its fields: the
      current state is consistent, and so is the directory as last saved
      (the info file, or a fresh info when there is none); the saved state
      has the same head and differs from the current one only by `pending`,
      the records read since the last save, which it still holds. */
  ghost predicate Good(cs: int, i: Info, files: map<nat, Blob>, infoFile: Option<Info>,
                       chunks: Chunks, pending: seq<Record>) {
    var s := LoadInfo(infoFile, cs);
    Consistent(i, files, chunks)
    && Consistent(s, files, chunks)
    && s.head == i.head && s.chunksize == i.chunksize
    && (ContentsSize(i, files, chunks); ContentsSize(s, files, chunks);
        Contents(s, chunks) == pending + Contents(i, chunks))
  }

  /** After `_saveinfo` the saved state is the current one. */
  lemma SaveGood(cs: int, i: Info, files: map<nat, Blob>, chunks: Chunks)
    requires Consistent(i, files, chunks)
    ensures Good(cs, i, RemoveRun(files, i.tail.num), Some(i), chunks, [])
  {
    var f := RemoveRun(files, i.tail.num);
    assert FilesHold(i, f, chunks);
    ContentsSize(i, f, chunks);
  }

  /** `_get` keeps the invariant: the record read joins `pending`. */
  lemma GetGood(cs: int, i: Info, files: map<nat, Blob>, infoFile: Option<Info>,
                chunks: Chunks, pending: seq<Record>)
    requires Good(cs, i, files, infoFile, chunks, pending) && !AtOrPast(i.tail, i.head)
    ensures i.tail.cnt < |chunks[i.tail.num]|
    ensures var t := i.tail;
            var x := chunks[t.num][t.cnt];
            t.offset <= |files[t.num]|
            && ReadFrame(files[t.num], t.offset) == Got(x, t.offset + 4 + |x|)
            && Good(cs, GetInfo(i, |x|), files, infoFile, chunks, pending + [x])
            && (ContentsSize(i, files, chunks); ContentsSize(GetInfo(i, |x|), files, chunks);
                Contents(i, chunks) == [x] + Contents(GetInfo(i, |x|), chunks))
  {
    GetStep(i, files, chunks);
  }

  /** Reopening the directory of a good state (with whatever chunksize) gives
      a consistent queue holding `pending` followed by the queued records. */
  lemma ReopenGood(cs: int, cs': int, i: Info, files: map<nat, Blob>, infoFile: Option<Info>,
                   chunks: Chunks, pending: seq<Record>)
    requires Good(cs, i, files, infoFile, chunks, pending)
    ensures DiskConsistent(Disk(infoFile, files), cs', chunks)
    ensures (ContentsSize(i, files, chunks);
             DiskItems(Disk(infoFile, files), cs', chunks) == pending + Contents(i, chunks))
  {
    var s := LoadInfo(infoFile, cs);
    RecoveredWhole(s, files, chunks);
    if infoFile.None? {
      ReopenFresh(cs, cs', files, chunks);
    }
  }

  /** Without an info file, any chunksize reopens to the empty queue. */
  lemma ReopenFresh(cs: int, cs': int, files: map<nat, Blob>, chunks: Chunks)
    requires Consistent(FreshInfo(cs), files, chunks)
    ensures Consistent(FreshInfo(cs'), files, chunks)
    ensures (ContentsSize(FreshInfo(cs'), files, chunks); Contents(FreshInfo(cs'), chunks) == [])
  {
    var s' := FreshInfo(cs');
    assert CursorsOk(s');
    assert Span(chunks, 0, 0) == chunks[0] == [];
  }

  /** A consistent directory opens to a good state with nothing pending,
      holding the records the directory holds. */
  lemma RecoverGood(d: Disk, cs: int, c0: Chunks)
    requires DiskConsistent(d, cs, c0)
    ensures var i := LoadInfo(d.infoFile, cs);
            var f := RecoveredFiles(d.files, i.head);
            Good(cs, i, f, d.infoFile, c0, [])
            && (ContentsSize(i, f, c0); Contents(i, c0) == DiskItems(d, cs, c0))
  {
    var i := LoadInfo(d.infoFile, cs);
    var f := RecoveredFiles(d.files, i.head);
    ContentsSize(i, f, c0);
    assert [] + Contents(i, c0) == Contents(i, c0);
  }

  /** A consistent directory has nothing past the head offset to cut off. */
  lemma RecoveredWhole(i: Info, files: map<nat, Blob>, chunks: Chunks)
    requires Consistent(i, files, chunks)
    ensures RecoveredFiles(files, i.head) == files
  {
    var r := RecoveredFiles(files, i.head);
    assert i.head.num in files && i.head.offset == |files[i.head.num]|;
    assert r.Keys == files.Keys;
    assert forall k :: k in r ==> r[k] == files[k];
  }

  /** Bytes appended after the head offset are cut off again on reopening. */
  lemma RecoveredTorn(files: map<nat, Blob>, h: Pos, junk: Blob)
    requires h.num in files && h.offset == |files[h.num]|
    ensures RecoveredFiles(files[h.num := files[h.num] + junk], h) == RecoveredFiles(files, h)
  {
    var f := files[h.num := files[h.num] + junk];
    assert (files[h.num] + junk)[..h.offset] == files[h.num];
    var r, r0 := RecoveredFiles(f, h), RecoveredFiles(files, h);
    assert r.Keys == r0.Keys;
    assert forall k :: k in r ==> r[k] == r0[k];
  }

  /** An empty chunk file beyond the head is one a consistent state may
      have. */
  lemma EmptyPastHead(i: Info, files: map<nat, Blob>, chunks: Chunks, k: nat)
    requires Consistent(i, files, chunks) && k > i.head.num
    ensures Consistent(i, files[k := []], chunks)
  {
    var f := files[k := []];
    assert FilesHold(i, f, chunks);
    assert CountsOk(i, f, chunks);
  }

  /** The chunk files of a `_put` torn before its info was saved: `junk`
      (part or all of the record's frame) reached the head chunk `h`, and,
      when the put rotated, chunk h + 1 was opened with 'ab+'. */
  function TornFiles(files: map<nat, Blob>, h: nat, junk: Blob, rotated: bool): (r: map<nat, Blob>)
    requires h in files
    ensures h in r && r[h] == files[h] + junk
    ensures r.Keys == files.Keys + (if rotated then {h + 1} else {})
    ensures forall k :: k in files && k != h ==> r[k] == files[k]
    ensures rotated && h + 1 !in files ==> r[h + 1] == []
  {
    var f := files[h := files[h] + junk];
    if rotated && h + 1 !in files then f[h + 1 := []] else f
  }

  /** An empty chunk file beyond the head keeps a good state good. */
  lemma EmptyPastHeadGood(cs: int, i: Info, files: map<nat, Blob>, infoFile: Option<Info>,
                          chunks: Chunks, pending: seq<Record>, k: nat)
    requires Good(cs, i, files, infoFile, chunks, pending) && k > i.head.num
    ensures Good(cs, i, files[k := []], infoFile, chunks, pending)
  {
    EmptyPastHead(i, files, chunks, k);
    EmptyPastHead(LoadInfo(infoFile, cs), files, chunks, k);
  }

  /** Bytes torn into the head chunk of a good state are cut off again. */
  lemma TornHeadGood(cs: int, cs': int, i: Info, files: map<nat, Blob>, infoFile: Option<Info>,
                     chunks: Chunks, pending: seq<Record>, junk: Blob)
    requires Good(cs, i, files, infoFile, chunks, pending)
    ensures i.head.num in files
    ensures var d := Disk(infoFile, files[i.head.num := files[i.head.num] + junk]);
            DiskConsistent(d, cs', chunks)
            && (ContentsSize(i, files, chunks); DiskItems(d, cs', chunks) == pending + Contents(i, chunks))
  {
    ReopenGood(cs, cs', i, files, infoFile, chunks, pending);
    assert LoadInfo(infoFile, cs').head == i.head;
    assert i.head.num in files && i.head.offset == |files[i.head.num]|;
    RecoveredTorn(files, i.head, junk);
  }

  /** A torn `_put` (record bytes written, perhaps the next chunk opened,
      info not yet replaced) still reopens to the saved contents: the head
      truncation discards the partial record, and the opened chunk is empty
      and beyond the saved head. */
  lemma TornWriteGood(cs: int, cs': int, i: Info, files: map<nat, Blob>, infoFile: Option<Info>,
                      chunks: Chunks, pending: seq<Record>, junk: Blob, rotated: bool)
    requires Good(cs, i, files, infoFile, chunks, pending)
    ensures i.head.num in files
    ensures var d := Disk(infoFile, TornFiles(files, i.head.num, junk, rotated));
            DiskConsistent(d, cs', chunks)
            && (ContentsSize(i, files, chunks); DiskItems(d, cs', chunks) == pending + Contents(i, chunks))
  {
    var h := i.head.num;
    assert h in files;
    if rotated && h + 1 !in files {
      var g := files[h + 1 := []];
      EmptyPastHeadGood(cs, i, files, infoFile, chunks, pending, h + 1);
      assert TornFiles(files, h, junk, rotated) == g[h := g[h] + junk];
      TornHeadGood(cs, cs', i, g, infoFile, chunks, pending, junk);
    } else {
      assert TornFiles(files, h, junk, rotated) == files[h := files[h] + junk];
      TornHeadGood(cs, cs', i, files, infoFile, chunks, pending, junk);
    }
  }

  // ---------------------------------------------------------------- engine

  /** The mutable state of a file-based queue: the in-memory info, the chunk
      files and the info file. The head file handle is the head chunk opened
      for appending; the tail handle is the tail chunk positioned at
      `info.tail.offset`. */
  class Engine {
    /** The constructor's chunksize, used only when there is no info file. */
    const defaultChunksize: int
    var info: Info
    var files: map<nat, Blob>
    var infoFile: Option<Info>
    /** The records each chunk file holds. */
    ghost var chunks: Chunks
    /** The records read since the info file was last written. */
    ghost var pending: seq<Record>
    /** The chunk files fsynced before being closed, in order. */
    ghost var synced: seq<nat>

    ghost predicate Valid()
      reads this
    {
      Good(defaultChunksize, info, files, infoFile, chunks, pending)
    }

    /** The queued records, oldest first. */
    ghost function Items(): seq<Record>
      reads this
      requires Consistent(info, files, chunks)
    {
      ContentsSize(info, files, chunks);
      Contents(info, chunks)
    }

    /** The queue directory as it is on disk. */
    function Snapshot(): Disk
      reads this
    {
      Disk(infoFile, files)
    }

    constructor (cs: int, i: Info, fs: map<nat, Blob>, inf: Option<Info>, ghost c0: Chunks)
      ensures defaultChunksize == cs && info == i && files == fs && infoFile == inf
      ensures chunks == c0 && pending == [] && synced == []
    {
      defaultChunksize := cs;
      info := i;
      files := fs;
      infoFile := inf;
      chunks := c0;
      pending := [];
      synced := [];
    }

    /** Open a queue directory: load the info, truncate the head chunk to the
        recorded offset, open (creating) the head chunk and open the tail
        chunk, which fails if its file is missing. `c0` is the ghost account
        of what the chunk files hold. */
    static method Recover(d: Disk, chunksize: int, ghost c0: Chunks) returns (r: Result<Engine, Exc>)
      ensures var i := LoadInfo(d.infoFile, chunksize);
              r.Err? <==> i.tail.num != i.head.num && i.tail.num !in d.files
      ensures r.Err? ==> r.error == FileNotFound
      ensures r.Ok? ==> fresh(r.value) && r.value.defaultChunksize == chunksize
      ensures r.Ok? ==> var i := LoadInfo(d.infoFile, chunksize);
                        r.value.info == i && r.value.infoFile == d.infoFile
                        && r.value.files == RecoveredFiles(d.files, i.head)
                        && r.value.pending == [] && r.value.synced == []
      ensures DiskConsistent(d, chunksize, c0) ==>
                r.Ok? && r.value.Valid() && r.value.Items() == DiskItems(d, chunksize, c0)
      ensures d.infoFile.None? ==> r.Ok? && r.value.info == FreshInfo(chunksize)
    {
      var i := LoadInfo(d.infoFile, chunksize);
      var files := d.files;
      var h := i.head;
      if h.num in files && h.offset < |files[h.num]| {
        files := files[h.num := files[h.num][..h.offset]];
      }
      if h.num !in files {
        files := files[h.num := []];
      }
      if i.tail.num !in files {
        return Err(FileNotFound);
      }
      assert files == RecoveredFiles(d.files, h);
      var e := new Engine(chunksize, i, files, d.infoFile, c0);
      if DiskConsistent(d, chunksize, c0) {
        RecoverGood(d, chunksize, c0);
      }
      r := Ok(e);
    }

    /** `_clear_tail_file`: remove the chunk files below the tail, walking
        down from tnum - 1 and stopping at the first missing one. */
    method ClearTailFiles()
      modifies this
      ensures files == RemoveRun(old(files), info.tail.num)
      ensures info == old(info) && infoFile == old(infoFile)
      ensures chunks == old(chunks) && pending == old(pending) && synced == old(synced)
    {
      var tnum: nat := info.tail.num;
      while tnum >= 1
        invariant tnum <= info.tail.num
        invariant RemoveRun(files, tnum) == RemoveRun(old(files), info.tail.num)
        invariant info == old(info) && infoFile == old(infoFile)
        invariant chunks == old(chunks) && pending == old(pending) && synced == old(synced)
        decreases tnum
      {
        tnum := tnum - 1;
        if tnum in files {
          files := files - {tnum};
        } else {
          break;
        }
      }
    }

    /** `_saveinfo`: replace the info file with the current info, then clear
        the tail files. Afterwards a reopen resumes exactly here. */
    method SaveInfo()
      requires Consistent(info, files, chunks)
      modifies this
      ensures Valid()
      ensures infoFile == Some(info) && pending == []
      ensures files == RemoveRun(old(files), info.tail.num)
      ensures info == old(info) && chunks == old(chunks) && synced == old(synced)
    {
      SaveGood(defaultChunksize, info, files, chunks);
      infoFile := Some(info);
      pending := [];
      ClearTailFiles();
    }

    /** The body of `_put` up to the save: append the framed record to the
        head chunk and count it; at chunksize fsync (when asked), close the
        chunk and open the next one for appending. */
    method WriteRecord(p: Record, fsyncOnRotate: bool)
      requires Consistent(info, files, chunks)
      modifies this
      ensures info == PutInfo(old(info), p)
      ensures files == PutFiles(old(files), old(info), p)
      ensures chunks == PutChunks(old(chunks), old(info), p)
      ensures synced == if old(info.head.cnt) + 1 == old(info.chunksize) && fsyncOnRotate
                        then old(synced) + [old(info.head.num)] else old(synced)
      ensures infoFile == old(infoFile) && pending == old(pending)
    {
      var h := info.head;
      assert h.num in files && h.num in chunks;
      files := files[h.num := files[h.num] + Frame(p)];
      chunks := chunks[h.num := chunks[h.num] + [p]];
      var hnum, hpos := h.num, h.cnt + 1;
      if hpos == info.chunksize {
        hpos := 0;
        hnum := hnum + 1;
        if fsyncOnRotate {
          synced := synced + [h.num];
        }
        if hnum !in files {
          files := files[hnum := []];
        } else {
          // 'ab+' on an existing chunk: one beyond the head, hence empty
          assert files[hnum] == old(files)[hnum] == [];
          assert files == files[hnum := []];
        }
        chunks := chunks[hnum := []];
      }
      info := info.(size := info.size + 1, head := Pos(hnum, hpos, |files[hnum]|));
    }

    /** `_put`: write the record, record the new head and save the info. */
    method Append(p: Record, fsyncOnRotate: bool)
      requires Valid()
      modifies this
      ensures Valid()
      ensures Items() == old(Items()) + [p]
      ensures info == PutInfo(old(info), p)
      ensures files == RemoveRun(PutFiles(old(files), old(info), p), info.tail.num)
      ensures infoFile == Some(info) && pending == []
      ensures chunks == PutChunks(old(chunks), old(info), p)
      ensures synced == if old(info.head.cnt) + 1 == info.chunksize && fsyncOnRotate
                        then old(synced) + [old(info.head.num)] else old(synced)
    {
      PutStep(info, files, chunks, p);
      WriteRecord(p, fsyncOnRotate);
      SaveInfo();
    }

    /** `_get` without the `update_info` bookkeeping: None when the tail has
        reached the head; otherwise read the record at the tail, advance the
        tail (rotating at chunksize) and count it out. Nothing is saved. */
    method ReadNext() returns (r: Option<Record>)
      requires Valid()
      modifies this
      ensures Valid()
      ensures r.None? <==> old(info.size) == 0
      ensures r.None? ==> info == old(info) && pending == old(pending)
      ensures r.Some? ==> old(Items()) == [r.value] + Items() && pending == old(pending) + [r.value]
      ensures r.Some? ==> info == GetInfo(old(info), |r.value|)
      ensures files == old(files) && infoFile == old(infoFile) && chunks == old(chunks) && synced == old(synced)
    {
      var i0 := info;
      var t, h := i0.tail, i0.head;
      GuardIffEmpty(i0);
      if AtOrPast(t, h) {
        return None;
      }
      GetGood(defaultChunksize, i0, files, infoFile, chunks, pending);
      var fr := ReadFrame(files[t.num], t.offset);
      var data: Record := fr.payload;
      var toffset := fr.next;
      var tnum, tcnt := t.num, t.cnt + 1;
      if tcnt == i0.chunksize && tnum <= h.num {
        tcnt, toffset := 0, 0;
        tnum := tnum + 1;
      }
      var i := i0.(size := i0.size - 1, tail := Pos(tnum, tcnt, toffset));
      assert i == GetInfo(i0, |data|);
      info, pending := i, pending + [data];
      r := Some(data);
    }
  }

  /** What survives a crash: the directory as last saved reopens (whatever
      chunksize the new queue is given) as a consistent queue that delivers
      the records read since that save again, then the queued ones, in put
      order — delivery is at least once. */
  lemma Reopen(e: Engine, chunksize: int)
    requires e.Valid()
    ensures DiskConsistent(e.Snapshot(), chunksize, e.chunks)
    ensures DiskItems(e.Snapshot(), chunksize, e.chunks) == e.pending + e.Items()
  {
    ReopenGood(e.defaultChunksize, chunksize, e.info, e.files, e.infoFile, e.chunks, e.pending);
  }

  /** A crash in the middle of `_put`, after the record bytes reached the
      head chunk (and, on rotation, after the next chunk was opened) but
      before the info was replaced, loses nothing already saved: the
      reopened queue is the same as if the put never started. */
  lemma TornPut(e: Engine, chunksize: int, junk: Blob, rotated: bool)
    requires e.Valid()
    ensures e.info.head.num in e.files
    ensures var d := Disk(e.infoFile, TornFiles(e.files, e.info.head.num, junk, rotated));
            DiskConsistent(d, chunksize, e.chunks) && DiskItems(d, chunksize, e.chunks) == e.pending + e.Items()
  {
    TornWriteGood(e.defaultChunksize, chunksize, e.info, e.files, e.infoFile, e.chunks, e.pending, junk, rotated);
  }
}
