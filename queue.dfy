/** The thread-safe file-based queue of queue.py: a `Queue` over the chunk
    store, with the admission rules of `put`/`get`, the unfinished-task
    counter and the `update_info` flag that delays saving the info after a
    `get` until `task_done`. Waiting is not modelled: a call that would wait
    reports `Blocks` and changes nothing. */
module FileQueue {
  import opened Common
  import opened ChunkStore

  /** What a `put` or `get` does before touching the store. */
  datatype Decision = Proceed | Reject(exc: Exc) | Wait

  /** The checks `put` makes before `_put`. Only a bounded queue (maxsize > 0)
      looks at its size, and only a full one at size == maxsize stops: a
      non-blocking put raises Full, and so does a blocking one with timeout
      0, whose deadline has already passed at the first check; any other
      blocking put waits (until a slot frees or, with a timeout, until the
      deadline raises Full). A negative timeout on a blocking put is a
      ValueError, whatever the size. */
  function PutAdmission(maxsize: int, size: int, block: bool, timeout: Option<real>): (d: Decision)
    ensures maxsize <= 0 ==> d == Proceed
    ensures d == Reject(Full) <==> maxsize > 0 && (!block || timeout == Some(0.0)) && size == maxsize
    ensures d == Reject(ValueError) <==> maxsize > 0 && block && timeout.Some? && timeout.value < 0.0
    ensures d == Wait <==> maxsize > 0 && block && size == maxsize && (timeout.None? || timeout.value > 0.0)
    ensures d.Reject? ==> d.exc == Full || d.exc == ValueError
  {
    if maxsize <= 0 then Proceed
    else if !block then (if size == maxsize then Reject(Full) else Proceed)
    else if timeout.None? then (if size == maxsize then Wait else Proceed)
    else if timeout.value < 0.0 then Reject(ValueError)
    else if size != maxsize then Proceed
    else if timeout.value == 0.0 then Reject(Full)
    else Wait
  }

  /** The checks `get` makes before `_get`: a non-blocking get on an empty
      queue raises Empty, and so does a blocking one with timeout 0; any
      other blocking one waits. A negative timeout on a blocking get is a
      ValueError, whatever the size. */
  function GetAdmission(size: int, block: bool, timeout: Option<real>): (d: Decision)
    ensures d == Reject(Empty) <==> (!block || timeout == Some(0.0)) && size == 0
    ensures d == Reject(ValueError) <==> block && timeout.Some? && timeout.value < 0.0
    ensures d == Wait <==> block && size == 0 && (timeout.None? || timeout.value > 0.0)
    ensures d.Reject? ==> d.exc == Empty || d.exc == ValueError
  {
    if !block then (if size == 0 then Reject(Empty) else Proceed)
    else if timeout.None? then (if size == 0 then Wait else Proceed)
    else if timeout.value < 0.0 then Reject(ValueError)
    else if size != 0 then Proceed
    else if timeout.value == 0.0 then Reject(Empty)
    else Wait
  }

  /** A bounded queue that starts within its bound stays within it: a put is
      admitted only below maxsize. */
  lemma PutKeepsBound(maxsize: int, size: int, block: bool, timeout: Option<real>)
    requires 0 < maxsize && size <= maxsize
    requires PutAdmission(maxsize, size, block, timeout) == Proceed
    ensures size + 1 <= maxsize
  {
  }

  /** The bound is checked with `==`, so a queue reopened with a smaller
      maxsize than it already holds admits every put. */
  lemma PutOverBound(maxsize: int, size: int, block: bool)
    requires 0 < maxsize < size
    ensures PutAdmission(maxsize, size, block, None) == Proceed
  {
  }

  /** An admitted get always finds a record. */
  lemma GetFindsRecord(size: int, block: bool, timeout: Option<real>)
    requires size >= 0 && GetAdmission(size, block, timeout) == Proceed
    ensures size > 0
  {
  }

  /** The constructor's tempdir check: a tempdir that is given (non-empty) must
      be on the device of the queue path. `device` stands for
      `os.stat(...).st_dev`. */
  function CheckTempDir(path: string, tempdir: Option<string>, device: string -> int): (r: Outcome)
    ensures r.Fail? <==> tempdir.Some? && tempdir.value != "" && device(path) != device(tempdir.value)
    ensures r.Fail? ==> r.exc == ValueError
  {
    if tempdir.Some? && tempdir.value != "" && device(path) != device(tempdir.value) then Fail(ValueError)
    else Pass
  }

  class Queue {
    const maxsize: int
    /** The chunk store: info, chunk files and head/tail handles. */
    const store: Engine
    var unfinishedTasks: int
    /** Set by `_get`; while it is clear the info file is up to date. */
    var updateInfo: bool

    ghost predicate Valid()
      reads this, store
    {
      store.Valid() && unfinishedTasks >= 0
      && (!updateInfo ==> store.pending == [] && store.infoFile == Some(store.info))
    }

    /** The queued records, oldest first. */
    ghost function Items(): seq<Record>
      reads this, store
      requires Valid()
    {
      store.Items()
    }

    constructor (maxsize: int, store: Engine)
      ensures this.maxsize == maxsize && this.store == store
      ensures unfinishedTasks == store.info.size && updateInfo
    {
      this.maxsize := maxsize;
      this.store := store;
      unfinishedTasks := store.info.size;
      updateInfo := true;
    }

    /** `Queue(path, maxsize, chunksize, tempdir)` on the directory `d`: the
        tempdir check, then the recovery of the chunk store; the unfinished
        count starts at the persisted size. */
    static method Open(path: string, d: Disk, maxsize: int, chunksize: int, tempdir: Option<string>,
                       device: string -> int, ghost c0: Chunks) returns (r: Result<Queue, Exc>)
      ensures CheckTempDir(path, tempdir, device).Fail? ==> r == Err(ValueError)
      ensures CheckTempDir(path, tempdir, device).Pass? && DiskConsistent(d, chunksize, c0) ==>
                r.Ok? && fresh(r.value) && r.value.Valid() && r.value.maxsize == maxsize
                && r.value.Items() == DiskItems(d, chunksize, c0)
                && r.value.unfinishedTasks == |r.value.Items()| && r.value.updateInfo
      ensures d.infoFile.None? && CheckTempDir(path, tempdir, device).Pass? ==>
                r.Ok? && r.value.store.info == FreshInfo(chunksize)
    {
      var check := CheckTempDir(path, tempdir, device);
      if check.Fail? {
        return Err(check.exc);
      }
      var e := Engine.Recover(d, chunksize, c0);
      match e
      case Err(x) =>
        r := Err(x);
      case Ok(engine) =>
        var q := new Queue(maxsize, engine);
        if DiskConsistent(d, chunksize, c0) {
          ContentsSize(engine.info, engine.files, engine.chunks);
        }
        r := Ok(q);
    }

    /** `put(item, block, timeout)`: the admission check, then `_put` (which
        writes the record and saves the info) and one more unfinished task. */
    method Put(item: Record, block: bool, timeout: Option<real>) returns (r: Call<()>)
      requires Valid()
      modifies this, store
      ensures Valid()
      ensures var d := PutAdmission(maxsize, old(store.info.size), block, timeout);
              (d == Proceed <==> r == Returned(()))
              && (d.Reject? ==> r == Raised(d.exc)) && (r.Raised? ==> d.Reject?)
              && (d == Wait <==> r == Blocks)
      ensures r.Returned? ==> Items() == old(Items()) + [item] && unfinishedTasks == old(unfinishedTasks) + 1
                              && store.infoFile == Some(store.info) && store.pending == []
                              && updateInfo == old(updateInfo)
      ensures !r.Returned? ==> unchanged(this, store)
    {
      var d := PutAdmission(maxsize, store.info.size, block, timeout);
      match d
      case Reject(e) =>
        return Raised(e);
      case Wait =>
        return Blocks;
      case Proceed =>
        store.Append(item, false);
        unfinishedTasks := unfinishedTasks + 1;
        r := Returned(());
    }

    method PutNowait(item: Record) returns (r: Call<()>)
      requires Valid()
      modifies this, store
      ensures Valid()
      ensures r == Returned(()) <==> maxsize <= 0 || old(store.info.size) != maxsize
      ensures r.Raised? <==> !r.Returned?
      ensures r.Raised? ==> r.exc == Full && unchanged(this, store)
      ensures r.Returned? ==> Items() == old(Items()) + [item] && unfinishedTasks == old(unfinishedTasks) + 1
                              && updateInfo == old(updateInfo)
    {
      r := Put(item, false, None);
    }

    /** `get(block, timeout)`: the admission check, then `_get`, which takes
        the oldest record and sets `update_info`; the info is not saved. */
    method Get(block: bool, timeout: Option<real>) returns (r: Call<Record>)
      requires Valid()
      modifies this, store
      ensures Valid()
      ensures var d := GetAdmission(old(store.info.size), block, timeout);
              (d == Proceed <==> r.Returned?)
              && (d.Reject? ==> r == Raised(d.exc)) && (r.Raised? ==> d.Reject?)
              && (d == Wait <==> r == Blocks)
      ensures r.Returned? ==> old(Items()) == [r.value] + Items() && updateInfo
                              && store.pending == old(store.pending) + [r.value]
                              && store.files == old(store.files) && store.infoFile == old(store.infoFile)
      ensures r.Returned? ==> unfinishedTasks == old(unfinishedTasks)
      ensures !r.Returned? ==> unchanged(this, store)
    {
      var d := GetAdmission(store.info.size, block, timeout);
      match d
      case Reject(e) =>
        return Raised(e);
      case Wait =>
        return Blocks;
      case Proceed =>
        ContentsSize(store.info, store.files, store.chunks);
        var x := store.ReadNext();
        updateInfo := true;
        r := Returned(x.value);
    }

    method GetNowait() returns (r: Call<Record>)
      requires Valid()
      modifies this, store
      ensures Valid()
      ensures r.Returned? <==> old(|Items()|) > 0
      ensures r.Raised? <==> !r.Returned?
      ensures r.Raised? ==> r.exc == Empty && unchanged(this, store)
      ensures r.Returned? ==> old(Items()) == [r.value] + Items()
    {
      ContentsSize(store.info, store.files, store.chunks);
      r := Get(false, None);
    }

    /** `_task_done`: save the info if a get left it stale. */
    method SaveIfStale()
      requires Valid()
      modifies this, store
      ensures Valid() && !updateInfo && store.pending == []
      ensures Items() == old(Items()) && store.info == old(store.info)
      ensures store.infoFile == Some(store.info)
      ensures unfinishedTasks == old(unfinishedTasks)
      ensures old(updateInfo) ==> store.files == RemoveRun(old(store.files), store.info.tail.num)
      ensures !old(updateInfo) ==> unchanged(store)
    {
      if updateInfo {
        store.SaveInfo();
        updateInfo := false;
      }
    }

    /** `task_done()`: one task fewer, raising ValueError (with nothing
        changed) when none is unfinished and notifying joiners when the count
        reaches zero (`notified`); then `_task_done`. */
    method TaskDone() returns (r: Result<bool, Exc>)
      requires Valid()
      modifies this, store
      ensures Valid()
      ensures r.Err? <==> old(unfinishedTasks) == 0
      ensures r.Err? ==> r.error == ValueError && unchanged(this, store)
      ensures r.Ok? ==> unfinishedTasks == old(unfinishedTasks) - 1
                        && (r.value <==> unfinishedTasks == 0)
                        && Items() == old(Items()) && !updateInfo && store.pending == []
                        && store.infoFile == Some(store.info)
    {
      var unfinished := unfinishedTasks - 1;
      var notified := false;
      if unfinished <= 0 {
        if unfinished < 0 {
          return Err(ValueError);
        }
        notified := true;
      }
      unfinishedTasks := unfinished;
      SaveIfStale();
      r := Ok(notified);
    }

    /** `join()`: returns once no task is unfinished. */
    method Join() returns (r: Call<()>)
      requires Valid()
      ensures r == Returned(()) <==> unfinishedTasks == 0
      ensures r.Returned? || r.Blocks?
    {
      r := if unfinishedTasks != 0 then Blocks else Returned(());
    }

    /** `qsize()`: the persisted size, which is the number of queued records. */
    method QSize() returns (n: int)
      requires Valid()
      ensures n == |Items()|
    {
      ContentsSize(store.info, store.files, store.chunks);
      n := store.info.size;
    }
  }

  /** While `update_info` is clear the directory is exactly the queue: a
      reopen (with any chunksize) delivers the queued records and nothing
      else. With it set, a reopen delivers the records got since the last
      save again first (`Reopen`). */
  lemma ReopenWhenSaved(q: Queue, chunksize: int)
    requires q.Valid() && !q.updateInfo
    ensures DiskConsistent(q.store.Snapshot(), chunksize, q.store.chunks)
    ensures DiskItems(q.store.Snapshot(), chunksize, q.store.chunks) == q.Items()
  {
    Reopen(q.store, chunksize);
  }
}
