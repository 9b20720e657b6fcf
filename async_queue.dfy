/** The asyncio file-based queue of async_queue.py: the same chunk store and
    admission rules as `Queue`, with the directory recovered lazily by the
    first call, an fsync of each chunk before rotating away from it, and an
    `autosave` mode in which every get saves the info at once. The serializer
    turns items into the records the store holds; a record here is the
    serialized item. */
module AsyncFileQueue {
  import opened Common
  import opened ChunkStore
  import opened FileQueue

  /** Where `_gettempfile_async` creates the temporary info file: the tempdir
      if it is set, otherwise the default temporary location. */
  function TempLocation(tempdir: Option<string>, defaultTemp: string): (r: string)
    ensures tempdir.Some? && tempdir.value != "" ==> r == tempdir.value
    ensures r != defaultTemp ==> tempdir == Some(r)
  {
    if tempdir.Some? && tempdir.value != "" then tempdir.value else defaultTemp
  }

  /** The constructor's tempdir rule: a given tempdir on another device than
      the queue path is a ValueError; without one, the queue path itself is
      used when the default temporary location (`defaultTemp`, where
      `mkstemp()` puts its file) is on another device. Either way the info
      file is then always written on the queue's own device, so the rename
      that replaces it stays within one filesystem. */
  function ChooseTempDir(path: string, tempdir: Option<string>, defaultTemp: string,
                         device: string -> int): (r: Result<Option<string>, Exc>)
    ensures r.Err? <==> tempdir.Some? && tempdir.value != "" && device(path) != device(tempdir.value)
    ensures r.Err? ==> r.error == ValueError
    ensures r.Ok? && path != "" ==> device(TempLocation(r.value, defaultTemp)) == device(path)
    ensures r.Ok? && tempdir.Some? && tempdir.value != "" ==> r.value == tempdir
    ensures r.Ok? && r.value != tempdir ==> r.value == Some(path)
  {
    if tempdir.Some? && tempdir.value != "" then
      if device(path) != device(tempdir.value) then Err(ValueError) else Ok(tempdir)
    else if device(path) != device(defaultTemp) then Ok(Some(path))
    else Ok(tempdir)
  }

  class AsyncQueue {
    const maxsize: int
    const chunksize: int
    const tempdir: Option<string>
    const autosave: bool
    /** The queue directory as the first call finds it. */
    const dir: Disk
    /** What its chunk files hold. */
    ghost const dirChunks: Chunks
    /** The chunk store; null until `_async_init` has run (`info is None`). */
    var store: Engine?
    var unfinishedTasks: int
    var updateInfo: bool

    ghost predicate Valid()
      reads this, store
    {
      if store == null then
        DiskConsistent(dir, chunksize, dirChunks) && unfinishedTasks == 0 && updateInfo
      else
        store.Valid() && store.defaultChunksize == chunksize && unfinishedTasks >= 0
        && (!updateInfo ==> store.pending == [] && store.infoFile == Some(store.info))
    }

    /** The queued records, oldest first; before initialisation, the records
        the directory holds. */
    ghost function Items(): seq<Record>
      reads this, store
      requires Valid()
    {
      if store == null then DiskItems(dir, chunksize, dirChunks) else store.Items()
    }

    /** The unfinished count once initialised: before `_async_init` it is
        still 0, and the first call sets it to the persisted size. */
    ghost function Unfinished(): int
      reads this, store
      requires Valid()
    {
      if store == null then |Items()| else unfinishedTasks
    }

    /** The records got since the info file was last written. */
    ghost function Unsaved(): seq<Record>
      reads this, store
    {
      if store == null then [] else store.pending
    }

    constructor (maxsize: int, chunksize: int, tempdir: Option<string>, autosave: bool,
                 dir: Disk, ghost dirChunks: Chunks)
      ensures this.maxsize == maxsize && this.chunksize == chunksize && this.tempdir == tempdir
      ensures this.autosave == autosave && this.dir == dir && this.dirChunks == dirChunks
      ensures store == null && unfinishedTasks == 0 && updateInfo
    {
      this.maxsize := maxsize;
      this.chunksize := chunksize;
      this.tempdir := tempdir;
      this.autosave := autosave;
      this.dir := dir;
      this.dirChunks := dirChunks;
      store := null;
      unfinishedTasks := 0;
      updateInfo := true;
    }

    /** `AsyncQueue(path, maxsize, chunksize, tempdir, serializer, autosave)`:
        only the tempdir rule runs here; the directory is read later. */
    static method Open(path: string, d: Disk, maxsize: int, chunksize: int, tempdir: Option<string>,
                       autosave: bool, defaultTemp: string, device: string -> int, ghost c0: Chunks)
      returns (r: Result<AsyncQueue, Exc>)
      ensures r.Err? <==> ChooseTempDir(path, tempdir, defaultTemp, device).Err?
      ensures r.Err? ==> r.error == ValueError
      ensures r.Ok? ==> fresh(r.value) && r.value.store == null
                        && r.value.tempdir == ChooseTempDir(path, tempdir, defaultTemp, device).value
                        && r.value.maxsize == maxsize && r.value.autosave == autosave
      ensures r.Ok? && DiskConsistent(d, chunksize, c0) ==>
                r.value.Valid() && r.value.Items() == DiskItems(d, chunksize, c0)
    {
      var t := ChooseTempDir(path, tempdir, defaultTemp, device);
      match t
      case Err(e) =>
        r := Err(e);
      case Ok(td) =>
        var q := new AsyncQueue(maxsize, chunksize, td, autosave, d, c0);
        r := Ok(q);
    }

    /** `_async_init`: the first call recovers the directory (truncating the
        head chunk, opening head and tail) and starts the unfinished count at
        the persisted size; later calls do nothing. */
    method AsyncInit()
      requires Valid()
      modifies this
      ensures Valid() && store != null && Items() == old(Items())
      ensures old(store) != null ==> unchanged(this)
      ensures old(store) == null ==> fresh(store) && unfinishedTasks == |Items()| && updateInfo
                                     && store.pending == [] && store.infoFile == dir.infoFile
    {
      if store == null {
        var e := Engine.Recover(dir, chunksize, dirChunks);
        var engine := e.value;
        ContentsSize(engine.info, engine.files, engine.chunks);
        store := engine;
        unfinishedTasks := engine.info.size;
      }
    }

    /** The body of `put` once the queue is initialised. */
    method PutReady(item: Record, block: bool, timeout: Option<real>) returns (r: Call<()>)
      requires Valid() && store != null
      modifies this, store
      ensures Valid() && store == old(store)
      ensures var d := PutAdmission(maxsize, old(store.info.size), block, timeout);
              (d == Proceed <==> r == Returned(()))
              && (d.Reject? ==> r == Raised(d.exc)) && (r.Raised? ==> d.Reject?)
              && (d == Wait <==> r == Blocks)
      ensures r.Returned? ==> Items() == old(Items()) + [item] && unfinishedTasks == old(unfinishedTasks) + 1
                              && store.infoFile == Some(store.info) && store.pending == []
                              && updateInfo == old(updateInfo)
      ensures !r.Returned? ==> unchanged(this, store)
    {
      var d := PutAdmission(maxsize, store.info.size, block, timeout);
      match d
      case Reject(e) =>
        return Raised(e);
      case Wait =>
        return Blocks;
      case Proceed =>
        Enqueue(item);
        r := Returned(());
    }

    /** `_put` with an fsync before each rotation, and one more unfinished
        task. */
    method Enqueue(item: Record)
      requires Valid() && store != null
      modifies this, store
      ensures Valid() && store == old(store)
      ensures Items() == old(Items()) + [item] && unfinishedTasks == old(unfinishedTasks) + 1
      ensures store.infoFile == Some(store.info) && store.pending == [] && updateInfo == old(updateInfo)
    {
      store.Append(item, true);
      unfinishedTasks := unfinishedTasks + 1;
    }

    /** `put(item, block, timeout)`: initialise, check admission, `_put` with
        an fsync before each rotation, one more unfinished task. */
    method Put(item: Record, block: bool, timeout: Option<real>) returns (r: Call<()>)
      requires Valid()
      modifies this, store
      ensures Valid() && store != null
      ensures var d := PutAdmission(maxsize, old(|Items()|), block, timeout);
              (d == Proceed <==> r == Returned(()))
              && (d.Reject? ==> r == Raised(d.exc)) && (r.Raised? ==> d.Reject?)
              && (d == Wait <==> r == Blocks)
      ensures r.Returned? ==> Items() == old(Items()) + [item] && unfinishedTasks == old(Unfinished()) + 1
                              && store.infoFile == Some(store.info) && Unsaved() == []
      ensures updateInfo == old(updateInfo)
      ensures !r.Returned? ==> Items() == old(Items()) && Unsaved() == old(Unsaved())
    {
      AsyncInit();
      ContentsSize(store.info, store.files, store.chunks);
      r := PutReady(item, block, timeout);
    }

    method PutNowait(item: Record) returns (r: Call<()>)
      requires Valid()
      modifies this, store
      ensures Valid() && store != null
      ensures r == Returned(()) <==> maxsize <= 0 || old(|Items()|) != maxsize
      ensures r.Raised? <==> !r.Returned?
      ensures r.Raised? ==> r.exc == Exc.Full && Items() == old(Items())
      ensures r.Returned? ==> Items() == old(Items()) + [item]
    {
      r := Put(item, false, None);
    }

    /** The body of `get` once the queue is initialised. */
    method GetReady(block: bool, timeout: Option<real>) returns (r: Call<Record>)
      requires Valid() && store != null
      modifies this, store
      ensures Valid() && store == old(store)
      ensures var d := GetAdmission(old(store.info.size), block, timeout);
              (d == Proceed <==> r.Returned?)
              && (d.Reject? ==> r == Raised(d.exc)) && (r.Raised? ==> d.Reject?)
              && (d == Wait <==> r == Blocks)
      ensures r.Returned? ==> old(Items()) == [r.value] + Items()
      ensures r.Returned? && autosave ==> !updateInfo && store.pending == [] && store.infoFile == Some(store.info)
      ensures r.Returned? && !autosave ==> updateInfo && store.pending == old(store.pending) + [r.value]
      ensures !r.Returned? ==> unchanged(this, store)
      ensures unfinishedTasks == old(unfinishedTasks)
    {
      var d := GetAdmission(store.info.size, block, timeout);
      match d
      case Reject(e) =>
        return Raised(e);
      case Wait =>
        return Blocks;
      case Proceed =>
        ContentsSize(store.info, store.files, store.chunks);
        var x := Serve();
        r := Returned(x);
    }

    /** `_get` on a non-empty queue, then the autosave rule. */
    method Serve() returns (x: Record)
      requires Valid() && store != null && store.info.size > 0
      modifies this, store
      ensures Valid() && store == old(store)
      ensures old(Items()) == [x] + Items()
      ensures autosave ==> !updateInfo && store.pending == [] && store.infoFile == Some(store.info)
      ensures !autosave ==> updateInfo && store.pending == old(store.pending) + [x]
      ensures unfinishedTasks == old(unfinishedTasks)
    {
      var next := store.ReadNext();
      x := next.value;
      if autosave {
        store.SaveInfo();
        updateInfo := false;
      } else {
        updateInfo := true;
      }
    }

    /** `get(block, timeout)`: initialise, check admission, `_get`; under
        autosave the info is saved at once and `update_info` cleared,
        otherwise `update_info` is set. */
    method Get(block: bool, timeout: Option<real>) returns (r: Call<Record>)
      requires Valid()
      modifies this, store
      ensures Valid() && store != null
      ensures var d := GetAdmission(old(|Items()|), block, timeout);
              (d == Proceed <==> r.Returned?)
              && (d.Reject? ==> r == Raised(d.exc)) && (r.Raised? ==> d.Reject?)
              && (d == Wait <==> r == Blocks)
      ensures r.Returned? ==> old(Items()) == [r.value] + Items()
      ensures r.Returned? && autosave ==> !updateInfo && Unsaved() == [] && store.infoFile == Some(store.info)
      ensures r.Returned? && !autosave ==> updateInfo && Unsaved() == old(Unsaved()) + [r.value]
      ensures !r.Returned? ==> Items() == old(Items()) && Unsaved() == old(Unsaved())
      ensures unfinishedTasks == old(Unfinished())
    {
      AsyncInit();
      ContentsSize(store.info, store.files, store.chunks);
      r := GetReady(block, timeout);
    }

    method GetNowait() returns (r: Call<Record>)
      requires Valid()
      modifies this, store
      ensures Valid() && store != null
      ensures r.Returned? <==> old(|Items()|) > 0
      ensures r.Raised? <==> !r.Returned?
      ensures r.Raised? ==> r.exc == Exc.Empty && Items() == old(Items())
      ensures r.Returned? ==> old(Items()) == [r.value] + Items()
    {
      r := Get(false, None);
    }

    /** `_task_done`: nothing under autosave; otherwise save the info if a
        get left it stale. */
    method SaveIfStale()
      requires Valid() && store != null
      modifies this, store
      ensures Valid() && store == old(store)
      ensures Items() == old(Items()) && unfinishedTasks == old(unfinishedTasks)
      ensures autosave ==> unchanged(this, store)
      ensures !autosave ==> !updateInfo && Unsaved() == [] && store.infoFile == Some(store.info)
    {
      if autosave {
        return;
      }
      if updateInfo {
        store.SaveInfo();
        updateInfo := false;
      }
    }

    /** `task_done()`: does not initialise; one task fewer, raising
        ValueError (with nothing changed) when none is unfinished, which is
        always the case before the first put or get, and notifying joiners
        when the count reaches zero (`notified`); then `_task_done`. */
    method TaskDone() returns (r: Result<bool, Exc>)
      requires Valid()
      modifies this, store
      ensures Valid() && store == old(store)
      ensures r.Err? <==> old(unfinishedTasks) == 0
      ensures old(store) == null ==> r == Err(ValueError)
      ensures r.Err? ==> r.error == ValueError && unchanged(this) && Unsaved() == old(Unsaved())
      ensures r.Ok? ==> unfinishedTasks == old(unfinishedTasks) - 1
                        && (r.value <==> unfinishedTasks == 0)
                        && Items() == old(Items())
      ensures r.Ok? && !autosave ==> !updateInfo && Unsaved() == []
    {
      var unfinished := unfinishedTasks - 1;
      var notified := false;
      if unfinished <= 0 {
        if unfinished < 0 {
          return Err(ValueError);
        }
        notified := true;
      }
      unfinishedTasks := unfinished;
      SaveIfStale();
      r := Ok(notified);
    }

    /** `qsize()`: initialise, then the persisted size. */
    method QSize() returns (n: int)
      requires Valid()
      modifies this
      ensures Valid() && store != null && Items() == old(Items())
      ensures n == |Items()|
    {
      AsyncInit();
      ContentsSize(store.info, store.files, store.chunks);
      n := store.info.size;
    }

    /** `empty()`: the size is zero. */
    method Empty() returns (b: bool)
      requires Valid()
      modifies this
      ensures Valid() && Items() == old(Items())
      ensures b <==> Items() == []
    {
      var n := QSize();
      b := n == 0;
    }

    /** `full()`: the size equals maxsize, so an unbounded queue (maxsize 0)
        is full exactly when it is empty. */
    method Full() returns (b: bool)
      requires Valid()
      modifies this
      ensures Valid() && Items() == old(Items())
      ensures b <==> |Items()| == maxsize
      ensures maxsize == 0 ==> (b <==> Items() == [])
    {
      var n := QSize();
      b := n == maxsize;
    }

    /** `join()`: returns once no task is unfinished. */
    method Join() returns (r: Call<()>)
      requires Valid()
      ensures r == Returned(()) <==> unfinishedTasks == 0
      ensures r.Returned? || r.Blocks?
    {
      r := if unfinishedTasks != 0 then Blocks else Returned(());
    }
  }
}
