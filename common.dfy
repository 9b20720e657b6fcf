/** Vocabulary shared by every part of the persist-queue model: optional values
    and results, bytes, the Python values that queues carry, the exceptions the
    operations raise, and the serializer interface the SQL-backed queues use. */
module Common {

  datatype Option<T> = None | Some(value: T)

  datatype Result<T, E> = Ok(value: T) | Err(error: E)

  /** A call that either completed or raised; used for operations with no result. */
  datatype Outcome = Pass | Fail(exc: Exc)

  newtype byte = x: int | 0 <= x < 256

  /** A serialized value, or the bytes of a file. */
  type Blob = seq<byte>

  /** The Python values the queues carry. Dict keys are strings; a dict keeps
      its insertion order, as Python dicts do. */
  datatype PyValue =
    | PyNone
    | PyInt(i: int)
    | PyFloat(f: real)
    | PyStr(s: string)
    | PyBytes(b: Blob)
    | PyList(elems: seq<PyValue>)
    | PyDict(items: seq<(string, PyValue)>)

  /** The exceptions raised by the modelled operations. */
  datatype Exc =
    | Empty              // persistqueue.exceptions.Empty
    | Full               // persistqueue.exceptions.Full
    | ValueError
    | KeyError
    | IndexError
    | StructError        // struct.pack / struct.unpack failure
    | DecodeError        // the serializer could not decode a payload
    | FileNotFound
    | IntegrityError     // sqlite3.IntegrityError: a UNIQUE constraint failed
    | UnboundLocalError
    | NotImplementedError
    | TypeError          // a call passed a keyword argument the callee does not take

  /** The result of a queue call: it returns a value, raises, or would wait
      (for another thread, a put event or a deadline). Waiting is not modelled:
      what the call changed before it would wait stays changed, and nothing
      else happens. */
  datatype Call<T> = Returned(value: T) | Raised(exc: Exc) | Blocks

  /** A serializer module as the SQL-backed queues use it: `dumps(value,
      sort_keys)` and `loads(blob)`. `sortKeys` says whether its `dumps`
      takes a `sort_keys` argument at all: the cbor2 and async pickle ones
      do, the pickle, json and msgpack ones do not. The codec internals are
      not modelled. */
  datatype Serializer = Serializer(dumps: (PyValue, bool) -> Blob, loads: Blob -> PyValue, sortKeys: bool)

  /** The law every serializer keeps: loading a dump gives the value back. */
  ghost predicate RoundTrips(s: Serializer) {
    forall v :: s.loads(s.dumps(v, false)) == v
  }

  /** The values CPython represents by one shared object however they are
      made, so that `pickle.loads` (or any decoder) hands out the same object
      for equal ones: None, the small ints -5 to 256, the empty string, a
      string of one ASCII character, and the empty bytes. */
  predicate Shared(v: PyValue) {
    match v
    case PyNone => true
    case PyInt(i) => -5 <= i <= 256
    case PyStr(s) => |s| == 0 || (|s| == 1 && s[0] as int < 128)
    case PyBytes(b) => |b| == 0
    case _ => false
  }

  /** A Python object; two references are the same object exactly when `is`
      holds between them. */
  class PyObject {
    const value: PyValue

    constructor (v: PyValue)
      ensures value == v
    {
      value := v;
    }
  }
}
