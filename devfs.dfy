// DevFS: a stateless filesystem with one device, `/null`, under a root
// directory. Reads give end of file, writes are accepted and discarded,
// and every other change is refused. The clock reading each `FileInfo`
// carries is the parameter `now`.
module DevFs {
  import opened Wrappers
  import opened GoFs
  import Json

  const PLUGIN_NAME := "devfs"

  const NULL := "/null"

  const READ_ONLY := Failure("read-only filesystem")

  /** The configuration keys `Validate` allows; checking a map against them is done by the
      configuration helper, given here as `onlyKnownKeys`. */
  const ALLOWED_KEYS := ["mount_path"]

  function Validate(cfg: map<string, Json.Json>,
                    onlyKnownKeys: (map<string, Json.Json>, seq<string>) -> Option<GoError>): Option<GoError>
  {
    onlyKnownKeys(cfg, ALLOWED_KEYS)
  }

  function NullInfo(now: int): (fi: FileInfo)
    ensures fi.name == "null" && fi.size == 0 && fi.mode == MODE_0666 && !fi.isDir
    ensures fi.meta == Meta(PLUGIN_NAME, "device")
  {
    FileInfo("null", 0, MODE_0666, now, false, Meta(PLUGIN_NAME, "device"))
  }

  /** `Read`: end of file for `/null`, `ErrNotFound` elsewhere; no data either way. */
  function Read(path: string, offset: int, size: int): (r: (seq<bv8>, GoError))
    ensures r.0 == []
    ensures r.1 == (if path == NULL then EOF else ErrNotFound)
  {
    if path == NULL then ([], EOF) else ([], ErrNotFound)
  }

  /** `Write`: `/null` accepts and counts every byte; any other path is read-only. */
  function Write(path: string, data: seq<bv8>, offset: int, flags: bv32): (r: Result<int, GoError>)
    ensures path == NULL ==> r == Ok(|data|)
    ensures path != NULL ==> r == Err(READ_ONLY)
  {
    if path == NULL then Ok(|data|) else Err(READ_ONLY)
  }

  /** `Stat`: the device, the root directory, or `ErrNotFound`. */
  function Stat(path: string, now: int): (r: Result<FileInfo, GoError>)
    ensures path == NULL ==> r == Ok(NullInfo(now))
    ensures path == "/" ==> r.Ok? && r.value.isDir && r.value.mode == MODE_0555 && r.value.name == "/"
                            && r.value.meta == Meta(PLUGIN_NAME, "directory")
    ensures path != NULL && path != "/" ==> r == Err(ErrNotFound)
  {
    if path == NULL then Ok(NullInfo(now))
    else if path == "/" then Ok(FileInfo("/", 0, MODE_0555, now, true, Meta(PLUGIN_NAME, "directory")))
    else Err(ErrNotFound)
  }

  /** `ReadDir`: the root lists only the device; anything else is not a directory. */
  function ReadDir(path: string, now: int): (r: Result<seq<FileInfo>, GoError>)
    ensures path == "/" ==> r == Ok([NullInfo(now)])
    ensures path != "/" ==> r == Err(Failure("not a directory"))
  {
    if path == "/" then Ok([NullInfo(now)]) else Err(Failure("not a directory"))
  }

  /** The streams `Open` and `OpenWrite` hand out for the device. */
  datatype Stream = NullReader | NullWriter

  function Open(path: string): (r: Result<Stream, GoError>)
    ensures path == NULL ==> r == Ok(NullReader)
    ensures path != NULL ==> r == Err(ErrNotFound)
  {
    if path == NULL then Ok(NullReader) else Err(ErrNotFound)
  }

  function OpenWrite(path: string): (r: Result<Stream, GoError>)
    ensures path == NULL ==> r == Ok(NullWriter)
    ensures path != NULL ==> r == Err(READ_ONLY)
  {
    if path == NULL then Ok(NullWriter) else Err(READ_ONLY)
  }

  /** `nullReader.Read`: nothing read, end of file. */
  function NullRead(p: seq<bv8>): (r: (int, Option<GoError>))
    ensures r == (0, Some(EOF))
  {
    (0, Some(EOF))
  }

  /** `nullWriter.Write`: the whole buffer is accepted. */
  function NullWrite(p: seq<bv8>): (r: (int, Option<GoError>))
    ensures r == (|p|, None)
  {
    (|p|, None)
  }

  function Create(path: string): Option<GoError> { Some(READ_ONLY) }
  function Mkdir(path: string, perm: nat): Option<GoError> { Some(READ_ONLY) }
  function Remove(path: string): Option<GoError> { Some(READ_ONLY) }
  function RemoveAll(path: string): Option<GoError> { Some(READ_ONLY) }
  function Rename(oldPath: string, newPath: string): Option<GoError> { Some(READ_ONLY) }
  function Chmod(path: string, mode: nat): Option<GoError> { Some(READ_ONLY) }

  /** `Truncate` is a no-op on the device and refused elsewhere. */
  function Truncate(path: string, size: int): (r: Option<GoError>)
    ensures r.None? <==> path == NULL
  {
    if path == NULL then None else Some(READ_ONLY)
  }

  /** Nothing can be created, removed, renamed or have its mode changed, whatever the path. */
  lemma MutatorsRefused(path: string, other: string, mode: nat)
    ensures Create(path) == Some(READ_ONLY) && Mkdir(path, mode) == Some(READ_ONLY)
    ensures Remove(path) == Some(READ_ONLY) && RemoveAll(path) == Some(READ_ONLY)
    ensures Rename(path, other) == Some(READ_ONLY) && Chmod(path, mode) == Some(READ_ONLY)
  {
  }

  /** The listing of the root agrees with `Stat`: its one entry is the device `Stat` reports,
      and exactly the files `Stat` knows (not directories) can be opened, read to end of file,
      written and truncated. */
  lemma ListingAgreesWithStat(path: string, now: int, data: seq<bv8>)
    ensures ReadDir("/", now).value == [Stat(NULL, now).value]
    ensures (Stat(path, now).Ok? && !Stat(path, now).value.isDir) <==> Open(path).Ok?
    ensures Open(path).Ok? <==> Read(path, 0, 0).1 == EOF
    ensures Open(path).Ok? <==> Write(path, data, 0, 0).Ok?
    ensures Open(path).Ok? <==> Truncate(path, 0).None?
  {
  }

  /** A stream of the device behaves like the device itself: reading it stops at once and
      writing it accepts everything. */
  lemma StreamsMatchDevice(p: seq<bv8>)
    ensures NullRead(p).0 == |Read(NULL, 0, |p|).0| && NullRead(p).1 == Some(Read(NULL, 0, |p|).1)
    ensures NullWrite(p).0 == Write(NULL, p, 0, 0).value
  {
  }
}
