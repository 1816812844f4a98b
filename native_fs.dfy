// The capability contract of a native Rust plugin. `name`, `read`, `stat` and
// `readdir` have no default; every other method is an optional override that
// falls back to the trait's default body. The SDK's error type lives in a file
// that is not part of this model: only the variants the SDK itself produces are
// named, and every other error is carried with its text.
module NativeFs {
  import opened Wrappers
  import opened Packing
  import opened Flags
  import opened NativeTypes

  datatype FsError = ReadOnly | NotFound | Failure(text: string)

  type Unit = ()

  type Outcome = Result<Unit, FsError>

  datatype FileSystem = FileSystem(
    name: string,
    read: (string, I64, I64) -> Result<seq<Byte>, FsError>,
    stat: string -> Result<FileInfo, FsError>,
    readdir: string -> Result<seq<FileInfo>, FsError>,
    readme: Option<string>,
    validate: Option<string -> Outcome>,
    initialize: Option<string -> Outcome>,
    shutdown: Option<Outcome>,
    write: Option<(string, seq<Byte>, I64, WriteFlag) -> Result<I64, FsError>>,
    create: Option<string -> Outcome>,
    mkdir: Option<(string, Nat32) -> Outcome>,
    remove: Option<string -> Outcome>,
    removeAll: Option<string -> Outcome>,
    rename: Option<(string, string) -> Outcome>,
    chmod: Option<(string, Nat32) -> Outcome>)

  /** An implementation that supplies only what the trait requires. */
  function Minimal(name: string, read: (string, I64, I64) -> Result<seq<Byte>, FsError>,
                   stat: string -> Result<FileInfo, FsError>,
                   readdir: string -> Result<seq<FileInfo>, FsError>): (fs: FileSystem)
    ensures fs.name == name && fs.read == read && fs.stat == stat && fs.readdir == readdir
    ensures fs.readme.None? && fs.write.None? && fs.chmod.None?
  {
    FileSystem(name, read, stat, readdir, None, None, None, None, None, None, None, None, None, None, None)
  }

  const DEFAULT_README := "# Plugin\n\nNo documentation provided."

  function Readme(fs: FileSystem): (r: string)
    ensures fs.readme.None? ==> r == DEFAULT_README
    ensures fs.readme.Some? ==> r == fs.readme.value
  {
    fs.readme.UnwrapOr(DEFAULT_README)
  }

  function Validate(fs: FileSystem, config: string): (r: Outcome)
    ensures fs.validate.None? ==> r.Ok?
  {
    if fs.validate.Some? then fs.validate.value(config) else Ok(())
  }

  function Initialize(fs: FileSystem, config: string): (r: Outcome)
    ensures fs.initialize.None? ==> r.Ok?
  {
    if fs.initialize.Some? then fs.initialize.value(config) else Ok(())
  }

  function Shutdown(fs: FileSystem): (r: Outcome)
    ensures fs.shutdown.None? ==> r.Ok?
  {
    fs.shutdown.UnwrapOr(Ok(()))
  }

  function Write(fs: FileSystem, path: string, data: seq<Byte>, offset: I64, flags: WriteFlag): (r: Result<I64, FsError>)
    ensures fs.write.None? ==> r == Err(ReadOnly)
  {
    if fs.write.Some? then fs.write.value(path, data, offset, flags) else Err(ReadOnly)
  }

  function Create(fs: FileSystem, path: string): (r: Outcome)
    ensures fs.create.None? ==> r == Err(ReadOnly)
  {
    if fs.create.Some? then fs.create.value(path) else Err(ReadOnly)
  }

  function Mkdir(fs: FileSystem, path: string, mode: Nat32): (r: Outcome)
    ensures fs.mkdir.None? ==> r == Err(ReadOnly)
  {
    if fs.mkdir.Some? then fs.mkdir.value(path, mode) else Err(ReadOnly)
  }

  function Remove(fs: FileSystem, path: string): (r: Outcome)
    ensures fs.remove.None? ==> r == Err(ReadOnly)
  {
    if fs.remove.Some? then fs.remove.value(path) else Err(ReadOnly)
  }

  function RemoveAll(fs: FileSystem, path: string): (r: Outcome)
    ensures fs.removeAll.None? ==> r == Err(ReadOnly)
  {
    if fs.removeAll.Some? then fs.removeAll.value(path) else Err(ReadOnly)
  }

  function Rename(fs: FileSystem, oldPath: string, newPath: string): (r: Outcome)
    ensures fs.rename.None? ==> r == Err(ReadOnly)
  {
    if fs.rename.Some? then fs.rename.value(oldPath, newPath) else Err(ReadOnly)
  }

  /** Unlike the C++ SDK, the native SDK refuses `chmod` by default. */
  function Chmod(fs: FileSystem, path: string, mode: Nat32): (r: Outcome)
    ensures fs.chmod.None? ==> r == Err(ReadOnly)
  {
    if fs.chmod.Some? then fs.chmod.value(path, mode) else Err(ReadOnly)
  }

  /** A plugin that supplies only the required methods is a read-only filesystem: it accepts any
      configuration and lifecycle call, refuses every change, and answers reads with its own methods. */
  lemma MinimalDefaults(name: string, read: (string, I64, I64) -> Result<seq<Byte>, FsError>,
                        stat: string -> Result<FileInfo, FsError>,
                        readdir: string -> Result<seq<FileInfo>, FsError>,
                        path: string, other: string, data: seq<Byte>, offset: I64, flags: WriteFlag, mode: Nat32)
    ensures var fs := Minimal(name, read, stat, readdir);
      Readme(fs) == DEFAULT_README
      && Validate(fs, other).Ok? && Initialize(fs, other).Ok? && Shutdown(fs).Ok?
      && Write(fs, path, data, offset, flags) == Err(ReadOnly)
      && Create(fs, path) == Err(ReadOnly) && Mkdir(fs, path, mode) == Err(ReadOnly)
      && Remove(fs, path) == Err(ReadOnly) && RemoveAll(fs, path) == Err(ReadOnly)
      && Rename(fs, path, other) == Err(ReadOnly) && Chmod(fs, path, mode) == Err(ReadOnly)
  {
  }
}
