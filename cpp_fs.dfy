// The `FileSystem` base class of the C++ plugin SDK. `name`, `stat` and
// `readdir` are pure virtual; every other method is an optional override
// that falls back to the base class body. Unlike the native Rust SDK, the
// default `read` refuses and the default `chmod` succeeds without effect.
module CppFs {
  import opened Wrappers
  import opened Packing
  import opened Flags
  import opened CppTypes

  type Unit = ()

  type Outcome = Result<Unit, Error>

  datatype FileSystem = FileSystem(
    name: string,
    stat: string -> Result<FileInfo, Error>,
    readdir: string -> Result<seq<FileInfo>, Error>,
    readme: Option<string>,
    validate: Option<Config -> Outcome>,
    initialize: Option<Config -> Outcome>,
    shutdown: Option<Outcome>,
    read: Option<(string, I64, I64) -> Result<seq<Byte>, Error>>,
    write: Option<(string, seq<Byte>, I64, WriteFlag) -> Result<I64, Error>>,
    create: Option<string -> Outcome>,
    mkdir: Option<(string, Nat32) -> Outcome>,
    remove: Option<string -> Outcome>,
    removeAll: Option<string -> Outcome>,
    rename: Option<(string, string) -> Outcome>,
    chmod: Option<(string, Nat32) -> Outcome>)

  /** A subclass that overrides only the pure virtual methods. */
  function Minimal(name: string, stat: string -> Result<FileInfo, Error>,
                   readdir: string -> Result<seq<FileInfo>, Error>): (fs: FileSystem)
    ensures fs.name == name && fs.stat == stat && fs.readdir == readdir
    ensures fs.readme.None? && fs.read.None? && fs.write.None? && fs.chmod.None?
  {
    FileSystem(name, stat, readdir, None, None, None, None, None, None, None, None, None, None, None, None)
  }

  const DEFAULT_README := "No documentation available"

  function Readme(fs: FileSystem): (r: string)
    ensures fs.readme.None? ==> r == DEFAULT_README
    ensures fs.readme.Some? ==> r == fs.readme.value
  {
    fs.readme.UnwrapOr(DEFAULT_README)
  }

  function Validate(fs: FileSystem, config: Config): (r: Outcome)
    ensures fs.validate.None? ==> r.Ok?
  {
    if fs.validate.Some? then fs.validate.value(config) else Ok(())
  }

  function Initialize(fs: FileSystem, config: Config): (r: Outcome)
    ensures fs.initialize.None? ==> r.Ok?
  {
    if fs.initialize.Some? then fs.initialize.value(config) else Ok(())
  }

  function Shutdown(fs: FileSystem): (r: Outcome)
    ensures fs.shutdown.None? ==> r.Ok?
  {
    fs.shutdown.UnwrapOr(Ok(()))
  }

  function Read(fs: FileSystem, path: string, offset: I64, size: I64): (r: Result<seq<Byte>, Error>)
    ensures fs.read.None? ==> r == Err(ReadOnlyError())
  {
    if fs.read.Some? then fs.read.value(path, offset, size) else Err(ReadOnlyError())
  }

  function Write(fs: FileSystem, path: string, data: seq<Byte>, offset: I64, flags: WriteFlag): (r: Result<I64, Error>)
    ensures fs.write.None? ==> r == Err(ReadOnlyError())
  {
    if fs.write.Some? then fs.write.value(path, data, offset, flags) else Err(ReadOnlyError())
  }

  function Create(fs: FileSystem, path: string): (r: Outcome)
    ensures fs.create.None? ==> r == Err(ReadOnlyError())
  {
    if fs.create.Some? then fs.create.value(path) else Err(ReadOnlyError())
  }

  function Mkdir(fs: FileSystem, path: string, perm: Nat32): (r: Outcome)
    ensures fs.mkdir.None? ==> r == Err(ReadOnlyError())
  {
    if fs.mkdir.Some? then fs.mkdir.value(path, perm) else Err(ReadOnlyError())
  }

  function Remove(fs: FileSystem, path: string): (r: Outcome)
    ensures fs.remove.None? ==> r == Err(ReadOnlyError())
  {
    if fs.remove.Some? then fs.remove.value(path) else Err(ReadOnlyError())
  }

  function RemoveAll(fs: FileSystem, path: string): (r: Outcome)
    ensures fs.removeAll.None? ==> r == Err(ReadOnlyError())
  {
    if fs.removeAll.Some? then fs.removeAll.value(path) else Err(ReadOnlyError())
  }

  function Rename(fs: FileSystem, oldPath: string, newPath: string): (r: Outcome)
    ensures fs.rename.None? ==> r == Err(ReadOnlyError())
  {
    if fs.rename.Some? then fs.rename.value(oldPath, newPath) else Err(ReadOnlyError())
  }

  /** The default `chmod` is a successful no-op. */
  function Chmod(fs: FileSystem, path: string, mode: Nat32): (r: Outcome)
    ensures fs.chmod.None? ==> r.Ok?
  {
    if fs.chmod.Some? then fs.chmod.value(path, mode) else Ok(())
  }

  /** A subclass that overrides only `name`, `stat` and `readdir` accepts every configuration and
      lifecycle call and every `chmod`, and refuses reading and every other change as read-only. */
  lemma MinimalDefaults(name: string, stat: string -> Result<FileInfo, Error>,
                        readdir: string -> Result<seq<FileInfo>, Error>,
                        path: string, other: string, config: Config, data: seq<Byte>,
                        offset: I64, size: I64, flags: WriteFlag, mode: Nat32)
    ensures var fs := Minimal(name, stat, readdir);
      Readme(fs) == DEFAULT_README
      && Validate(fs, config).Ok? && Initialize(fs, config).Ok? && Shutdown(fs).Ok?
      && Chmod(fs, path, mode).Ok?
      && Read(fs, path, offset, size) == Err(ReadOnlyError())
      && Write(fs, path, data, offset, flags) == Err(ReadOnlyError())
      && Create(fs, path) == Err(ReadOnlyError()) && Mkdir(fs, path, mode) == Err(ReadOnlyError())
      && Remove(fs, path) == Err(ReadOnlyError()) && RemoveAll(fs, path) == Err(ReadOnlyError())
      && Rename(fs, path, other) == Err(ReadOnlyError())
  {
  }
}
