// The capability contract of a WebAssembly plugin. Every trait method an
// implementer may leave out is an optional override; the dispatch functions
// fall back to the trait's default body when it is absent. `name`, `stat` and
// `readdir` have no default, so they are plain fields.
module WasmFs {
  import opened Wrappers
  import opened Packing
  import opened Flags
  import opened WasmTypes

  type Unit = ()

  type Outcome = Result<Unit, Error>

  datatype FileSystem = FileSystem(
    name: string,
    stat: string -> Result<FileInfo, Error>,
    readdir: string -> Result<seq<FileInfo>, Error>,
    readme: Option<string>,
    configParams: Option<seq<ConfigParameter>>,
    validate: Option<Config -> Outcome>,
    initialize: Option<Config -> Outcome>,
    shutdown: Option<Outcome>,
    read: Option<(string, I64, I64) -> Result<seq<Byte>, Error>>,
    write: Option<(string, seq<Byte>, I64, WriteFlag) -> Result<I64, Error>>,
    create: Option<string -> Outcome>,
    mkdir: Option<(string, Nat32) -> Outcome>,
    remove: Option<string -> Outcome>,
    removeAll: Option<string -> Outcome>,
    rename: Option<(string, string) -> Outcome>,
    chmod: Option<(string, Nat32) -> Outcome>)

  /** An implementation that supplies only what the trait requires. */
  function Minimal(name: string, stat: string -> Result<FileInfo, Error>,
                   readdir: string -> Result<seq<FileInfo>, Error>): (fs: FileSystem)
    ensures fs.name == name && fs.stat == stat && fs.readdir == readdir
  {
    FileSystem(name, stat, readdir, None, None, None, None, None, None, None, None, None, None, None, None, None)
  }

  const DEFAULT_README := "No documentation available"

  function Readme(fs: FileSystem): (r: string)
    ensures fs.readme.None? ==> r == DEFAULT_README
    ensures fs.readme.Some? ==> r == fs.readme.value
  {
    fs.readme.UnwrapOr(DEFAULT_README)
  }

  function ConfigParams(fs: FileSystem): (r: seq<ConfigParameter>)
    ensures fs.configParams.None? ==> r == []
  {
    fs.configParams.UnwrapOr([])
  }

  function Validate(fs: FileSystem, c: Config): (r: Outcome)
    ensures fs.validate.None? ==> r.Ok?
  {
    if fs.validate.Some? then fs.validate.value(c) else Ok(())
  }

  function Initialize(fs: FileSystem, c: Config): (r: Outcome)
    ensures fs.initialize.None? ==> r.Ok?
  {
    if fs.initialize.Some? then fs.initialize.value(c) else Ok(())
  }

  function Shutdown(fs: FileSystem): (r: Outcome)
    ensures fs.shutdown.None? ==> r.Ok?
  {
    fs.shutdown.UnwrapOr(Ok(()))
  }

  function Read(fs: FileSystem, path: string, offset: I64, size: I64): (r: Result<seq<Byte>, Error>)
    ensures fs.read.None? ==> r == Err(ReadOnly)
  {
    if fs.read.Some? then fs.read.value(path, offset, size) else Err(ReadOnly)
  }

  function Write(fs: FileSystem, path: string, data: seq<Byte>, offset: I64, flags: WriteFlag): (r: Result<I64, Error>)
    ensures fs.write.None? ==> r == Err(ReadOnly)
  {
    if fs.write.Some? then fs.write.value(path, data, offset, flags) else Err(ReadOnly)
  }

  function Create(fs: FileSystem, path: string): (r: Outcome)
    ensures fs.create.None? ==> r == Err(ReadOnly)
  {
    if fs.create.Some? then fs.create.value(path) else Err(ReadOnly)
  }

  function Mkdir(fs: FileSystem, path: string, perm: Nat32): (r: Outcome)
    ensures fs.mkdir.None? ==> r == Err(ReadOnly)
  {
    if fs.mkdir.Some? then fs.mkdir.value(path, perm) else Err(ReadOnly)
  }

  function Remove(fs: FileSystem, path: string): (r: Outcome)
    ensures fs.remove.None? ==> r == Err(ReadOnly)
  {
    if fs.remove.Some? then fs.remove.value(path) else Err(ReadOnly)
  }

  function RemoveAll(fs: FileSystem, path: string): (r: Outcome)
    ensures fs.removeAll.None? ==> r == Err(ReadOnly)
  {
    if fs.removeAll.Some? then fs.removeAll.value(path) else Err(ReadOnly)
  }

  function Rename(fs: FileSystem, oldPath: string, newPath: string): (r: Outcome)
    ensures fs.rename.None? ==> r == Err(ReadOnly)
  {
    if fs.rename.Some? then fs.rename.value(oldPath, newPath) else Err(ReadOnly)
  }

  function Chmod(fs: FileSystem, path: string, mode: Nat32): (r: Outcome)
    ensures fs.chmod.None? ==> r == Err(ReadOnly)
  {
    if fs.chmod.Some? then fs.chmod.value(path, mode) else Err(ReadOnly)
  }

  /** An implementation that overrides nothing is a read-only, documentation-less,
      parameter-less filesystem whose lifecycle calls all succeed. */
  lemma MinimalDefaults(fs: FileSystem, c: Config, path: string, other: string, off: I64, size: I64,
                        data: seq<Byte>, flags: WriteFlag, mode: Nat32)
    requires fs == Minimal(fs.name, fs.stat, fs.readdir)
    ensures Readme(fs) == "No documentation available" && ConfigParams(fs) == []
    ensures Validate(fs, c).Ok? && Initialize(fs, c).Ok? && Shutdown(fs).Ok?
    ensures Read(fs, path, off, size) == Err(ReadOnly)
    ensures Write(fs, path, data, off, flags) == Err(ReadOnly)
    ensures Create(fs, path) == Err(ReadOnly) && Mkdir(fs, path, mode) == Err(ReadOnly)
    ensures Remove(fs, path) == Err(ReadOnly) && RemoveAll(fs, path) == Err(ReadOnly)
    ensures Rename(fs, path, other) == Err(ReadOnly) && Chmod(fs, path, mode) == Err(ReadOnly)
  {
  }

  /** The narrower trait for read-only filesystems. */
  datatype ReadOnlyFileSystem = ReadOnlyFileSystem(
    name: string,
    readme: Option<string>,
    read: (string, I64, I64) -> Result<seq<Byte>, Error>,
    stat: string -> Result<FileInfo, Error>,
    readdir: string -> Result<seq<FileInfo>, Error>)

  /** The blanket implementation of FileSystem for every ReadOnlyFileSystem. */
  function FromReadOnly(ro: ReadOnlyFileSystem): (fs: FileSystem)
    ensures fs.name == ro.name && fs.stat == ro.stat && fs.readdir == ro.readdir
    ensures fs.read == Some(ro.read)
  {
    FileSystem(ro.name, ro.stat, ro.readdir, Some(ro.readme.UnwrapOr(DEFAULT_README)),
               None, None, None, None, Some(ro.read), None, None, None, None, None, None, None)
  }

  /** The blanket implementation forwards the read side and keeps every mutator read-only. */
  lemma ReadOnlyForwarding(ro: ReadOnlyFileSystem, c: Config, path: string, other: string, off: I64, size: I64,
                           data: seq<Byte>, flags: WriteFlag, mode: Nat32)
    ensures Readme(FromReadOnly(ro)) == ro.readme.UnwrapOr("No documentation available")
    ensures Read(FromReadOnly(ro), path, off, size) == ro.read(path, off, size)
    ensures FromReadOnly(ro).stat(path) == ro.stat(path)
    ensures FromReadOnly(ro).readdir(path) == ro.readdir(path)
    ensures Write(FromReadOnly(ro), path, data, off, flags) == Err(ReadOnly)
    ensures Create(FromReadOnly(ro), path) == Err(ReadOnly) && Mkdir(FromReadOnly(ro), path, mode) == Err(ReadOnly)
    ensures Remove(FromReadOnly(ro), path) == Err(ReadOnly) && RemoveAll(FromReadOnly(ro), path) == Err(ReadOnly)
    ensures Rename(FromReadOnly(ro), path, other) == Err(ReadOnly) && Chmod(FromReadOnly(ro), path, mode) == Err(ReadOnly)
    ensures Validate(FromReadOnly(ro), c).Ok? && Initialize(FromReadOnly(ro), c).Ok? && Shutdown(FromReadOnly(ro)).Ok?
  {
  }

  /** The `whence` argument of `FileHandle::seek`. */
  datatype Whence = SeekSet | SeekCur | SeekEnd

  function WhenceOf(code: int): (r: Option<Whence>)
    ensures r == Some(SeekSet) <==> code == 0
    ensures r == Some(SeekCur) <==> code == 1
    ensures r == Some(SeekEnd) <==> code == 2
    ensures r.None? <==> code !in {0, 1, 2}
  {
    if code == 0 then Some(SeekSet)
    else if code == 1 then Some(SeekCur)
    else if code == 2 then Some(SeekEnd)
    else None
  }
}
