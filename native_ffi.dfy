// The C boundary of a native Rust plugin. Pointers are opaque (the null pointer
// is NULL); what a non-null pointer refers to is given as a value (`CStr`,
// `CBuf`). Allocating a C string or a boxed record is a `Memory` oracle that
// returns a fresh non-null pointer. Converting a string holding a NUL byte into
// a C string aborts the plugin (`Abort`). `out_len`/`out_count` are cells the
// entry points write through.
module NativeFfi {
  import opened Wrappers
  import opened Packing
  import opened Flags
  import opened NativeTypes
  import opened NativeFs

  /** A `const char*` argument: null, or the bytes up to its terminator. */
  datatype CStr = CNull | CBytes(bytes: seq<Byte>)

  /** A data pointer: null, or the bytes available behind it. */
  datatype CBuf = NullBuf | Buf(bytes: seq<Byte>)

  /** The opaque plugin pointer the host holds. */
  datatype PluginRef = NullPlugin | PluginAt(fs: FileSystem)

  datatype Memory = Memory(
    utf8: seq<Byte> -> Option<string>,
    errorText: FsError -> string,
    cstring: string -> NonNullPtr,
    content: seq<Byte> -> NonNullPtr,
    boxInfo: FileInfoC -> NonNullPtr,
    boxArray: seq<FileInfoC> -> NonNullPtr)

  /** The C record a file record crosses the boundary as; `isDir` is a C int. */
  datatype FileInfoC = FileInfoC(
    name: string, size: I64, mode: Nat32, modTime: I64, isDir: int,
    metaName: string, metaType: string, metaContent: string)

  /** `usize as c_int`: the low 32 bits read as a signed number. */
  function AsCInt(n: nat): (r: int)
    ensures -0x8000_0000 <= r < 0x8000_0000
    ensures n < 0x8000_0000 ==> r == n
  {
    var low := n % 0x1_0000_0000;
    if low < 0x8000_0000 then low else low - 0x1_0000_0000
  }

  /** `c_str_to_str`: never aborts; fails for the null pointer and for bytes that are not UTF-8. */
  function CStrToStr(p: CStr, mem: Memory): (r: Result<string, string>)
    ensures p.CNull? ==> r == Err("null pointer")
    ensures p.CBytes? && mem.utf8(p.bytes).None? ==> r == Err("invalid UTF-8")
    ensures p.CBytes? && mem.utf8(p.bytes).Some? ==> r == Ok(mem.utf8(p.bytes).value)
  {
    match p
    case CNull => Err("null pointer")
    case CBytes(b) => if mem.utf8(b).Some? then Ok(mem.utf8(b).value) else Err("invalid UTF-8")
  }

  /** `error_to_c_string`. */
  function ErrorToCString(msg: string, mem: Memory): (r: Call<Ptr>)
    ensures r.Returns? <==> '\0' !in msg
    ensures r.Returns? ==> r.value == mem.cstring(msg) && r.value != NULL
  {
    if '\0' in msg then Abort else Returns(mem.cstring(msg))
  }

  /** The texts the boundary itself produces hold no NUL, so reporting them never aborts. */
  lemma FixedTextsReturn(mem: Memory)
    ensures ErrorToCString("plugin is null", mem) == Returns(mem.cstring("plugin is null"))
    ensures ErrorToCString("null pointer", mem) == Returns(mem.cstring("null pointer"))
    ensures ErrorToCString("invalid UTF-8", mem) == Returns(mem.cstring("invalid UTF-8"))
  {
    assert forall i :: 0 <= i < |"plugin is null"| ==> "plugin is null"[i] != '\0';
    assert forall i :: 0 <= i < |"null pointer"| ==> "null pointer"[i] != '\0';
    assert forall i :: 0 <= i < |"invalid UTF-8"| ==> "invalid UTF-8"[i] != '\0';
  }

  /** `success()` for a completed call, otherwise the error's text. */
  function Status(r: Outcome, mem: Memory): (p: Call<Ptr>)
    ensures p == Returns(NULL) <==> r.Ok?
    ensures r.Err? ==> p == ErrorToCString(mem.errorText(r.error), mem)
  {
    if r.Ok? then Returns(NULL) else ErrorToCString(mem.errorText(r.error), mem)
  }

  /** The common shape of the entry points that return an error string: a null plugin, then a bad
      path argument, are reported before the trait method is called. */
  function PathEntry(plugin: PluginRef, path: CStr, mem: Memory, op: (FileSystem, string) -> Outcome): (r: Call<Ptr>)
    ensures plugin.NullPlugin? ==> r == ErrorToCString("plugin is null", mem)
    ensures plugin.PluginAt? && CStrToStr(path, mem).Err? ==> r == ErrorToCString(CStrToStr(path, mem).error, mem)
    ensures plugin.PluginAt? && CStrToStr(path, mem).Ok? ==> r == Status(op(plugin.fs, CStrToStr(path, mem).value), mem)
  {
    if plugin.NullPlugin? then ErrorToCString("plugin is null", mem)
    else
      match CStrToStr(path, mem)
      case Err(e) => ErrorToCString(e, mem)
      case Ok(s) => Status(op(plugin.fs, s), mem)
  }

  /** An error-string entry point returns null exactly when the plugin and argument are valid and
      the trait method succeeds. */
  lemma PathEntryNullIffSuccess(plugin: PluginRef, path: CStr, mem: Memory, op: (FileSystem, string) -> Outcome)
    ensures PathEntry(plugin, path, mem, op) == Returns(NULL) <==>
              plugin.PluginAt? && CStrToStr(path, mem).Ok? && op(plugin.fs, CStrToStr(path, mem).value).Ok?
  {
    FixedTextsReturn(mem);
  }

  /** `plugin_validate`. */
  function PluginValidate(plugin: PluginRef, config: CStr, mem: Memory): (r: Call<Ptr>)
    ensures r == Returns(NULL) <==>
              plugin.PluginAt? && CStrToStr(config, mem).Ok? && Validate(plugin.fs, CStrToStr(config, mem).value).Ok?
  {
    PathEntryNullIffSuccess(plugin, config, mem, (fs, s) => Validate(fs, s));
    PathEntry(plugin, config, mem, (fs, s) => Validate(fs, s))
  }

  /** `plugin_initialize`. */
  function PluginInitialize(plugin: PluginRef, config: CStr, mem: Memory): (r: Call<Ptr>)
    ensures r == Returns(NULL) <==>
              plugin.PluginAt? && CStrToStr(config, mem).Ok? && Initialize(plugin.fs, CStrToStr(config, mem).value).Ok?
  {
    PathEntryNullIffSuccess(plugin, config, mem, (fs, s) => Initialize(fs, s));
    PathEntry(plugin, config, mem, (fs, s) => Initialize(fs, s))
  }

  /** `plugin_shutdown`. */
  function PluginShutdown(plugin: PluginRef, mem: Memory): (r: Call<Ptr>)
    ensures plugin.NullPlugin? ==> r == Returns(mem.cstring("plugin is null"))
    ensures plugin.PluginAt? ==> r == Status(Shutdown(plugin.fs), mem)
  {
    FixedTextsReturn(mem);
    if plugin.NullPlugin? then ErrorToCString("plugin is null", mem) else Status(Shutdown(plugin.fs), mem)
  }

  function FsCreate(plugin: PluginRef, path: CStr, mem: Memory): (r: Call<Ptr>)
    ensures r == Returns(NULL) <==>
              plugin.PluginAt? && CStrToStr(path, mem).Ok? && Create(plugin.fs, CStrToStr(path, mem).value).Ok?
  {
    PathEntryNullIffSuccess(plugin, path, mem, (fs, s) => Create(fs, s));
    PathEntry(plugin, path, mem, (fs, s) => Create(fs, s))
  }

  function FsMkdir(plugin: PluginRef, path: CStr, mode: Nat32, mem: Memory): (r: Call<Ptr>)
    ensures r == Returns(NULL) <==>
              plugin.PluginAt? && CStrToStr(path, mem).Ok? && Mkdir(plugin.fs, CStrToStr(path, mem).value, mode).Ok?
  {
    PathEntryNullIffSuccess(plugin, path, mem, (fs, s) => Mkdir(fs, s, mode));
    PathEntry(plugin, path, mem, (fs, s) => Mkdir(fs, s, mode))
  }

  function FsRemove(plugin: PluginRef, path: CStr, mem: Memory): (r: Call<Ptr>)
    ensures r == Returns(NULL) <==>
              plugin.PluginAt? && CStrToStr(path, mem).Ok? && Remove(plugin.fs, CStrToStr(path, mem).value).Ok?
  {
    PathEntryNullIffSuccess(plugin, path, mem, (fs, s) => Remove(fs, s));
    PathEntry(plugin, path, mem, (fs, s) => Remove(fs, s))
  }

  function FsRemoveAll(plugin: PluginRef, path: CStr, mem: Memory): (r: Call<Ptr>)
    ensures r == Returns(NULL) <==>
              plugin.PluginAt? && CStrToStr(path, mem).Ok? && RemoveAll(plugin.fs, CStrToStr(path, mem).value).Ok?
  {
    PathEntryNullIffSuccess(plugin, path, mem, (fs, s) => RemoveAll(fs, s));
    PathEntry(plugin, path, mem, (fs, s) => RemoveAll(fs, s))
  }

  function FsChmod(plugin: PluginRef, path: CStr, mode: Nat32, mem: Memory): (r: Call<Ptr>)
    ensures r == Returns(NULL) <==>
              plugin.PluginAt? && CStrToStr(path, mem).Ok? && Chmod(plugin.fs, CStrToStr(path, mem).value, mode).Ok?
  {
    PathEntryNullIffSuccess(plugin, path, mem, (fs, s) => Chmod(fs, s, mode));
    PathEntry(plugin, path, mem, (fs, s) => Chmod(fs, s, mode))
  }

  /** `fs_rename`: the old path is checked before the new one. */
  function FsRename(plugin: PluginRef, oldPath: CStr, newPath: CStr, mem: Memory): (r: Call<Ptr>)
    ensures plugin.NullPlugin? ==> r == Returns(mem.cstring("plugin is null"))
    ensures plugin.PluginAt? && CStrToStr(oldPath, mem).Err? ==>
              r == Returns(mem.cstring(CStrToStr(oldPath, mem).error))
    ensures plugin.PluginAt? && CStrToStr(oldPath, mem).Ok? && CStrToStr(newPath, mem).Err? ==>
              r == Returns(mem.cstring(CStrToStr(newPath, mem).error))
    ensures r == Returns(NULL) <==>
              plugin.PluginAt? && CStrToStr(oldPath, mem).Ok? && CStrToStr(newPath, mem).Ok?
              && Rename(plugin.fs, CStrToStr(oldPath, mem).value, CStrToStr(newPath, mem).value).Ok?
  {
    FixedTextsReturn(mem);
    if plugin.NullPlugin? then ErrorToCString("plugin is null", mem)
    else
      match CStrToStr(oldPath, mem)
      case Err(e) => ErrorToCString(e, mem)
      case Ok(o) =>
        match CStrToStr(newPath, mem)
        case Err(e) => ErrorToCString(e, mem)
        case Ok(n) => Status(Rename(plugin.fs, o, n), mem)
  }

  /** A plugin that leaves the mutators out refuses each of them with the read-only error's text. */
  lemma DefaultMutatorsReportReadOnly(fs: FileSystem, path: CStr, mode: Nat32, mem: Memory)
    requires fs.create.None? && fs.chmod.None? && CStrToStr(path, mem).Ok?
    ensures FsCreate(PluginAt(fs), path, mem) == ErrorToCString(mem.errorText(ReadOnly), mem)
    ensures FsChmod(PluginAt(fs), path, mode, mem) == ErrorToCString(mem.errorText(ReadOnly), mem)
  {
  }

  /** `FileInfoC::from`: copies the record, encodes the directory flag as 1 or 0, and aborts when
      a string field holds a NUL byte. */
  function FileInfoCOf(info: FileInfo): (r: Call<FileInfoC>)
    ensures r.Returns? <==> '\0' !in info.name && '\0' !in info.metadata.name
                            && '\0' !in info.metadata.fileType && '\0' !in info.metadata.content
    ensures r.Returns? ==> (r.value.isDir == 1 <==> info.isDir) && (r.value.isDir == 0 <==> !info.isDir)
  {
    if '\0' in info.name || '\0' in info.metadata.name || '\0' in info.metadata.fileType
       || '\0' in info.metadata.content
    then Abort
    else Returns(FileInfoC(info.name, info.size, info.mode, info.modTime, if info.isDir then 1 else 0,
                           info.metadata.name, info.metadata.fileType, info.metadata.content))
  }

  /** The C record keeps every field of the file record it came from. */
  lemma FileInfoCKeepsFields(info: FileInfo)
    requires FileInfoCOf(info).Returns?
    ensures var c := FileInfoCOf(info).value;
      FileInfo(c.name, c.size, c.mode, c.modTime, c.isDir == 1, FileMetadata(c.metaName, c.metaType, c.metaContent)) == info
  {
  }

  /** `fs_stat`: any failure is the null record pointer. */
  function FsStat(plugin: PluginRef, path: CStr, mem: Memory): (r: Call<Ptr>)
    ensures plugin.NullPlugin? || CStrToStr(path, mem).Err? ==> r == Returns(NULL)
    ensures plugin.PluginAt? && CStrToStr(path, mem).Ok? && plugin.fs.stat(CStrToStr(path, mem).value).Err? ==>
              r == Returns(NULL)
    ensures plugin.PluginAt? && CStrToStr(path, mem).Ok? && plugin.fs.stat(CStrToStr(path, mem).value).Ok? ==>
              var c := FileInfoCOf(plugin.fs.stat(CStrToStr(path, mem).value).value);
              r == (if c.Returns? then Returns(mem.boxInfo(c.value)) else Abort)
  {
    if plugin.NullPlugin? then Returns(NULL)
    else
      match CStrToStr(path, mem)
      case Err(_) => Returns(NULL)
      case Ok(s) =>
        match plugin.fs.stat(s)
        case Err(_) => Returns(NULL)
        case Ok(info) =>
          var c := FileInfoCOf(info);
          if c.Returns? then Returns(mem.boxInfo(c.value)) else Abort
  }

  /** A non-null stat result always stands for a record the plugin reported. */
  lemma StatNonNullMeansFound(plugin: PluginRef, path: CStr, mem: Memory)
    requires FsStat(plugin, path, mem).Returns? && FsStat(plugin, path, mem).value != NULL
    ensures plugin.PluginAt? && CStrToStr(path, mem).Ok? && plugin.fs.stat(CStrToStr(path, mem).value).Ok?
  {
  }

  /** The records of a listing, in order; aborts when any of them would. */
  function FileInfosC(files: seq<FileInfo>): (r: Call<seq<FileInfoC>>)
    ensures r.Returns? ==> |r.value| == |files|
    ensures r.Returns? ==> forall i :: 0 <= i < |files| ==> FileInfoCOf(files[i]) == Returns(r.value[i])
    ensures r.Abort? ==> exists i :: 0 <= i < |files| && FileInfoCOf(files[i]).Abort?
  {
    if files == [] then Returns([])
    else
      var head := FileInfoCOf(files[0]);
      var tail := FileInfosC(files[1..]);
      if head.Abort? || tail.Abort? then
        assert tail.Abort? ==> forall i :: 1 <= i < |files| ==> files[1..][i - 1] == files[i];
        Abort
      else
        Returns([head.value] + tail.value)
  }

  /** A cell an entry point writes a C int through. */
  class OutInt {
    var value: int

    constructor(v: int)
      ensures value == v
    {
      value := v;
    }
  }

  /** What `fs_read` writes to `out_len` and returns. */
  function ReadReply(plugin: PluginRef, path: CStr, offset: I64, size: I64, mem: Memory): (r: (int, Call<Ptr>))
  {
    if plugin.NullPlugin? then (-1, ErrorToCString("plugin is null", mem))
    else
      match CStrToStr(path, mem)
      case Err(e) => (-1, ErrorToCString(e, mem))
      case Ok(s) =>
        match plugin.fs.read(s, offset, size)
        case Ok(content) => (AsCInt(|content|), if 0 in content then Abort else Returns(mem.content(content)))
        case Err(e) => (-1, ErrorToCString(mem.errorText(e), mem))
  }

  /** Every failure sets the length to -1 and returns an error string; a successful read of fewer
      than 2^31 bytes sets it to the content length and returns the content. */
  lemma ReadReplyCases(plugin: PluginRef, path: CStr, offset: I64, size: I64, mem: Memory)
    ensures plugin.NullPlugin? ==> ReadReply(plugin, path, offset, size, mem) == (-1, Returns(mem.cstring("plugin is null") as Ptr))
    ensures plugin.PluginAt? && CStrToStr(path, mem).Err? ==>
              ReadReply(plugin, path, offset, size, mem) == (-1, Returns(mem.cstring(CStrToStr(path, mem).error) as Ptr))
    ensures plugin.PluginAt? && CStrToStr(path, mem).Ok? ==>
              var rd := plugin.fs.read(CStrToStr(path, mem).value, offset, size);
              (rd.Err? ==> ReadReply(plugin, path, offset, size, mem) == (-1, ErrorToCString(mem.errorText(rd.error), mem)))
              && (rd.Ok? && |rd.value| < 0x8000_0000 && 0 !in rd.value ==>
                    ReadReply(plugin, path, offset, size, mem) == (|rd.value|, Returns(mem.content(rd.value) as Ptr)))
  {
    FixedTextsReturn(mem);
  }

  /** `fs_read`. */
  method FsRead(plugin: PluginRef, path: CStr, offset: I64, size: I64, outLen: OutInt, mem: Memory) returns (r: Call<Ptr>)
    modifies outLen
    ensures (outLen.value, r) == ReadReply(plugin, path, offset, size, mem)
  {
    var reply := ReadReply(plugin, path, offset, size, mem);
    outLen.value := reply.0;
    r := reply.1;
  }

  /** What `fs_readdir` writes to `out_count` and returns. */
  function ReaddirReply(plugin: PluginRef, path: CStr, mem: Memory): (r: (int, Call<Ptr>))
  {
    if plugin.NullPlugin? then (-1, Returns(NULL))
    else
      match CStrToStr(path, mem)
      case Err(_) => (-1, Returns(NULL))
      case Ok(s) =>
        match plugin.fs.readdir(s)
        case Err(_) => (-1, Returns(NULL))
        case Ok(files) =>
          var items := FileInfosC(files);
          if items.Abort? then (-1, Abort) else (AsCInt(|files|), Returns(mem.boxArray(items.value)))
  }

  /** A failed listing reports count -1 and the null array. A listing of fewer than 2^31 entries
      reports its own size as the count, and the array holds one record per entry. */
  lemma ReaddirReplyCases(plugin: PluginRef, path: CStr, mem: Memory)
    ensures ReaddirReply(plugin, path, mem).1 == Returns(NULL) ==> ReaddirReply(plugin, path, mem).0 == -1
    ensures plugin.PluginAt? && CStrToStr(path, mem).Ok? && plugin.fs.readdir(CStrToStr(path, mem).value).Ok? ==>
              var files := plugin.fs.readdir(CStrToStr(path, mem).value).value;
              FileInfosC(files).Returns? && |files| < 0x8000_0000 ==>
                ReaddirReply(plugin, path, mem) == (|files|, Returns(mem.boxArray(FileInfosC(files).value) as Ptr))
                && |FileInfosC(files).value| == |files|
  {
  }

  /** `fs_readdir`. The cell is left as it was when the conversion of a record aborts. */
  method FsReaddir(plugin: PluginRef, path: CStr, outCount: OutInt, mem: Memory) returns (r: Call<Ptr>)
    modifies outCount
    ensures r == ReaddirReply(plugin, path, mem).1
    ensures r.Returns? ==> outCount.value == ReaddirReply(plugin, path, mem).0
  {
    var reply := ReaddirReply(plugin, path, mem);
    r := reply.1;
    if r.Returns? {
      outCount.value := reply.0;
    }
  }

  /** `fs_write`: -1 for a null plugin, a bad path, a null data pointer, a negative length or a
      failed write; otherwise the count the plugin reports. The data handed to the plugin is the
      first `dataLen` bytes behind the pointer. */
  function FsWrite(plugin: PluginRef, path: CStr, data: CBuf, dataLen: int, offset: I64, flags: bv32, mem: Memory): (r: I64)
    requires data.Buf? && dataLen >= 0 ==> dataLen <= |data.bytes|
    ensures plugin.NullPlugin? || CStrToStr(path, mem).Err? || data.NullBuf? || dataLen < 0 ==> r == -1
    ensures plugin.PluginAt? && CStrToStr(path, mem).Ok? && data.Buf? && dataLen >= 0 ==>
              var w := Write(plugin.fs, CStrToStr(path, mem).value, data.bytes[..dataLen], offset, WriteFlagFromU32(flags));
              r == (if w.Ok? then w.value else -1)
  {
    if plugin.NullPlugin? then -1
    else
      match CStrToStr(path, mem)
      case Err(_) => -1
      case Ok(s) =>
        if data.NullBuf? || dataLen < 0 then -1
        else
          match Write(plugin.fs, s, data.bytes[..dataLen], offset, WriteFlagFromU32(flags))
          case Ok(n) => n
          case Err(_) => -1
  }

  /** With the default `write`, every call through the boundary reports -1. */
  lemma DefaultWriteFails(fs: FileSystem, path: CStr, data: CBuf, dataLen: int, offset: I64, flags: bv32, mem: Memory)
    requires fs.write.None?
    requires data.Buf? && dataLen >= 0 ==> dataLen <= |data.bytes|
    ensures FsWrite(PluginAt(fs), path, data, dataLen, offset, flags, mem) == -1
  {
  }
}
