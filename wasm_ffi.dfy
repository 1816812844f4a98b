// The generic FFI handlers of the WebAssembly SDK. Each turns the plugin's
// `Result` into one of three shapes the host understands: a pointer that is
// null on success and names the error text otherwise; a 64-bit word packing two
// 32-bit halves; or the word 0 as the only error signal. Allocation of C
// strings and byte buffers in linear memory is an oracle returning a non-null
// address. Arguments the host passes as pointers arrive already decoded.
module WasmFfi {
  import opened Wrappers
  import opened Packing
  import opened Flags
  import opened Json
  import opened WasmTypes
  import opened WasmFs

  /** Allocation in linear memory: `CString::new(..).into_raw()` and `Buffer::from_bytes(..).into_raw()`. */
  datatype Memory = Memory(cstring: string -> NonNullPtr, buffer: seq<Byte> -> NonNullPtr)

  /** `result_to_error_ptr`: null exactly on success, otherwise the error's text. */
  function ResultToErrorPtr<T>(r: Result<T, Error>, mem: Memory): (p: Ptr)
    ensures p == NULL <==> r.Ok?
    ensures r.Err? ==> p == mem.cstring(Display(r.error))
  {
    match r
    case Ok(_) => NULL
    case Err(e) => mem.cstring(Display(e))
  }

  /** `read_config`: a null pointer is the empty configuration; text that does not
      parse as JSON is an InvalidInput error; any parsed value goes through `Config::from`. */
  function ReadConfig(config: Option<string>, parse: string -> Result<Json, string>): (r: Result<Config, Error>)
    ensures config.None? ==> r == Ok(Config(map[]))
    ensures config.Some? && parse(config.value).Err? ==>
              r == Err(InvalidInput("Invalid config JSON: " + parse(config.value).error))
    ensures config.Some? && parse(config.value).Ok? ==> r == Ok(ConfigFrom(parse(config.value).value))
  {
    match config
    case None => Ok(Config(map[]))
    case Some(text) =>
      match parse(text)
      case Ok(v) => Ok(ConfigFrom(v))
      case Err(e) => Err(InvalidInput("Invalid config JSON: " + e))
  }

  /** A malformed configuration is reported, never silently replaced by a default. */
  lemma MalformedConfigIsError(text: string, parse: string -> Result<Json, string>)
    requires parse(text).Err?
    ensures ReadConfig(Some(text), parse).Err? && ReadConfig(Some(text), parse).error.InvalidInput?
  {
  }

  /** `fileinfo_to_json_ptr` over the serialiser `render`. */
  function FileInfoToJsonPtr(info: FileInfo, render: Json -> Result<string, string>, mem: Memory): (r: Result<NonNullPtr, Error>)
    ensures render(FileInfoToJson(info)).Ok? ==> r == Ok(mem.cstring(render(FileInfoToJson(info)).value))
    ensures render(FileInfoToJson(info)).Err? ==>
              r == Err(Other("JSON serialization failed: " + render(FileInfoToJson(info)).error))
  {
    match render(FileInfoToJson(info))
    case Ok(json) => Ok(mem.cstring(json))
    case Err(e) => Err(Other("JSON serialization failed: " + e))
  }

  function FileInfosToJson(infos: seq<FileInfo>): (j: Json)
    ensures j.JArray? && |j.items| == |infos|
    ensures forall i :: 0 <= i < |infos| ==> j.items[i] == FileInfoToJson(infos[i])
  {
    JArray(seq(|infos|, i requires 0 <= i < |infos| => FileInfoToJson(infos[i])))
  }

  /** `fileinfo_vec_to_json_ptr`. */
  function FileInfosToJsonPtr(infos: seq<FileInfo>, render: Json -> Result<string, string>, mem: Memory): (r: Result<NonNullPtr, Error>)
    ensures render(FileInfosToJson(infos)).Ok? ==> r == Ok(mem.cstring(render(FileInfosToJson(infos)).value))
    ensures render(FileInfosToJson(infos)).Err? ==>
              r == Err(Other("JSON serialization failed: " + render(FileInfosToJson(infos)).error))
  {
    match render(FileInfosToJson(infos))
    case Ok(json) => Ok(mem.cstring(json))
    case Err(e) => Err(Other("JSON serialization failed: " + e))
  }

  /** The (buffer, length) word of a successful read. */
  function PackBuffer(data: seq<Byte>, mem: Memory): (w: U64)
    ensures Hi(w) == mem.buffer(data) && Lo(w) == TruncU32(|data|)
    ensures w != 0
  {
    HalvesOfPack(mem.buffer(data), TruncU32(|data|));
    Pack(mem.buffer(data), TruncU32(|data|))
  }

  /** The (json, 0) word of a success or the (0, error) word of a failure. */
  function PackJsonOrError(r: Result<NonNullPtr, Error>, mem: Memory): (w: U64)
    ensures r.Ok? ==> Hi(w) == r.value && Lo(w) == 0
    ensures r.Err? ==> Hi(w) == 0 && Lo(w) == mem.cstring(Display(r.error))
    ensures Hi(w) != 0 <==> r.Ok?
  {
    match r
    case Ok(p) => HalvesOfPack(p, 0); Pack(p, 0)
    case Err(e) => HalvesOfPack(0, mem.cstring(Display(e))); Pack(0, mem.cstring(Display(e)))
  }

  /** `handle_read`: the data's buffer and length on success, the word 0 on any error. */
  function HandleRead(fs: FileSystem, path: string, offset: I64, size: I64, mem: Memory): (w: U64)
    ensures Read(fs, path, offset, size).Err? ==> w == 0
    ensures Read(fs, path, offset, size).Ok? ==>
              Hi(w) == mem.buffer(Read(fs, path, offset, size).value)
              && Lo(w) == TruncU32(|Read(fs, path, offset, size).value|)
    ensures w == 0 <==> Read(fs, path, offset, size).Err?
  {
    match Read(fs, path, offset, size)
    case Ok(data) => PackBuffer(data, mem)
    case Err(_) => 0
  }

  /** `handle_stat`: the JSON text in the high half on success, the error text in the low half
      on a plugin error or a serialisation error. */
  function HandleStat(fs: FileSystem, path: string, render: Json -> Result<string, string>, mem: Memory): (w: U64)
    ensures fs.stat(path).Err? ==> Hi(w) == 0 && Lo(w) == mem.cstring(Display(fs.stat(path).error))
    ensures fs.stat(path).Ok? ==> w == PackJsonOrError(FileInfoToJsonPtr(fs.stat(path).value, render, mem), mem)
    ensures Hi(w) != 0 <==> fs.stat(path).Ok? && render(FileInfoToJson(fs.stat(path).value)).Ok?
  {
    match fs.stat(path)
    case Ok(info) => PackJsonOrError(FileInfoToJsonPtr(info, render, mem), mem)
    case Err(e) => PackJsonOrError(Err(e), mem)
  }

  /** `handle_readdir`: as `handle_stat`, over the JSON array of the entries. */
  function HandleReaddir(fs: FileSystem, path: string, render: Json -> Result<string, string>, mem: Memory): (w: U64)
    ensures fs.readdir(path).Err? ==> Hi(w) == 0 && Lo(w) == mem.cstring(Display(fs.readdir(path).error))
    ensures fs.readdir(path).Ok? ==> w == PackJsonOrError(FileInfosToJsonPtr(fs.readdir(path).value, render, mem), mem)
    ensures Hi(w) != 0 <==> fs.readdir(path).Ok? && render(FileInfosToJson(fs.readdir(path).value)).Ok?
  {
    match fs.readdir(path)
    case Ok(infos) => PackJsonOrError(FileInfosToJsonPtr(infos, render, mem), mem)
    case Err(e) => PackJsonOrError(Err(e), mem)
  }

  /** `handle_write`: bytes written (truncated to 32 bits) in the high half and 0 in the low half
      on success; 0 and the error text otherwise. The host's flag word reaches the plugin unchanged. */
  function HandleWrite(fs: FileSystem, path: string, data: seq<Byte>, offset: I64, flags: bv32, mem: Memory): (w: U64)
    ensures Write(fs, path, data, offset, WriteFlag(flags)).Ok? ==>
              Hi(w) == TruncU32(Write(fs, path, data, offset, WriteFlag(flags)).value as int) && Lo(w) == 0
    ensures Write(fs, path, data, offset, WriteFlag(flags)).Err? ==>
              Hi(w) == 0 && Lo(w) == mem.cstring(Display(Write(fs, path, data, offset, WriteFlag(flags)).error))
    ensures Lo(w) != 0 <==> Write(fs, path, data, offset, WriteFlag(flags)).Err?
  {
    match Write(fs, path, data, offset, WriteFlagFromU32(flags))
    case Ok(n) => HalvesOfPack(TruncU32(n as int), 0); Pack(TruncU32(n as int), 0)
    case Err(e) => HalvesOfPack(0, mem.cstring(Display(e))); Pack(0, mem.cstring(Display(e)))
  }

  function HandleCreate(fs: FileSystem, path: string, mem: Memory): (p: Ptr)
    ensures p == NULL <==> Create(fs, path).Ok?
    ensures Create(fs, path).Err? ==> p == mem.cstring(Display(Create(fs, path).error))
  {
    ResultToErrorPtr(Create(fs, path), mem)
  }

  function HandleMkdir(fs: FileSystem, path: string, perm: Nat32, mem: Memory): (p: Ptr)
    ensures p == NULL <==> Mkdir(fs, path, perm).Ok?
    ensures Mkdir(fs, path, perm).Err? ==> p == mem.cstring(Display(Mkdir(fs, path, perm).error))
  {
    ResultToErrorPtr(Mkdir(fs, path, perm), mem)
  }

  function HandleRemove(fs: FileSystem, path: string, mem: Memory): (p: Ptr)
    ensures p == NULL <==> Remove(fs, path).Ok?
    ensures Remove(fs, path).Err? ==> p == mem.cstring(Display(Remove(fs, path).error))
  {
    ResultToErrorPtr(Remove(fs, path), mem)
  }

  function HandleRemoveAll(fs: FileSystem, path: string, mem: Memory): (p: Ptr)
    ensures p == NULL <==> RemoveAll(fs, path).Ok?
    ensures RemoveAll(fs, path).Err? ==> p == mem.cstring(Display(RemoveAll(fs, path).error))
  {
    ResultToErrorPtr(RemoveAll(fs, path), mem)
  }

  function HandleRename(fs: FileSystem, oldPath: string, newPath: string, mem: Memory): (p: Ptr)
    ensures p == NULL <==> Rename(fs, oldPath, newPath).Ok?
    ensures Rename(fs, oldPath, newPath).Err? ==> p == mem.cstring(Display(Rename(fs, oldPath, newPath).error))
  {
    ResultToErrorPtr(Rename(fs, oldPath, newPath), mem)
  }

  function HandleChmod(fs: FileSystem, path: string, mode: Nat32, mem: Memory): (p: Ptr)
    ensures p == NULL <==> Chmod(fs, path, mode).Ok?
    ensures Chmod(fs, path, mode).Err? ==> p == mem.cstring(Display(Chmod(fs, path, mode).error))
  {
    ResultToErrorPtr(Chmod(fs, path, mode), mem)
  }

  /** For a plugin that overrides no mutator, every mutating handler reports
      "read-only filesystem" and a write packs (0, that text). */
  lemma ReadOnlyPluginHandlers(fs: FileSystem, path: string, data: seq<Byte>, offset: I64, flags: bv32, mem: Memory)
    requires fs.write.None? && fs.create.None? && fs.removeAll.None?
    ensures HandleCreate(fs, path, mem) == mem.cstring("read-only filesystem")
    ensures HandleRemoveAll(fs, path, mem) == mem.cstring("read-only filesystem")
    ensures Hi(HandleWrite(fs, path, data, offset, flags, mem)) == 0
    ensures Lo(HandleWrite(fs, path, data, offset, flags, mem)) == mem.cstring("read-only filesystem")
  {
  }
}
