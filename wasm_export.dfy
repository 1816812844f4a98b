// The entry points that `export_plugin!` generates for a WebAssembly plugin.
// The module's `static mut PLUGIN` is the `plugin` field of a PluginModule;
// an entry point that reaches `expect("Not initialized")` with no instance
// traps. Effects of the plugin's own `&mut self` methods on its private state
// are not part of this model: the plugin is a fixed FileSystem value.
module WasmExport {
  import opened Wrappers
  import opened Packing
  import opened Flags
  import opened Json
  import opened WasmTypes
  import opened WasmFs
  import opened WasmFfi

  const SHARED_BUFFER_SIZE: nat := 65536

  /** `isize::MAX` on wasm32, the largest size a `Layout` accepts. */
  const ISIZE_MAX: nat := 0x7FFF_FFFF

  /** The JSON array of a plugin's configuration parameters, in declaration order. */
  function ParamsJson(ps: seq<ConfigParameter>): (j: Json)
    ensures j.JArray? && |j.items| == |ps|
    ensures forall i :: 0 <= i < |ps| ==> j.items[i] == ConfigParameterToJson(ps[i])
  {
    JArray(seq(|ps|, i requires 0 <= i < |ps| => ConfigParameterToJson(ps[i])))
  }

  class PluginModule {
    /** `Default::default()` of the exported plugin type. */
    const defaultInstance: FileSystem
    var plugin: Option<FileSystem>
    /** The two statically allocated shared buffers. */
    const inputBuffer: array<Byte>
    const outputBuffer: array<Byte>

    constructor(defaultInstance: FileSystem)
      ensures this.defaultInstance == defaultInstance && plugin.None?
      ensures inputBuffer.Length == SHARED_BUFFER_SIZE && outputBuffer.Length == SHARED_BUFFER_SIZE
      ensures inputBuffer != outputBuffer
      ensures fresh(inputBuffer) && fresh(outputBuffer)
    {
      this.defaultInstance := defaultInstance;
      plugin := None;
      inputBuffer := new Byte[SHARED_BUFFER_SIZE];
      outputBuffer := new Byte[SHARED_BUFFER_SIZE];
    }

    /** `plugin_new`: installs a fresh default instance and reports 1. */
    method PluginNew() returns (r: nat)
      modifies this
      ensures plugin == Some(defaultInstance)
      ensures r == 1
    {
      plugin := Some(defaultInstance);
      r := 1;
    }

    function PluginName(mem: Memory): (r: Call<Ptr>)
      reads this
      ensures plugin.None? <==> r.Abort?
      ensures plugin.Some? ==> r == Returns(mem.cstring(plugin.value.name) as Ptr)
    {
      if plugin.None? then Abort else Returns(mem.cstring(plugin.value.name))
    }

    function PluginGetReadme(mem: Memory): (r: Call<Ptr>)
      reads this
      ensures plugin.None? <==> r.Abort?
      ensures plugin.Some? && plugin.value.readme.None? ==> r == Returns(mem.cstring("No documentation available") as Ptr)
      ensures plugin.Some? && plugin.value.readme.Some? ==> r == Returns(mem.cstring(plugin.value.readme.value) as Ptr)
    {
      if plugin.None? then Abort else Returns(mem.cstring(Readme(plugin.value)))
    }

    /** `plugin_get_config_params`: the JSON array of parameters, or the text "[]" if serialising fails. */
    function PluginGetConfigParams(render: Json -> Result<string, string>, mem: Memory): (r: Call<Ptr>)
      reads this
      ensures plugin.None? <==> r.Abort?
      ensures plugin.Some? && render(ParamsJson(ConfigParams(plugin.value))).Ok? ==>
                r == Returns(mem.cstring(render(ParamsJson(ConfigParams(plugin.value))).value) as Ptr)
      ensures plugin.Some? && render(ParamsJson(ConfigParams(plugin.value))).Err? ==>
                r == Returns(mem.cstring("[]") as Ptr)
    {
      if plugin.None? then Abort
      else
        match render(ParamsJson(ConfigParams(plugin.value)))
        case Ok(json) => Returns(mem.cstring(json))
        case Err(_) => Returns(mem.cstring("[]"))
    }

    /** `plugin_validate`: a configuration error is reported before the instance is looked up,
        so it is returned even when no instance exists. */
    function PluginValidate(config: Option<string>, parse: string -> Result<Json, string>, mem: Memory): (r: Call<Ptr>)
      reads this
      ensures ReadConfig(config, parse).Err? ==>
                r == Returns(mem.cstring(Display(ReadConfig(config, parse).error)) as Ptr)
      ensures ReadConfig(config, parse).Ok? ==> (r.Abort? <==> plugin.None?)
      ensures ReadConfig(config, parse).Ok? && plugin.Some? ==>
                (r.value == NULL <==> Validate(plugin.value, ReadConfig(config, parse).value).Ok?)
      ensures ReadConfig(config, parse).Ok? && plugin.Some? && Validate(plugin.value, ReadConfig(config, parse).value).Err? ==>
                r == Returns(mem.cstring(Display(Validate(plugin.value, ReadConfig(config, parse).value).error)) as Ptr)
    {
      match ReadConfig(config, parse)
      case Err(e) => Returns(ResultToErrorPtr<Unit>(Err(e), mem))
      case Ok(c) => if plugin.None? then Abort else Returns(ResultToErrorPtr(Validate(plugin.value, c), mem))
    }

    /** `plugin_initialize`: the same shape as validation, over `initialize`. */
    function PluginInitialize(config: Option<string>, parse: string -> Result<Json, string>, mem: Memory): (r: Call<Ptr>)
      reads this
      ensures ReadConfig(config, parse).Err? ==>
                r == Returns(mem.cstring(Display(ReadConfig(config, parse).error)) as Ptr)
      ensures ReadConfig(config, parse).Ok? ==> (r.Abort? <==> plugin.None?)
      ensures ReadConfig(config, parse).Ok? && plugin.Some? ==>
                (r.value == NULL <==> Initialize(plugin.value, ReadConfig(config, parse).value).Ok?)
      ensures ReadConfig(config, parse).Ok? && plugin.Some? && Initialize(plugin.value, ReadConfig(config, parse).value).Err? ==>
                r == Returns(mem.cstring(Display(Initialize(plugin.value, ReadConfig(config, parse).value).error)) as Ptr)
    {
      match ReadConfig(config, parse)
      case Err(e) => Returns(ResultToErrorPtr<Unit>(Err(e), mem))
      case Ok(c) => if plugin.None? then Abort else Returns(ResultToErrorPtr(Initialize(plugin.value, c), mem))
    }

    function PluginShutdown(mem: Memory): (r: Call<Ptr>)
      reads this
      ensures plugin.None? <==> r.Abort?
      ensures plugin.Some? ==> (r.value == NULL <==> Shutdown(plugin.value).Ok?)
      ensures plugin.Some? && Shutdown(plugin.value).Err? ==> r == Returns(mem.cstring(Display(Shutdown(plugin.value).error)) as Ptr)
    {
      if plugin.None? then Abort else Returns(ResultToErrorPtr(Shutdown(plugin.value), mem))
    }

    /** `fs_read`: (buffer, length) on success, 0 on any error. */
    function FsRead(path: string, offset: I64, size: I64, mem: Memory): (r: Call<U64>)
      reads this
      ensures plugin.None? <==> r.Abort?
      ensures plugin.Some? && Read(plugin.value, path, offset, size).Err? ==> r == Returns(0)
      ensures plugin.Some? && Read(plugin.value, path, offset, size).Ok? ==>
                var data := Read(plugin.value, path, offset, size).value;
                Hi(r.value) == mem.buffer(data) && Lo(r.value) == TruncU32(|data|)
    {
      if plugin.None? then Abort else Returns(HandleRead(plugin.value, path, offset, size, mem))
    }

    /** `fs_stat`: (json, 0) on success, (0, error) on a plugin or serialisation failure. */
    function FsStat(path: string, render: Json -> Result<string, string>, mem: Memory): (r: Call<U64>)
      reads this
      ensures plugin.None? <==> r.Abort?
      ensures plugin.Some? && plugin.value.stat(path).Err? ==>
                Hi(r.value) == 0 && Lo(r.value) == mem.cstring(Display(plugin.value.stat(path).error))
      ensures plugin.Some? && plugin.value.stat(path).Ok? && render(FileInfoToJson(plugin.value.stat(path).value)).Ok? ==>
                Hi(r.value) == mem.cstring(render(FileInfoToJson(plugin.value.stat(path).value)).value) && Lo(r.value) == 0
      ensures plugin.Some? && plugin.value.stat(path).Ok? && render(FileInfoToJson(plugin.value.stat(path).value)).Err? ==>
                Hi(r.value) == 0
                && Lo(r.value) == mem.cstring(Display(Other("JSON serialization failed: " + render(FileInfoToJson(plugin.value.stat(path).value)).error)))
    {
      if plugin.None? then Abort else Returns(HandleStat(plugin.value, path, render, mem))
    }

    /** `fs_readdir`: as `fs_stat`, over the JSON array of the entries. */
    function FsReaddir(path: string, render: Json -> Result<string, string>, mem: Memory): (r: Call<U64>)
      reads this
      ensures plugin.None? <==> r.Abort?
      ensures plugin.Some? && plugin.value.readdir(path).Err? ==>
                Hi(r.value) == 0 && Lo(r.value) == mem.cstring(Display(plugin.value.readdir(path).error))
      ensures plugin.Some? && plugin.value.readdir(path).Ok? && render(FileInfosToJson(plugin.value.readdir(path).value)).Ok? ==>
                Hi(r.value) == mem.cstring(render(FileInfosToJson(plugin.value.readdir(path).value)).value) && Lo(r.value) == 0
      ensures plugin.Some? && plugin.value.readdir(path).Ok? && render(FileInfosToJson(plugin.value.readdir(path).value)).Err? ==>
                Hi(r.value) == 0
                && Lo(r.value) == mem.cstring(Display(Other("JSON serialization failed: " + render(FileInfosToJson(plugin.value.readdir(path).value)).error)))
    {
      if plugin.None? then Abort else Returns(HandleReaddir(plugin.value, path, render, mem))
    }

    /** `fs_write` as the macro writes it: it calls `write(p, &path, data)`, a method with only
        a path and the data (the receiver aside) that the FileSystem trait does not declare; its
        response bytes are returned as (buffer, length), and 0 on any error. */
    function FsWrite(path: string, data: seq<Byte>, respond: (string, seq<Byte>) -> Result<seq<Byte>, Error>,
                     mem: Memory): (r: Call<U64>)
      reads this
      ensures plugin.None? <==> r.Abort?
      ensures plugin.Some? && respond(path, data).Err? ==> r == Returns(0)
      ensures plugin.Some? && respond(path, data).Ok? ==>
                Hi(r.value) == mem.buffer(respond(path, data).value) && Lo(r.value) == TruncU32(|respond(path, data).value|)
    {
      if plugin.None? then Abort
      else match respond(path, data)
        case Ok(response) => Returns(PackBuffer(response, mem))
        case Err(_) => Returns(0)
    }

    function FsCreate(path: string, mem: Memory): (r: Call<Ptr>)
      reads this
      ensures plugin.None? <==> r.Abort?
      ensures plugin.Some? ==> (r.value == NULL <==> Create(plugin.value, path).Ok?)
      ensures plugin.Some? && Create(plugin.value, path).Err? ==>
                r.value == mem.cstring(Display(Create(plugin.value, path).error))
    {
      if plugin.None? then Abort else Returns(HandleCreate(plugin.value, path, mem))
    }

    function FsMkdir(path: string, perm: Nat32, mem: Memory): (r: Call<Ptr>)
      reads this
      ensures plugin.None? <==> r.Abort?
      ensures plugin.Some? ==> (r.value == NULL <==> Mkdir(plugin.value, path, perm).Ok?)
      ensures plugin.Some? && Mkdir(plugin.value, path, perm).Err? ==>
                r.value == mem.cstring(Display(Mkdir(plugin.value, path, perm).error))
    {
      if plugin.None? then Abort else Returns(HandleMkdir(plugin.value, path, perm, mem))
    }

    function FsRemove(path: string, mem: Memory): (r: Call<Ptr>)
      reads this
      ensures plugin.None? <==> r.Abort?
      ensures plugin.Some? ==> (r.value == NULL <==> Remove(plugin.value, path).Ok?)
      ensures plugin.Some? && Remove(plugin.value, path).Err? ==>
                r.value == mem.cstring(Display(Remove(plugin.value, path).error))
    {
      if plugin.None? then Abort else Returns(HandleRemove(plugin.value, path, mem))
    }

    function FsRemoveAll(path: string, mem: Memory): (r: Call<Ptr>)
      reads this
      ensures plugin.None? <==> r.Abort?
      ensures plugin.Some? ==> (r.value == NULL <==> RemoveAll(plugin.value, path).Ok?)
      ensures plugin.Some? && RemoveAll(plugin.value, path).Err? ==>
                r.value == mem.cstring(Display(RemoveAll(plugin.value, path).error))
    {
      if plugin.None? then Abort else Returns(HandleRemoveAll(plugin.value, path, mem))
    }

    function FsRename(oldPath: string, newPath: string, mem: Memory): (r: Call<Ptr>)
      reads this
      ensures plugin.None? <==> r.Abort?
      ensures plugin.Some? ==> (r.value == NULL <==> Rename(plugin.value, oldPath, newPath).Ok?)
      ensures plugin.Some? && Rename(plugin.value, oldPath, newPath).Err? ==>
                r.value == mem.cstring(Display(Rename(plugin.value, oldPath, newPath).error))
    {
      if plugin.None? then Abort else Returns(HandleRename(plugin.value, oldPath, newPath, mem))
    }

    function FsChmod(path: string, mode: Nat32, mem: Memory): (r: Call<Ptr>)
      reads this
      ensures plugin.None? <==> r.Abort?
      ensures plugin.Some? ==> (r.value == NULL <==> Chmod(plugin.value, path, mode).Ok?)
      ensures plugin.Some? && Chmod(plugin.value, path, mode).Err? ==>
                r.value == mem.cstring(Display(Chmod(plugin.value, path, mode).error))
    {
      if plugin.None? then Abort else Returns(HandleChmod(plugin.value, path, mode, mem))
    }

    /** `get_shared_buffer_size`: the capacity of each shared buffer. */
    function GetSharedBufferSize(): (n: nat)
      ensures n == 65536
      ensures n == inputBuffer.Length && n == outputBuffer.Length
      requires inputBuffer.Length == SHARED_BUFFER_SIZE && outputBuffer.Length == SHARED_BUFFER_SIZE
    {
      SHARED_BUFFER_SIZE
    }
  }

  /** After `plugin_new` every entry point answers instead of trapping. */
  lemma NoTrapAfterPluginNew(m: PluginModule, path: string, mem: Memory)
    requires m.plugin == Some(m.defaultInstance)
    ensures m.FsRead(path, 0, -1, mem).Returns?
    ensures m.FsCreate(path, mem).Returns? && m.PluginShutdown(mem).Returns?
  {
  }

  /** The heap behind the exported `malloc` and `free`: the live blocks and their sizes. */
  class Allocator {
    var live: map<NonNullPtr, nat>

    constructor()
      ensures live == map[]
    {
      live := map[];
    }

    /** `malloc`: a request for 0 bytes gives null without allocating; a size above
        `isize::MAX` makes `Layout::from_size_align(size, 1).unwrap()` panic; otherwise the
        result of `alloc`, given here as `got` (null when memory is exhausted). */
    method Malloc(size: Nat32, got: Ptr) returns (r: Call<Ptr>)
      modifies this
      requires got != NULL ==> got !in live
      ensures size == 0 ==> r == Returns(NULL) && live == old(live)
      ensures size > ISIZE_MAX ==> r.Abort? && live == old(live)
      ensures 0 < size <= ISIZE_MAX ==> r == Returns(got)
      ensures 0 < size <= ISIZE_MAX && got != NULL ==> live == old(live)[got := size]
      ensures 0 < size <= ISIZE_MAX && got == NULL ==> live == old(live)
    {
      if size == 0 {
        return Returns(NULL);
      }
      if size > ISIZE_MAX {
        return Abort;
      }
      r := Returns(got);
      if got != NULL {
        live := live[got := size];
      }
    }

    /** `free`: a no-op for a null pointer or a zero size; a size above `isize::MAX` panics in
        the same `unwrap`; otherwise the block is released. */
    method Free(ptr: Ptr, size: Nat32) returns (r: Call<()>)
      modifies this
      requires ptr != NULL && 0 < size <= ISIZE_MAX ==> ptr in live && live[ptr] == size
      ensures ptr == NULL || size == 0 ==> r == Returns(()) && live == old(live)
      ensures ptr != NULL && size > ISIZE_MAX ==> r.Abort? && live == old(live)
      ensures ptr != NULL && 0 < size <= ISIZE_MAX ==> r == Returns(()) && live == old(live) - {ptr}
    {
      if ptr == NULL || size == 0 {
        return Returns(());
      }
      if size > ISIZE_MAX {
        return Abort;
      }
      live := live - {ptr};
      r := Returns(());
    }
  }
}
