// The entry points that `AGFS_EXPORT_PLUGIN` generates for a C++ plugin. The
// macro's global `g_plugin_instance` is the `instance` field of a PluginModule.
// Unlike the Rust SDK, no entry point traps without an instance: the string
// entry points answer "not initialized" (or null for the name and readme), and
// the word entry points answer 0 or (0, "not initialized"). The string copying,
// allocation, configuration parsing and JSON serialisation helpers live in
// `agfs_ffi.h`, which is not part of this model: they are oracle parameters.
module CppExport {
  import opened Wrappers
  import opened Packing
  import opened Flags
  import opened CppTypes
  import opened CppFs
  import WasmFfi

  const SHARED_BUFFER_SIZE: nat := 65536

  const NOT_INITIALIZED := "not initialized"

  /** An error result as the string entry points report it: null on success, the error's
      `to_string` otherwise. */
  function ErrorPtr(r: Outcome, mem: WasmFfi.Memory): (p: Ptr)
    ensures p == NULL <==> r.Ok?
    ensures r.Err? ==> p == mem.cstring(ToString(r.error))
  {
    if r.Ok? then NULL else mem.cstring(ToString(r.error))
  }

  /** The (json, 0) word of a success, the (0, error) word of a failure. */
  function JsonOrErrorWord<T>(r: Result<T, Error>, serialize: T -> string, mem: WasmFfi.Memory): (w: U64)
    ensures r.Ok? ==> Hi(w) == mem.cstring(serialize(r.value)) && Lo(w) == 0
    ensures r.Err? ==> Hi(w) == 0 && Lo(w) == mem.cstring(ToString(r.error))
    ensures Hi(w) != 0 <==> r.Ok?
  {
    match r
    case Ok(v) => HalvesOfPack(mem.cstring(serialize(v)), 0); Pack(mem.cstring(serialize(v)), 0)
    case Err(e) => HalvesOfPack(0, mem.cstring(ToString(e))); Pack(0, mem.cstring(ToString(e)))
  }

  /** The word a word entry point returns without an instance. */
  function NotInitializedWord(mem: WasmFfi.Memory): (w: U64)
    ensures Hi(w) == 0 && Lo(w) == mem.cstring(NOT_INITIALIZED)
  {
    HalvesOfPack(0, mem.cstring(NOT_INITIALIZED));
    Pack(0, mem.cstring(NOT_INITIALIZED))
  }

  class PluginModule {
    /** `new PluginType()`. */
    const defaultInstance: FileSystem
    var instance: Option<FileSystem>
    const inputBuffer: array<Byte>
    const outputBuffer: array<Byte>

    constructor(defaultInstance: FileSystem)
      ensures this.defaultInstance == defaultInstance && instance.None?
      ensures inputBuffer.Length == SHARED_BUFFER_SIZE && outputBuffer.Length == SHARED_BUFFER_SIZE
      ensures inputBuffer != outputBuffer
      ensures fresh(inputBuffer) && fresh(outputBuffer)
    {
      this.defaultInstance := defaultInstance;
      instance := None;
      inputBuffer := new Byte[SHARED_BUFFER_SIZE];
      outputBuffer := new Byte[SHARED_BUFFER_SIZE];
    }

    /** `plugin_new`: installs a new instance, replacing any earlier one, and reports 1. */
    method PluginNew() returns (r: int)
      modifies this
      ensures instance == Some(defaultInstance)
      ensures r == 1
    {
      instance := Some(defaultInstance);
      r := 1;
    }

    /** `plugin_name`: null without an instance, otherwise a copy of the name. */
    function PluginName(mem: WasmFfi.Memory): (p: Ptr)
      reads this
      ensures p == NULL <==> instance.None?
      ensures instance.Some? ==> p == mem.cstring(instance.value.name)
    {
      if instance.None? then NULL else mem.cstring(instance.value.name)
    }

    /** `plugin_get_readme`: null without an instance, otherwise a copy of the readme. */
    function PluginGetReadme(mem: WasmFfi.Memory): (p: Ptr)
      reads this
      ensures p == NULL <==> instance.None?
      ensures instance.Some? ==> p == mem.cstring(Readme(instance.value))
    {
      if instance.None? then NULL else mem.cstring(Readme(instance.value))
    }

    /** `plugin_validate`: the configuration text is parsed only once an instance exists. */
    function PluginValidate(configText: string, parse: string -> Config, mem: WasmFfi.Memory): (p: Ptr)
      reads this
      ensures instance.None? ==> p == mem.cstring(NOT_INITIALIZED)
      ensures p == NULL <==> instance.Some? && Validate(instance.value, parse(configText)).Ok?
      ensures instance.Some? ==> p == ErrorPtr(Validate(instance.value, parse(configText)), mem)
    {
      if instance.None? then mem.cstring(NOT_INITIALIZED)
      else ErrorPtr(Validate(instance.value, parse(configText)), mem)
    }

    function PluginInitialize(configText: string, parse: string -> Config, mem: WasmFfi.Memory): (p: Ptr)
      reads this
      ensures instance.None? ==> p == mem.cstring(NOT_INITIALIZED)
      ensures p == NULL <==> instance.Some? && Initialize(instance.value, parse(configText)).Ok?
      ensures instance.Some? ==> p == ErrorPtr(Initialize(instance.value, parse(configText)), mem)
    {
      if instance.None? then mem.cstring(NOT_INITIALIZED)
      else ErrorPtr(Initialize(instance.value, parse(configText)), mem)
    }

    function PluginShutdown(mem: WasmFfi.Memory): (p: Ptr)
      reads this
      ensures instance.None? ==> p == mem.cstring(NOT_INITIALIZED)
      ensures p == NULL <==> instance.Some? && Shutdown(instance.value).Ok?
      ensures instance.Some? && Shutdown(instance.value).Err? ==> p == mem.cstring(ToString(Shutdown(instance.value).error))
    {
      if instance.None? then mem.cstring(NOT_INITIALIZED) else ErrorPtr(Shutdown(instance.value), mem)
    }

    /** `fs_read`: (buffer, length) of the data on success; 0 without an instance or on any error,
        so an error and a missing instance are indistinguishable. The length is cut to 32 bits. */
    function FsRead(path: string, offset: I64, size: I64, mem: WasmFfi.Memory): (w: U64)
      reads this
      ensures w == 0 <==> instance.None? || Read(instance.value, path, offset, size).Err?
      ensures instance.Some? && Read(instance.value, path, offset, size).Ok? ==>
                var data := Read(instance.value, path, offset, size).value;
                Hi(w) == mem.buffer(data) && Lo(w) == TruncU32(|data|)
    {
      if instance.None? then 0
      else match Read(instance.value, path, offset, size)
        case Ok(data) => WasmFfi.PackBuffer(data, mem)
        case Err(_) => 0
    }

    /** `fs_stat`: (json, 0) on success, (0, error text) otherwise. */
    function FsStat(path: string, serialize: FileInfo -> string, mem: WasmFfi.Memory): (w: U64)
      reads this
      ensures instance.None? ==> Hi(w) == 0 && Lo(w) == mem.cstring(NOT_INITIALIZED)
      ensures instance.Some? ==> w == JsonOrErrorWord(instance.value.stat(path), serialize, mem)
      ensures Hi(w) != 0 <==> instance.Some? && instance.value.stat(path).Ok?
    {
      if instance.None? then NotInitializedWord(mem)
      else JsonOrErrorWord(instance.value.stat(path), serialize, mem)
    }

    /** `fs_readdir`: as `fs_stat`, over the serialised array of entries. */
    function FsReaddir(path: string, serialize: seq<FileInfo> -> string, mem: WasmFfi.Memory): (w: U64)
      reads this
      ensures instance.None? ==> Hi(w) == 0 && Lo(w) == mem.cstring(NOT_INITIALIZED)
      ensures instance.Some? ==> w == JsonOrErrorWord(instance.value.readdir(path), serialize, mem)
      ensures Hi(w) != 0 <==> instance.Some? && instance.value.readdir(path).Ok?
    {
      if instance.None? then NotInitializedWord(mem)
      else JsonOrErrorWord(instance.value.readdir(path), serialize, mem)
    }

    /** `fs_write` as the macro writes it: a two-argument `write` (which the base class does not
        declare, given here as `respond`) whose response bytes are returned as (buffer, length),
        and 0 without an instance or on any error. */
    function FsWrite(path: string, data: seq<Byte>, respond: (string, seq<Byte>) -> Result<seq<Byte>, Error>,
                     mem: WasmFfi.Memory): (w: U64)
      reads this
      ensures w == 0 <==> instance.None? || respond(path, data).Err?
      ensures instance.Some? && respond(path, data).Ok? ==>
                Hi(w) == mem.buffer(respond(path, data).value) && Lo(w) == TruncU32(|respond(path, data).value|)
    {
      if instance.None? then 0
      else match respond(path, data)
        case Ok(response) => WasmFfi.PackBuffer(response, mem)
        case Err(_) => 0
    }

    function FsCreate(path: string, mem: WasmFfi.Memory): (p: Ptr)
      reads this
      ensures instance.None? ==> p == mem.cstring(NOT_INITIALIZED)
      ensures p == NULL <==> instance.Some? && Create(instance.value, path).Ok?
      ensures instance.Some? ==> p == ErrorPtr(Create(instance.value, path), mem)
    {
      if instance.None? then mem.cstring(NOT_INITIALIZED) else ErrorPtr(Create(instance.value, path), mem)
    }

    function FsMkdir(path: string, perm: Nat32, mem: WasmFfi.Memory): (p: Ptr)
      reads this
      ensures instance.None? ==> p == mem.cstring(NOT_INITIALIZED)
      ensures p == NULL <==> instance.Some? && Mkdir(instance.value, path, perm).Ok?
      ensures instance.Some? ==> p == ErrorPtr(Mkdir(instance.value, path, perm), mem)
    {
      if instance.None? then mem.cstring(NOT_INITIALIZED) else ErrorPtr(Mkdir(instance.value, path, perm), mem)
    }

    function FsRemove(path: string, mem: WasmFfi.Memory): (p: Ptr)
      reads this
      ensures instance.None? ==> p == mem.cstring(NOT_INITIALIZED)
      ensures p == NULL <==> instance.Some? && Remove(instance.value, path).Ok?
      ensures instance.Some? ==> p == ErrorPtr(Remove(instance.value, path), mem)
    {
      if instance.None? then mem.cstring(NOT_INITIALIZED) else ErrorPtr(Remove(instance.value, path), mem)
    }

    function FsRemoveAll(path: string, mem: WasmFfi.Memory): (p: Ptr)
      reads this
      ensures instance.None? ==> p == mem.cstring(NOT_INITIALIZED)
      ensures p == NULL <==> instance.Some? && RemoveAll(instance.value, path).Ok?
      ensures instance.Some? ==> p == ErrorPtr(RemoveAll(instance.value, path), mem)
    {
      if instance.None? then mem.cstring(NOT_INITIALIZED) else ErrorPtr(RemoveAll(instance.value, path), mem)
    }

    function FsRename(oldPath: string, newPath: string, mem: WasmFfi.Memory): (p: Ptr)
      reads this
      ensures instance.None? ==> p == mem.cstring(NOT_INITIALIZED)
      ensures p == NULL <==> instance.Some? && Rename(instance.value, oldPath, newPath).Ok?
      ensures instance.Some? ==> p == ErrorPtr(Rename(instance.value, oldPath, newPath), mem)
    {
      if instance.None? then mem.cstring(NOT_INITIALIZED)
      else ErrorPtr(Rename(instance.value, oldPath, newPath), mem)
    }

    function FsChmod(path: string, mode: Nat32, mem: WasmFfi.Memory): (p: Ptr)
      reads this
      ensures instance.None? ==> p == mem.cstring(NOT_INITIALIZED)
      ensures p == NULL <==> instance.Some? && Chmod(instance.value, path, mode).Ok?
      ensures instance.Some? ==> p == ErrorPtr(Chmod(instance.value, path, mode), mem)
    {
      if instance.None? then mem.cstring(NOT_INITIALIZED) else ErrorPtr(Chmod(instance.value, path, mode), mem)
    }

    /** `get_shared_buffer_size`: the capacity of each shared buffer. */
    function GetSharedBufferSize(): (n: nat)
      requires inputBuffer.Length == SHARED_BUFFER_SIZE && outputBuffer.Length == SHARED_BUFFER_SIZE
      ensures n == 65536
      ensures n == inputBuffer.Length && n == outputBuffer.Length
    {
      SHARED_BUFFER_SIZE
    }
  }

  /** Before `plugin_new` no entry point reaches a plugin method: every string entry point reports
      "not initialized", the name and readme are null, and the word entry points answer 0 or
      (0, "not initialized"). */
  lemma BeforePluginNew(m: PluginModule, path: string, other: string, configText: string,
                        parse: string -> Config, data: seq<Byte>, offset: I64, size: I64, mode: Nat32,
                        serialize: FileInfo -> string,
                        respond: (string, seq<Byte>) -> Result<seq<Byte>, Error>, mem: WasmFfi.Memory)
    requires m.instance.None?
    ensures m.PluginName(mem) == NULL && m.PluginGetReadme(mem) == NULL
    ensures m.PluginValidate(configText, parse, mem) == mem.cstring(NOT_INITIALIZED)
    ensures m.PluginInitialize(configText, parse, mem) == mem.cstring(NOT_INITIALIZED)
    ensures m.PluginShutdown(mem) == mem.cstring(NOT_INITIALIZED)
    ensures m.FsRead(path, offset, size, mem) == 0 && m.FsWrite(path, data, respond, mem) == 0
    ensures Hi(m.FsStat(path, serialize, mem)) == 0
    ensures m.FsCreate(path, mem) == mem.cstring(NOT_INITIALIZED)
    ensures m.FsRename(path, other, mem) == mem.cstring(NOT_INITIALIZED)
    ensures m.FsChmod(path, mode, mem) == mem.cstring(NOT_INITIALIZED)
  {
  }

  /** With a plugin that overrides only the pure virtual methods, `chmod` succeeds (null) while
      `create` and `read` fail with the read-only error. */
  lemma MinimalPluginAnswers(m: PluginModule, path: string, offset: I64, size: I64, mode: Nat32,
                             mem: WasmFfi.Memory)
    requires m.instance.Some?
    requires m.instance.value.read.None? && m.instance.value.create.None? && m.instance.value.chmod.None?
    ensures m.FsChmod(path, mode, mem) == NULL
    ensures m.FsCreate(path, mem) == mem.cstring("read-only filesystem")
    ensures m.FsRead(path, offset, size, mem) == 0
  {
  }
}
