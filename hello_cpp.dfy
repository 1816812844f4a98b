// HelloFS in C++: the built-in file `/hello.txt` and, once `host_prefix` is
// configured, a `/host/...` tree proxied to the host filesystem. The plugin
// object keeps the prefix as a field that `initialize` sets. The host
// filesystem functions (`agfs::HostFS`, declared in a header that is not part
// of this model) are an oracle answering with the SDK's own result type.
module HelloCpp {
  import opened Wrappers
  import opened Packing
  import opened Flags
  import opened CppTypes
  import Text
  import CppFs
  import HelloWasm

  /** The host functions the plugin calls. */
  datatype Host = Host(
    read: (string, I64, I64) -> Result<seq<Byte>, Error>,
    stat: string -> Result<FileInfo, Error>,
    readdir: string -> Result<seq<FileInfo>, Error>,
    write: (string, seq<Byte>) -> Result<(), Error>,
    create: string -> Result<(), Error>,
    mkdir: (string, Nat32) -> Result<(), Error>,
    remove: string -> Result<(), Error>,
    removeAll: string -> Result<(), Error>,
    rename: (string, string) -> Result<(), Error>)

  const HELLO_PATH: string := "/hello.txt"

  /** The bytes of "Hello World from C++\n". */
  const HELLO: seq<Byte> := [0x48, 0x65, 0x6C, 0x6C, 0x6F, 0x20, 0x57, 0x6F, 0x72, 0x6C, 0x64, 0x20,
                             0x66, 0x72, 0x6F, 0x6D, 0x20, 0x43, 0x2B, 0x2B, 0x0A]

  const MODE_DIR: Nat32 := 0x1ED   // 0755
  const MODE_FILE: Nat32 := 0x1A4  // 0644

  const README := "HelloFS WASM (C++) - Demonstrates host filesystem access\n"
                  + " - /hello.txt - Returns 'Hello World from C++'\n"
                  + " - /host/* - Proxies to host filesystem (if configured host_prefix)"

  /** `get_host_path`: `/host/rest` maps to `prefix + "/rest"` once a prefix is configured, and
      every other path to the empty string, which stands for "not a host path". */
  function GetHostPath(prefix: string, path: string): (h: string)
    ensures h != [] <==> Text.StartsWith(path, "/host/") && prefix != []
    ensures h != [] ==> h == prefix + path[|"/host"|..]
  {
    if Text.StartsWith(path, "/host/") && prefix != [] then prefix + path[5..] else ""
  }

  /** The empty-string sentinel never collides with a real host path, so the mapping is the same
      partial map the Rust example computes with an explicit option. */
  lemma GetHostPathIsHostPath(prefix: string, path: string)
    ensures GetHostPath(prefix, path) != [] <==> HelloWasm.HostPath(prefix, path).Some?
    ensures GetHostPath(prefix, path) == HelloWasm.HostPath(prefix, path).UnwrapOr("")
  {
  }

  class HelloFs {
    var hostPrefix: string

    /** The member is default-constructed: no prefix. */
    constructor()
      ensures hostPrefix == []
    {
      hostPrefix := [];
    }

    /** `initialize`: takes `host_prefix` when the configuration has it and keeps the previous
        prefix otherwise; it never fails. */
    method Initialize(config: Config) returns (r: CppFs.Outcome)
      modifies this
      ensures r.Ok?
      ensures config.GetStr("host_prefix").Some? ==> hostPrefix == config.GetStr("host_prefix").value
      ensures config.GetStr("host_prefix").None? ==> hostPrefix == old(hostPrefix)
    {
      var prefix := config.GetStr("host_prefix");
      if prefix.Some? {
        hostPrefix := prefix.value;
      }
      r := Ok(());
    }

    /** The plugin as the SDK's dispatch sees it, with the prefix it holds now. */
    function AsFileSystem(host: Host): (fs: CppFs.FileSystem)
      reads this
      ensures fs.name == "hellofs-wasm-cpp" && fs.readme == Some(README)
      ensures fs.read.Some? && fs.write.Some? && fs.chmod.Some? && fs.validate.None?
    {
      var prefix := hostPrefix;
      CppFs.FileSystem(
        "hellofs-wasm-cpp",
        p => Stat(prefix, host, p),
        p => Readdir(prefix, host, p),
        Some(README),
        None,
        Some((c: Config) => Ok(())),
        None,
        Some((p: string, o: I64, s: I64) => Read(prefix, host, p, o, s)),
        Some((p: string, d: seq<Byte>, o: I64, f: WriteFlag) => Write(prefix, host, p, d, o, f)),
        Some(p => Create(prefix, host, p)),
        Some((p: string, m: Nat32) => Mkdir(prefix, host, p, m)),
        Some(p => Remove(prefix, host, p)),
        Some(p => RemoveAll(prefix, host, p)),
        Some((o: string, n: string) => Rename(prefix, host, o, n)),
        Some((p: string, m: Nat32) => Ok(())))
    }
  }

  function Read(prefix: string, host: Host, path: string, offset: I64, size: I64): (r: Result<seq<Byte>, Error>)
    ensures path == HELLO_PATH ==> r == Ok(HELLO)
    ensures path != HELLO_PATH && GetHostPath(prefix, path) == [] ==> r == Err(NotFoundError())
    ensures path != HELLO_PATH && GetHostPath(prefix, path) != [] ==>
              r == host.read(GetHostPath(prefix, path), offset, size)
  {
    if path == HELLO_PATH then Ok(HELLO)
    else
      var hostPath := GetHostPath(prefix, path);
      if hostPath != [] then host.read(hostPath, offset, size) else Err(NotFoundError())
  }

  function Stat(prefix: string, host: Host, path: string): (r: Result<FileInfo, Error>)
    ensures path == "/" ==> r == Ok(Dir("", MODE_DIR))
    ensures path == HELLO_PATH ==> r == Ok(File("hello.txt", 21, MODE_FILE))
    ensures path == "/host" ==> (r.Ok? <==> prefix != [])
    ensures path !in {"/", HELLO_PATH, "/host"} && GetHostPath(prefix, path) == [] ==> r == Err(NotFoundError())
    ensures path !in {"/", HELLO_PATH, "/host"} && GetHostPath(prefix, path) != [] ==>
              r == host.stat(GetHostPath(prefix, path))
  {
    if path == "/" then Ok(Dir("", MODE_DIR))
    else if path == HELLO_PATH then Ok(File("hello.txt", 21, MODE_FILE))
    else if path == "/host" && prefix != [] then Ok(Dir("host", MODE_DIR))
    else
      var hostPath := GetHostPath(prefix, path);
      if hostPath != [] then host.stat(hostPath) else Err(NotFoundError())
  }

  function Readdir(prefix: string, host: Host, path: string): (r: Result<seq<FileInfo>, Error>)
    ensures path == "/" ==> r.Ok? && |r.value| == (if prefix == [] then 1 else 2)
    ensures path == "/" ==> r.value[0] == File("hello.txt", 21, MODE_FILE)
    ensures path == "/" && prefix != [] ==> r.value[1] == Dir("host", MODE_DIR)
    ensures path == "/host" && prefix != [] ==> r == host.readdir(prefix)
    ensures path != "/" && path != "/host" && GetHostPath(prefix, path) != [] ==>
              r == host.readdir(GetHostPath(prefix, path))
    ensures path != "/" && (path != "/host" || prefix == []) && GetHostPath(prefix, path) == [] ==>
              r == Err(NotFoundError())
  {
    if path == "/" then
      Ok([File("hello.txt", 21, MODE_FILE)] + (if prefix != [] then [Dir("host", MODE_DIR)] else []))
    else if path == "/host" && prefix != [] then host.readdir(prefix)
    else
      var hostPath := GetHostPath(prefix, path);
      if hostPath != [] then host.readdir(hostPath) else Err(NotFoundError())
  }

  /** Writing outside `/host/` is refused; a host write reports the whole input as written, and a
      host failure is passed on unchanged. Offset and flags are ignored. */
  function Write(prefix: string, host: Host, path: string, data: seq<Byte>, offset: I64, flags: WriteFlag): (r: Result<I64, Error>)
    ensures GetHostPath(prefix, path) == [] ==> r == Err(PermissionDeniedError())
    ensures GetHostPath(prefix, path) != [] ==> (r.Ok? <==> host.write(GetHostPath(prefix, path), data).Ok?)
    ensures GetHostPath(prefix, path) != [] && r.Err? ==> r.error == host.write(GetHostPath(prefix, path), data).error
    ensures r.Ok? ==> r.value == UsizeAsI64(|data|)
  {
    var hostPath := GetHostPath(prefix, path);
    if hostPath == [] then Err(PermissionDeniedError())
    else match host.write(hostPath, data)
      case Ok(_) => Ok(UsizeAsI64(|data|))
      case Err(e) => Err(e)
  }

  function Create(prefix: string, host: Host, path: string): (r: CppFs.Outcome)
    ensures GetHostPath(prefix, path) == [] ==> r == Err(PermissionDeniedError())
    ensures GetHostPath(prefix, path) != [] ==> r == host.create(GetHostPath(prefix, path))
  {
    var hostPath := GetHostPath(prefix, path);
    if hostPath != [] then host.create(hostPath) else Err(PermissionDeniedError())
  }

  function Mkdir(prefix: string, host: Host, path: string, perm: Nat32): (r: CppFs.Outcome)
    ensures GetHostPath(prefix, path) == [] ==> r == Err(PermissionDeniedError())
    ensures GetHostPath(prefix, path) != [] ==> r == host.mkdir(GetHostPath(prefix, path), perm)
  {
    var hostPath := GetHostPath(prefix, path);
    if hostPath != [] then host.mkdir(hostPath, perm) else Err(PermissionDeniedError())
  }

  function Remove(prefix: string, host: Host, path: string): (r: CppFs.Outcome)
    ensures GetHostPath(prefix, path) == [] ==> r == Err(PermissionDeniedError())
    ensures GetHostPath(prefix, path) != [] ==> r == host.remove(GetHostPath(prefix, path))
  {
    var hostPath := GetHostPath(prefix, path);
    if hostPath != [] then host.remove(hostPath) else Err(PermissionDeniedError())
  }

  function RemoveAll(prefix: string, host: Host, path: string): (r: CppFs.Outcome)
    ensures GetHostPath(prefix, path) == [] ==> r == Err(PermissionDeniedError())
    ensures GetHostPath(prefix, path) != [] ==> r == host.removeAll(GetHostPath(prefix, path))
  {
    var hostPath := GetHostPath(prefix, path);
    if hostPath != [] then host.removeAll(hostPath) else Err(PermissionDeniedError())
  }

  /** A rename is forwarded only when both ends lie under `/host/`. */
  function Rename(prefix: string, host: Host, oldPath: string, newPath: string): (r: CppFs.Outcome)
    ensures GetHostPath(prefix, oldPath) == [] || GetHostPath(prefix, newPath) == [] ==>
              r == Err(PermissionDeniedError())
    ensures GetHostPath(prefix, oldPath) != [] && GetHostPath(prefix, newPath) != [] ==>
              r == host.rename(GetHostPath(prefix, oldPath), GetHostPath(prefix, newPath))
  {
    var hostOld := GetHostPath(prefix, oldPath);
    var hostNew := GetHostPath(prefix, newPath);
    if hostOld != [] && hostNew != [] then host.rename(hostOld, hostNew) else Err(PermissionDeniedError())
  }


  /** The size `stat` reports for the built-in file is the length of what `read` returns, whatever
      offset and size are asked for. */
  lemma HelloSizeMatchesContent(prefix: string, host: Host, offset: I64, size: I64)
    ensures Stat(prefix, host, HELLO_PATH).Ok? && Read(prefix, host, HELLO_PATH, offset, size).Ok?
    ensures Stat(prefix, host, HELLO_PATH).value.size as int == |Read(prefix, host, HELLO_PATH, offset, size).value|
  {
  }

  /** Without a prefix the plugin is one read-only file: every other path is missing or refused. */
  lemma NoPrefixIsHelloOnly(host: Host, path: string, other: string, data: seq<Byte>,
                            off: I64, size: I64, flags: WriteFlag)
    requires path != HELLO_PATH && path != "/"
    ensures Read([], host, path, off, size) == Err(NotFoundError())
    ensures Stat([], host, path) == Err(NotFoundError())
    ensures Readdir([], host, path) == Err(NotFoundError())
    ensures Write([], host, path, data, off, flags) == Err(PermissionDeniedError())
    ensures Rename([], host, path, other) == Err(PermissionDeniedError())
  {
  }

  /** After an initialisation that configures a prefix, `/host` is a directory listed at the root
      and its listing is the host's listing of the prefix. */
  method InitializeThenList(host: Host, prefix: string) returns (fs: HelloFs)
    requires prefix != []
    ensures fresh(fs) && fs.hostPrefix == prefix
    ensures Stat(fs.hostPrefix, host, "/host") == Ok(Dir("host", MODE_DIR))
    ensures Readdir(fs.hostPrefix, host, "/").Ok? && Dir("host", MODE_DIR) in Readdir(fs.hostPrefix, host, "/").value
    ensures Readdir(fs.hostPrefix, host, "/host") == host.readdir(prefix)
  {
    fs := new HelloFs();
    var r := fs.Initialize(Config(map["host_prefix" := prefix]));
    assert Readdir(fs.hostPrefix, host, "/").value[1] == Dir("host", MODE_DIR);
  }

  /** Through the SDK, the built-in file is read whole and `chmod` succeeds. */
  lemma DispatchThroughSdk(fs: HelloFs, host: Host, path: string, off: I64, size: I64, mode: Nat32)
    ensures CppFs.Read(fs.AsFileSystem(host), HELLO_PATH, off, size) == Ok(HELLO)
    ensures CppFs.Chmod(fs.AsFileSystem(host), path, mode).Ok?
    ensures CppFs.Readme(fs.AsFileSystem(host)) != CppFs.DEFAULT_README
  {
  }
}
