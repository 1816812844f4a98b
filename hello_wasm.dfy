// HelloFS, the WebAssembly example plugin: a single built-in file
// `/hello.txt` and, once a host prefix is configured, a `/host/...` tree that
// proxies to the host filesystem. The stateless operations are path matches;
// the handle interface keeps a table of open handles with a position each.
// The host filesystem is an oracle whose errors arrive as their text.
module HelloWasm {
  import opened Wrappers
  import opened Packing
  import opened Flags
  import opened WasmTypes
  import Text
  import WasmFs

  /** The host functions a plugin may call. */
  datatype Host = Host(
    read: (string, int, int) -> Result<seq<Byte>, string>,
    stat: string -> Result<FileInfo, string>,
    readdir: string -> Result<seq<FileInfo>, string>,
    write: (string, seq<Byte>) -> Result<(), string>,
    create: string -> Result<(), string>,
    mkdir: (string, Nat32) -> Result<(), string>,
    remove: string -> Result<(), string>,
    removeAll: string -> Result<(), string>,
    rename: (string, string) -> Result<(), string>)

  /** A host failure surfaces as `Other("host fs: ...")`. */
  function Lift<T>(r: Result<T, string>): (l: Result<T, Error>)
    ensures r.Ok? ==> l == Ok(r.value)
    ensures r.Err? ==> l == Err(Other("host fs: " + r.error))
  {
    match r
    case Ok(v) => Ok(v)
    case Err(e) => Err(Other("host fs: " + e))
  }

  const HELLO_PATH: string := "/hello.txt"

  /** The bytes of "Hello World\n". */
  const HELLO: seq<Byte> := [0x48, 0x65, 0x6C, 0x6C, 0x6F, 0x20, 0x57, 0x6F, 0x72, 0x6C, 0x64, 0x0A]

  const MODE_DIR: Nat32 := 0x1ED   // 0o755
  const MODE_FILE: Nat32 := 0x1A4  // 0o644

  /** `/host/rest` maps to `prefix + "/rest"` once a prefix is configured. */
  function HostPath(prefix: string, p: string): (r: Option<string>)
    ensures r.Some? <==> Text.StartsWith(p, "/host/") && prefix != []
    ensures r.Some? ==> r.value == prefix + p[|"/host"|..]
  {
    if Text.StartsWith(p, "/host/") && prefix != [] then Some(prefix + p[5..]) else None
  }

  /** The built-in file does not lie under `/host/`. */
  lemma HelloIsNotHostPath(prefix: string)
    ensures HostPath(prefix, HELLO_PATH).None?
  {
    assert HELLO_PATH[2] != "/host/"[2];
  }

  function Read(prefix: string, host: Host, path: string, offset: I64, size: I64): (r: Result<seq<Byte>, Error>)
    ensures path == HELLO_PATH ==> r == Ok(HELLO)
    ensures path != HELLO_PATH && HostPath(prefix, path).None? ==> r == Err(NotFound)
    ensures path != HELLO_PATH && HostPath(prefix, path).Some? ==>
              r == Lift(host.read(HostPath(prefix, path).value, offset as int, size as int))
  {
    if path == HELLO_PATH then Ok(HELLO)
    else match HostPath(prefix, path)
      case Some(full) => Lift(host.read(full, offset as int, size as int))
      case None => Err(NotFound)
  }

  function Stat(prefix: string, host: Host, path: string): (r: Result<FileInfo, Error>)
    ensures path == "/" ==> r == Ok(DirOf("", MODE_DIR))
    ensures path == HELLO_PATH ==> r == Ok(FileOf("hello.txt", 12, MODE_FILE))
    ensures path == "/host" ==> (r.Ok? <==> prefix != [])
    ensures path == "/host" && prefix != [] ==> r == Ok(DirOf("host", MODE_DIR))
    ensures path !in {"/", HELLO_PATH, "/host"} && HostPath(prefix, path).None? ==> r == Err(NotFound)
    ensures path !in {"/", HELLO_PATH, "/host"} && HostPath(prefix, path).Some? ==>
              r == Lift(host.stat(HostPath(prefix, path).value))
  {
    if path == "/" then Ok(DirOf("", MODE_DIR))
    else if path == HELLO_PATH then Ok(FileOf("hello.txt", 12, MODE_FILE))
    else if path == "/host" && prefix != [] then Ok(DirOf("host", MODE_DIR))
    else match HostPath(prefix, path)
      case Some(full) => Lift(host.stat(full))
      case None => Err(NotFound)
  }

  /** The size `stat` reports for the built-in file is the length of what `read` returns. */
  lemma HelloSizeMatchesContent(prefix: string, host: Host, offset: I64, size: I64)
    ensures Stat(prefix, host, HELLO_PATH).Ok? && Read(prefix, host, HELLO_PATH, offset, size).Ok?
    ensures Stat(prefix, host, HELLO_PATH).value.size as int == |Read(prefix, host, HELLO_PATH, offset, size).value|
  {
  }

  function Readdir(prefix: string, host: Host, path: string): (r: Result<seq<FileInfo>, Error>)
    ensures path == "/" ==> r.Ok? && |r.value| == (if prefix == [] then 1 else 2)
    ensures path == "/" ==> r.value[0] == FileOf("hello.txt", 12, MODE_FILE)
    ensures path == "/" && prefix != [] ==> r.value[1] == DirOf("host", MODE_DIR)
    ensures path == "/host" && prefix != [] ==> r == Lift(host.readdir(prefix))
    ensures path != "/" && path != "/host" && HostPath(prefix, path).Some? ==>
              r == Lift(host.readdir(HostPath(prefix, path).value))
    ensures path != "/" && (path != "/host" || prefix == []) && HostPath(prefix, path).None? ==> r == Err(NotFound)
  {
    if path == "/" then
      Ok([FileOf("hello.txt", 12, MODE_FILE)] + (if prefix != [] then [DirOf("host", MODE_DIR)] else []))
    else if path == "/host" && prefix != [] then Lift(host.readdir(prefix))
    else match HostPath(prefix, path)
      case Some(full) => Lift(host.readdir(full))
      case None => Err(NotFound)
  }

  /** Writing outside `/host/` is refused; a host write reports the whole input as written. */
  function Write(prefix: string, host: Host, path: string, data: seq<Byte>, offset: I64, flags: WriteFlag): (r: Result<I64, Error>)
    ensures HostPath(prefix, path).None? ==> r == Err(PermissionDenied)
    ensures HostPath(prefix, path).Some? ==> (r.Ok? <==> host.write(HostPath(prefix, path).value, data).Ok?)
    ensures r.Ok? ==> r.value == UsizeAsI64(|data|)
    ensures r.Err? && HostPath(prefix, path).Some? ==> r.error.Other?
  {
    match HostPath(prefix, path)
    case None => Err(PermissionDenied)
    case Some(full) =>
      match host.write(full, data)
      case Ok(_) => Ok(UsizeAsI64(|data|))
      case Err(e) => Err(Other("host fs: " + e))
  }

  function Create(prefix: string, host: Host, path: string): (r: WasmFs.Outcome)
    ensures HostPath(prefix, path).None? ==> r == Err(PermissionDenied)
    ensures HostPath(prefix, path).Some? ==> r == Lift(host.create(HostPath(prefix, path).value))
  {
    match HostPath(prefix, path)
    case None => Err(PermissionDenied)
    case Some(full) => Lift(host.create(full))
  }

  function Mkdir(prefix: string, host: Host, path: string, perm: Nat32): (r: WasmFs.Outcome)
    ensures HostPath(prefix, path).None? ==> r == Err(PermissionDenied)
    ensures HostPath(prefix, path).Some? ==> r == Lift(host.mkdir(HostPath(prefix, path).value, perm))
  {
    match HostPath(prefix, path)
    case None => Err(PermissionDenied)
    case Some(full) => Lift(host.mkdir(full, perm))
  }

  function Remove(prefix: string, host: Host, path: string): (r: WasmFs.Outcome)
    ensures HostPath(prefix, path).None? ==> r == Err(PermissionDenied)
    ensures HostPath(prefix, path).Some? ==> r == Lift(host.remove(HostPath(prefix, path).value))
  {
    match HostPath(prefix, path)
    case None => Err(PermissionDenied)
    case Some(full) => Lift(host.remove(full))
  }

  function RemoveAll(prefix: string, host: Host, path: string): (r: WasmFs.Outcome)
    ensures HostPath(prefix, path).None? ==> r == Err(PermissionDenied)
    ensures HostPath(prefix, path).Some? ==> r == Lift(host.removeAll(HostPath(prefix, path).value))
  {
    match HostPath(prefix, path)
    case None => Err(PermissionDenied)
    case Some(full) => Lift(host.removeAll(full))
  }

  /** A rename is forwarded only when both ends lie under `/host/`. */
  function Rename(prefix: string, host: Host, oldPath: string, newPath: string): (r: WasmFs.Outcome)
    ensures HostPath(prefix, oldPath).None? || HostPath(prefix, newPath).None? ==> r == Err(PermissionDenied)
    ensures HostPath(prefix, oldPath).Some? && HostPath(prefix, newPath).Some? ==>
              r == Lift(host.rename(HostPath(prefix, oldPath).value, HostPath(prefix, newPath).value))
  {
    match (HostPath(prefix, oldPath), HostPath(prefix, newPath))
    case (Some(o), Some(n)) => Lift(host.rename(o, n))
    case _ => Err(PermissionDenied)
  }

  /** `chmod` succeeds without doing anything, unlike the SDK's read-only default. */
  function Chmod(path: string, mode: Nat32): (r: WasmFs.Outcome)
    ensures r.Ok?
  {
    Ok(())
  }

  /** Without a host prefix the plugin is the one read-only file: everything else is missing or refused. */
  lemma NoPrefixIsHelloOnly(host: Host, path: string, other: string, data: seq<Byte>, off: I64, size: I64, flags: WriteFlag)
    requires path != HELLO_PATH && path != "/"
    ensures Read([], host, path, off, size) == Err(NotFound)
    ensures Stat([], host, path) == Err(NotFound)
    ensures Write([], host, path, data, off, flags) == Err(PermissionDenied)
    ensures Rename([], host, path, other) == Err(PermissionDenied)
  {
  }

  /** The plugin as seen by the SDK's dispatch. */
  function AsFileSystem(prefix: string, host: Host): (fs: WasmFs.FileSystem)
    ensures fs.name == "hellofs-wasm"
    ensures fs.read.Some? && fs.write.Some? && fs.chmod.Some?
  {
    WasmFs.FileSystem(
      "hellofs-wasm",
      p => Stat(prefix, host, p),
      p => Readdir(prefix, host, p),
      Some("HelloFS WASM - Demonstrates host filesystem access\n"
           + "- /hello.txt - Returns 'Hello World'\n"
           + "- /host/* - Proxies to host filesystem (if configured)"),
      None,
      None,
      Some((c: Config) => Ok(())),
      None,
      Some((p: string, o: I64, s: I64) => Read(prefix, host, p, o, s)),
      Some((p: string, d: seq<Byte>, o: I64, f: WriteFlag) => Write(prefix, host, p, d, o, f)),
      Some(p => Create(prefix, host, p)),
      Some((p: string, m: Nat32) => Mkdir(prefix, host, p, m)),
      Some(p => Remove(prefix, host, p)),
      Some(p => RemoveAll(prefix, host, p)),
      Some((o: string, n: string) => Rename(prefix, host, o, n)),
      Some((p: string, m: Nat32) => Chmod(p, m)))
  }

  /** Through the SDK, reading the built-in file ignores offset and size, and `chmod`
      succeeds where the SDK default would report a read-only filesystem. */
  lemma DispatchThroughSdk(prefix: string, host: Host, path: string, off: I64, size: I64, mode: Nat32)
    ensures WasmFs.Read(AsFileSystem(prefix, host), HELLO_PATH, off, size) == Ok(HELLO)
    ensures WasmFs.Chmod(AsFileSystem(prefix, host), path, mode).Ok?
    ensures WasmFs.Readme(AsFileSystem(prefix, host)) != WasmFs.DEFAULT_README
  {
  }

  // ---------------------------------------------------------------------------------------
  // Handle identifiers: "wh_" followed by the counter as 16 lower-case hex digits.

  function Pow16(k: nat): (p: nat)
    ensures p >= 1
  {
    if k == 0 then 1 else 16 * Pow16(k - 1)
  }

  /** `n` written with exactly `k` hex digits (the low `k` digits when it is wider). */
  function HexDigits(n: nat, k: nat): (s: string)
    ensures |s| == k
    ensures forall i :: 0 <= i < k ==> Text.IsHexDigit(s[i])
  {
    if k == 0 then [] else HexDigits(n / 16, k - 1) + [Text.HexChar(n % 16)]
  }

  function HexValue(s: string): (n: nat)
    requires forall i :: 0 <= i < |s| ==> Text.IsHexDigit(s[i])
  {
    if s == [] then 0 else HexValue(s[..|s| - 1]) * 16 + Text.HexDigitValue(s[|s| - 1])
  }

  /** Reading back `k` hex digits gives the number when it has at most `k` digits. */
  lemma {:induction false} HexRoundTrip(n: nat, k: nat)
    requires n < Pow16(k)
    ensures HexValue(HexDigits(n, k)) == n
  {
    if k > 0 {
      var s := HexDigits(n, k);
      assert n / 16 < Pow16(k - 1);
      HexRoundTrip(n / 16, k - 1);
      assert s[..|s| - 1] == HexDigits(n / 16, k - 1);
      assert Text.HexDigitValue(Text.HexChar(n % 16)) == n % 16;
    }
  }

  lemma {:induction false} Pow16Add(a: nat, b: nat)
    ensures Pow16(a + b) == Pow16(a) * Pow16(b)
  {
    if a > 0 {
      Pow16Add(a - 1, b);
    }
  }

  /** Sixteen hex digits cover exactly the 64-bit range. */
  lemma Pow16Sixteen()
    ensures Pow16(16) == 0x1_0000_0000_0000_0000
  {
    assert Pow16(2) == 256;
    Pow16Add(2, 2);
    Pow16Add(4, 4);
    Pow16Add(8, 8);
  }

  /** `generate_handle_id` for the counter value `n`. */
  function HandleId(n: Nat64): (id: string)
    ensures |id| == 19 && id[..3] == "wh_"
  {
    "wh_" + HexDigits(n, 16)
  }

  function ParseHandleId(id: string): (r: Option<nat>)
  {
    if |id| == 19 && id[..3] == "wh_" && forall i :: 3 <= i < 19 ==> Text.IsHexDigit(id[i])
    then Some(HexValue(id[3..]))
    else None
  }

  /** Every identifier reads back as the counter value it was made from ... */
  lemma ParseHandleIdRoundTrip(n: Nat64)
    ensures ParseHandleId(HandleId(n)) == Some(n)
  {
    Pow16Sixteen();
    HexRoundTrip(n, 16);
    assert HandleId(n)[3..] == HexDigits(n, 16);
  }

  /** ... so different counter values give different identifiers. */
  lemma HandleIdInjective(a: Nat64, b: Nat64)
    requires a != b
    ensures HandleId(a) != HandleId(b)
  {
    ParseHandleIdRoundTrip(a);
    ParseHandleIdRoundTrip(b);
  }

  // ---------------------------------------------------------------------------------------
  // Handle state and the decisions each handle operation makes.

  /** An open handle: built-in handles carry the content, host handles the host path. */
  datatype HandleState = HandleState(
    path: string, flags: OpenFlag, pos: I64, content: Option<seq<Byte>>, hostPath: Option<string>)

  /** What `open_handle` decides: an error, or the state of the new handle. */
  function OpenDecision(prefix: string, host: Host, path: string, flags: OpenFlag): (r: Result<HandleState, Error>)
    ensures r.Ok? ==> r.value.path == path && r.value.flags == flags && r.value.pos == 0
    ensures r.Ok? ==> (r.value.content.Some? <==> path == HELLO_PATH)
    ensures r.Ok? && path != HELLO_PATH ==> r.value.hostPath == HostPath(prefix, path) && r.value.hostPath.Some?
    ensures r.Ok? ==> path == HELLO_PATH || HostPath(prefix, path).Some?
  {
    var present := Stat(prefix, host, path).Ok?;
    if !present && !flags.Contains(O_CREATE) then Err(NotFound)
    else if present && flags.Contains(O_EXCL) && flags.Contains(O_CREATE) then Err(AlreadyExists)
    else if path == HELLO_PATH then Ok(HandleState(path, flags, 0, Some(HELLO), None))
    else match HostPath(prefix, path)
      case Some(full) => Ok(HandleState(path, flags, 0, None, Some(full)))
      case None => Err(NotFound)
  }

  /** The three ways an open fails. */
  lemma OpenFailures(prefix: string, host: Host, path: string, flags: OpenFlag)
    ensures Stat(prefix, host, path).Err? && !flags.Contains(O_CREATE) ==>
              OpenDecision(prefix, host, path, flags) == Err(NotFound)
    ensures Stat(prefix, host, path).Ok? && flags.Contains(O_CREATE) && flags.Contains(O_EXCL) ==>
              OpenDecision(prefix, host, path, flags) == Err(AlreadyExists)
    ensures path != HELLO_PATH && HostPath(prefix, path).None? ==> OpenDecision(prefix, host, path, flags).Err?
  {
  }

  /** The built-in file always exists, so it opens unless the open is exclusive. */
  lemma OpenHello(prefix: string, host: Host, flags: OpenFlag)
    ensures OpenDecision(prefix, host, HELLO_PATH, flags).Ok? <==> !(flags.Contains(O_CREATE) && flags.Contains(O_EXCL))
  {
  }

  /** Directories exist but cannot be opened. */
  lemma RootDoesNotOpen(prefix: string, host: Host, flags: OpenFlag)
    ensures OpenDecision(prefix, host, "/", flags).Err?
    ensures OpenDecision(prefix, host, "/host", flags).Err?
  {
    assert !Text.StartsWith("/", "/host/");
    assert !Text.StartsWith("/host", "/host/");
  }

  /** Each entry of the root listing is the record `stat` gives for its path. */
  lemma ListingAgreesWithStat(prefix: string, host: Host)
    ensures Readdir(prefix, host, "/").Ok? && Stat(prefix, host, HELLO_PATH).Ok?
    ensures Readdir(prefix, host, "/").value[0] == Stat(prefix, host, HELLO_PATH).value
    ensures prefix != [] ==> Stat(prefix, host, "/host").Ok?
                             && Readdir(prefix, host, "/").value[1] == Stat(prefix, host, "/host").value
  {
  }

  function Lookup(handles: map<string, HandleState>, id: string): (r: Result<HandleState, Error>)
    ensures id in handles <==> r.Ok?
    ensures id in handles ==> r.value == handles[id]
    ensures id !in handles ==> r == Err(NotFound)
  {
    if id in handles then Ok(handles[id]) else Err(NotFound)
  }

  function Min(a: int, b: int): int { if a <= b then a else b }

  /** `offset as usize` on wasm32: a non-negative i64 keeps its low 32 bits. */
  const USIZE_RANGE: nat := 0x1_0000_0000

  /** The bytes `handle_read_at` places at the start of a buffer of `bufLen` bytes. On
      in-memory content the offset is cast to a 32-bit `usize`, so an offset of 2^32 or more
      reads from its remainder modulo 2^32. */
  function ReadAt(st: HandleState, bufLen: nat, offset: int, host: Host): (r: Result<seq<Byte>, Error>)
    ensures !st.flags.IsReadable() ==> r == Err(PermissionDenied)
    ensures r.Ok? ==> |r.value| <= bufLen
    ensures st.flags.IsReadable() && st.hostPath.None? ==> r.Ok?
  {
    if !st.flags.IsReadable() then Err(PermissionDenied)
    else if st.content.Some? then
      var content := st.content.value;
      if offset < 0 then Ok([])
      else
        var start := offset % USIZE_RANGE;
        if start >= |content| then Ok([])
        else Ok(content[start..Min(start + bufLen, |content|)])
    else if st.hostPath.Some? then
      match host.read(st.hostPath.value, offset, bufLen)
      case Ok(data) => Ok(data[..Min(|data|, bufLen)])
      case Err(e) => Err(Other("host fs: " + e))
    else Ok([])
  }

  /** On in-memory content a positioned read copies min(buffer, remaining) bytes from the
      offset as a 32-bit `usize`, and nothing at all from a negative offset or from one whose
      low 32 bits lie at or past the end. */
  lemma ReadAtContent(st: HandleState, bufLen: nat, offset: int, host: Host)
    requires st.flags.IsReadable() && st.content.Some?
    ensures ReadAt(st, bufLen, offset, host).Ok?
    ensures offset < 0 || offset % USIZE_RANGE >= |st.content.value| ==> ReadAt(st, bufLen, offset, host).value == []
    ensures 0 <= offset && offset % USIZE_RANGE < |st.content.value| ==>
              |ReadAt(st, bufLen, offset, host).value| == Min(bufLen, |st.content.value| - offset % USIZE_RANGE)
    ensures 0 <= offset && offset % USIZE_RANGE < |st.content.value| ==>
              forall i :: 0 <= i < |ReadAt(st, bufLen, offset, host).value| ==>
                ReadAt(st, bufLen, offset, host).value[i] == st.content.value[offset % USIZE_RANGE + i]
  {
  }

  /** Below 2^32 the cast keeps the offset, so an offset inside the content reads from there. */
  lemma ReadAtSmallOffset(st: HandleState, bufLen: nat, offset: int, host: Host)
    requires st.flags.IsReadable() && st.content.Some? && 0 <= offset < |st.content.value|
    requires |st.content.value| <= USIZE_RANGE
    ensures ReadAt(st, bufLen, offset, host).Ok?
    ensures ReadAt(st, bufLen, offset, host).value == st.content.value[offset..Min(offset + bufLen, |st.content.value|)]
  {
  }

  /** On in-memory content offsets 2^32 apart read the same bytes: reading at 2^32 reads from
      the start, as `offset as usize` does on wasm32. */
  lemma ReadAtWrapsOffset(st: HandleState, bufLen: nat, offset: int, host: Host)
    requires st.flags.IsReadable() && st.content.Some? && offset >= 0
    ensures ReadAt(st, bufLen, offset + USIZE_RANGE, host) == ReadAt(st, bufLen, offset, host)
  {
    assert (offset + USIZE_RANGE) % USIZE_RANGE == offset % USIZE_RANGE;
  }

  /** Where `handle_write` writes: the end of the file under APPEND, the position otherwise. */
  function WriteTarget(st: HandleState, host: Host): (r: Result<int, Error>)
    ensures !st.flags.Contains(O_APPEND) ==> r == Ok(st.pos as int)
    ensures st.flags.Contains(O_APPEND) && st.content.Some? ==> r == Ok(|st.content.value|)
    ensures st.flags.Contains(O_APPEND) && st.content.None? && st.hostPath.Some? ==>
              (r.Ok? <==> host.stat(st.hostPath.value).Ok?)
    ensures st.flags.Contains(O_APPEND) && st.content.None? && st.hostPath.Some? && r.Ok? ==>
              r.value == host.stat(st.hostPath.value).value.size as int
  {
    if !st.flags.Contains(O_APPEND) then Ok(st.pos as int)
    else if st.content.Some? then Ok(|st.content.value|)
    else if st.hostPath.Some? then
      match host.stat(st.hostPath.value)
      case Ok(info) => Ok(info.size as int)
      case Err(e) => Err(Other("host fs: " + e))
    else Ok(st.pos as int)
  }

  /** What `handle_write_at` reports: only host handles accept data, and then all of it. */
  function WriteAt(st: HandleState, data: seq<Byte>, host: Host): (r: Result<nat, Error>)
    ensures !st.flags.IsWritable() || st.content.Some? || st.hostPath.None? ==> r == Err(PermissionDenied)
    ensures r.Ok? ==> r.value == |data|
    ensures st.flags.IsWritable() && st.content.None? && st.hostPath.Some? ==>
              (r.Ok? <==> host.write(st.hostPath.value, data).Ok?)
  {
    if !st.flags.IsWritable() then Err(PermissionDenied)
    else if st.content.Some? then Err(PermissionDenied)
    else if st.hostPath.Some? then
      match host.write(st.hostPath.value, data)
      case Ok(_) => Ok(|data|)
      case Err(e) => Err(Other("host fs: " + e))
    else Err(PermissionDenied)
  }

  /** The outcome of `handle_write`: the target it resolved and the count written. */
  function WriteDecision(st: HandleState, data: seq<Byte>, host: Host): (r: Result<(int, nat), Error>)
    ensures !st.flags.IsWritable() ==> r == Err(PermissionDenied)
    ensures r.Ok? ==> WriteTarget(st, host) == Ok(r.value.0) && WriteAt(st, data, host) == Ok(r.value.1)
    ensures st.flags.IsWritable() && WriteTarget(st, host).Ok? && WriteAt(st, data, host).Ok? ==> r.Ok?
  {
    if !st.flags.IsWritable() then Err(PermissionDenied)
    else match WriteTarget(st, host)
      case Err(e) => Err(e)
      case Ok(target) =>
        match WriteAt(st, data, host)
        case Err(e) => Err(e)
        case Ok(n) => Ok((target, n))
  }

  /** A handle on the built-in file never accepts a write, in any mode. */
  lemma HelloHandleRefusesWrites(st: HandleState, data: seq<Byte>, host: Host)
    requires st.content.Some?
    ensures WriteAt(st, data, host) == Err(PermissionDenied)
    ensures WriteDecision(st, data, host) == Err(PermissionDenied)
  {
  }

  /** The size `handle_seek` measures from: content length, host size, or 0. */
  function SeekSize(st: HandleState, host: Host): (r: Result<int, Error>)
    ensures st.content.Some? ==> r == Ok(|st.content.value|)
    ensures st.content.None? && st.hostPath.None? ==> r == Ok(0)
  {
    if st.content.Some? then Ok(|st.content.value|)
    else if st.hostPath.Some? then
      match host.stat(st.hostPath.value)
      case Ok(info) => Ok(info.size as int)
      case Err(e) => Err(Other("host fs: " + e))
    else Ok(0)
  }

  /** The new position `handle_seek` computes. The sums are Rust's `i64` additions, which wrap
      in a release build, so a sum past `i64::MAX` comes back negative and is refused. */
  function SeekDecision(st: HandleState, offset: I64, whence: int, host: Host): (r: Result<I64, Error>)
    ensures SeekSize(st, host).Err? ==> r == Err(SeekSize(st, host).error)
    ensures r.Ok? ==> r.value >= 0
    ensures SeekSize(st, host).Ok? && whence == 0 && offset >= 0 ==> r == Ok(offset)
    ensures SeekSize(st, host).Ok? && whence == 1 && 0 <= st.pos as int + offset as int < 0x8000_0000_0000_0000 ==>
              r.Ok? && r.value as int == st.pos as int + offset as int
    ensures SeekSize(st, host).Ok? && whence == 2 && 0 <= SeekSize(st, host).value + offset as int < 0x8000_0000_0000_0000 ==>
              r.Ok? && r.value as int == SeekSize(st, host).value + offset as int
    ensures SeekSize(st, host).Ok? && WasmFs.WhenceOf(whence).None? ==> r == Err(InvalidInput("invalid whence"))
  {
    match SeekSize(st, host)
    case Err(e) => Err(e)
    case Ok(size) =>
      if whence !in {0, 1, 2} then Err(InvalidInput("invalid whence"))
      else
        var newPos := if whence == 0 then offset
                      else if whence == 1 then WrapI64(st.pos as int + offset as int)
                      else WrapI64(size + offset as int);
        if newPos < 0 then Err(InvalidInput("negative position")) else Ok(newPos)
  }

  /** A seek that would land before the start is refused. */
  lemma SeekNegativeRefused(st: HandleState, offset: I64, whence: int, host: Host)
    requires SeekSize(st, host).Ok? && whence in {0, 1, 2}
    requires -0x8000_0000_0000_0000 <= (if whence == 0 then offset as int else if whence == 1 then st.pos as int + offset as int
                                        else SeekSize(st, host).value + offset as int) < 0
    ensures SeekDecision(st, offset, whence, host) == Err(InvalidInput("negative position"))
  {
  }

  /** Seeking `i64::MAX` bytes past position 1 overflows the `i64` sum, which wraps to
      `i64::MIN` and is refused as a negative position. */
  lemma SeekOverflowRefused(st: HandleState, host: Host)
    requires SeekSize(st, host).Ok? && st.pos == 1
    ensures SeekDecision(st, 0x7FFF_FFFF_FFFF_FFFF, 1, host) == Err(InvalidInput("negative position"))
  {
    assert WrapI64(0x8000_0000_0000_0000) as int == -0x8000_0000_0000_0000;
  }

  /** `handle_stat`: the built-in file by its content length, a host file by the host. */
  function StatOf(st: HandleState, host: Host): (r: Result<FileInfo, Error>)
    ensures st.content.Some? ==> r == Ok(FileOf("hello.txt", UsizeAsI64(|st.content.value|), MODE_FILE))
    ensures st.content.None? && st.hostPath.Some? ==> r == Lift(host.stat(st.hostPath.value))
    ensures st.content.None? && st.hostPath.None? ==> r == Err(NotFound)
  {
    if st.content.Some? then Ok(FileOf("hello.txt", UsizeAsI64(|st.content.value|), MODE_FILE))
    else if st.hostPath.Some? then Lift(host.stat(st.hostPath.value))
    else Err(NotFound)
  }

  /** Copies `data` into the front of `buf`, as `buf[..n].copy_from_slice`. */
  method CopyPrefix(buf: array<Byte>, data: seq<Byte>)
    requires |data| <= buf.Length
    modifies buf
    ensures buf[..|data|] == data
    ensures buf[|data|..] == old(buf[|data|..])
  {
    var i := 0;
    while i < |data|
      invariant 0 <= i <= |data|
      invariant buf[..i] == data[..i]
      invariant buf[|data|..] == old(buf[|data|..])
    {
      buf[i] := data[i];
      assert buf[..i + 1] == data[..i + 1];
      i := i + 1;
    }
  }

  /** Every key of the table is an identifier made from a counter value up to `n`. */
  predicate IssuedBelow(handles: map<string, HandleState>, n: int)
  {
    forall id :: id in handles ==> ParseHandleId(id).Some? && ParseHandleId(id).value <= n
  }

  /** The identifier made from the next counter value is not in use, and adding it keeps the
      table's keys issued. */
  lemma NextIdIsFresh(handles: map<string, HandleState>, n: Nat64, h: HandleState)
    requires IssuedBelow(handles, n) && n + 1 < 0x1_0000_0000_0000_0000
    ensures HandleId(n + 1) !in handles
    ensures IssuedBelow(handles[HandleId(n + 1) := h], n + 1)
  {
    ParseHandleIdRoundTrip(n + 1);
  }

  class HelloFs {
    var hostPrefix: string
    var handles: map<string, HandleState>
    /** `HANDLE_COUNTER`, the module-wide count of issued identifiers. */
    var counter: Nat64
    const host: Host

    /** Every table key is an identifier issued by the counter so far. */
    ghost predicate Valid()
      reads this
    {
      IssuedBelow(handles, counter)
    }

    /** `HelloFS::default()` with the counter at its initial 0. */
    constructor(host: Host)
      ensures hostPrefix == [] && handles == map[] && counter == 0 && this.host == host
      ensures Valid()
    {
      hostPrefix := [];
      handles := map[];
      counter := 0;
      this.host := host;
    }

    /** `initialize`: takes `host_prefix` from the configuration when it is a string. */
    method Initialize(config: Config) returns (r: WasmFs.Outcome)
      modifies this
      ensures r.Ok?
      ensures config.GetStr("host_prefix").Some? ==> hostPrefix == config.GetStr("host_prefix").value
      ensures config.GetStr("host_prefix").None? ==> hostPrefix == old(hostPrefix)
      ensures handles == old(handles) && counter == old(counter)
    {
      var prefix := config.GetStr("host_prefix");
      if prefix.Some? {
        hostPrefix := prefix.value;
      }
      r := Ok(());
    }

    /** `generate_handle_id`: increments the counter (wrapping at 2^64) and formats it. */
    method GenerateHandleId() returns (id: string)
      modifies this
      ensures counter == (old(counter) + 1) % 0x1_0000_0000_0000_0000
      ensures id == HandleId(counter)
      ensures handles == old(handles) && hostPrefix == old(hostPrefix)
    {
      counter := (counter + 1) % 0x1_0000_0000_0000_0000;
      id := HandleId(counter);
    }

    method OpenHandle(path: string, flags: OpenFlag, mode: Nat32) returns (r: Result<string, Error>)
      modifies this
      ensures OpenDecision(old(hostPrefix), host, path, flags).Err? ==>
                r == Err(OpenDecision(old(hostPrefix), host, path, flags).error)
                && handles == old(handles) && counter == old(counter)
      ensures OpenDecision(old(hostPrefix), host, path, flags).Ok? ==>
                counter == (old(counter) + 1) % 0x1_0000_0000_0000_0000
                && r == Ok(HandleId(counter))
                && handles == old(handles)[HandleId(counter) := OpenDecision(old(hostPrefix), host, path, flags).value]
      ensures hostPrefix == old(hostPrefix)
      ensures old(Valid()) && old(counter) + 1 < 0x1_0000_0000_0000_0000 ==>
                Valid() && (r.Ok? ==> r.value !in old(handles))
    {
      var decision := OpenDecision(hostPrefix, host, path, flags);
      if decision.Err? {
        return Err(decision.error);
      }
      ghost var c0, h0 := counter, handles;
      var id := GenerateHandleId();
      handles := handles[id := decision.value];
      r := Ok(id);
      if IssuedBelow(h0, c0) && c0 as int + 1 < 0x1_0000_0000_0000_0000 {
        assert counter as int == c0 as int + 1;
        NextIdIsFresh(h0, c0, decision.value);
      }
    }

    /** `handle_read_at`: fills the front of `buf` and leaves the position alone. */
    method HandleReadAt(id: string, buf: array<Byte>, offset: int) returns (r: Result<nat, Error>)
      modifies buf
      ensures Lookup(handles, id).Err? ==> r == Err(NotFound) && buf[..] == old(buf[..])
      ensures Lookup(handles, id).Ok? && ReadAt(handles[id], buf.Length, offset, host).Err? ==>
                r == Err(ReadAt(handles[id], buf.Length, offset, host).error) && buf[..] == old(buf[..])
      ensures Lookup(handles, id).Ok? && ReadAt(handles[id], buf.Length, offset, host).Ok? ==>
                var data := ReadAt(handles[id], buf.Length, offset, host).value;
                r == Ok(|data|) && buf[..|data|] == data && buf[|data|..] == old(buf[|data|..])
    {
      if id !in handles {
        return Err(NotFound);
      }
      var outcome := ReadAt(handles[id], buf.Length, offset, host);
      if outcome.Err? {
        return Err(outcome.error);
      }
      CopyPrefix(buf, outcome.value);
      r := Ok(|outcome.value|);
    }

    /** `handle_read`: a positioned read at the handle's position that then advances it by
        exactly the number of bytes read. */
    method HandleRead(id: string, buf: array<Byte>) returns (r: Result<nat, Error>)
      modifies this, buf
      ensures id !in old(handles) ==> r == Err(NotFound) && handles == old(handles)
      ensures id in old(handles) && ReadAt(old(handles)[id], buf.Length, old(handles)[id].pos as int, host).Err? ==>
                r == Err(ReadAt(old(handles)[id], buf.Length, old(handles)[id].pos as int, host).error)
                && handles == old(handles) && buf[..] == old(buf[..])
      ensures id in old(handles) && ReadAt(old(handles)[id], buf.Length, old(handles)[id].pos as int, host).Ok? ==>
                var data := ReadAt(old(handles)[id], buf.Length, old(handles)[id].pos as int, host).value;
                r == Ok(|data|) && buf[..|data|] == data && buf[|data|..] == old(buf[|data|..])
                && handles == old(handles)[id := old(handles)[id].(pos := WrapI64(old(handles)[id].pos as int + |data|))]
      ensures hostPrefix == old(hostPrefix) && counter == old(counter)
    {
      if id !in handles {
        return Err(NotFound);
      }
      var st := handles[id];
      if !st.flags.IsReadable() {
        return Err(PermissionDenied);
      }
      r := HandleReadAt(id, buf, st.pos as int);
      if r.Ok? {
        handles := handles[id := st.(pos := WrapI64(st.pos as int + r.value))];
      }
    }

    /** `handle_write_at`: the offset is not used. */
    function HandleWriteAt(id: string, data: seq<Byte>, offset: int): (r: Result<nat, Error>)
      reads this
      ensures id !in handles ==> r == Err(NotFound)
      ensures id in handles ==> r == WriteAt(handles[id], data, host)
    {
      match Lookup(handles, id)
      case Err(e) => Err(e)
      case Ok(st) => WriteAt(st, data, host)
    }

    /** `handle_write`: on success the position moves to the resolved target plus the count. */
    method HandleWrite(id: string, data: seq<Byte>) returns (r: Result<nat, Error>)
      modifies this
      ensures id !in old(handles) ==> r == Err(NotFound) && handles == old(handles)
      ensures id in old(handles) && WriteDecision(old(handles)[id], data, host).Err? ==>
                r == Err(WriteDecision(old(handles)[id], data, host).error) && handles == old(handles)
      ensures id in old(handles) && WriteDecision(old(handles)[id], data, host).Ok? ==>
                var (target, n) := WriteDecision(old(handles)[id], data, host).value;
                r == Ok(n) && handles == old(handles)[id := old(handles)[id].(pos := WrapI64(target + n))]
      ensures hostPrefix == old(hostPrefix) && counter == old(counter)
    {
      if id !in handles {
        return Err(NotFound);
      }
      var st := handles[id];
      if !st.flags.IsWritable() {
        return Err(PermissionDenied);
      }
      var target := WriteTarget(st, host);
      if target.Err? {
        return Err(target.error);
      }
      var written := HandleWriteAt(id, data, target.value);
      if written.Err? {
        return Err(written.error);
      }
      handles := handles[id := st.(pos := WrapI64(target.value + written.value))];
      r := Ok(written.value);
    }

    /** `handle_seek`: a refused seek leaves the position unchanged. */
    method HandleSeek(id: string, offset: I64, whence: int) returns (r: Result<I64, Error>)
      modifies this
      ensures id !in old(handles) ==> r == Err(NotFound) && handles == old(handles)
      ensures id in old(handles) ==> r == SeekDecision(old(handles)[id], offset, whence, host)
      ensures id in old(handles) && r.Err? ==> handles == old(handles)
      ensures id in old(handles) && r.Ok? ==> handles == old(handles)[id := old(handles)[id].(pos := r.value)]
      ensures hostPrefix == old(hostPrefix) && counter == old(counter)
    {
      if id !in handles {
        return Err(NotFound);
      }
      var st := handles[id];
      r := SeekDecision(st, offset, whence, host);
      if r.Ok? {
        handles := handles[id := st.(pos := r.value)];
      }
    }

    function HandleSync(id: string): (r: WasmFs.Outcome)
      reads this
      ensures r.Ok? <==> id in handles
      ensures r.Err? ==> r.error == NotFound
    {
      if id in handles then Ok(()) else Err(NotFound)
    }

    function HandleStat(id: string): (r: Result<FileInfo, Error>)
      reads this
      ensures id !in handles ==> r == Err(NotFound)
      ensures id in handles ==> r == StatOf(handles[id], host)
    {
      match Lookup(handles, id)
      case Err(e) => Err(e)
      case Ok(st) => StatOf(st, host)
    }

    /** `handle_info`: the path and flags recorded at open time. */
    function HandleInfo(id: string): (r: Result<(string, OpenFlag), Error>)
      reads this
      ensures id !in handles ==> r == Err(NotFound)
      ensures id in handles ==> r == Ok((handles[id].path, handles[id].flags))
    {
      match Lookup(handles, id)
      case Err(e) => Err(e)
      case Ok(st) => Ok((st.path, st.flags))
    }

    /** `close_handle`: removes the entry, so closing it again reports NotFound. */
    method CloseHandle(id: string) returns (r: WasmFs.Outcome)
      modifies this
      ensures id in old(handles) ==> r.Ok? && handles == old(handles) - {id}
      ensures id !in old(handles) ==> r == Err(NotFound) && handles == old(handles)
      ensures id !in handles
      ensures hostPrefix == old(hostPrefix) && counter == old(counter)
      ensures old(Valid()) ==> Valid()
    {
      if id !in handles {
        return Err(NotFound);
      }
      handles := handles - {id};
      r := Ok(());
    }
  }

  /** Every handle operation on an identifier that is not open reports NotFound. */
  lemma UnknownHandle(fs: HelloFs, id: string, data: seq<Byte>, offset: int)
    requires id !in fs.handles
    ensures fs.HandleWriteAt(id, data, offset) == Err(NotFound)
    ensures fs.HandleSync(id) == Err(NotFound)
    ensures fs.HandleStat(id) == Err(NotFound)
    ensures fs.HandleInfo(id) == Err(NotFound)
  {
  }
}
