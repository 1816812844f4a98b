// HelloFS in C, loaded as a shared library: one read-only file `/hello` under
// a root directory. The plugin object holds only an `initialized` flag. Returned
// C strings are modelled as their text (`None` for NULL); the length written
// through `out_len` and the count written through `out_count` are out
// parameters; `time(NULL)` is the parameter `now`.
module HelloC {
  import opened Wrappers
  import opened Packing
  import NativeFfi

  const CONTENT: string := "Hello from C dynamic library!\n"

  const NAME := "hellofs-c"

  const NOT_SUPPORTED := "operation not supported: read-only filesystem"

  const NOT_FOUND := "file not found"

  const MODE_DIR: Nat32 := 0x1ED   // 0755
  const MODE_FILE: Nat32 := 0x1A4  // 0644

  lemma ContentLength()
    ensures |CONTENT| == 30
  {
  }

  /** The plugin structure. */
  class Plugin {
    var initialized: int

    constructor()
      ensures initialized == 0
    {
      initialized := 0;
    }
  }

  /** `PluginNew`: `mallocSucceeded` says whether `malloc` succeeded; the new plugin starts uninitialised. */
  method PluginNew(mallocSucceeded: bool) returns (p: Plugin?)
    ensures mallocSucceeded ==> p != null && fresh(p) && p.initialized == 0
    ensures !mallocSucceeded ==> p == null
  {
    if mallocSucceeded {
      p := new Plugin();
    } else {
      p := null;
    }
  }

  /** `PluginInitialize`: "plugin is null" for a null plugin; otherwise marks it initialised. */
  method PluginInitialize(p: Plugin?, configJson: string) returns (err: Option<string>)
    modifies p
    ensures p == null ==> err == Some("plugin is null")
    ensures p != null ==> err.None? && p.initialized == 1
  {
    if p == null {
      return Some("plugin is null");
    }
    p.initialized := 1;
    err := None;
  }

  /** `PluginShutdown`: clears the flag of a non-null plugin and always succeeds. */
  method PluginShutdown(p: Plugin?) returns (err: Option<string>)
    modifies p
    ensures err.None?
    ensures p != null ==> p.initialized == 0
  {
    if p != null {
      p.initialized := 0;
    }
    err := None;
  }

  /** Initialisation followed by shutdown leaves the plugin as `PluginNew` made it. */
  method InitializeThenShutdown() returns (p: Plugin)
    ensures fresh(p) && p.initialized == 0
  {
    p := new Plugin();
    var e1 := PluginInitialize(p, "{}");
    assert p.initialized == 1;
    var e2 := PluginShutdown(p);
  }

  /** `FSRead`'s range arithmetic as written: `None` when `offset >= content_len` (nothing is
      copied), otherwise the start and length `memcpy` is given. */
  function ReadRangeAsWritten(offset: I64, size: I64): (r: Option<(int, int)>)
    ensures r.None? <==> offset as int >= |CONTENT|
  {
    if offset as int >= |CONTENT| then None
    else
      var remaining := |CONTENT| - offset as int;
      var readLen := if size > 0 && (size as int) < remaining then size as int else remaining;
      Some((offset as int, readLen))
  }

  /** A negative offset passes the guard and makes `memcpy` start before the content: at offset -1
      with no size limit it copies 31 bytes from one byte before the string. */
  lemma NegativeOffsetReadsBeforeContent()
    ensures ReadRangeAsWritten(-1, 0) == Some((-1, 31))
    ensures ReadRangeAsWritten(-1, 0).value.0 < 0
  {
  }

  /** The range arithmetic with a negative offset treated like an offset past the end, as the
      WebAssembly example's positioned read treats it: the copied range always lies inside the
      content. */
  function ReadRange(offset: I64, size: I64): (r: Option<(int, int)>)
    ensures r.None? <==> offset < 0 || offset as int >= |CONTENT|
    ensures r.Some? ==> r.value.0 == offset as int && 0 <= r.value.0
    ensures r.Some? ==> 0 < r.value.1 && r.value.0 + r.value.1 <= |CONTENT|
    ensures r.Some? ==> r.value.1 == (if 0 < size as int < |CONTENT| - offset as int then size as int
                                      else |CONTENT| - offset as int)
  {
    if offset < 0 then None else ReadRangeAsWritten(offset, size)
  }

  /** The correction changes nothing for the offsets the source handles correctly. */
  lemma ReadRangeAgreesOnNonNegativeOffsets(offset: I64, size: I64)
    requires offset >= 0
    ensures ReadRange(offset, size) == ReadRangeAsWritten(offset, size)
  {
  }

  /** What `FSRead` writes to `out_len` and returns, with the corrected range `ReadRange`: for a
      negative offset the source instead reaches `memcpy` with the range `ReadRangeAsWritten`
      gives. */
  function ReadReply(path: string, offset: I64, size: I64): (r: (int, string))
  {
    if path != "/hello" then (-1, NOT_FOUND)
    else match ReadRange(offset, size)
      case None => (0, "")
      case Some((start, n)) => (n, CONTENT[start..start + n])
  }

  /** The corrected read of `/hello` returns `out_len` bytes of the content starting at the
      offset (at most `size` when `size` is positive), or nothing from an offset outside it; any
      other path sets the length to -1 and reports "file not found". */
  lemma ReadReplyCases(path: string, offset: I64, size: I64)
    ensures path != "/hello" ==> ReadReply(path, offset, size) == (-1, NOT_FOUND)
    ensures path == "/hello" && (offset < 0 || offset as int >= |CONTENT|) ==> ReadReply(path, offset, size) == (0, "")
    ensures path == "/hello" && 0 <= offset as int < |CONTENT| ==>
              var (n, data) := ReadReply(path, offset, size);
              data == CONTENT[offset..offset as int + n] && 0 < n <= |CONTENT| - offset as int
              && (size > 0 ==> n <= size as int)
  {
  }

  /** A read of `k` bytes followed by a read of the rest from where it stopped returns the whole
      remainder of the content. */
  lemma SequentialReads(offset: I64, k: I64)
    requires 0 <= offset as int < |CONTENT| && k > 0
    ensures var (n1, d1) := ReadReply("/hello", offset, k);
            offset as int + n1 <= |CONTENT| &&
            (offset as int + n1 == |CONTENT| ==> d1 == CONTENT[offset..])
            && (offset as int + n1 < |CONTENT| ==>
                  d1 + ReadReply("/hello", (offset as int + n1) as I64, 0).1 == CONTENT[offset..])
  {
    var o := offset as int;
    ReadReplyCases("/hello", offset, k);
    var (n1, d1) := ReadReply("/hello", offset, k);
    if o + n1 < |CONTENT| {
      ReadToEnd(o + n1);
      JoinAt(o, o + n1);
    } else {
      assert CONTENT[o..o + n1] == CONTENT[o..];
    }
  }

  /** A read with no size limit from an offset inside the content returns all the rest of it. */
  lemma ReadToEnd(o: int)
    requires 0 <= o < |CONTENT|
    ensures ReadReply("/hello", o as I64, 0).1 == CONTENT[o..]
  {
    assert ReadRange(o as I64, 0) == Some((o, |CONTENT| - o));
  }

  lemma JoinAt(o: int, m: int)
    requires 0 <= o <= m <= |CONTENT|
    ensures CONTENT[o..m] + CONTENT[m..] == CONTENT[o..]
  {
  }

  /** `FSRead` with the corrected guard, writing the length through `out_len`. */
  method FsRead(path: string, offset: I64, size: I64, outLen: NativeFfi.OutInt) returns (r: string)
    modifies outLen
    ensures (outLen.value, r) == ReadReply(path, offset, size)
  {
    if path == "/hello" {
      var contentLen := |CONTENT|;
      if offset < 0 || offset as int >= contentLen {
        outLen.value := 0;
        return "";
      }
      var remaining := contentLen - offset as int;
      var readLen := if size > 0 && (size as int) < remaining then size as int else remaining;
      outLen.value := readLen;
      return CONTENT[offset..offset as int + readLen];
    }
    outLen.value := -1;
    r := NOT_FOUND;
  }

  /** The record `FSStat` and `FSReadDir` give for `/hello`. */
  function HelloInfo(now: I64): (f: NativeFfi.FileInfoC)
    ensures f.size as int == |CONTENT| && f.mode == MODE_FILE && f.isDir == 0 && f.modTime == now
  {
    NativeFfi.FileInfoC("hello", |CONTENT| as I64, MODE_FILE, now, 0, NAME, "text", "{\"language\":\"c\"}")
  }

  /** `FSStat`: the root directory, the file, or NULL. */
  function FsStat(path: string, now: I64): (r: Option<NativeFfi.FileInfoC>)
    ensures r.Some? <==> path == "/" || path == "/hello"
    ensures path == "/" ==> r.value.isDir == 1 && r.value.mode == MODE_DIR && r.value.size == 0
    ensures path == "/hello" ==> r == Some(HelloInfo(now))
  {
    if path == "/" then Some(NativeFfi.FileInfoC("", 0, MODE_DIR, now, 1, NAME, "directory", "{}"))
    else if path == "/hello" then Some(HelloInfo(now))
    else None
  }

  /** What `FSReadDir` writes to `out_count` and returns: one entry under the root, otherwise a
      count of -1 and NULL. */
  function ReaddirReply(path: string, now: I64): (r: (int, Option<seq<NativeFfi.FileInfoC>>))
    ensures path == "/" ==> r == (1, Some([HelloInfo(now)]))
    ensures path != "/" ==> r == (-1, None)
  {
    if path == "/" then (1, Some([HelloInfo(now)])) else (-1, None)
  }

  method FsReadDir(path: string, now: I64, outCount: NativeFfi.OutInt) returns (r: Option<seq<NativeFfi.FileInfoC>>)
    modifies outCount
    ensures (outCount.value, r) == ReaddirReply(path, now)
  {
    if path == "/" {
      outCount.value := 1;
      return Some([HelloInfo(now)]);
    }
    outCount.value := -1;
    r := None;
  }

  /** The listing agrees with `stat`: its one entry is the record `stat` gives for `/hello`, whose
      size is what a whole read of the file returns. */
  lemma ListingAgreesWithStat(now: I64)
    ensures ReaddirReply("/", now).1.value[0] == FsStat("/hello", now).value
    ensures FsStat("/hello", now).value.size as int == ReadReply("/hello", 0, 0).0
    ensures ReaddirReply("/", now).0 == |ReaddirReply("/", now).1.value|
  {
  }

  function PluginName(): string { NAME }

  const README := "# HelloFS C Plugin\n\nA simple read-only filesystem plugin written in C.\n\n## Features\n"
                  + "- Single file: /hello containing 'Hello from C dynamic library!'\n"
                  + "- Demonstrates C plugin interface for agfs-server\n"

  /** `PluginGetReadme`: a fixed text, whatever the plugin. */
  function PluginGetReadme(): string { README }

  /** `PluginValidate` accepts every configuration. */
  function PluginValidate(configJson: string): Option<string> { None }

  function FsCreate(path: string): Option<string> { Some(NOT_SUPPORTED) }
  function FsMkdir(path: string, mode: Nat32): Option<string> { Some(NOT_SUPPORTED) }
  function FsRemove(path: string): Option<string> { Some(NOT_SUPPORTED) }
  function FsRemoveAll(path: string): Option<string> { Some(NOT_SUPPORTED) }
  function FsRename(oldPath: string, newPath: string): Option<string> { Some(NOT_SUPPORTED) }
  function FsChmod(path: string, mode: Nat32): Option<string> { Some(NOT_SUPPORTED) }

  /** `FSWrite`: every write fails. */
  function FsWrite(path: string, data: string, dataLen: int, offset: I64, flags: bv32): I64 { -1 }

  /** The filesystem is read-only: every mutator reports an error, writing reports -1, and
      validation never does. */
  lemma ReadOnlyPlugin(path: string, other: string, data: string, n: int, offset: I64, flags: bv32, mode: Nat32, config: string)
    ensures FsCreate(path).Some? && FsMkdir(path, mode).Some? && FsRemove(path).Some?
    ensures FsRemoveAll(path).Some? && FsRename(path, other).Some? && FsChmod(path, mode).Some?
    ensures FsWrite(path, data, n, offset, flags) < 0
    ensures PluginValidate(config).None?
  {
  }
}
