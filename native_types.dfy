// Value types of the native (shared-library) Rust plugin SDK. Its `WriteFlag`
// is the same 32-bit word as the WebAssembly SDK's and is modelled once, in
// module Flags. The clock a constructor reads is passed in as `now`.
module NativeTypes {
  import opened Packing

  /** Plugin metadata attached to a file record. */
  datatype FileMetadata = FileMetadata(name: string, fileType: string, content: string)

  /** `FileMetadata::default`: no plugin name, no type, an empty JSON object as content. */
  function DefaultMetadata(): (m: FileMetadata)
    ensures m.name == [] && m.fileType == [] && m.content == "{}"
  {
    FileMetadata("", "", "{}")
  }

  datatype FileInfo = FileInfo(name: string, size: I64, mode: Nat32, modTime: I64, isDir: bool, metadata: FileMetadata)

  /** `FileInfo::file_with_metadata`: a regular file stamped with the current time. */
  function FileWithMetadata(name: string, size: I64, mode: Nat32, metadata: FileMetadata, now: I64): (f: FileInfo)
    ensures !f.isDir && f.name == name && f.size == size && f.mode == mode
    ensures f.metadata == metadata && f.modTime == now
  {
    FileInfo(name, size, mode, now, false, metadata)
  }

  /** `FileInfo::directory_with_metadata`: a directory of size 0 stamped with the current time. */
  function DirectoryWithMetadata(name: string, mode: Nat32, metadata: FileMetadata, now: I64): (f: FileInfo)
    ensures f.isDir && f.size == 0 && f.name == name && f.mode == mode
    ensures f.metadata == metadata && f.modTime == now
  {
    FileInfo(name, 0, mode, now, true, metadata)
  }

  /** `FileInfo::file`. */
  function File(name: string, size: I64, mode: Nat32, now: I64): (f: FileInfo)
    ensures f == FileWithMetadata(name, size, mode, DefaultMetadata(), now)
  {
    FileWithMetadata(name, size, mode, DefaultMetadata(), now)
  }

  /** `FileInfo::directory`. */
  function Directory(name: string, mode: Nat32, now: I64): (f: FileInfo)
    ensures f == DirectoryWithMetadata(name, mode, DefaultMetadata(), now)
  {
    DirectoryWithMetadata(name, mode, DefaultMetadata(), now)
  }

  /** `FileInfo::with_mod_time`. */
  function WithModTime(f: FileInfo, t: I64): (g: FileInfo)
    ensures g.modTime == t
  {
    f.(modTime := t)
  }

  /** Setting the time changes nothing else: every other field is the original one. */
  lemma WithModTimeKeepsOtherFields(f: FileInfo, t: I64)
    ensures WithModTime(f, t).(modTime := f.modTime) == f
  {
  }

  /** Only the last time set counts, and setting the current time is the identity. */
  lemma WithModTimeLastWins(f: FileInfo, t1: I64, t2: I64)
    ensures WithModTime(WithModTime(f, t1), t2) == WithModTime(f, t2)
    ensures WithModTime(f, f.modTime) == f
  {
  }

  /** `file` and `directory` differ in kind whatever their arguments, and a directory never has a size. */
  lemma FileAndDirectoryDiffer(name: string, size: I64, mode: Nat32, now: I64)
    ensures File(name, size, mode, now) != Directory(name, mode, now)
    ensures Directory(name, mode, now).size == 0 && File(name, size, mode, now).size == size
  {
  }
}
