// The bit-set flags shared by the plugin SDKs. The WebAssembly Rust SDK, the
// native Rust SDK and the C++ SDK declare the same `WriteFlag` values; the
// WebAssembly SDK also declares `OpenFlag` for handle-based access.
module Flags {

  /** Flags passed to a plain `write`: a transparent 32-bit set. */
  datatype WriteFlag = WriteFlag(bits: bv32)
  {
    /** The flag `f` has some bit in common with this set. */
    predicate Contains(f: WriteFlag) {
      bits & f.bits != 0
    }

    /** This set together with the bits of `f`. */
    function With(f: WriteFlag): (r: WriteFlag)
      ensures f.bits != 0 ==> r.Contains(f)
    {
      WriteFlag(bits | f.bits)
    }
  }

  /** A combined set contains only what one of its parts contains ... */
  lemma WithContainsOnlyParts(x: WriteFlag, f: WriteFlag, g: WriteFlag)
    ensures x.With(f).Contains(g) ==> x.Contains(g) || f.Contains(g)
  {
  }

  /** ... and keeps everything the original set contains. */
  lemma WithKeeps(x: WriteFlag, f: WriteFlag, g: WriteFlag)
    ensures x.Contains(g) ==> x.With(f).Contains(g)
  {
  }

  const WRITE_NONE := WriteFlag(0)
  const WRITE_APPEND := WriteFlag(1 << 0)
  const WRITE_CREATE := WriteFlag(1 << 1)
  const WRITE_EXCLUSIVE := WriteFlag(1 << 2)
  const WRITE_TRUNCATE := WriteFlag(1 << 3)
  const WRITE_SYNC := WriteFlag(1 << 4)

  /** `From<u32> for WriteFlag`. */
  function WriteFlagFromU32(v: bv32): (f: WriteFlag)
    ensures f.bits == v
  {
    WriteFlag(v)
  }

  /** `From<WriteFlag> for u32`. */
  function U32FromWriteFlag(f: WriteFlag): (v: bv32)
    ensures WriteFlag(v) == f
  {
    f.bits
  }

  /** The two conversions are mutual inverses. */
  lemma WriteFlagConversions(v: bv32, f: WriteFlag)
    ensures U32FromWriteFlag(WriteFlagFromU32(v)) == v
    ensures WriteFlagFromU32(U32FromWriteFlag(f)) == f
  {
  }

  /** The named write flags are the bits 0..4, pairwise disjoint, and NONE contains nothing. */
  lemma WriteFlagConstants(x: WriteFlag)
    ensures !x.Contains(WRITE_NONE)
    ensures !WRITE_NONE.Contains(x)
    ensures WRITE_APPEND.bits == 1 && WRITE_CREATE.bits == 2 && WRITE_EXCLUSIVE.bits == 4
    ensures WRITE_TRUNCATE.bits == 8 && WRITE_SYNC.bits == 16
    ensures !WRITE_APPEND.Contains(WRITE_CREATE) && !WRITE_CREATE.Contains(WRITE_EXCLUSIVE)
    ensures !WRITE_EXCLUSIVE.Contains(WRITE_TRUNCATE) && !WRITE_TRUNCATE.Contains(WRITE_SYNC)
    ensures !WRITE_APPEND.Contains(WRITE_SYNC) && !WRITE_APPEND.Contains(WRITE_TRUNCATE)
  {
  }

  /** Open flags of the handle interface: an access mode in bits 0..1 and modifier bits above. */
  datatype OpenFlag = OpenFlag(bits: bv32)
  {
    predicate Contains(f: OpenFlag) {
      bits & f.bits != 0
    }

    function With(f: OpenFlag): (r: OpenFlag)
      ensures f.bits != 0 ==> r.Contains(f)
    {
      OpenFlag(bits | f.bits)
    }

    /** The two low bits: O_RDONLY, O_WRONLY, O_RDWR, or the unnamed mode 3. */
    function AccessMode(): (r: OpenFlag)
      ensures r.bits < 4
      ensures r.bits == 0 || r.bits == 1 || r.bits == 2 || r.bits == 3
    {
      OpenFlag(bits & 3)
    }

    predicate IsReadable() {
      var mode := AccessMode().bits;
      mode == 0 || mode == 2
    }

    predicate IsWritable() {
      var mode := AccessMode().bits;
      mode == 1 || mode == 2
    }
  }

  const O_RDONLY := OpenFlag(0)
  const O_WRONLY := OpenFlag(1)
  const O_RDWR := OpenFlag(2)
  const O_APPEND := OpenFlag(1 << 3)
  const O_CREATE := OpenFlag(1 << 4)
  const O_EXCL := OpenFlag(1 << 5)
  const O_TRUNC := OpenFlag(1 << 6)

  /** `impl BitOr for OpenFlag`: the same as `with`. */
  function OpenFlagOr(a: OpenFlag, b: OpenFlag): (r: OpenFlag)
    ensures r == b.With(a)
  {
    a.With(b)
  }

  function OpenFlagFromU32(v: bv32): (f: OpenFlag)
    ensures f.bits == v
  {
    OpenFlag(v)
  }

  function U32FromOpenFlag(f: OpenFlag): (v: bv32)
    ensures OpenFlag(v) == f
  {
    f.bits
  }

  lemma OpenFlagConversions(v: bv32, f: OpenFlag)
    ensures U32FromOpenFlag(OpenFlagFromU32(v)) == v
    ensures OpenFlagFromU32(U32FromOpenFlag(f)) == f
  {
  }

  /** Readable exactly for O_RDONLY and O_RDWR, writable exactly for O_WRONLY and O_RDWR;
      access mode 3 is neither. */
  lemma AccessModeClassification(f: OpenFlag)
    ensures f.IsReadable() <==> f.AccessMode() == O_RDONLY || f.AccessMode() == O_RDWR
    ensures f.IsWritable() <==> f.AccessMode() == O_WRONLY || f.AccessMode() == O_RDWR
    ensures f.AccessMode().bits == 3 ==> !f.IsReadable() && !f.IsWritable()
    ensures f.IsReadable() || f.IsWritable() || f.AccessMode().bits == 3
    ensures f.IsReadable() && f.IsWritable() <==> f.AccessMode() == O_RDWR
  {
  }

  /** The modifier bits APPEND, CREATE, EXCL and TRUNC never change the access mode. */
  predicate IsModifier(m: OpenFlag) {
    m == O_APPEND || m == O_CREATE || m == O_EXCL || m == O_TRUNC
  }

  lemma ModifiersKeepAccessMode(f: OpenFlag, m: OpenFlag)
    requires IsModifier(m)
    ensures f.With(m).AccessMode() == f.AccessMode()
    ensures f.With(m).IsReadable() == f.IsReadable()
    ensures f.With(m).IsWritable() == f.IsWritable()
  {
  }
}
