// Machine-level value types of the plugin boundary: fixed-width integers,
// linear-memory pointers, and the 64-bit word that carries two 32-bit halves
// across the WebAssembly boundary (high half first, low half second).
module Packing {

  type Byte = bv8
  type U32 = bv32
  type U64 = bv64

  /** Rust's and Go's signed 64-bit integer. */
  newtype I64 = x: int | -0x8000_0000_0000_0000 <= x < 0x8000_0000_0000_0000

  /** An unsigned 32-bit quantity used as a number (file modes, counts) rather than as bits. */
  type Nat32 = n: nat | n < 0x1_0000_0000

  /** A linear-memory address; 0 is the null pointer. */
  type Ptr = bv32

  /** An address returned by a successful allocation. */
  type NonNullPtr = p: bv32 | p != 0 witness 1

  const NULL: Ptr := 0

  /** Packs two 32-bit halves into one word: `hi` in bits 63..32, `lo` in bits 31..0. */
  function Pack(hi: U32, lo: U32): (w: U64)
  {
    (hi as U64 << 32) | lo as U64
  }

  /** The high half of a packed word. */
  function Hi(w: U64): (r: U32)
    ensures r as U64 == w >> 32
  {
    (w >> 32) as U32
  }

  /** The low half of a packed word. */
  function Lo(w: U64): (r: U32)
    ensures r as U64 == w & 0xFFFF_FFFF
  {
    (w & 0xFFFF_FFFF) as U32
  }

  /** Unpacking a packed word gives back both halves. */
  lemma HalvesOfPack(hi: U32, lo: U32)
    ensures Hi(Pack(hi, lo)) == hi && Lo(Pack(hi, lo)) == lo
  {
  }

  /** Every word is the packing of its two halves, so packing is a bijection. */
  lemma PackOfHalves(w: U64)
    ensures Pack(Hi(w), Lo(w)) == w
  {
  }

  /** Only two null halves pack to the word 0. */
  lemma PackZero(hi: U32, lo: U32)
    ensures Pack(hi, lo) == 0 <==> hi == 0 && lo == 0
  {
    HalvesOfPack(hi, lo);
  }

  /** An unsigned 64-bit quantity used as a number (counters). */
  type Nat64 = n: nat | n < 0x1_0000_0000_0000_0000

  /** Rust's `len as i64` for a length on wasm32, where `usize` has 32 bits: any real length
      is below 2^32 and is kept unchanged. */
  function UsizeAsI64(n: nat): (r: I64)
    ensures n < 0x1_0000_0000 ==> r as int == n
    ensures r >= 0
  {
    (n % 0x1_0000_0000) as I64
  }

  /** Rust's `+` on `i64` in a release build, where overflow checks are off: the sum taken
      modulo 2^64 and read back as a two's-complement value. */
  function WrapI64(x: int): (r: I64)
    ensures -0x8000_0000_0000_0000 <= x < 0x8000_0000_0000_0000 ==> r as int == x
    ensures x >= 0x8000_0000_0000_0000 && x < 0x1_0000_0000_0000_0000 ==> r as int == x - 0x1_0000_0000_0000_0000
  {
    ((x + 0x8000_0000_0000_0000) % 0x1_0000_0000_0000_0000 - 0x8000_0000_0000_0000) as I64
  }

  /** Rust's `n as u32` on a length or an i64: the low 32 bits of the two's-complement value. */
  function TruncU32(n: int): (r: U32)
  {
    (n % 0x1_0000_0000) as U32
  }
}
