/**
 Fixed-width integer types of the Go source, on top of Dafny's unbounded `int`,
 and the two's-complement wrap-around of Go's `int64` arithmetic.
 */
module Machine {

  const TWO_63: int := 0x8000_0000_0000_0000
  const TWO_64: int := 0x1_0000_0000_0000_0000

  /** Go `int64` (also Go `int` on 64-bit platforms). */
  type Int64 = x: int | -0x8000_0000_0000_0000 <= x < 0x8000_0000_0000_0000

  /** Go `uint64`. */
  type Uint64 = x: int | 0 <= x < 0x1_0000_0000_0000_0000

  /** Go `byte`; `vm.OpCode` is declared as a byte. */
  type Byte = x: int | 0 <= x < 256

  type OpCode = Byte

  /** The int64 value congruent to `x` modulo 2^64: what Go keeps of an overflowing result. */
  function WrapInt64(x: int): (r: Int64)
    ensures (r - x) % TWO_64 == 0
    ensures -TWO_63 <= x < TWO_63 ==> r == x
  {
    (x + TWO_63) % TWO_64 - TWO_63
  }

  /** Go's `a - b` on two int64 operands. */
  function Sub64(a: Int64, b: Int64): (r: Int64)
    ensures (r - (a - b)) % TWO_64 == 0
    ensures 0 <= a && 0 <= b ==> r == a - b
  {
    WrapInt64(a - b)
  }
}
