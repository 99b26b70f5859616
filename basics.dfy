/** Small building blocks shared by every module: bytes, an optional value and
    the `as u32` and `as usize` casts the reader applies to header fields. */
module Basics {

  type byte = bv8

  /** 2^32: the number of values of a `u32`. */
  const U32_LIMIT: int := 0x1_0000_0000

  /** Rust's `x as u32` on an integer read as an `i32` (or any wider signed
      integer): two's-complement truncation to the low 32 bits. */
  function AsU32(x: int): (r: nat)
    ensures r < U32_LIMIT
    ensures 0 <= x < U32_LIMIT ==> r == x
    ensures (x - r) % U32_LIMIT == 0
  {
    x % U32_LIMIT
  }

  /** 2^64: the number of values of a `usize` on a 64-bit target. */
  const USIZE_LIMIT: int := 0x1_0000_0000_0000_0000

  /** Rust's `x as usize` on an `i32` on a 64-bit target: sign extension to 64
      bits, read as unsigned, so a negative `x` becomes `2^64 + x`. */
  function AsUsize(x: int): (r: nat)
    ensures r < USIZE_LIMIT
    ensures 0 <= x < USIZE_LIMIT ==> r == x
    ensures -USIZE_LIMIT <= x < 0 ==> r == USIZE_LIMIT + x
  {
    x % USIZE_LIMIT
  }

  datatype Option<+T> = None | Some(value: T) {

    /** `Option::unwrap_or` */
    function GetOr(default: T): T {
      match this
      case Some(v) => v
      case None => default
    }
  }
}
