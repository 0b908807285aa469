/** Small shared vocabulary: Rust's Option and Result, and the fixed-width
    unsigned integers the backend uses, as subsets of the unbounded `int`. */
module Prelude {

  datatype Option<+T> = None | Some(value: T)

  datatype Result<+T, +E> = Ok(value: T) | Err(error: E)

  /** Rust's `u8` */
  type U8 = x: int | 0 <= x < 0x100

  /** Rust's `u16` */
  type U16 = x: int | 0 <= x < 0x1_0000

  /** Rust's `u64` */
  type U64 = x: int | 0 <= x < 0x1_0000_0000_0000_0000

  /** Rust's `a.min(b)` */
  function Min(a: int, b: int): int {
    if a <= b then a else b
  }
}
