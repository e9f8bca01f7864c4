/** Fixed-width machine integers that the source uses. */
module Primitives {

  /** Rust's `u8`. */
  type byte = x: int | 0 <= x < 0x100

  /** Rust's `i32`, the width of the interaction and command type fields. */
  type i32 = x: int | -0x8000_0000 <= x < 0x8000_0000
}
