/** Basic types shared by the modules of this model. */
module Wrappers {

  /** Go's `int` and `int64` on a 64-bit platform. */
  type GoInt = n: int | FitsGoInt(n)

  predicate FitsGoInt(n: int) {
    -0x8000_0000_0000_0000 <= n <= 0x7FFF_FFFF_FFFF_FFFF
  }

  /** A Go value that may be missing: a nil pointer, an absent map key, a failed parse. */
  datatype Option<+T> = None | Some(value: T)

  /** A Go call that returns a value or an error. */
  datatype Result<+T, +E> = Ok(value: T) | Err(error: E)
}
