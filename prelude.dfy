/** Value types shared by the whole model: Rust's `Option` and the two
    fixed-width integers that cross the foreign boundary. */
module Prelude {

  /** Rust's `Option<T>`. */
  datatype Option<+T> = None | Some(value: T) {

    /** `Option::unwrap_or`: the value, or `default` when there is none. */
    function GetOr(default: T): (r: T)
      ensures Some? ==> r == value
      ensures None? ==> r == default
    {
      match this
      case Some(v) => v
      case None => default
    }
  }

  /** A 64-bit signed machine integer (`isize`, `NSInteger` on 64-bit macOS). */
  newtype ISize = x: int | -0x8000_0000_0000_0000 <= x < 0x8000_0000_0000_0000

  /** A C `int` (`c_int`, 32-bit signed on macOS). */
  newtype CInt = x: int | -0x8000_0000 <= x < 0x8000_0000
}
