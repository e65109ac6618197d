/** Option and Result, the failure-carrying datatypes the rest of the model uses. */
module Wrappers {

  /** An optional value, as Rust's Option or Swift's optional. */
  datatype Option<+T> = None | Some(value: T) {

    /** The value when present, otherwise the given default (Rust's unwrap_or). */
    function GetOr(default: T): T {
      match this
      case Some(v) => v
      case None => default
    }
  }

  /** A success value or an error value, as Rust's Result. */
  datatype Result<+T, +E> = Ok(value: T) | Err(error: E) {

    /** Drops the error, as Rust's Result::ok. */
    function ToOption(): Option<T> {
      match this
      case Ok(v) => Some(v)
      case Err(_) => None
    }
  }
}

/** The fixed-width integer ranges the source's fields use. */
module Ints {

  const I32_MIN: int := -0x8000_0000
  const I32_MAX: int := 0x7fff_ffff
  const U16_MAX: int := 0xffff
  const U32_MAX: int := 0xffff_ffff

  type i32 = x: int | I32_MIN <= x <= I32_MAX
  type u16 = x: int | 0 <= x <= U16_MAX
  type u32 = x: int | 0 <= x <= U32_MAX
}
