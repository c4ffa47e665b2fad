/** Option and Result, standing for Kotlin's nullable types and for thrown exceptions. */
module Wrappers {

  /** `null` (None) or a present value (Some), as Kotlin's `T?`. */
  datatype Option<+T> = None | Some(value: T)

  /** A call that either returns a value (Ok) or throws (Err). */
  datatype Result<+R, +E> = Ok(value: R) | Err(error: E)
}
