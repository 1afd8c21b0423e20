/** Absent-or-present values and fallible results, used for JavaScript's
    `null`/`undefined` results and for thrown errors. */
module Wrappers {

  /** `None` stands for a JavaScript `null` or `undefined` value. */
  datatype Option<+T> = None | Some(value: T)

  /** `Err` stands for an exception thrown by the modelled code. */
  datatype Result<+R, +E> = Ok(value: R) | Err(error: E)
}
