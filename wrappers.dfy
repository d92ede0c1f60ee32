/** Optional values and success-or-error outcomes, used in place of `null`/`undefined`
    and of JavaScript exceptions throughout the model. */
module Wrappers {

  /** `None` stands for a missing (`null`/`undefined`) value. */
  datatype Option<+T> = None | Some(value: T)

  /** `Err` stands for an exception thrown (or a promise rejected) with that error. */
  datatype Result<+T, +E> = Ok(value: T) | Err(error: E)
}
