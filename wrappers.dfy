/** Failure-carrying results shared by every module: a thrown JavaScript
    `Error` is modelled as `Err(message)` / `Fail(message)`. */
module Wrappers {

  datatype Option<+T> = None | Some(value: T)

  /** The value of a call that either returns `value` or throws an error
      whose message is `error`. */
  datatype Result<+T> = Ok(value: T) | Err(error: string)

  /** The value of a call that returns nothing or throws. */
  datatype Outcome = Pass | Fail(error: string)
}
