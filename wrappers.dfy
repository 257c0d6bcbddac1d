/** Option and pass/fail results shared by the other modules. */
module Wrappers {

  datatype Option<+T> = None | Some(value: T)

  /** The outcome of a check that returns nothing on success (Rust's `Result<(), E>`). */
  datatype Outcome<+E> = Pass | Fail(error: E)
}
