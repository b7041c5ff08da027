/** Failure-compatible helper types shared by the modules of the model. */
module Wrappers {

  /** A value that may be missing; stands for Python's `None` and for numpy's NaN price. */
  datatype Option<+T> = None | Some(value: T)

  /** A computation that either passes or fails with an error value. */
  datatype Outcome<+E> = Pass | Fail(error: E)
}
