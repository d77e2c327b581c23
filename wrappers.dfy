/** Small result types shared by the modules of the model. */
module Wrappers {

  /** A value that may be absent, as the `(value, ok)` pairs of Go return it. */
  datatype Option<T> = None | Some(value: T)

  /**
   * The outcome of Go code that may stop with a run-time panic (an index
   * out of range): either it finishes with a value, or it panics.
   */
  datatype Outcome<T> = Done(value: T) | Panic
}
