/** Option and Result, the failure-compatible wrappers used by every other module. */
module Wrappers {

  datatype Option<+T> = None | Some(value: T)

  /** Either a value or the error that the source would have thrown. */
  datatype Result<+T, +E> = Ok(value: T) | Err(error: E) {

    predicate IsFailure() {
      Err?
    }

    function PropagateFailure<U>(): Result<U, E>
      requires Err?
    {
      Err(error)
    }

    function Extract(): T
      requires Ok?
    {
      value
    }
  }
}
