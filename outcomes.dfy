/** Option and Result, the failure-compatible wrappers every handler model uses
    for Python's `None` and for raised exceptions. */
module Outcomes {

  datatype Option<+T> = None | Some(value: T)

  /** `Fail` stands for a raised exception; `:-` propagates it like Python does. */
  datatype Result<+T, +E> = Ok(value: T) | Fail(error: E) {

    predicate IsFailure() {
      Fail?
    }

    function PropagateFailure<U>(): Result<U, E>
      requires Fail?
    {
      Fail(error)
    }

    function Extract(): T
      requires Ok?
    {
      value
    }
  }
}
