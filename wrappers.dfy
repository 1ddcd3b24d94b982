/** Option and Result, the two failure-carrying datatypes the model uses for
    PHP's null results and thrown exceptions. */
module Wrappers {

  datatype Option<+T> = None | Some(value: T)

  /** `Err` stands for an exception thrown by the PHP code; `Ok` for a normal
      return.  The three members let `:-` propagate an exception the way PHP
      unwinds to the caller. */
  datatype Result<+T, +E> = Ok(value: T) | Err(error: E) {

    predicate IsFailure()
    {
      Err?
    }

    function PropagateFailure<U>(): Result<U, E>
      requires Err?
    {
      Err(error)
    }

    function Extract(): T
      requires Ok?
    {
      value
    }
  }
}
