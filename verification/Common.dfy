/** Failure-carrying results shared by the other modules. */
module Common {
  datatype Option<+T> = None | Some(value: T)

  /** Ok for a normal return, Err for an exception raised by the operation. */
  datatype Result<+T, +E> = Ok(value: T) | Err(error: E) {
    predicate IsFailure() { Err? }

    function PropagateFailure<U>(): Result<U, E>
      requires Err?
    {
      Err(error)
    }

    function Extract(): T
      requires Ok?
    {
      value
    }
  }
}
