/** Failure-compatible wrappers shared by the modules of this model. */
module Results {

  /** A value that may be absent. */
  datatype Option<T> = None | Some(value: T)

  /** The outcome of an operation that raises on failure: a value or the error raised. */
  datatype Result<T, E> = Ok(value: T) | Err(error: E) {

    predicate IsFailure() {
      Err?
    }

    function PropagateFailure<U>(): Result<U, E>
      requires Err?
    {
      Err(error)
    }

    function Extract(): T
      requires Ok?
    {
      value
    }
  }
}
