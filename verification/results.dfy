/** Failure-compatible wrappers for the exceptions the driver raises and for dict lookups. */
module Results {

  /** The outcome of a dispatch step: a value, or the error the Python code raises. */
  datatype Result<+T, +E> = Ok(value: T) | Err(error: E) {

    predicate IsFailure() {
      Err?
    }

    function PropagateFailure<U>(): Result<U, E>
      requires Err?
    {
      Err(error)
    }

    function Extract(): T
      requires Ok?
    {
      value
    }
  }

  /** The outcome of `d[k]` on a dict: the value, or a KeyError. */
  datatype Lookup<+T> = Missing | Found(value: T)
}
