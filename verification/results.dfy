/** Results of operations that the source ends by raising an exception. */
module Results {

  datatype Option<+T> = None | Some(value: T)

  /** A value, or the problem that was raised in its place. Works with `:-`. */
  datatype Result<+T, +E> = Ok(value: T) | Err(error: E) {

    predicate IsFailure() {
      Err?
    }

    function PropagateFailure<U>(): Result<U, E>
      requires Err?
    {
      Err(error)
    }

    function Extract(): T
      requires Ok?
    {
      value
    }
  }
}
