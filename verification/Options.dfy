/** Optional values and results, used throughout. */
module Options {
  datatype Option<+T> = None | Some(value: T)

  /** A value, or the reason why there is none; stands for the original's exceptions. */
  datatype Result<+T, +E> = Ok(value: T) | Err(error: E) {
    predicate IsFailure() {
      Err?
    }

    function PropagateFailure<U>(): Result<U, E>
      requires Err?
    {
      Err(error)
    }

    function Extract(): T
      requires Ok?
    {
      value
    }
  }
}
