/** Outcome types shared by every component of the model. */
module Prelude {
  datatype Option<+T> = None | Some(value: T)

  /** A value, or the exception the program would have thrown. */
  datatype Result<+T, +E> = Ok(value: T) | Err(error: E) {
    predicate IsFailure() {
      Err?
    }

    function PropagateFailure<U>(): Result<U, E>
      requires Err?
    {
      Err(error)
    }

    function Extract(): T
      requires Ok?
    {
      value
    }
  }
}
