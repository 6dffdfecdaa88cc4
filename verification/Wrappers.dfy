/// Optional values and failing results shared by the models.
module Wrappers {
  datatype Option<+T> = None | Some(value: T)

  /** A value or an error; usable with the `:-` operator. */
  datatype Result<+T, +E> = Ok(value: T) | Err(error: E) {
    predicate IsFailure() { Err? }

    function PropagateFailure<U>(): Result<U, E>
      requires Err?
    {
      Err(error)
    }

    function Extract(): T
      requires Ok?
    {
      value
    }
  }
}
