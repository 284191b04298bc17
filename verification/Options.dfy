/** The two result shapes used throughout the model. */
module Options {
  datatype Option<+T> = None | Some(value: T)

  /** `var x :- e;` stops at the first `Err`, as a thrown error does. */
  datatype Result<+T, +E> = Ok(value: T) | Err(error: E) {
    predicate IsFailure() { Err? }

    function PropagateFailure<U>(): Result<U, E>
      requires Err?
    {
      Err(error)
    }

    function Extract(): T
      requires Ok?
    {
      value
    }
  }

  function Max(a: int, b: int): int { if a < b then b else a }
}
