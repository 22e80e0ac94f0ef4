/** Option and Result: `null` values and thrown exceptions of the modelled C# code. */
module Wrappers {

  /** A reference that may be `null` (None). */
  datatype Option<+T> = None | Some(value: T)

  /** Either a value or the exception the C# code would throw; usable with `:-`. */
  datatype Result<+T, +E> = Ok(value: T) | Err(error: E) {
    predicate IsFailure() {
      Err?
    }

    function PropagateFailure<U>(): Result<U, E>
      requires Err?
    {
      Err(error)
    }

    function Extract(): T
      requires Ok?
    {
      value
    }
  }
}
