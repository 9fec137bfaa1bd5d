/** Result types shared by every module. */
module Wrappers {

  /** Rust's Option. */
  datatype Option<+T> = None | Some(value: T)

  /** Rust's Result; `:-` on it is Rust's `?`. */
  datatype Result<+T, +E> = Ok(value: T) | Err(error: E) {
    predicate IsFailure() {
      Err?
    }

    function PropagateFailure<U>(): Result<U, E>
      requires Err?
    {
      Err(error)
    }

    function Extract(): T
      requires Ok?
    {
      value
    }
  }

  /** A condition that ends the instruction with an error when it does not hold. */
  datatype Check<+E> = Holds | Fails(error: E) {
    predicate IsFailure() {
      Fails?
    }

    function PropagateFailure<U>(): Result<U, E>
      requires Fails?
    {
      Err(error)
    }
  }

  function Need<E>(condition: bool, error: E): Check<E> {
    if condition then Holds else Fails(error)
  }

  /** The result of code that may abort through assert!, expect or a checked operator. */
  datatype Outcome<+T> = Returned(value: T) | Panicked
}
