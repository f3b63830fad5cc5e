/** Option, Result and Outcome: the values the model uses for Python's `None`,
    for operations that may raise, and for methods that may raise. */
module Wrappers {

  datatype Option<+T> = None | Some(value: T) {
    /** The value, or `default` when there is none. */
    function GetOr(default: T): T {
      if Some? then value else default
    }
  }

  /** A value, or the exception an operation raised. Usable with `:-`. */
  datatype Result<+T, +E> = Ok(value: T) | Err(error: E) {
    predicate IsFailure() {
      Err?
    }

    function PropagateFailure<U>(): Result<U, E>
      requires Err?
    {
      Err(error)
    }

    function Extract(): T
      requires Ok?
    {
      value
    }
  }

  /** What a method that returns nothing in the source reports: it returned, or it raised. */
  datatype Outcome<+E> = Pass | Fail(error: E)

  function Status<T, E>(r: Result<T, E>): Outcome<E> {
    if r.Ok? then Pass else Fail(r.error)
  }
}
