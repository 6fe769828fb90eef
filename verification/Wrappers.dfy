/** Optional values and Go's (value, error) results. */
module Wrappers {

  datatype Option<+T> = None | Some(value: T) {
    predicate IsFailure() {
      None?
    }

    function PropagateFailure<U>(): Option<U>
      requires None?
    {
      None
    }

    function Extract(): T
      requires Some?
    {
      value
    }
  }

  datatype Result<+T, +E> = Ok(value: T) | Err(error: E) {
    predicate IsFailure() {
      Err?
    }

    function PropagateFailure<U>(): Result<U, E>
      requires Err?
    {
      Err(error)
    }

    function Extract(): T
      requires Ok?
    {
      value
    }
  }

  /** A nil Go error means success; `OrError` names the error of the failing case. */
  function OrError<T, E>(o: Option<T>, error: E): Result<T, E> {
    match o
    case Some(v) => Ok(v)
    case None => Err(error)
  }
}
