/**
 * Outcome types shared by every module: an optional value (a pandas null,
 * a Python `None`) and a result that is either a value or the error that
 * `exit_program` turns into an exit with code 1.
 */
module Wrappers {

  datatype Option<T> = None | Some(value: T)

  datatype Result<T> = Ok(value: T) | Err(error: string)
  {
    predicate IsFailure() { Err? }

    function PropagateFailure<U>(): Result<U>
      requires Err?
    {
      Err(error)
    }

    function Extract(): T
      requires Ok?
    {
      value
    }
  }
}
