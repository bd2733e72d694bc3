/** The two result shapes the program's control flow needs. */
module Outcomes {
  /** A Go value together with its presence flag. */
  datatype Option<+T> = None | Some(value: T)

  /** A computation that either finishes or panics. A panic ends the process, and the open transaction is lost. */
  datatype Result<+T> = Ok(value: T) | Panic {
    predicate IsFailure() {
      Panic?
    }

    function PropagateFailure<U>(): Result<U>
      requires Panic?
    {
      Panic
    }

    function Extract(): T
      requires Ok?
    {
      value
    }
  }
}
