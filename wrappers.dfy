/** Option and Result values, and the Python exceptions the modelled code can raise. */
module Wrappers {

  datatype Option<+T> = None | Some(value: T) {
    function GetOr(default: T): T {
      match this
      case Some(v) => v
      case None => default
    }
  }

  /** The exception kinds raised on the error paths of the modelled code. */
  datatype Exception =
    | ValueError          // min()/max() of nothing, a failed regular-expression search, an attrs validator
    | IndexError          // indexing an empty tuple or sequence
    | KeyError            // dict.pop of a missing key
    | ZeroDivisionError   // division by a zero frame count
    | StopIteration       // `next` on an exhausted generator
    | AssertionError      // a failed `assert`
    | UnboundLocalError   // returning a loop variable the loop never bound
    | TypeError           // an attrs `instance_of` validator

  datatype Result<+T> = Ok(value: T) | Err(error: Exception) {
    predicate IsFailure() { Err? }

    function PropagateFailure<U>(): Result<U>
      requires Err?
    {
      Err(error)
    }

    function Extract(): T
      requires Ok?
    {
      value
    }
  }
}
