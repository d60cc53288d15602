/** Option and Result types, and the Python exception kinds the modelled code raises. */
module Wrappers {
  datatype Option<+T> = None | Some(value: T)

  /** The exceptions raised by the modelled code, by their Python class name. */
  datatype Error =
    | KeyError | ValueError | IndexError | TypeError | FileNotFoundError
    | StopIteration | AttributeError | AssertionError | BadParameter | UnboundLocalError

  /** A value, or the exception that was raised instead of returning one. */
  datatype Result<+T> = Ok(value: T) | Err(error: Error) {
    predicate IsFailure() { Err? }

    function PropagateFailure<U>(): Result<U>
      requires Err?
    {
      Err(error)
    }

    function Extract(): T
      requires Ok?
    {
      value
    }
  }
}
