/** Failure-compatible Option and Result datatypes shared by every module. */
module Wrappers {

  datatype Option<+T> = None | Some(value: T)

  /**
   * The exceptions the modelled Python code can raise, one constructor per
   * kind. The text of an `AssertionError` raised by a bare `assert` is the
   * asserted condition, a label only: Python's own message is empty there;
   * an `assert` with a message carries that message.
   */
  datatype Error =
    | KeyError(what: string)
    | IndexError(what: string)
    | ValueError(what: string)
    | TypeError(what: string)
    | AttributeError(what: string)
    | AssertionError(what: string)
    | ZeroDivisionError
    | FileNotFoundError(path: string)

  datatype Result<+R> = Ok(value: R) | Err(error: Error) {
    predicate IsFailure() { Err? }

    function PropagateFailure<U>(): Result<U>
      requires Err?
    {
      Err(error)
    }

    function Extract(): R
      requires Ok?
    {
      value
    }
  }
}
