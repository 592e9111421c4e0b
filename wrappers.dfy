/** Option and Result, and the Python exception kinds the modelled code raises. */
module Wrappers {

  datatype Option<+T> = None | Some(value: T)

  /** The exceptions the source raises or lets escape, by Python class. */
  datatype Error =
    | ValueError(message: string)
    | KeyError(key: string)
    | TypeError
    | IndexError
    | FileNotFoundError
    | AttributeError
    | TelegramError

  datatype Result<+T> = Success(value: T) | Failure(error: Error) {
    predicate IsFailure() { Failure? }

    function PropagateFailure<U>(): Result<U>
      requires Failure?
    {
      Failure(error)
    }

    function Extract(): T
      requires Success?
    {
      value
    }
  }
}
