/** Option and Result, the model's stand-ins for C# `null` and for thrown exceptions. */
module Wrappers {

  /** A nullable reference: `None` is C#'s `null`. */
  datatype Option<+T> = None | Some(value: T) {
    predicate IsFailure() { None? }

    function PropagateFailure<U>(): Option<U>
      requires None?
    {
      None
    }

    function Extract(): T
      requires Some?
    {
      value
    }

    /** C#'s null-coalescing `x ?? d`. */
    function GetOr(default: T): T {
      match this
      case Some(v) => v
      case None => default
    }
  }

  /** The exception a failing operation throws, by kind. */
  datatype Error =
    | ParseFailure        // "cannot parse encrypted key"
    | NotImplemented      // NotImplementedException
    | InvalidData         // InvalidDataException
    | NotSupported        // NotSupportedException
    | Cryptographic       // CryptographicException raised by the crypto library
    | ArgumentOutOfRange  // ArgumentOutOfRangeException
    | ArgumentNull        // ArgumentNullException
    | Argument            // ArgumentException
    | NullReference       // NullReferenceException
    | TokenMissing        // "failed to get token"

  /** The outcome of a call that may throw: its value, or the exception. */
  datatype Result<+T> = Ok(value: T) | Err(error: Error) {
    predicate IsFailure() { Err? }

    function PropagateFailure<U>(): Result<U>
      requires Err?
    {
      Err(error)
    }

    function Extract(): T
      requires Ok?
    {
      value
    }
  }
}
