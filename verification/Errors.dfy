/** The client's error values (src/error.rs) and the result type that carries them. */
module Errors {
  import opened ByteStrings

  datatype Error =
    | Codec
    | Protocol
    | FrameTooLarge(size: nat)
    | DomainWire(code: u16, class_: byte, effect: byte, message: Bytes)
    | Authentication
    | Timeout
    | Connection
    | Transport
    | Backpressure
    | StaleHandle
    | LeaseAlreadyQueued
    | ConnectionClosed
    | Closed

  /** `FitzError::is_retryable`. */
  predicate IsRetryable(e: Error) {
    match e
    case Timeout | Connection | Transport | Backpressure | ConnectionClosed => true
    case DomainWire(code, class_, effect, _) =>
      effect == 0 && (class_ == 5 || code in {1053, 5050, 5056, 6051})
    case _ => false
  }

  datatype Option<+T> = None | Some(value: T)

  datatype Result<+T> = Ok(value: T) | Err(error: Error) {
    predicate IsFailure() {
      Err?
    }

    function PropagateFailure<U>(): Result<U>
      requires Err?
    {
      Err(error)
    }

    function Extract(): T
      requires Ok?
    {
      value
    }
  }
}
