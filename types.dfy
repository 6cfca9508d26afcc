/** Optional values and results with an error, used where the PHP code
    returns null or throws, clock readings and exceptions. */
module Types {

  datatype Option<+T> = None | Some(value: T)

  datatype Result<+T, +E> = Success(value: T) | Failure(error: E)

  /** A clock reading, supplied by the caller, in the text form the classes
      print it in; how it is read from the clock is not modelled. */
  type Timestamp = string

  /** The exception classes the code throws on a bad argument: PHP's own
      `\InvalidArgumentException` and PSR-3's
      `Psr\Log\InvalidArgumentException`, which extends it. */
  datatype ExceptionKind = SplInvalidArgument | PsrInvalidArgument

  /** A thrown exception: its class and its message text. */
  datatype Exception = Exception(kind: ExceptionKind, text: string)
}
