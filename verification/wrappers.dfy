/**
 * Shared value types: optional values, results of computations that can throw,
 * the settled state of a promise, and the error objects the server rejects with.
 */
module Wrappers {

  datatype Option<+T> = None | Some(value: T)

  /** A computation that either produces a value or throws `error`. */
  datatype Result<+T> = Success(value: T) | Failure(error: Error)

  /**
   * The state a promise ends in. `Pending` is a promise that never settles
   * (neither its resolve nor its reject callback is ever called).
   */
  datatype Outcome<+T> = Resolved(value: T) | Rejected(error: Error) | Pending

  /**
   * An object a promise is rejected with. `status` is its `statusCode` property;
   * runtime exceptions (TypeError, URIError, ReferenceError) carry none.
   * `statusText` is present only on the errors that set one.
   */
  datatype Error = Error(status: Option<int>, message: string, statusText: Option<string> := None)

  /** One octet of a body, a stream or a buffer. */
  newtype byte = x: int | 0 <= x < 256

  /** A point in time, in milliseconds since the epoch (a JavaScript Date). */
  type Time = nat

  /** The URIError thrown by decodeURIComponent on a malformed escape. */
  const UriMalformed: Error := Error(None, "URI malformed")

  /** The TypeError thrown when a string operation meets null. */
  const NullPathError: Error := Error(None, "The \"path\" argument must be of type string. Received null")
}
