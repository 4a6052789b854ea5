/** Failure-carrying return values that stand for the exceptions the services throw. */
module Outcomes {

  /** The exception classes the modelled code throws. */
  datatype Error =
    | KeyNotFound        // KeyNotFoundException: a sale or product id is unknown
    | InvalidOperation   // InvalidOperationException: a business rule refuses the request
    | BadRequest         // HTTP 400: a request body fails its validation attributes

  datatype Option<+T> = None | Some(value: T)

  /** A call that returns nothing or throws. */
  datatype Outcome = Pass | Fail(error: Error)

  /** A call that returns a value or throws. */
  datatype Result<+T> = Success(value: T) | Failure(error: Error)
}
