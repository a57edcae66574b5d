/**
 * What an operation can throw and what an HTTP handler can answer.
 * Shared vocabulary of the services, their controllers and the error handlers.
 */
module Failures {
  import opened Wrappers

  /** One problem a request-body schema found: the path of the offending field and its message. */
  datatype Issue = Issue(path: seq<string>, message: string)

  /** A thrown error, classified the way the error handlers tell them apart. */
  datatype Failure =
    | Invalid(issues: seq<Issue>)                              // a schema's validation error
    | App(message: string, status: int, operational: bool)     // an AppError
    | Plain(message: string)                                   // any other Error, persistence errors included

  /** `new AppError(message, statusCode?)`: the status defaults to 500 and the error is always operational. */
  function AppError(message: string, status: Option<int>): (f: Failure)
    ensures f.App? && f.operational && f.message == message
    ensures status.None? ==> f.status == 500
    ensures status.Some? ==> f.status == status.value
  {
    App(message, status.GetOr(500), true)
  }

  /** One entry of the `details` array of a validation answer. */
  datatype Detail = Detail(path: string, message: string)

  /**
   * What a controller does with the response: a JSON body with a status, an `{ error, details }`
   * body (details empty when the body has no such field), an empty 204 answer, or `next(error)`,
   * which hands the failure to the service's error handler.
   */
  datatype Reply<+T> =
    | Json(status: int, payload: T)
    | ErrorJson(status: int, error: string, details: seq<Detail>)
    | NoContent
    | Next(failure: Failure)
  {
    /** The HTTP status, once the reply is no longer waiting for an error handler. */
    function Status(): Option<int> {
      match this
      case Json(s, _) => Some(s)
      case ErrorJson(s, _, _) => Some(s)
      case NoContent => Some(204)
      case Next(_) => None
    }
  }
}
