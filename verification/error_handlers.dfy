/**
 * The final error handlers: how a failure passed to `next(error)` becomes an HTTP answer,
 * in the monolith and in the user service.
 */
module ErrorHandlers {
  import opened Wrappers
  import opened Failures

  const ValidationFailed := "Validation failed"
  /** The monolith's 500 message in production. */
  const InternalError := "Internal server error"
  /** The user service's 500 message. */
  const InternalErrorBang := "Internal server error!"

  /** The segments of an issue path joined by ".". */
  function JoinPath(path: seq<string>): (s: string)
    ensures |path| == 1 ==> s == path[0]
    ensures path == [] ==> s == ""
  {
    if |path| == 0 then "" else if |path| == 1 then path[0] else JoinPath(path[..|path| - 1]) + "." + path[|path| - 1]
  }

  lemma {:induction false} JoinPathAppend(path: seq<string>, segment: string)
    requires path != []
    ensures JoinPath(path + [segment]) == JoinPath(path) + "." + segment
  {
    assert (path + [segment])[..|path|] == path;
  }

  /** One detail per issue, in order, carrying the joined path and the issue's message. */
  function Details(issues: seq<Issue>): (ds: seq<Detail>)
    ensures |ds| == |issues|
    ensures forall i :: 0 <= i < |ds| ==> ds[i] == Detail(JoinPath(issues[i].path), issues[i].message)
  {
    if issues == [] then [] else [Detail(JoinPath(issues[0].path), issues[0].message)] + Details(issues[1..])
  }

  /**
   * The monolith's handler. A validation error is tested first and answers 400 with its details;
   * an operational AppError answers its own status and message; anything else answers 500 with
   * the error's message, or a fixed message in production.
   */
  function MonolithHandle<T>(f: Failure, production: bool): (r: Reply<T>)
    ensures r.ErrorJson?
    ensures f.Invalid? ==> r.status == 400 && r.error == ValidationFailed && r.details == Details(f.issues)
    ensures f.App? && f.operational ==> r == ErrorJson(f.status, f.message, [])
    ensures (f.Plain? || (f.App? && !f.operational)) ==> r.status == 500 && r.details == []
    ensures (f.Plain? || (f.App? && !f.operational)) ==> r.error == (if production then InternalError else f.message)
  {
    match f
    case Invalid(issues) => ErrorJson(400, ValidationFailed, Details(issues))
    case App(message, status, operational) =>
      if operational then ErrorJson(status, message, [])
      else ErrorJson(500, if production then InternalError else message, [])
    case Plain(message) => ErrorJson(500, if production then InternalError else message, [])
  }

  /** The user service's handler: an AppError answers its own status and message, anything else 500. */
  function UserServiceHandle<T>(f: Failure): (r: Reply<T>)
    ensures f.App? ==> r == ErrorJson(f.status, f.message, [])
    ensures !f.App? ==> r == ErrorJson(500, InternalErrorBang, [])
  {
    if f.App? then ErrorJson(f.status, f.message, []) else ErrorJson(500, InternalErrorBang, [])
  }

  /** What the client finally receives from a monolith controller: `next(error)` goes through the handler. */
  function MonolithRespond<T>(reply: Reply<T>, production: bool): (r: Reply<T>)
    ensures !reply.Next? ==> r == reply
    ensures reply.Next? ==> r == MonolithHandle(reply.failure, production)
    ensures r.Status().Some?
  {
    if reply.Next? then MonolithHandle(reply.failure, production) else reply
  }

  /** What the client finally receives from a user-service controller. */
  function UserServiceRespond<T>(reply: Reply<T>): (r: Reply<T>)
    ensures !reply.Next? ==> r == reply
    ensures reply.Next? ==> r == UserServiceHandle(reply.failure)
    ensures r.Status().Some?
  {
    if reply.Next? then UserServiceHandle(reply.failure) else reply
  }

  /** An AppError built with a status comes back with that status and message from either handler. */
  lemma AppErrorRoundTrip<T>(message: string, status: int, production: bool)
    ensures MonolithHandle<T>(AppError(message, Some(status)), production) == ErrorJson(status, message, [])
    ensures UserServiceHandle<T>(AppError(message, Some(status))) == ErrorJson(status, message, [])
    ensures MonolithHandle<T>(AppError(message, None), production) == ErrorJson(500, message, [])
  {
  }

  /** A validation error is a 400 in the monolith but, lacking a branch for it, a 500 in the user service. */
  lemma ValidationStatusDiffers<T>(issues: seq<Issue>, production: bool)
    ensures MonolithHandle<T>(Invalid(issues), production).status == 400
    ensures UserServiceHandle<T>(Invalid(issues)).status == 500
  {
  }
}
