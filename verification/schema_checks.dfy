/**
 * The building blocks of the request-body schemas: field checks that produce
 * issues, the library's default messages, and the format predicates the model
 * does not interpret (email, url, uuid, ISO date-time).
 */
module SchemaChecks {
  import opened Failures

  /** The format checks of the validation library, left uninterpreted. */
  datatype Formats = Formats(
    isEmail: string -> bool,
    isUrl: string -> bool,
    isUuid: string -> bool,
    isDatetime: string -> bool)

  /** Default messages of the validation library for the checks that carry no message of their own. */
  const Required := "Required"
  const InvalidEnum := "Invalid enum value"
  const AtLeast1 := "String must contain at least 1 character(s)"
  const AtLeast2 := "String must contain at least 2 character(s)"
  const AtLeast3 := "String must contain at least 3 character(s)"
  const AtLeast10 := "String must contain at least 10 character(s)"
  const NotInteger := "Expected integer, received float"
  const NotPositive := "Number must be greater than 0"
  const BelowOne := "Number must be greater than or equal to 1"
  const InvalidDatetime := "Invalid datetime"
  const InvalidUrl := "Invalid url"
  const InvalidPattern := "Invalid"

  /** The issue `message` on `field` when `ok` fails, nothing otherwise. */
  function Flag(ok: bool, field: string, message: string): (issues: seq<Issue>)
    ensures ok <==> issues == []
    ensures !ok ==> issues == [Issue([field], message)]
  {
    if ok then [] else [Issue([field], message)]
  }

  /** The one issue of a required field that is absent. */
  function Missing(field: string): seq<Issue> {
    [Issue([field], Required)]
  }

  /** Whether a JSON number is an integer. */
  predicate IsInteger(x: real) {
    x == x.Floor as real
  }
}
