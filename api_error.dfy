// The HTTP error taxonomy every operation reports its failures in.
module ApiErrors {
  import opened Wrappers

  datatype ApiError = ApiError(status: int, message: string, errors: seq<string>)

  const UnauthorizedMessage := "Admin is not authorized"
  const DefaultNotFoundMessage := "Resource not found"

  /** The general constructor: status, message and errors are stored as given. */
  function Make(status: int, message: string, errors: seq<string> := []): (e: ApiError)
    ensures e.status == status && e.message == message && e.errors == errors
  {
    ApiError(status, message, errors)
  }

  function BadRequest(message: string, errors: seq<string> := []): (e: ApiError)
    ensures e.status == 400 && e.message == message && e.errors == errors
  {
    Make(400, message, errors)
  }

  function Unauthorized(): (e: ApiError)
    ensures e.status == 401 && e.message == UnauthorizedMessage && e.errors == []
  {
    Make(401, UnauthorizedMessage)
  }

  function Forbidden(message: string): (e: ApiError)
    ensures e.status == 403 && e.message == message && e.errors == []
  {
    Make(403, message)
  }

  /** An absent or empty message falls back to the default one. */
  function NotFound(message: Option<string> := None): (e: ApiError)
    ensures e.status == 404 && e.errors == []
    ensures e.message == (if message.Some? && message.value != "" then message.value else DefaultNotFoundMessage)
  {
    Make(404, if message.Some? && message.value != "" then message.value else DefaultNotFoundMessage)
  }

  /** Shorthand for the many call sites that pass an explicit message. */
  function NotFoundWith(message: string): (e: ApiError)
    requires message != ""
    ensures e.status == 404 && e.message == message && e.errors == []
  {
    NotFound(Some(message))
  }
}
