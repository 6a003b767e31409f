/** The error answer of an HTTP route: a status code and the `error` text of its JSON body. */
module Http {
  import opened JsText

  datatype HttpError = HttpError(status: nat, error: JsString)

  function BadRequest(error: JsString): HttpError { HttpError(400, error) }
  function Unauthorized(error: JsString): HttpError { HttpError(401, error) }
  function Forbidden(error: JsString): HttpError { HttpError(403, error) }
  function NotFoundError(error: JsString): HttpError { HttpError(404, error) }

  /** The catch-all answer of every route: 500 "Server error". */
  function ServerError(): HttpError { HttpError(500, Str("Server error")) }
}
