// The answers the request handlers give: the status code and, for the
// failures, the message of the JSON body.

module Http {
  datatype Outcome =
    | Done
    | Created
    | BadRequest(message: string)
    | Unauthorized(message: string)
    | Forbidden(message: string)
    | NotFound(message: string)
    /** A thrown error (a save rejected by schema validation, a failed hook): Express's default handler answers. */
    | ServerError

  function HttpStatus(o: Outcome): (code: int)
    ensures o.Done? <==> code == 200
    ensures o.ServerError? <==> code == 500
    ensures 200 <= code < 600
  {
    match o
    case Done => 200
    case Created => 201
    case BadRequest(_) => 400
    case Unauthorized(_) => 401
    case Forbidden(_) => 403
    case NotFound(_) => 404
    case ServerError => 500
  }
}
