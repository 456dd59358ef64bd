/**
 * What a handler sends back: a status code with a JSON payload on success,
 * or one of the error envelopes `{success: false, error}`.
 */
module Http {

  /** The store errors that reach a handler's catch block. */
  datatype Fault =
    | ValidationFailed   // a schema validator (required, enum, match, minlength) refused a value
    | CastFailed         // a value could not be cast to an ObjectId (error.kind is 'ObjectId')
    | DuplicateKey       // an insert collided with an existing unique key
    | NullReference      // a property was read from a reference that populate left null

  datatype Reply<+T> =
    | Ok(code: nat, body: T)
    | BadRequest(error: string)
    | Unauthorized(error: string)
    | Forbidden(error: string)
    | NotFound(error: string)
    | ServerError(fault: Fault)
  {
    /** The HTTP status code of the response. */
    function Status(): nat {
      match this
      case Ok(code, _) => code
      case BadRequest(_) => 400
      case Unauthorized(_) => 401
      case Forbidden(_) => 403
      case NotFound(_) => 404
      case ServerError(_) => 500
    }
  }
}
