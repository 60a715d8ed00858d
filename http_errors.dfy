/** The HTTP exceptions the backend services throw, each with its message. */
module HttpErrors {

  datatype HttpError =
    | BadRequest(message: string)
    | Unauthorized(message: string)
    | Forbidden(message: string)
    | NotFound(message: string)
    | Conflict(message: string)
}
