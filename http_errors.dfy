/** The HTTP exceptions the gateway throws, as status and message
    (status semantics per section 15 of RFC 9110). */
module HttpErrors {

  datatype HttpError = HttpError(status: int, message: string)

  const Unauthorized := 401
  const Conflict := 409
  const InternalServerError := 500
  const ServiceUnavailable := 503
}
