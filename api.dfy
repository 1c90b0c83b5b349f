/**
 * The exceptions the controllers throw, and a result type that carries
 * either a value or one of them. The HTTP category each exception is
 * mapped to by the (not modelled) exception handler is noted beside it.
 */
module Api {
  datatype ApiError =
    | ObjectNotFound(kind: string, message: string)       // 404
    | InvalidApiParameter(message: string)               // 400
    | IllegalArgument(message: string)                   // IllegalArgumentException
    | NumberFormat(input: string)                        // NumberFormatException
    | StateConflict(message: string)                     // 409
    | PreconditionFailed(message: string, currentVersionUid: string, currentLocation: string) // 412
    | PreconditionFailedNoVersion(message: string)       // 412 without corrective headers
    | InternalServer(message: string)                    // 500
    | UnexpectedRuntime(what: string)                    // an exception the controller does not catch

  datatype Result<+T> = Ok(value: T) | Err(error: ApiError)
}
