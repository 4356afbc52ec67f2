/** The shape shared by every handler's answer: an HTTP status with either an
    error message or the JSON payload of a successful call. */
module Http {

  datatype Reply<+T> =
    | Fail(status: int, message: string)
    | Ok(status: int, payload: T)

  const MethodNotAllowedMessage := "Method not allowed."
}
