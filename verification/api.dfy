/** The error responses of the handlers (`jsonError`) and the status of an unhandled exception. */
module Api {

  /** An error response: its HTTP status and its machine-readable code. */
  datatype ApiError = ApiError(status: int, code: string)

  const Unauthorized: ApiError := ApiError(401, "UNAUTHORIZED")
  const Forbidden: ApiError := ApiError(403, "FORBIDDEN")
  const BadRequest: ApiError := ApiError(400, "BAD_REQUEST")

  /** A storage failure escapes the handler; the framework answers 500. */
  const Internal: ApiError := ApiError(500, "INTERNAL")
}
