/**
 * The uniform error envelope every handler answers with on failure:
 * `{ error: { code, message, details? } }` and the HTTP status it travels with.
 */
module Api {

  datatype ErrorCode = BadRequest | Unauthorized | Conflict | NotFound | Internal

  /** `details` lists the request fields that failed validation (empty for other errors). */
  datatype ApiError = ApiError(code: ErrorCode, message: string, details: seq<string>)

  datatype Result<+T> = Ok(value: T) | Err(error: ApiError)

  /** A successful DELETE answers 204 with no body. */
  datatype NoContent = NoContent

  function Status(code: ErrorCode): (s: nat)
    ensures 400 <= s <= 500
    ensures s == 500 <==> code == Internal
  {
    match code
    case BadRequest => 400
    case Unauthorized => 401
    case NotFound => 404
    case Conflict => 409
    case Internal => 500
  }

  function ValidationFailed(fields: seq<string>): ApiError {
    ApiError(BadRequest, "Validation failed", fields)
  }

  const InternalError: ApiError := ApiError(Internal, "Internal server error", [])
  const InvalidCredentials: ApiError := ApiError(Unauthorized, "Invalid email or password", [])
  const UserExists: ApiError := ApiError(Conflict, "User with this email already exists", [])
  const NoToken: ApiError := ApiError(Unauthorized, "No token provided", [])
  const InvalidToken: ApiError := ApiError(Unauthorized, "Invalid or expired token", [])
  const BoardNotFound: ApiError := ApiError(NotFound, "Board not found", [])
  const ColumnNotFound: ApiError := ApiError(NotFound, "Column not found", [])
  const TaskNotFound: ApiError := ApiError(NotFound, "Task not found", [])
}
