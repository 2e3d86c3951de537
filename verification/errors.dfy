/**
 * The exceptions the service raises.
 *
 * `HttpError` is FastAPI's `HTTPException(status_code, detail)`. The custom exceptions
 * `InvalidToken`, `AccessTokenRequired`, `RefreshTokenRequired` and `InsufficientPermission`
 * come from src/errors.py, which is not part of this model, so their status codes are not
 * stated. `ValueError` and `NotImplementedError` are the Python built-ins; `InternalError`
 * stands for any other uncaught exception (a `KeyError`, an `AttributeError` on `None`,
 * SQLAlchemy's `MultipleResultsFound`), which the framework turns into HTTP 500.
 */
module Errors {

  datatype AppError =
    | HttpError(status: int, detail: string)
    | InvalidToken
    | AccessTokenRequired
    | RefreshTokenRequired
    | InsufficientPermission
    | ValueError(message: string)
    | NotImplementedError(message: string)
    | InternalError(reason: string)

  const HTTP_400_BAD_REQUEST := 400
  const HTTP_401_UNAUTHORIZED := 401
  const HTTP_403_FORBIDDEN := 403
  const HTTP_404_NOT_FOUND := 404
}
