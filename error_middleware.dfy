/** The application's last-resort error handler, its `CustomError` record and
    the handler for unmatched routes. */
module ErrorMiddleware {
  import opened Wrappers
  import opened Http

  const DEFAULT_MESSAGE := "Internal Server Error"
  const GENERIC_ERROR := "Something went wrong!"
  const ROUTE_NOT_FOUND := "Route not found"

  /** An error as the handler sees it: the optional `statusCode` and
      `isOperational` of an `AppError`, and the `stack` the runtime may have
      captured. A `statusCode` of `None` is `undefined` (or `NaN`). */
  datatype AppError = AppError(
    message: string,
    statusCode: Option<int>,
    isOperational: Option<bool>,
    stack: Option<string>)

  /** `new CustomError(message, statusCode?, isOperational?)`: omitted
      arguments take the defaults 500 and `true`; `stack` is what
      `Error.captureStackTrace` records. */
  function NewCustomError(message: string, statusCode: Option<int>, isOperational: Option<bool>,
                          stack: string): (e: AppError)
    ensures e.message == message && e.stack == Some(stack)
    ensures e.statusCode == Some(statusCode.GetOr(INTERNAL_SERVER_ERROR))
    ensures e.isOperational == Some(isOperational.GetOr(true))
  {
    AppError(message, Some(statusCode.GetOr(INTERNAL_SERVER_ERROR)), Some(isOperational.GetOr(true)), Some(stack))
  }

  /** The development-only part of an error body. */
  datatype Details = Details(message: string, stack: Option<string>)

  datatype ErrorBody = ErrorBody(error: string, statusCode: int, details: Option<Details>)

  /** `errorHandler`: a missing or zero status code becomes 500, an empty
      message becomes the default; the message and the stack are only sent in
      development. */
  function ErrorHandler(err: AppError, isDevelopment: bool): (r: Response<ErrorBody>)
    ensures r.status != 0
    ensures r.status == r.body.statusCode
    ensures err.statusCode.Some? && err.statusCode.value != 0 ==> r.status == err.statusCode.value
    ensures err.statusCode.None? || err.statusCode == Some(0) ==> r.status == INTERNAL_SERVER_ERROR
    ensures r.body.error == GENERIC_ERROR
    ensures r.body.details.Some? <==> isDevelopment
    ensures isDevelopment ==> r.body.details.value.stack == err.stack
    ensures isDevelopment && err.message != "" ==> r.body.details.value.message == err.message
    ensures isDevelopment && err.message == "" ==> r.body.details.value.message == DEFAULT_MESSAGE
  {
    var statusCode := match err.statusCode
      case Some(c) => if c == 0 then INTERNAL_SERVER_ERROR else c
      case None => INTERNAL_SERVER_ERROR;
    var message := if err.message == "" then DEFAULT_MESSAGE else err.message;
    var details := if isDevelopment then Some(Details(message, err.stack)) else None;
    Response(statusCode, ErrorBody(GENERIC_ERROR, statusCode, details))
  }

  /** The environment changes only whether the details are sent. */
  lemma EnvironmentOnlyAddsDetails(err: AppError)
    ensures ErrorHandler(err, true).status == ErrorHandler(err, false).status
    ensures ErrorHandler(err, true).body.(details := None) == ErrorHandler(err, false).body
  {
  }

  /** A `CustomError` built without a status code answers 500; one built with a
      non-zero code answers that code. */
  lemma CustomErrorStatus(message: string, statusCode: Option<int>, isOperational: Option<bool>,
                          stack: string, isDevelopment: bool)
    ensures statusCode.None? ==>
      ErrorHandler(NewCustomError(message, statusCode, isOperational, stack), isDevelopment).status == INTERNAL_SERVER_ERROR
    ensures statusCode.Some? && statusCode.value != 0 ==>
      ErrorHandler(NewCustomError(message, statusCode, isOperational, stack), isDevelopment).status == statusCode.value
  {
  }

  datatype NotFoundBody = NotFoundBody(error: string, path: string, httpMethod: string)

  /** `notFoundHandler`: 404 naming the requested URL and method. */
  function NotFoundHandler(originalUrl: string, httpMethod: string): (r: Response<NotFoundBody>)
    ensures r.status == NOT_FOUND
    ensures r.body.error == ROUTE_NOT_FOUND
    ensures r.body.path == originalUrl && r.body.httpMethod == httpMethod
  {
    Response(NOT_FOUND, NotFoundBody(ROUTE_NOT_FOUND, originalUrl, httpMethod))
  }
}
