/**
 * The server's error class and its final error-to-response mapping
 * (server/src/middleware/errorHandler.ts).
 */
module ErrorHandler {
  import opened Common
  import opened Types

  /** `AppError`: an HTTP status, a message and whether the error is expected. */
  datatype AppError = AppError(statusCode: int, message: Message, isOperational: bool)

  /** `new AppError(statusCode, message)` with `isOperational` left at its default. */
  function NewAppError(statusCode: int, message: Message, isOperational: bool := true): (e: AppError)
    ensures e.statusCode == statusCode && e.message == message && e.isOperational == isOperational
  {
    AppError(statusCode, message, isOperational)
  }

  /** The usual shorthand: a literal message. */
  function Fail(statusCode: int, text: string): (e: AppError)
    ensures e.statusCode == statusCode && e.message == Text(text) && e.isOperational
  {
    NewAppError(statusCode, Text(text))
  }

  /**
   * Something thrown inside a handler: its `name` property and, when it is
   * an instance of AppError, that AppError.
   */
  datatype Thrown = Thrown(name: string, app: Option<AppError>)

  datatype ErrorBody = ErrorBody(success: bool, error: Message)

  datatype ErrorResponse = ErrorResponse(status: int, body: ErrorBody)

  const PrismaKnownRequestError := "PrismaClientKnownRequestError"

  /** `errorHandler` */
  function HandleError(err: Thrown): (r: ErrorResponse)
    ensures !r.body.success
    ensures err.app.Some? ==> r == ErrorResponse(err.app.value.statusCode, ErrorBody(false, err.app.value.message))
    ensures err.app.None? && err.name == PrismaKnownRequestError ==> r == ErrorResponse(400, ErrorBody(false, Text("Database error occurred")))
    ensures err.app.None? && err.name != PrismaKnownRequestError ==> r == ErrorResponse(500, ErrorBody(false, Text(ServerError)))
  {
    match err.app
    case Some(e) => ErrorResponse(e.statusCode, ErrorBody(false, e.message))
    case None =>
      if err.name == PrismaKnownRequestError then ErrorResponse(400, ErrorBody(false, Text("Database error occurred")))
      else ErrorResponse(500, ErrorBody(false, Text("Internal server error")))
  }

  /** The AppError test comes first: an AppError that also carries the database error's name keeps its own status. */
  lemma AppErrorWinsOverName(e: AppError)
    ensures HandleError(Thrown(PrismaKnownRequestError, Some(e))).status == e.statusCode
    ensures HandleError(Thrown(PrismaKnownRequestError, Some(e))).body.error == e.message
  {
  }

  /** Only an AppError can choose the status; everything else is 400 or 500 with a fixed text. */
  lemma NonAppErrorsAreFixed(err: Thrown)
    requires err.app.None?
    ensures HandleError(err).status in {400, 500}
    ensures HandleError(err).body.error in {Text("Database error occurred"), Text(ServerError)}
  {
  }
}
