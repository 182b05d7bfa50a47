/** The JSON responses of the API routes: a success body, or an HTTP status with an error text. */
module Http {
  import opened Db

  datatype Response<T> = Success(body: T) | Failure(status: nat, error: string)

  const Unauthorized: string := "Unauthorized"
  const InternalServerError: string := "Internal server error"
  const DatabaseUnavailable: string := "Database connection failed. Please try again."

  /**
   * The `catch` block of the chat and conversation routes: 503 for a connection-class error,
   * 500 for any other.
   */
  function DatabaseFailure<T>(e: DbError): (r: Response<T>)
    ensures r.Failure?
    ensures r.status == 503 <==> IsConnectionError(e)
    ensures r.status == 500 <==> !IsConnectionError(e)
  {
    if IsConnectionError(e) then Failure(503, DatabaseUnavailable) else Failure(500, InternalServerError)
  }
}
