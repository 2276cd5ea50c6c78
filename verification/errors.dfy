/** The uniform error envelope of the gateway (src/error.rs): every failure a
    route reports is an `ApiError`, a status code together with the JSON body
    `{error, details, correlation_id?}`. Exactly three constructors build
    one, and each fixes the status and the category string. */
module Errors {
  import opened Common

  /** The HTTP status codes the gateway produces. */
  const BadRequest: nat := 400
  const NotFoundStatus: nat := 404
  const BadGateway: nat := 502

  /** The three error categories and the strings that name them on the wire. */
  const ValidationCategory: string := "validation_error"
  const NotFoundCategory: string := "not_found"
  const DriverCategory: string := "driver_error"

  /** The serialised error body; `correlationId` is omitted from the JSON
      when it is `None`. */
  datatype ErrorResponse = ErrorResponse(error: string, details: string, correlationId: Option<string>)

  datatype ApiError = ApiError(status: nat, body: ErrorResponse)

  /** What `IntoResponse` turns an error into: the status line and the body. */
  datatype Response = Response(status: nat, body: ErrorResponse)

  /** An envelope that one of the three constructors could have built: its
      category is one of the three, its status is the one that category
      fixes, and it carries a correlation id exactly when it is a driver
      error. */
  ghost predicate WellFormed(e: ApiError) {
    || (e.body.error == ValidationCategory && e.status == BadRequest && e.body.correlationId.None?)
    || (e.body.error == NotFoundCategory && e.status == NotFoundStatus && e.body.correlationId.None?)
    || (e.body.error == DriverCategory && e.status == BadGateway && e.body.correlationId.Some?)
  }

  /** `ApiError::validation`: a client input defect, 400. */
  function Validation(details: string): (e: ApiError)
    ensures e.status == BadRequest && e.body.error == ValidationCategory
    ensures e.body.details == details && e.body.correlationId == None
    ensures WellFormed(e)
  {
    ApiError(BadRequest, ErrorResponse(ValidationCategory, details, None))
  }

  /** `ApiError::not_found`: a well-formed request that matched nothing, 404. */
  function NotFound(details: string): (e: ApiError)
    ensures e.status == NotFoundStatus && e.body.error == NotFoundCategory
    ensures e.body.details == details && e.body.correlationId == None
    ensures WellFormed(e)
  {
    ApiError(NotFoundStatus, ErrorResponse(NotFoundCategory, details, None))
  }

  /** `ApiError::driver`: a failure of the backing store, 502. The source
      draws `correlationId` from a fresh random UUID; here the caller
      supplies it. */
  function Driver(details: string, correlationId: string): (e: ApiError)
    ensures e.status == BadGateway && e.body.error == DriverCategory
    ensures e.body.details == details && e.body.correlationId == Some(correlationId)
    ensures WellFormed(e)
  {
    ApiError(BadGateway, ErrorResponse(DriverCategory, details, Some(correlationId)))
  }

  /** `ApiError::status`: the code fixed when the error was built, which
      for an envelope the constructors build is the one its category
      names. */
  function Status(e: ApiError): (s: nat)
    ensures WellFormed(e) ==> (s == BadRequest <==> e.body.error == ValidationCategory)
    ensures WellFormed(e) ==> (s == NotFoundStatus <==> e.body.error == NotFoundCategory)
    ensures WellFormed(e) ==> (s == BadGateway <==> e.body.error == DriverCategory)
  {
    e.status
  }

  /** `IntoResponse for ApiError`: the response carries the status fixed at
      construction and the body unchanged. */
  function IntoResponse(e: ApiError): (r: Response)
    ensures r.status == Status(e) && r.body == e.body
    ensures WellFormed(e) ==> (r.status == BadRequest <==> r.body.error == ValidationCategory)
    ensures WellFormed(e) ==> (r.status == NotFoundStatus <==> r.body.error == NotFoundCategory)
    ensures WellFormed(e) ==> (r.status == BadGateway <==> r.body.error == DriverCategory)
  {
    Response(e.status, e.body)
  }

  /** Of the three categories, only the driver error carries a correlation
      id, and it always does. */
  lemma CorrelationIdIffDriver(e: ApiError)
    requires WellFormed(e)
    ensures e.body.correlationId.Some? <==> e.body.error == DriverCategory
  {
  }

  /** The status code alone tells the category, and the other way round. */
  lemma StatusDeterminesCategory(a: ApiError, b: ApiError)
    requires WellFormed(a) && WellFormed(b)
    ensures a.status == b.status <==> a.body.error == b.body.error
  {
  }
}
