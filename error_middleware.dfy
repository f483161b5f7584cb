/** The HTTP error middleware: maps the last error a handler recorded to a
    status code (section 15 of RFC 9110, and 429 from section 4 of RFC 6585)
    and a JSON body. */
module ErrorMiddleware {
  import opened Wrappers
  import opened DomainErrors

  const StatusBadRequest := 400
  const StatusUnauthorized := 401
  const StatusForbidden := 403
  const StatusNotFound := 404
  const StatusConflict := 409
  const StatusTooManyRequests := 429
  const StatusInternalServerError := 500

  /** The message shown in place of the details of an internal or upstream fault. */
  const InternalErrorMessage := "An internal error occurred"

  datatype ErrorResponse = ErrorResponse(code: int, message: string)

  /** A status and the body written with it. */
  datatype Reply = Reply(status: int, body: ErrorResponse)

  /** The status a domain code maps to. */
  function StatusOfCode(code: ErrorCode): (status: int)
    ensures StatusBadRequest <= status <= StatusInternalServerError
    ensures status != StatusInternalServerError ==> code in {CodeValidation, CodeNotFound, CodeConflict, CodeUnauthorized, CodeForbidden, CodeRateLimited}
    ensures code == CodeUpstream || code == CodeInternal ==> status == StatusInternalServerError
  {
    if code == CodeValidation then StatusBadRequest
    else if code == CodeNotFound then StatusNotFound
    else if code == CodeConflict then StatusConflict
    else if code == CodeUnauthorized then StatusUnauthorized
    else if code == CodeForbidden then StatusForbidden
    else if code == CodeRateLimited then StatusTooManyRequests
    else StatusInternalServerError
  }

  /** `mapErrorToResponse`: the outermost domain error decides the status; the
      body repeats the status and carries the domain message, except that a 500
      always carries the fixed message. */
  function MapErrorToResponse(e: Error): (r: Reply)
    ensures r.body.code == r.status
    ensures r.status == StatusInternalServerError ==> r.body.message == InternalErrorMessage
    ensures r.status != StatusInternalServerError ==>
      AsDomain(e).Some? && r.status == StatusOfCode(AsDomain(e).value.code) &&
      r.body.message == AsDomain(e).value.message
    ensures AsDomain(e).None? ==> r.status == StatusInternalServerError
  {
    match AsDomain(e)
    case Some(d) =>
      var status := StatusOfCode(d.code);
      if status == StatusInternalServerError then
        Reply(status, ErrorResponse(status, InternalErrorMessage))
      else
        Reply(status, ErrorResponse(status, d.message))
    case None =>
      Reply(StatusInternalServerError, ErrorResponse(StatusInternalServerError, InternalErrorMessage))
  }

  /** Each client status is produced by exactly one code, and 500 by every other
      error (upstream, internal, unknown codes and errors with no domain error). */
  lemma StatusMatchesCode(e: Error)
    ensures MapErrorToResponse(e).status == StatusBadRequest <==> IsCode(e, CodeValidation)
    ensures MapErrorToResponse(e).status == StatusNotFound <==> IsCode(e, CodeNotFound)
    ensures MapErrorToResponse(e).status == StatusConflict <==> IsCode(e, CodeConflict)
    ensures MapErrorToResponse(e).status == StatusUnauthorized <==> IsCode(e, CodeUnauthorized)
    ensures MapErrorToResponse(e).status == StatusForbidden <==> IsCode(e, CodeForbidden)
    ensures MapErrorToResponse(e).status == StatusTooManyRequests <==> IsCode(e, CodeRateLimited)
    ensures MapErrorToResponse(e).status == StatusInternalServerError <==>
      !(IsCode(e, CodeValidation) || IsCode(e, CodeNotFound) || IsCode(e, CodeConflict) ||
        IsCode(e, CodeUnauthorized) || IsCode(e, CodeForbidden) || IsCode(e, CodeRateLimited))
  {
  }

  /** The middleware after the handler: nothing is written when no error was
      recorded, otherwise only the last recorded error is mapped. */
  function HandleRecordedErrors(recorded: seq<Error>): (r: Option<Reply>)
    ensures r.None? <==> recorded == []
    ensures r.Some? ==> r.value.body.code == r.value.status
  {
    if |recorded| == 0 then None else Some(MapErrorToResponse(recorded[|recorded| - 1]))
  }

  /** Errors recorded before the last one never influence the reply. */
  lemma LastErrorWins(earlier: seq<Error>, last: Error)
    ensures HandleRecordedErrors(earlier + [last]) == Some(MapErrorToResponse(last))
    ensures HandleRecordedErrors(earlier + [last]) == HandleRecordedErrors([last])
  {
  }
}
