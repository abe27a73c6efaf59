/** Translation of exceptions that reach the controllers into an HTTP status and a `{msg, path}`
    body. Spring picks the most specific handler for the exception's type. */
module ExceptionHandler {
  import opened ErrorCodes
  import opened Servlet

  /** The exception types the handlers distinguish. `AccessDeniedException` is the file-system one
      the handler imports; it is neither a `GlobalException` nor one of its supertypes. */
  datatype ExceptionKind = GlobalException(errorCode: ErrorCode) | AccessDeniedException | OtherException

  datatype ExceptionResponseDto = ExceptionResponseDto(msg: string, path: string)

  datatype ResponseEntity = ResponseEntity(body: ExceptionResponseDto, status: int)

  /** `handleAccessDeniedException`: "forbidden" with ACCESS_DENIED's message. */
  function HandleAccessDeniedException(request: HttpServletRequest): (r: ResponseEntity)
    ensures r.status == Status(ACCESS_DENIED)
    ensures r.body == ExceptionResponseDto(Msg(ACCESS_DENIED), request.requestUri)
  {
    ResponseEntity(ExceptionResponseDto(Msg(ACCESS_DENIED), request.requestUri), FORBIDDEN)
  }

  /** `handleDefaultException`: "internal server error" with FAIL's message. */
  function HandleDefaultException(request: HttpServletRequest): (r: ResponseEntity)
    ensures r.status == Status(FAIL)
    ensures r.body == ExceptionResponseDto(Msg(FAIL), request.requestUri)
  {
    ResponseEntity(ExceptionResponseDto(Msg(FAIL), request.requestUri), INTERNAL_SERVER_ERROR)
  }

  /** `handleGlobalException`: the code's own status and message. */
  function HandleGlobalException(request: HttpServletRequest, errorCode: ErrorCode): (r: ResponseEntity)
    ensures 400 <= r.status <= 599 && r.body.path == request.requestUri
  {
    ResponseEntity(ExceptionResponseDto(Msg(errorCode), request.requestUri), Status(errorCode))
  }

  /** The error code whose status and message an exception is reported with. */
  function CodeOf(e: ExceptionKind): ErrorCode
  {
    match e
    case GlobalException(code) => code
    case AccessDeniedException => ACCESS_DENIED
    case OtherException => FAIL
  }

  /** The handler Spring chooses: the one declared for the exception's most specific type. Every
      exception gets exactly one response, which reports its error code's status and message. */
  function Handle(request: HttpServletRequest, e: ExceptionKind): (r: ResponseEntity)
    ensures r.status == Status(CodeOf(e)) && r.body.msg == Msg(CodeOf(e))
    ensures r.body.path == request.requestUri
  {
    match e
    case GlobalException(code) => HandleGlobalException(request, code)
    case AccessDeniedException => HandleAccessDeniedException(request)
    case OtherException => HandleDefaultException(request)
  }

  /** The two handlers with hard-coded statuses answer exactly as a `GlobalException` carrying
      ACCESS_DENIED or FAIL would. */
  lemma HardCodedHandlersAgreeWithCodes(request: HttpServletRequest)
    ensures FORBIDDEN == Status(ACCESS_DENIED) && INTERNAL_SERVER_ERROR == Status(FAIL)
    ensures Handle(request, AccessDeniedException) == Handle(request, GlobalException(ACCESS_DENIED))
    ensures Handle(request, OtherException) == Handle(request, GlobalException(FAIL))
  {
  }

  /** Every response is a client or server error. */
  lemma ResponsesAreErrors(request: HttpServletRequest, e: ExceptionKind)
    ensures 400 <= Handle(request, e).status <= 599
  {
  }

  /** The body alone identifies the error code behind a response, even where two codes share a
      status (NOT_FOUND_USERNAME and INVALID_PASSWORD). */
  lemma BodyIdentifiesCode(request: HttpServletRequest, a: ExceptionKind, b: ExceptionKind)
    requires Handle(request, a).body == Handle(request, b).body
    ensures CodeOf(a) == CodeOf(b)
  {
    MsgIsInjective(CodeOf(a), CodeOf(b));
  }
}
