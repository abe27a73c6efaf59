/** The application's error taxonomy: each code carries an HTTP status and a user-facing message. */
module ErrorCodes {

  datatype ErrorCode =
    // authorization errors
    | ACCESS_DENIED
    | INVALID_TOKEN
    | INVALID_REFRESH_TOKEN
    | EXPIRED_REFRESH_TOKEN
    | NOT_FOUND_USERNAME
    // user-related errors
    | ALREADY_USERNAME
    | INVALID_PASSWORD
    // general error
    | FAIL

  /** The HTTP status a code is reported with; every code is a client or server error. */
  function Status(code: ErrorCode): (status: int)
    ensures 400 <= status <= 599
  {
    match code
    case ACCESS_DENIED => 403
    case INVALID_TOKEN => 401
    case INVALID_REFRESH_TOKEN => 401
    case EXPIRED_REFRESH_TOKEN => 403
    case NOT_FOUND_USERNAME => 404
    case ALREADY_USERNAME => 409
    case INVALID_PASSWORD => 404
    case FAIL => 500
  }

  /** The message reported with a code; never empty. */
  function Msg(code: ErrorCode): (msg: string)
    ensures |msg| > 0
  {
    match code
    case ACCESS_DENIED => "접근 권한이 없습니다."
    case INVALID_TOKEN => "유효하지 않은 토큰입니다."
    case INVALID_REFRESH_TOKEN => "유효하지 않은 리프레시 토큰입니다."
    case EXPIRED_REFRESH_TOKEN => "토큰이 만료되었습니다."
    case NOT_FOUND_USERNAME => "해당 아이디는 존재하지 않습니다"
    case ALREADY_USERNAME => "해당 아이디는 이미 사용 중입니다."
    case INVALID_PASSWORD => "비밀번호가 일치하지 않습니다."
    case FAIL => "실패하였습니다."
  }

  /** The token errors are "unauthenticated" (401) except an expired refresh token, which is "forbidden" (403). */
  lemma TokenErrorStatuses()
    ensures Status(ACCESS_DENIED) == 403
    ensures Status(INVALID_TOKEN) == 401 && Status(INVALID_REFRESH_TOKEN) == 401
    ensures Status(EXPIRED_REFRESH_TOKEN) == 403
  {
  }

  /** The user errors: a taken username is a conflict (409); the generic failure is 500. */
  lemma UserErrorStatuses()
    ensures Status(ALREADY_USERNAME) == 409 && Status(FAIL) == 500
  {
  }

  /** An unknown username and a wrong password are both reported as 404, so the status alone
      does not tell a client which of the two happened; only the message does. */
  lemma StatusDoesNotIdentifyLoginFailure()
    ensures NOT_FOUND_USERNAME != INVALID_PASSWORD
    ensures Status(NOT_FOUND_USERNAME) == Status(INVALID_PASSWORD) == 404
    ensures Msg(NOT_FOUND_USERNAME) != Msg(INVALID_PASSWORD)
  {
  }

  /** Messages identify codes: no two codes share a message, so the `msg` of an error body
      determines the code even where the status does not. */
  lemma MsgIsInjective(a: ErrorCode, b: ErrorCode)
    ensures Msg(a) == Msg(b) ==> a == b
  {
  }
}
