/** The token operations the core calls on `JwtUtil`. Their cryptography is not modelled: each
    operation is a function value chosen by the caller, and the model holds for every choice. */
module Jwt {
  import opened Wrappers
  import opened ErrorCodes
  import opened Users
  import opened Servlet

  /** Name of the request/response header that carries the access token. */
  const AUTHORIZATION_HEADER := "Authorization"
  /** Prefix in front of the access token in that header. */
  const BEARER_PREFIX := "Bearer "
  /** Name of the cookie that carries the refresh token. */
  const REFRESH_HEADER := "Refresh-Token"

  /** What a token operation can throw: an expired but well-signed token, any other token
      verification failure, or the application's own `GlobalException` with its code. */
  datatype Thrown = ExpiredJwt | InvalidJwt | Global(errorCode: ErrorCode)

  datatype Claims = Claims(subject: string)

  /** The outcome of `getUserInfoFromToken`: the verified claims, or what it threw. */
  datatype ParsedToken = Parsed(claims: Claims) | Threw(thrown: Thrown)

  datatype JwtUtil = JwtUtil(
    /** `getTokenFromHeader(name, req)`: the header's token with the bearer prefix removed, or null. */
    getTokenFromHeader: (string, map<string, string>) -> Option<string>,
    getUserInfoFromToken: string -> ParsedToken,
    /** `validateToken`: true or false, or a thrown expiry. */
    validateToken: string -> Result<bool, Thrown>,
    /** `refreshAccessToken`: a fresh access token, or an error such as INVALID_REFRESH_TOKEN. */
    refreshAccessToken: string -> Result<string, Thrown>,
    /** `issueTokens(user, response)`: the access token it returns and the response it leaves. */
    issueTokens: (User, ResponseState) -> (string, ResponseState))

  /** `addJwtToHeader(name, value, res)`: the header afterwards reads exactly `value`. */
  function AddJwtToHeader(name: string, value: string, res: ResponseState): (r: ResponseState)
    ensures name in r.headers && r.headers[name] == value
    ensures forall h | h in res.headers && h != name :: h in r.headers && r.headers[h] == res.headers[h]
    ensures r.headers.Keys == res.headers.Keys + {name}
    ensures r.status == res.status && r.body == res.body && r.contentType == res.contentType
    ensures r.characterEncoding == res.characterEncoding
  {
    res.(headers := res.headers[name := value])
  }
}
