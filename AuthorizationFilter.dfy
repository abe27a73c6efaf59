/** The per-request authorization filter: it reads the access token from the `Authorization`
    header, establishes the caller's identity in the security context, transparently refreshes
    an expired access token from the refresh-token cookie, and passes the request on.

    `Filter` states what one run does to the request's state; `JwtAuthorizationFilter` runs it
    step by step on the response, the context holder and the chain, and is proved to agree. */
module AuthorizationFilter {
  import opened Wrappers
  import opened ErrorCodes
  import opened Users
  import opened UserDetailsService
  import opened UserRepositories
  import opened SecurityContexts
  import opened Servlet
  import opened StringUtils
  import opened Jwt

  /** The body written when the access token expired and no usable refresh token came with it. */
  const REFRESH_REQUIRED_BODY := "{\"message\":\"리프레시 토큰을 재발급 받으세요\"}"

  /** What a run can change: the security context, the response, and how often the chain ran. */
  datatype RequestState = RequestState(context: SecurityContext, response: ResponseState, chainCalls: nat)

  /** The state after a run, and the exception that escaped the filter, if any. */
  datatype FilterResult = FilterResult(state: RequestState, thrown: Option<Thrown>)

  /** `createAuthentication`: an authentication for the user the table holds under `username`;
      an unknown username fails with NOT_FOUND_USERNAME. */
  function CreateAuthentication(users: map<string, User>, username: string): (r: Result<Authentication, ErrorCode>)
    ensures r.Success? <==> username in users
    ensures r.Success? ==> r.value.principal == UserDetailsImpl(users[username])
    ensures r.Failure? ==> r.error == NOT_FOUND_USERNAME
  {
    match LoadUserByUsername(users, username)
    case Success(details) => Success(UsernamePasswordAuthenticationToken(details))
    case Failure(code) => Failure(code)
  }

  /** The value of the first cookie called `name`, if any cookie is. */
  function CookieValue(cookies: seq<Cookie>, name: string): (v: Option<string>)
    ensures v.Some? <==> exists i | 0 <= i < |cookies| :: cookies[i].name == name
    ensures v.Some? ==> exists i | 0 <= i < |cookies| ::
      && cookies[i].name == name && cookies[i].value == v.value
      && forall j | 0 <= j < i :: cookies[j].name != name
  {
    if cookies == [] then None
    else if cookies[0].name == name then Some(cookies[0].value)
    else
      var v := CookieValue(cookies[1..], name);
      assert forall i | 1 <= i < |cookies| :: cookies[i] == cookies[1..][i - 1];
      v
  }

  /** The refresh token a request carries: none without a cookie array, else the first
      `Refresh-Token` cookie's value. */
  function RefreshTokenOf(req: HttpServletRequest): Option<string>
  {
    if req.cookies.None? then None else CookieValue(req.cookies.value, REFRESH_HEADER)
  }

  /** The 401 response asking the client to obtain a new refresh token. */
  function Unauthorized(res: ResponseState): (r: ResponseState)
    ensures r.status == UNAUTHORIZED == Status(INVALID_TOKEN)
    ensures r.contentType == Some("application/json") && r.characterEncoding == Some("UTF-8")
    ensures r.body == res.body + REFRESH_REQUIRED_BODY && r.headers == res.headers
  {
    res.(status := UNAUTHORIZED, contentType := Some("application/json"),
         characterEncoding := Some("UTF-8"), body := res.body + REFRESH_REQUIRED_BODY)
  }

  /** The body of the filter's `try` block: parse the access token, then authenticate its subject. */
  function TryAuthenticate(jwt: JwtUtil, users: map<string, User>, token: string): Result<Authentication, Thrown>
  {
    match jwt.getUserInfoFromToken(token)
    case Threw(e) => Failure(e)
    case Parsed(claims) =>
      match CreateAuthentication(users, claims.subject)
      case Success(auth) => Success(auth)
      case Failure(code) => Failure(Global(code))
  }

  /** `handleExpiredAccessToken`. It never calls the chain, and what it throws escapes the filter. */
  function ExpiredAccessToken(jwt: JwtUtil, users: map<string, User>, req: HttpServletRequest, s: RequestState): FilterResult
  {
    var refreshToken := RefreshTokenOf(req);
    var valid := if HasText(refreshToken) then jwt.validateToken(refreshToken.value) else Success(false);
    if valid.Failure? then FilterResult(s, Some(valid.error))
    else if !valid.value then FilterResult(s.(response := Unauthorized(s.response)), None)
    else match jwt.refreshAccessToken(refreshToken.value)
      case Failure(e) => FilterResult(s, Some(e))
      case Success(newAccessToken) =>
        var s1 := s.(response := AddJwtToHeader(AUTHORIZATION_HEADER, BEARER_PREFIX + newAccessToken, s.response));
        match TryAuthenticate(jwt, users, newAccessToken)
        case Failure(e) => FilterResult(s1, Some(e))
        case Success(auth) => FilterResult(s1.(context := SecurityContext(Some(auth))), None)
  }

  /** `doFilterInternal`: one run of the filter on a request. */
  function Filter(jwt: JwtUtil, users: map<string, User>, req: HttpServletRequest, s: RequestState): FilterResult
  {
    var accessToken := jwt.getTokenFromHeader(AUTHORIZATION_HEADER, req.headers);
    if !HasText(accessToken) then FilterResult(s.(chainCalls := s.chainCalls + 1), None)
    else match TryAuthenticate(jwt, users, accessToken.value)
      case Success(auth) => FilterResult(s.(context := SecurityContext(Some(auth)), chainCalls := s.chainCalls + 1), None)
      case Failure(ExpiredJwt) => ExpiredAccessToken(jwt, users, req, s)
      case Failure(_) => FilterResult(s.(context := EmptyContext), None)
  }

  class JwtAuthorizationFilter {
    const jwtUtil: JwtUtil
    /** The table behind `UserDetailServiceImpl`; the filter only reads it. */
    const repository: UserRepository

    constructor (jwtUtil: JwtUtil, repository: UserRepository)
      ensures this.jwtUtil == jwtUtil && this.repository == repository
    {
      this.jwtUtil := jwtUtil;
      this.repository := repository;
    }

    method DoFilterInternal(req: HttpServletRequest, res: HttpServletResponse, chain: FilterChain,
                            holder: SecurityContextHolder)
      returns (thrown: Option<Thrown>)
      modifies res, chain, holder
      ensures FilterResult(RequestState(holder.context, res.State(), chain.calls), thrown)
           == Filter(jwtUtil, repository.users, req,
                     RequestState(old(holder.context), old(res.State()), old(chain.calls)))
    {
      var accessToken := jwtUtil.getTokenFromHeader(AUTHORIZATION_HEADER, req.headers);
      if HasText(accessToken) {
        // try
        var caught: Option<Thrown>;
        var info := jwtUtil.getUserInfoFromToken(accessToken.value);
        if info.Parsed? {
          caught := SetAuthentication(holder, info.claims.subject);
        } else {
          caught := Some(info.thrown);
        }
        // catch (ExpiredJwtException e)
        if caught == Some(ExpiredJwt) {
          thrown := HandleExpiredAccessToken(req, res, holder);
          return;
        }
        // catch (Exception e)
        if caught.Some? {
          holder.ClearContext();
          return None;
        }
      }
      chain.DoFilter(req, res);
      thrown := None;
    }

    method HandleExpiredAccessToken(req: HttpServletRequest, res: HttpServletResponse, holder: SecurityContextHolder)
      returns (thrown: Option<Thrown>)
      modifies res, holder
      // This branch never passes the request on, so the chain count given to
      // `ExpiredAccessToken` is immaterial: it comes back unchanged and is not compared.
      ensures var r := ExpiredAccessToken(jwtUtil, repository.users, req,
                                          RequestState(old(holder.context), old(res.State()), 0));
        holder.context == r.state.context && res.State() == r.state.response && thrown == r.thrown
    {
      var refreshToken := GetRefreshTokenFromCookies(req);
      var accepted := false;
      if HasText(refreshToken) {
        var valid := jwtUtil.validateToken(refreshToken.value);
        if valid.Failure? {
          return Some(valid.error);
        }
        accepted := valid.value;
      }
      if accepted {
        var newAccessToken := jwtUtil.refreshAccessToken(refreshToken.value);
        if newAccessToken.Failure? {
          return Some(newAccessToken.error);
        }
        // addJwtToHeader
        res.SetHeader(AUTHORIZATION_HEADER, BEARER_PREFIX + newAccessToken.value);
        var info := jwtUtil.getUserInfoFromToken(newAccessToken.value);
        if info.Threw? {
          return Some(info.thrown);
        }
        thrown := SetAuthentication(holder, info.claims.subject);
      } else {
        res.SetStatus(UNAUTHORIZED);
        res.SetContentType("application/json");
        res.SetCharacterEncoding("UTF-8");
        res.Write(REFRESH_REQUIRED_BODY);
        thrown := None;
      }
    }

    /** `setAuthentication`: the context is replaced only once the user has been loaded. */
    method SetAuthentication(holder: SecurityContextHolder, username: string) returns (thrown: Option<Thrown>)
      modifies holder
      ensures var auth := CreateAuthentication(repository.users, username);
        && (auth.Success? ==> holder.context == SecurityContext(Some(auth.value)) && thrown == None)
        && (auth.Failure? ==> holder.context == old(holder.context) && thrown == Some(Global(auth.error)))
    {
      var context := EmptyContext;
      var authentication := CreateAuthentication(repository.users, username);
      if authentication.Failure? {
        return Some(Global(authentication.error));
      }
      context := context.(authentication := Some(authentication.value));
      holder.SetContext(context);
      thrown := None;
    }

    /** `getRefreshTokenFromCookies`: scans the cookie array and returns the first match. */
    method GetRefreshTokenFromCookies(req: HttpServletRequest) returns (refreshToken: Option<string>)
      ensures refreshToken == RefreshTokenOf(req)
    {
      if req.cookies.Some? {
        var cookies := req.cookies.value;
        for i := 0 to |cookies|
          invariant CookieValue(cookies[i..], REFRESH_HEADER) == CookieValue(cookies, REFRESH_HEADER)
        {
          if cookies[i].name == REFRESH_HEADER {
            return Some(cookies[i].value);
          }
          assert cookies[i..][1..] == cookies[i + 1..];
        }
        assert cookies[|cookies|..] == [];
      }
      return None;
    }
  }

  // ---------------------------------------------------------------------------------------------
  // Properties of one run

  /** Without an access token (null, empty or blank) the request is passed on exactly once and
      the filter itself changes nothing else. */
  lemma NoTokenPassesThrough(jwt: JwtUtil, users: map<string, User>, req: HttpServletRequest, s: RequestState)
    requires !HasText(jwt.getTokenFromHeader(AUTHORIZATION_HEADER, req.headers))
    ensures var r := Filter(jwt, users, req, s);
      && r.state.chainCalls == s.chainCalls + 1
      && r.state.context == s.context && r.state.response == s.response && r.thrown == None
  {
  }

  /** A verified access token whose subject is a known user: the context holds an authentication
      for exactly that user, the chain runs once, and the filter writes nothing to the response. */
  lemma ValidTokenAuthenticates(jwt: JwtUtil, users: map<string, User>, req: HttpServletRequest, s: RequestState, claims: Claims)
    requires var token := jwt.getTokenFromHeader(AUTHORIZATION_HEADER, req.headers);
      HasText(token) && jwt.getUserInfoFromToken(token.value) == Parsed(claims)
    requires claims.subject in users && KeyedByUsername(users)
    ensures var r := Filter(jwt, users, req, s);
      && r.state.context.authentication.Some?
      && r.state.context.authentication.value.principal.user == users[claims.subject]
      && r.state.context.authentication.value.principal.user.username == claims.subject
      && r.state.chainCalls == s.chainCalls + 1
      && r.state.response == s.response && r.thrown == None
  {
  }

  /** An expired access token never reaches the rest of the chain, whatever the refresh does. */
  lemma ExpiredTokenStopsChain(jwt: JwtUtil, users: map<string, User>, req: HttpServletRequest, s: RequestState)
    requires var token := jwt.getTokenFromHeader(AUTHORIZATION_HEADER, req.headers);
      HasText(token) && jwt.getUserInfoFromToken(token.value) == Threw(ExpiredJwt)
    ensures Filter(jwt, users, req, s).state.chainCalls == s.chainCalls
  {
  }

  /** A refresh token is accepted only when the cookie has text and `validateToken` says yes. */
  ghost predicate RefreshAccepted(jwt: JwtUtil, req: HttpServletRequest)
  {
    var refreshToken := RefreshTokenOf(req);
    HasText(refreshToken) && jwt.validateToken(refreshToken.value) == Success(true)
  }

  /** Refresh succeeded: the new token is written to the `Authorization` header with the bearer
      prefix, the context holds its subject's user, no status or body is written, and the chain
      still does not run. */
  lemma RefreshSucceeds(jwt: JwtUtil, users: map<string, User>, req: HttpServletRequest, s: RequestState,
                        newAccessToken: string, claims: Claims)
    requires var token := jwt.getTokenFromHeader(AUTHORIZATION_HEADER, req.headers);
      HasText(token) && jwt.getUserInfoFromToken(token.value) == Threw(ExpiredJwt)
    requires RefreshAccepted(jwt, req)
    requires jwt.refreshAccessToken(RefreshTokenOf(req).value) == Success(newAccessToken)
    requires jwt.getUserInfoFromToken(newAccessToken) == Parsed(claims) && claims.subject in users
    ensures var r := Filter(jwt, users, req, s);
      && AUTHORIZATION_HEADER in r.state.response.headers
      && r.state.response.headers[AUTHORIZATION_HEADER] == BEARER_PREFIX + newAccessToken
      && r.state.response == AddJwtToHeader(AUTHORIZATION_HEADER, BEARER_PREFIX + newAccessToken, s.response)
      && r.state.response.status == s.response.status && r.state.response.body == s.response.body
      && r.state.context == SecurityContext(Some(UsernamePasswordAuthenticationToken(UserDetailsImpl(users[claims.subject]))))
      && r.state.chainCalls == s.chainCalls && r.thrown == None
  {
  }

  /** Refresh refused (no cookie, blank cookie, or `validateToken` false): 401 with a JSON body,
      the context is not set, no header is written, nothing is thrown. */
  lemma RefreshRefused(jwt: JwtUtil, users: map<string, User>, req: HttpServletRequest, s: RequestState)
    requires var token := jwt.getTokenFromHeader(AUTHORIZATION_HEADER, req.headers);
      HasText(token) && jwt.getUserInfoFromToken(token.value) == Threw(ExpiredJwt)
    requires var refreshToken := RefreshTokenOf(req);
      !HasText(refreshToken) || jwt.validateToken(refreshToken.value) == Success(false)
    ensures var r := Filter(jwt, users, req, s);
      && r.state.response.status == 401
      && r.state.response.contentType == Some("application/json")
      && r.state.response.characterEncoding == Some("UTF-8")
      && r.state.response.body == s.response.body + REFRESH_REQUIRED_BODY
      && r.state.response.headers == s.response.headers
      && r.state.context == s.context && r.state.chainCalls == s.chainCalls && r.thrown == None
  {
  }

  /** `validateToken` is not consulted when the refresh cookie has no text: replacing it changes
      nothing about the run. */
  lemma ValidatorUnusedWithoutText(jwt: JwtUtil, users: map<string, User>, req: HttpServletRequest, s: RequestState,
                                   otherValidator: string -> Result<bool, Thrown>)
    requires !HasText(RefreshTokenOf(req))
    ensures Filter(jwt, users, req, s) == Filter(jwt.(validateToken := otherValidator), users, req, s)
  {
  }

  /** `refreshAccessToken` is consulted only for an accepted refresh token: otherwise replacing it
      changes nothing about the run. */
  lemma RefreshUnusedUnlessAccepted(jwt: JwtUtil, users: map<string, User>, req: HttpServletRequest, s: RequestState,
                                    otherRefresh: string -> Result<string, Thrown>)
    requires !RefreshAccepted(jwt, req)
    ensures Filter(jwt, users, req, s) == Filter(jwt.(refreshAccessToken := otherRefresh), users, req, s)
  {
  }

  /** A failure of the refresh call itself escapes the filter with nothing written. */
  lemma RefreshErrorEscapes(jwt: JwtUtil, users: map<string, User>, req: HttpServletRequest, s: RequestState, e: Thrown)
    requires var token := jwt.getTokenFromHeader(AUTHORIZATION_HEADER, req.headers);
      HasText(token) && jwt.getUserInfoFromToken(token.value) == Threw(ExpiredJwt)
    requires RefreshAccepted(jwt, req)
    requires jwt.refreshAccessToken(RefreshTokenOf(req).value) == Failure(e)
    ensures Filter(jwt, users, req, s) == FilterResult(s, Some(e))
  {
  }

  /** After a refresh, an unknown subject is not swallowed: NOT_FOUND_USERNAME escapes the filter,
      the new header has already been written, and the context is not set. */
  lemma LookupFailureAfterRefreshEscapes(jwt: JwtUtil, users: map<string, User>, req: HttpServletRequest,
                                         s: RequestState, newAccessToken: string, claims: Claims)
    requires var token := jwt.getTokenFromHeader(AUTHORIZATION_HEADER, req.headers);
      HasText(token) && jwt.getUserInfoFromToken(token.value) == Threw(ExpiredJwt)
    requires RefreshAccepted(jwt, req)
    requires jwt.refreshAccessToken(RefreshTokenOf(req).value) == Success(newAccessToken)
    requires jwt.getUserInfoFromToken(newAccessToken) == Parsed(claims) && claims.subject !in users
    ensures var r := Filter(jwt, users, req, s);
      && r.thrown == Some(Global(NOT_FOUND_USERNAME))
      && r.state.response.headers[AUTHORIZATION_HEADER] == BEARER_PREFIX + newAccessToken
      && r.state.context == s.context && r.state.chainCalls == s.chainCalls
  {
  }

  /** Any other failure while authenticating a present token, including an unknown subject, is
      swallowed: the context is cleared, the chain does not run, no response is written. */
  lemma OtherErrorsAreSwallowed(jwt: JwtUtil, users: map<string, User>, req: HttpServletRequest, s: RequestState)
    requires var token := jwt.getTokenFromHeader(AUTHORIZATION_HEADER, req.headers);
      && HasText(token)
      && match jwt.getUserInfoFromToken(token.value)
         case Threw(e) => e != ExpiredJwt
         case Parsed(claims) => claims.subject !in users
    ensures Filter(jwt, users, req, s) == FilterResult(s.(context := EmptyContext), None)
  {
  }

  /** Only the expired-token path lets an exception out of the filter's own code. */
  lemma OnlyExpiredPathThrows(jwt: JwtUtil, users: map<string, User>, req: HttpServletRequest, s: RequestState)
    requires Filter(jwt, users, req, s).thrown.Some?
    ensures var token := jwt.getTokenFromHeader(AUTHORIZATION_HEADER, req.headers);
      HasText(token) && jwt.getUserInfoFromToken(token.value) == Threw(ExpiredJwt)
  {
  }

  /** The chain runs at most once, and it runs exactly when there is no token or the token
      names a known user. */
  lemma ChainRunsIffNoTokenOrAuthenticated(jwt: JwtUtil, users: map<string, User>, req: HttpServletRequest, s: RequestState)
    ensures var r := Filter(jwt, users, req, s);
      var token := jwt.getTokenFromHeader(AUTHORIZATION_HEADER, req.headers);
      && s.chainCalls <= r.state.chainCalls <= s.chainCalls + 1
      && (r.state.chainCalls == s.chainCalls + 1 <==>
            || !HasText(token)
            || (jwt.getUserInfoFromToken(token.value).Parsed?
                && jwt.getUserInfoFromToken(token.value).claims.subject in users))
  {
  }
}
