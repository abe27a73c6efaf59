# Authentication backend: request authorization, sign-up and login

This project models the core of a small Spring authentication backend in Dafny:

- the per-request **JWT authorization filter** (`JwtAuthorizationFilter`). It reads the access
  token from the `Authorization` header. It puts the token's user into the security context.
  On an expired access token it tries to mint a new one from the `Refresh-Token` cookie. It passes
  the request down the filter chain only in the cases the code does;
- the **user table operations**: `signUp` and `login` (`UserServiceImpl`) and the lookup
  `loadUserByUsername` (`UserDetailServiceImpl`), over a table keyed by username;
- the **error taxonomy** (`ErrorCode`), its **HTTP translation** (`GlobalExceptionHandler`) and the
  public **user view** (`UserResponseDto`).

Token cryptography, password hashing and persistence are collaborators whose code is not part of
this model. Each of their operations is a function value that the caller supplies: `JwtUtil`'s
operations are fields of the `Jwt.JwtUtil` datatype, and `PasswordEncoder`'s are fields of
`UserService.PasswordEncoder`. Every property below holds for every choice of those functions.

Layout, one module per file:

| file | models |
|---|---|
| `Wrappers.dfy` | `Option`, `Result`, `Outcome`: Java's `null`, thrown exceptions and `void` checks |
| `ErrorCodes.dfy` | `ErrorCode`: status and message per code |
| `Users.dfy` | `User`, `UserRole` and its authority, the request DTOs, `UserResponseDto` |
| `UserRepositories.dfy` | `UserRepository` as a class over a map from username to user |
| `UserDetailsService.dfy` | `loadUserByUsername` |
| `StringUtils.dfy` | Spring's `StringUtils.hasText` with Java's `Character.isWhitespace` |
| `Servlet.dfy` | request, response (a class updated in place), filter chain, HTTP status constants |
| `SecurityContexts.dfy` | authentication, security context, `SecurityContextHolder` |
| `Jwt.dfy` | the `JwtUtil` operations the core calls, and the header and cookie names |
| `AuthorizationFilter.dfy` | `JwtAuthorizationFilter`: the spec function `Filter`, the class, the properties |
| `UserService.dfy` | `UserServiceImpl`: the validators, `SignUp`, `Login`, their properties |
| `ExceptionHandler.dfy` | `GlobalExceptionHandler` |

The filter is imperative, as in the source. `JwtAuthorizationFilter.DoFilterInternal` updates a
response object, a context holder and a chain object in place. Its postcondition equates the new
state, and any exception that escapes, with the function `Filter` applied to the old state. The
lemmas after the class state the filter's behaviour as properties of `Filter`. `SignUp` and
`Login` are tied to `SignUpSpec` and `LoginSpec` the same way.

Two behaviours of the code are easy to miss:

- After an expired access token is refreshed, the code returns without calling the chain
  (`JwtAuthorizationFilter.java:41-43`).
- The filter tests the extracted token with `StringUtils.hasText`, so a blank token counts as
  no token.
- An unknown subject on a *valid* access token is swallowed by the generic `catch`: the context is
  cleared and nothing is written. The same failure after a refresh escapes the filter, because
  `handleExpiredAccessToken` runs inside a `catch` block.
- `validateToken` is modelled as able to throw (an expired token may be reported by an
  exception); the filter does not catch it.

## Model

| member | source | states |
|---|---|---|
| `ErrorCodes.Status` | src/main/java/com/example/intern/global/exception/ErrorCode.java:10-21 | every code's status is a client or server error, in 400..599 |
| `ErrorCodes.Msg` | src/main/java/com/example/intern/global/exception/ErrorCode.java:10-21 | every code carries a non-empty message |
| `ErrorCodes.TokenErrorStatuses` | src/main/java/com/example/intern/global/exception/ErrorCode.java:10-13 | ACCESS_DENIED is 403, INVALID_TOKEN and INVALID_REFRESH_TOKEN are 401, EXPIRED_REFRESH_TOKEN is 403 |
| `ErrorCodes.UserErrorStatuses` | src/main/java/com/example/intern/global/exception/ErrorCode.java:17-21 | ALREADY_USERNAME is 409 and FAIL is 500 |
| `ErrorCodes.StatusDoesNotIdentifyLoginFailure` | src/main/java/com/example/intern/global/exception/ErrorCode.java:14-18 | NOT_FOUND_USERNAME and INVALID_PASSWORD are distinct codes with the same status 404; only their messages differ |
| `ErrorCodes.MsgIsInjective` | src/main/java/com/example/intern/global/exception/ErrorCode.java:10-21 | no two codes share a message |
| `Users.Authority` | src/test/java/com/example/intern/user/controller/UserControllerTest.java:66 | a role's authority is a `ROLE_`-prefixed string |
| `Users.AuthorityIsInjective` | src/main/java/com/example/intern/user/dto/UserResponseDto.java:16 | distinct roles give distinct authorities |
| `Users.ToResponseDto` | src/main/java/com/example/intern/user/dto/UserResponseDto.java:13-17 | the view's username, nickname and authority are the user's username, nickname and role's authority |
| `Users.UserAuthorityIsRoleUser` | src/test/java/com/example/intern/user/controller/UserControllerTest.java:66 | a USER is shown with authority `ROLE_USER` |
| `Users.ResponseDtoIgnoresPassword` | src/main/java/com/example/intern/user/dto/UserResponseDto.java:9-11 | the password is never projected: changing it leaves the view unchanged |
| `Users.ResponseDtoDeterminesPublicFields` | src/main/java/com/example/intern/user/dto/UserResponseDto.java:13-17 | equal views mean equal username, nickname and role |
| `UserRepositories.FindByUsername` | src/main/java/com/example/intern/user/repository/UserRepository.java:9 | finds a user iff the username is in the table, that user's row, and in a table keyed by username the found user has that username; sign-up, login and `loadUserByUsername` all look up through it |
| `UserRepositories.UserRepository.Save` | src/main/java/com/example/intern/user/service/UserServiceImpl.java:29 | stores the user under its username and keeps the table keyed by username |
| `UserDetailsService.LoadUserByUsername` | src/main/java/com/example/intern/jwt/security/UserDetailServiceImpl.java:22-26 | succeeds iff the username is in the table, wrapping exactly that user; otherwise fails with NOT_FOUND_USERNAME, status 404; it only reads the table |
| `StringUtils.ContainsText` | src/main/java/com/example/intern/jwt/security/JwtAuthorizationFilter.java:37 | true iff some character is not Java whitespace |
| `StringUtils.HasText` | src/main/java/com/example/intern/jwt/security/JwtAuthorizationFilter.java:55 | true iff the string is non-null and holds a non-whitespace character |
| `Jwt.AddJwtToHeader` | src/test/java/com/example/intern/jwt/JwtUtilTest.java:115-125 | the header then reads exactly the value written; other headers, status and body are unchanged |
| `AuthorizationFilter.CreateAuthentication` | src/main/java/com/example/intern/jwt/security/JwtAuthorizationFilter.java:75-78 | an authentication whose principal wraps exactly the table's user for that name; NOT_FOUND_USERNAME when the name is unknown |
| `AuthorizationFilter.CookieValue` | src/main/java/com/example/intern/jwt/security/JwtAuthorizationFilter.java:83-88 | some value iff some cookie has the name, and then the value of the first such cookie |
| `AuthorizationFilter.Unauthorized` | src/main/java/com/example/intern/jwt/security/JwtAuthorizationFilter.java:60-65 | status 401 (= INVALID_TOKEN's), content type `application/json`, encoding UTF-8, the fixed `{"message":...}` body appended, headers kept |
| `AuthorizationFilter.JwtAuthorizationFilter.GetRefreshTokenFromCookies` | src/main/java/com/example/intern/jwt/security/JwtAuthorizationFilter.java:80-90 | the loop returns null for a null cookie array, else the first `Refresh-Token` cookie's value, or null if there is none |
| `AuthorizationFilter.JwtAuthorizationFilter.SetAuthentication` | src/main/java/com/example/intern/jwt/security/JwtAuthorizationFilter.java:68-73 | the context holds the user's authentication if the lookup succeeds; otherwise it is untouched and NOT_FOUND_USERNAME is thrown |
| `AuthorizationFilter.JwtAuthorizationFilter.HandleExpiredAccessToken` | src/main/java/com/example/intern/jwt/security/JwtAuthorizationFilter.java:53-66 | context, response and escaping exception are those of the expired-token branch of `Filter` |
| `AuthorizationFilter.JwtAuthorizationFilter.DoFilterInternal` | src/main/java/com/example/intern/jwt/security/JwtAuthorizationFilter.java:34-51 | context, response, chain count and escaping exception after the run are exactly `Filter` of the state before |
| `AuthorizationFilter.NoTokenPassesThrough` | src/main/java/com/example/intern/jwt/security/JwtAuthorizationFilter.java:35-50 | a null or blank token: the chain runs exactly once; the filter changes no context and writes nothing before passing the request on |
| `AuthorizationFilter.ValidTokenAuthenticates` | src/main/java/com/example/intern/jwt/security/JwtAuthorizationFilter.java:39-50 | a verified token for a known user: the context holds exactly that user, the chain runs once, and the filter writes nothing to the response before passing the request on |
| `AuthorizationFilter.ExpiredTokenStopsChain` | src/main/java/com/example/intern/jwt/security/JwtAuthorizationFilter.java:41-43 | an expired token never reaches the chain, whatever the refresh outcome |
| `AuthorizationFilter.RefreshSucceeds` | src/main/java/com/example/intern/jwt/security/JwtAuthorizationFilter.java:55-59 | accepted refresh: `Authorization` becomes `Bearer ` + new token, the context holds the new token's user, status and body untouched, chain not run |
| `AuthorizationFilter.RefreshRefused` | src/main/java/com/example/intern/jwt/security/JwtAuthorizationFilter.java:55-65 | no text in the refresh cookie or `validateToken` false: 401, JSON content type, fixed body, headers and context untouched, chain not run |
| `AuthorizationFilter.ValidatorUnusedWithoutText` | src/main/java/com/example/intern/jwt/security/JwtAuthorizationFilter.java:55 | `validateToken` is not consulted when the refresh cookie has no text: the run is the same for any validator |
| `AuthorizationFilter.RefreshUnusedUnlessAccepted` | src/main/java/com/example/intern/jwt/security/JwtAuthorizationFilter.java:55-56 | `refreshAccessToken` is consulted only when the cookie has text and `validateToken` holds |
| `AuthorizationFilter.RefreshErrorEscapes` | src/main/java/com/example/intern/jwt/security/JwtAuthorizationFilter.java:56 | a failing refresh call throws out of the filter with nothing written |
| `AuthorizationFilter.LookupFailureAfterRefreshEscapes` | src/main/java/com/example/intern/jwt/security/JwtAuthorizationFilter.java:56-59 | an unknown subject after a refresh escapes as NOT_FOUND_USERNAME; the new header is already written and the context is not set |
| `AuthorizationFilter.OtherErrorsAreSwallowed` | src/main/java/com/example/intern/jwt/security/JwtAuthorizationFilter.java:44-48 | any non-expiry failure on a present token, including an unknown user: context cleared, chain not run, nothing written, nothing thrown |
| `AuthorizationFilter.OnlyExpiredPathThrows` | src/main/java/com/example/intern/jwt/security/JwtAuthorizationFilter.java:38-48 | an exception escapes from the filter's own code only if the access token was expired (what the rest of the chain throws is not modelled) |
| `AuthorizationFilter.ChainRunsIffNoTokenOrAuthenticated` | src/main/java/com/example/intern/jwt/security/JwtAuthorizationFilter.java:37-50 | the chain runs at most once, and exactly when there is no token or the token names a known user |
| `UserService.CheckUsername` | src/main/java/com/example/intern/user/service/UserServiceImpl.java:40-44 | fails iff the username is taken, with ALREADY_USERNAME, status 409 |
| `UserService.CreateUser` | src/main/java/com/example/intern/user/service/UserServiceImpl.java:46-53 | the row has the form's username and nickname, `encode(password)`, role USER |
| `UserService.ValidateUserPassword` | src/main/java/com/example/intern/user/service/UserServiceImpl.java:62-66 | fails iff `matches(raw, stored)` is false, with INVALID_PASSWORD |
| `UserService.ValidateLoginRequest` | src/main/java/com/example/intern/user/service/UserServiceImpl.java:55-60 | succeeds iff the username is known and the password matches, returning the stored user; NOT_FOUND_USERNAME for an unknown name, INVALID_PASSWORD otherwise |
| `UserService.UserServiceImpl.SignUp` | src/main/java/com/example/intern/user/service/UserServiceImpl.java:26-32 | result and new table are `SignUpSpec` of the old table; the table stays keyed by username |
| `UserService.UserServiceImpl.Login` | src/main/java/com/example/intern/user/service/UserServiceImpl.java:35-38 | result and response are `LoginSpec` of the table and old response; the user table is unchanged |
| `UserService.SignUpRejectsTakenUsername` | src/main/java/com/example/intern/user/service/UserServiceImpl.java:40-44 | a taken username fails with ALREADY_USERNAME and the table is unchanged (nothing is saved) |
| `UserService.SignUpInsertsOneUser` | src/main/java/com/example/intern/user/service/UserServiceImpl.java:28-29 | a fresh username adds exactly one row, built from the form with `encode(password)` and USER, and no other row changes |
| `UserService.SignUpPreservesKeying` | src/main/java/com/example/intern/user/service/UserServiceImpl.java:27-29 | sign-up keeps every row under its own username, so a username names at most one user |
| `UserService.SignUpReturnsInsertedUser` | src/main/java/com/example/intern/user/service/UserServiceImpl.java:31 | sign-up returns the view of the inserted row: the form's username and nickname, `ROLE_USER` |
| `UserService.LoginUnknownUsername` | src/main/java/com/example/intern/user/service/UserServiceImpl.java:56-57 | an unknown username fails with NOT_FOUND_USERNAME, the response is untouched, and neither `matches` nor `issueTokens` is consulted |
| `UserService.LoginWrongPassword` | src/main/java/com/example/intern/user/service/UserServiceImpl.java:62-66 | a rejected password fails with INVALID_PASSWORD, the response is untouched, and `issueTokens` is not consulted |
| `UserService.LoginSucceeds` | src/main/java/com/example/intern/user/service/UserServiceImpl.java:35-38 | correct credentials return exactly `issueTokens(user, response)` for the stored user |
| `ExceptionHandler.HandleAccessDeniedException` | src/main/java/com/example/intern/global/exception/GlobalExceptionHandler.java:14-22 | status equals ACCESS_DENIED's (403); body is ACCESS_DENIED's message and the request URI |
| `ExceptionHandler.HandleDefaultException` | src/main/java/com/example/intern/global/exception/GlobalExceptionHandler.java:25-33 | status equals FAIL's (500); body is FAIL's message and the request URI |
| `ExceptionHandler.HandleGlobalException` | src/main/java/com/example/intern/global/exception/GlobalExceptionHandler.java:36-43 | status is an error status in 400..599; the body's path is the request URI |
| `ExceptionHandler.Handle` | src/main/java/com/example/intern/global/exception/GlobalExceptionHandler.java:14-43 | every exception kind gets one response, carrying its error code's status and message and the request URI as path |
| `ExceptionHandler.HardCodedHandlersAgreeWithCodes` | src/main/java/com/example/intern/global/exception/GlobalExceptionHandler.java:21-32 | the hard-coded 403 and 500 equal ACCESS_DENIED's and FAIL's statuses; those handlers answer as a `GlobalException` with that code would |
| `ExceptionHandler.ResponsesAreErrors` | src/main/java/com/example/intern/global/exception/GlobalExceptionHandler.java:14-43 | every response status is in 400..599 |
| `ExceptionHandler.BodyIdentifiesCode` | src/main/java/com/example/intern/global/exception/GlobalExceptionHandler.java:17-20 | equal bodies mean the same error code, even where two codes share a status |

## Left out

- `JwtUtil` is not part of this model. Signing, parsing, expiry checks, key decoding and the clock
  are not modelled. `getTokenFromHeader`, `getUserInfoFromToken`, `validateToken`,
  `refreshAccessToken` and `issueTokens` are arbitrary functions supplied by the caller.
  `addJwtToHeader` is modelled as setting the header, as `JwtUtilTest.java:115-125` observes.
  Its constants are assumed, because `JwtUtil` is not part of this model: header `Authorization`,
  prefix `Bearer `, cookie `Refresh-Token`.
- `UserRole.java` is not part of this model. USER's authority `ROLE_USER` comes from
  `UserControllerTest.java:66`. An ADMIN role with authority `ROLE_ADMIN` is assumed.
- `UserDetailsImpl` is not part of this model. It is kept only as a wrapper of the user row, and
  the authorities it hands to the authentication token are not modelled.
- Password hashing (`BCryptPasswordEncoder`) is left out. `encode` and `matches` are arbitrary
  functions.
- JPA persistence is left out: the entity id, its generation and the database. The table is a map
  keyed by username. A repeated `save` under a taken username would add a second row in the
  database but overwrites in the map. `signUp` never does this, because it checks the name first.
- The `@NotBlank` validation of the request DTOs happens in the controller, so the service
  operations carry no precondition for it.
- The rest of the filter chain (later filters, the dispatcher and the controller) is modelled
  only by how often it is called (`FilterChain.DoFilter` counts calls). What it writes to the
  response, how it changes the context and what it throws out of `doFilterInternal` are not
  modelled, so the filter's properties speak of the filter's own effects.
- Logging, `printStackTrace` and the writer's `IOException` are left out.
- `SecurityContextHolder` is one context per request, not thread-local. `clearContext` leaves an
  empty context, which is what Spring hands out after a clear.
- The HTTP response's content type and character encoding are kept as separate fields. The servlet
  container's merging of them into one `Content-Type` header is not modelled.
- `HttpStatus.valueOf` is left out: the status number is used as is. Every `ErrorCode` status is a
  standard HTTP status, so `valueOf` never throws for them.
- `ExceptionHandler.HandleGlobalException`: its own contract states only the status range and the
  path. The exact status and message are stated by `ExceptionHandler.Handle`.
- Spring's choice of the most specific exception handler is encoded directly in `Handle`.
  Exceptions thrown by the filter happen before the dispatcher and are not routed through
  `Handle`.
- The two `WebSecurityConfig` classes, the test security configuration and `UserController` are
  framework wiring and routing, and are not modelled.
