/** Sign-up and login over the user table. The pure checks and constructions are functions; the
    service itself is a class whose `SignUp` inserts into the table and whose `Login` lets
    `issueTokens` write the response. */
module UserService {
  import opened Wrappers
  import opened ErrorCodes
  import opened Users
  import opened UserRepositories
  import opened Servlet
  import opened Jwt

  /** The password-hashing primitive: `encode` hashes a raw password, `matches` checks a raw
      password against a stored hash. Both are opaque here. */
  datatype PasswordEncoder = PasswordEncoder(encode: string -> string, matches: (string, string) -> bool)

  /** `checkUsername`: sign-up is refused exactly when the username is already taken. */
  function CheckUsername(users: map<string, User>, dto: SignUpRequestDto): (r: Outcome<ErrorCode>)
    ensures r.Fail? <==> dto.username in users
    ensures r.Fail? ==> r.error == ALREADY_USERNAME && Status(r.error) == 409
  {
    if FindByUsername(users, dto.username).Some? then Fail(ALREADY_USERNAME) else Pass
  }

  /** `createUser`: the new row carries the form's username and nickname, the encoded password
      and the role USER. */
  function CreateUser(dto: SignUpRequestDto, encoder: PasswordEncoder): (user: User)
    ensures user.username == dto.username && user.nickname == dto.nickname
    ensures user.password == encoder.encode(dto.password)
    ensures user.userRole == USER
  {
    User(dto.username, encoder.encode(dto.password), dto.nickname, USER)
  }

  /** `validateUserPassword`: fails with INVALID_PASSWORD exactly when the encoder rejects the pair. */
  function ValidateUserPassword(rawPassword: string, encodedPassword: string, encoder: PasswordEncoder): (r: Outcome<ErrorCode>)
    ensures r.Fail? <==> !encoder.matches(rawPassword, encodedPassword)
    ensures r.Fail? ==> r.error == INVALID_PASSWORD
  {
    if !encoder.matches(rawPassword, encodedPassword) then Fail(INVALID_PASSWORD) else Pass
  }

  /** `validateLoginRequest`: the stored user, if the username is known and the password matches
      its stored hash; an unknown username is reported before the password is looked at. */
  function ValidateLoginRequest(users: map<string, User>, dto: LoginRequestDto, encoder: PasswordEncoder): (r: Result<User, ErrorCode>)
    ensures r.Success? <==> dto.username in users && encoder.matches(dto.password, users[dto.username].password)
    ensures r.Success? ==> r.value == users[dto.username]
    ensures r.Failure? && dto.username !in users ==> r.error == NOT_FOUND_USERNAME
    ensures r.Failure? && dto.username in users ==> r.error == INVALID_PASSWORD
  {
    match FindByUsername(users, dto.username)
    case None => Failure(NOT_FOUND_USERNAME)
    case Some(user) =>
      match ValidateUserPassword(dto.password, user.password, encoder)
      case Fail(e) => Failure(e)
      case Pass => Success(user)
  }

  /** What `signUp` returns and the table it leaves behind. */
  datatype SignUpOutcome = SignUpOutcome(result: Result<UserResponseDto, ErrorCode>, users: map<string, User>)

  /** `signUp` on a table. */
  function SignUpSpec(users: map<string, User>, dto: SignUpRequestDto, encoder: PasswordEncoder): SignUpOutcome
  {
    match CheckUsername(users, dto)
    case Fail(e) => SignUpOutcome(Failure(e), users)
    case Pass =>
      var user := CreateUser(dto, encoder);
      SignUpOutcome(Success(ToResponseDto(user)), users[user.username := user])
  }

  /** What `login` returns and the response it leaves behind. */
  datatype LoginOutcome = LoginOutcome(result: Result<string, ErrorCode>, response: ResponseState)

  /** `login` on a table and a response; `issueTokens` is reached only for a validated user. */
  function LoginSpec(users: map<string, User>, dto: LoginRequestDto, encoder: PasswordEncoder,
                     issueTokens: (User, ResponseState) -> (string, ResponseState), res: ResponseState): LoginOutcome
  {
    match ValidateLoginRequest(users, dto, encoder)
    case Failure(e) => LoginOutcome(Failure(e), res)
    case Success(user) =>
      var (token, next) := issueTokens(user, res);
      LoginOutcome(Success(token), next)
  }

  class UserServiceImpl {
    const userRepository: UserRepository
    const passwordEncoder: PasswordEncoder
    const jwtUtil: JwtUtil

    constructor (userRepository: UserRepository, passwordEncoder: PasswordEncoder, jwtUtil: JwtUtil)
      ensures this.userRepository == userRepository
      ensures this.passwordEncoder == passwordEncoder && this.jwtUtil == jwtUtil
    {
      this.userRepository := userRepository;
      this.passwordEncoder := passwordEncoder;
      this.jwtUtil := jwtUtil;
    }

    method SignUp(dto: SignUpRequestDto) returns (r: Result<UserResponseDto, ErrorCode>)
      requires userRepository.Valid()
      modifies userRepository
      ensures userRepository.Valid()
      ensures SignUpOutcome(r, userRepository.users) == SignUpSpec(old(userRepository.users), dto, passwordEncoder)
    {
      var check := CheckUsername(userRepository.users, dto);
      if check.Fail? {
        return Failure(check.error);
      }
      var user := CreateUser(dto, passwordEncoder);
      userRepository.Save(user);
      r := Success(ToResponseDto(user));
    }

    method Login(dto: LoginRequestDto, response: HttpServletResponse) returns (r: Result<string, ErrorCode>)
      modifies response
      ensures unchanged(userRepository)
      ensures LoginOutcome(r, response.State())
           == LoginSpec(userRepository.users, dto, passwordEncoder, jwtUtil.issueTokens, old(response.State()))
    {
      var user := ValidateLoginRequest(userRepository.users, dto, passwordEncoder);
      if user.Failure? {
        return Failure(user.error);
      }
      var (token, next) := jwtUtil.issueTokens(user.value, response.State());
      response.Assign(next);
      r := Success(token);
    }
  }

  // ---------------------------------------------------------------------------------------------
  // Properties of sign-up

  /** A taken username is refused with ALREADY_USERNAME and the table is left as it was. */
  lemma SignUpRejectsTakenUsername(users: map<string, User>, dto: SignUpRequestDto, encoder: PasswordEncoder)
    requires dto.username in users
    ensures SignUpSpec(users, dto, encoder) == SignUpOutcome(Failure(ALREADY_USERNAME), users)
  {
  }

  /** A fresh username adds exactly one row, built from the form, and changes no other row. */
  lemma SignUpInsertsOneUser(users: map<string, User>, dto: SignUpRequestDto, encoder: PasswordEncoder)
    requires dto.username !in users
    ensures var after := SignUpSpec(users, dto, encoder).users;
      && after.Keys == users.Keys + {dto.username}
      && |after| == |users| + 1
      && after[dto.username] == User(dto.username, encoder.encode(dto.password), dto.nickname, USER)
      && forall name | name in users :: after[name] == users[name]
  {
  }

  /** Sign-up keeps the table keyed by username, so a username still names at most one user. */
  lemma SignUpPreservesKeying(users: map<string, User>, dto: SignUpRequestDto, encoder: PasswordEncoder)
    requires KeyedByUsername(users)
    ensures KeyedByUsername(SignUpSpec(users, dto, encoder).users)
  {
  }

  /** On success the caller gets the public view of the inserted row: the form's username and
      nickname, with authority ROLE_USER. */
  lemma SignUpReturnsInsertedUser(users: map<string, User>, dto: SignUpRequestDto, encoder: PasswordEncoder)
    requires dto.username !in users
    ensures var o := SignUpSpec(users, dto, encoder);
      && o.result.Success?
      && o.result.value == ToResponseDto(o.users[dto.username])
      && o.result.value == UserResponseDto(dto.username, dto.nickname, "ROLE_USER")
  {
  }

  // ---------------------------------------------------------------------------------------------
  // Properties of login

  /** An unknown username fails with NOT_FOUND_USERNAME before the password check and before any
      token is issued: neither collaborator is consulted and the response is untouched. */
  lemma LoginUnknownUsername(users: map<string, User>, dto: LoginRequestDto, encoder: PasswordEncoder,
                             issueTokens: (User, ResponseState) -> (string, ResponseState), res: ResponseState,
                             otherMatches: (string, string) -> bool,
                             otherIssue: (User, ResponseState) -> (string, ResponseState))
    requires dto.username !in users
    ensures LoginSpec(users, dto, encoder, issueTokens, res) == LoginOutcome(Failure(NOT_FOUND_USERNAME), res)
    ensures LoginSpec(users, dto, encoder.(matches := otherMatches), otherIssue, res)
         == LoginSpec(users, dto, encoder, issueTokens, res)
  {
  }

  /** A known username with a password the encoder rejects fails with INVALID_PASSWORD; no token
      is issued and the response is untouched. */
  lemma LoginWrongPassword(users: map<string, User>, dto: LoginRequestDto, encoder: PasswordEncoder,
                           issueTokens: (User, ResponseState) -> (string, ResponseState), res: ResponseState,
                           otherIssue: (User, ResponseState) -> (string, ResponseState))
    requires dto.username in users && !encoder.matches(dto.password, users[dto.username].password)
    ensures LoginSpec(users, dto, encoder, issueTokens, res) == LoginOutcome(Failure(INVALID_PASSWORD), res)
    ensures LoginSpec(users, dto, encoder, otherIssue, res) == LoginSpec(users, dto, encoder, issueTokens, res)
  {
  }

  /** With correct credentials, login returns exactly what `issueTokens` returns for the stored
      user, and the response is what `issueTokens` made of it. */
  lemma LoginSucceeds(users: map<string, User>, dto: LoginRequestDto, encoder: PasswordEncoder,
                      issueTokens: (User, ResponseState) -> (string, ResponseState), res: ResponseState)
    requires dto.username in users && encoder.matches(dto.password, users[dto.username].password)
    ensures var o := LoginSpec(users, dto, encoder, issueTokens, res);
      && o.result == Success(issueTokens(users[dto.username], res).0)
      && o.response == issueTokens(users[dto.username], res).1
  {
  }
}
