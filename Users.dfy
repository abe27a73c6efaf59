/** The user record, its role, and the request and response DTOs built from it. */
module Users {

  /** The role a user holds; each role is granted as one Spring Security authority. */
  datatype UserRole = USER | ADMIN

  /** The authority string of a role, with Spring Security's `ROLE_` prefix. */
  function Authority(role: UserRole): (authority: string)
    ensures |authority| > 5 && authority[..5] == "ROLE_"
  {
    match role
    case USER => "ROLE_USER"
    case ADMIN => "ROLE_ADMIN"
  }

  /** Distinct roles grant distinct authorities. */
  lemma AuthorityIsInjective(a: UserRole, b: UserRole)
    ensures Authority(a) == Authority(b) ==> a == b
  {
  }

  /** A row of the user table; `password` holds the encoded password, never the raw one. */
  datatype User = User(username: string, password: string, nickname: string, userRole: UserRole)

  /** The sign-up form. */
  datatype SignUpRequestDto = SignUpRequestDto(username: string, password: string, nickname: string)

  /** The login form. */
  datatype LoginRequestDto = LoginRequestDto(username: string, password: string)

  /** The public view of a user: exactly three fields, and no password. */
  datatype UserResponseDto = UserResponseDto(username: string, nickname: string, authority: string)

  /** Projects a user onto its public view. */
  function ToResponseDto(user: User): (dto: UserResponseDto)
    ensures dto.username == user.username
    ensures dto.nickname == user.nickname
    ensures dto.authority == Authority(user.userRole)
  {
    UserResponseDto(user.username, user.nickname, Authority(user.userRole))
  }

  /** An ordinary user is shown with the authority `ROLE_USER`. */
  lemma UserAuthorityIsRoleUser(user: User)
    requires user.userRole == USER
    ensures ToResponseDto(user).authority == "ROLE_USER"
  {
  }

  /** The password is never projected: two users that differ only in their password have the
      same public view. */
  lemma ResponseDtoIgnoresPassword(user: User, otherPassword: string)
    ensures ToResponseDto(user.(password := otherPassword)) == ToResponseDto(user)
  {
  }

  /** The projection loses nothing else: the view determines username, nickname and role. */
  lemma ResponseDtoDeterminesPublicFields(a: User, b: User)
    requires ToResponseDto(a) == ToResponseDto(b)
    ensures a.username == b.username && a.nickname == b.nickname && a.userRole == b.userRole
  {
    AuthorityIsInjective(a.userRole, b.userRole);
  }
}
