/** Loading a user by username for Spring Security. */
module UserDetailsService {
  import opened Wrappers
  import opened ErrorCodes
  import opened Users
  import opened UserRepositories

  /** The `UserDetails` wrapper handed to Spring Security; it wraps the user row as is. */
  datatype UserDetails = UserDetailsImpl(user: User)

  /** Looks the username up in the user table. An absent username fails with the application's
      own NOT_FOUND_USERNAME error (status 404), not with Spring's `UsernameNotFoundException`. */
  function LoadUserByUsername(users: map<string, User>, username: string): (r: Result<UserDetails, ErrorCode>)
    ensures r.Success? <==> username in users
    ensures r.Success? ==> r.value.user == users[username]
    ensures r.Failure? ==> r.error == NOT_FOUND_USERNAME && Status(r.error) == 404
  {
    match FindByUsername(users, username)
    case Some(user) => Success(UserDetailsImpl(user))
    case None => Failure(NOT_FOUND_USERNAME)
  }
}
