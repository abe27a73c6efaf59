/** The user table, keyed by username. */
module UserRepositories {
  import opened Wrappers
  import opened Users

  /** Every entry is stored under its own username, so a username names at most one user. */
  ghost predicate KeyedByUsername(users: map<string, User>)
  {
    forall name | name in users :: users[name].username == name
  }

  /** `findByUsername`: the user stored under `username`, if there is one. Every read of the
      table goes through this lookup. */
  function FindByUsername(users: map<string, User>, username: string): (found: Option<User>)
    ensures found.Some? <==> username in users
    ensures found.Some? ==> found.value == users[username]
    ensures found.Some? && KeyedByUsername(users) ==> found.value.username == username
  {
    if username in users then Some(users[username]) else None
  }

  class UserRepository {
    var users: map<string, User>

    ghost predicate Valid()
      reads this
    {
      KeyedByUsername(users)
    }

    constructor ()
      ensures Valid() && users == map[]
    {
      users := map[];
    }

    /** Stores a user under its username. */
    method Save(user: User)
      requires Valid()
      modifies this
      ensures Valid()
      ensures users == old(users)[user.username := user]
    {
      users := users[user.username := user];
    }
  }
}
