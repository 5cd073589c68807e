/** The user table the services read and update through IUserRepository:
    one record per user id, of which the wagering engine uses the balance
    and the profile fields. */
module UserStore {
  import opened Common

  datatype User = User(
    userId: int,
    username: string,
    email: string,
    balance: real,
    createdDate: int,
    lastLoginDate: Option<int>)

  class UserRepository {
    var users: map<int, User>
    /** How many times UpdateAsync has persisted a user. */
    ghost var writes: nat

    ghost predicate Valid()
      reads this
    {
      forall id :: id in users ==> users[id].userId == id
    }

    constructor (initial: map<int, User>)
      requires forall id :: id in initial ==> initial[id].userId == id
      ensures Valid() && users == initial && writes == 0
    {
      users := initial;
      writes := 0;
    }

    function Balance(userId: int): real
      reads this
      requires userId in users
    {
      users[userId].balance
    }

    /** UpdateAsync: persists the given user record under its id. */
    method Update(user: User)
      requires Valid()
      requires user.userId in users
      modifies this
      ensures Valid()
      ensures users == old(users)[user.userId := user]
      ensures users.Keys == old(users.Keys)
      ensures writes == old(writes) + 1
    {
      users := users[user.userId := user];
      writes := writes + 1;
    }

    /** Persists a new balance for an existing user, all other fields kept. */
    method SetBalance(userId: int, balance: real)
      requires Valid()
      requires userId in users
      modifies this
      ensures Valid()
      ensures users == old(users)[userId := old(users)[userId].(balance := balance)]
      ensures users.Keys == old(users.Keys)
      ensures writes == old(writes) + 1
    {
      Update(users[userId].(balance := balance));
    }

    predicate UsernameExists(username: string)
      reads this
    {
      exists id :: id in users && users[id].username == username
    }

    predicate EmailExists(email: string)
      reads this
    {
      exists id :: id in users && users[id].email == email
    }
  }
}
