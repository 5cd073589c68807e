/** UserService: profile reads and updates, and the deposit / withdrawal
    operations that move money in and out of a user's balance. */
module Accounts {
  import opened Common
  import opened UserStore
  import opened TransactionStore
  import opened Transactions

  datatype UserProfile = UserProfile(
    userId: int,
    username: string,
    email: string,
    balance: real,
    createdDate: int,
    lastLoginDate: Option<int>)

  function ProfileOf(u: User): UserProfile
  {
    UserProfile(u.userId, u.username, u.email, u.balance, u.createdDate, u.lastLoginDate)
  }

  /** char.IsWhiteSpace: the Unicode White_Space characters. */
  predicate IsWhiteSpace(c: char)
  {
    || ('\U{0009}' <= c <= '\U{000D}') || c == '\U{0020}' || c == '\U{0085}' || c == '\U{00A0}'
    || c == '\U{1680}' || ('\U{2000}' <= c <= '\U{200A}') || c == '\U{2028}' || c == '\U{2029}'
    || c == '\U{202F}' || c == '\U{205F}' || c == '\U{3000}'
  }

  /** string.IsNullOrWhiteSpace. */
  predicate IsNullOrWhiteSpace(s: Option<string>)
  {
    s.None? || forall i :: 0 <= i < |s.value| ==> IsWhiteSpace(s.value[i])
  }

  /** Whether UpdateProfileAsync tries to change a field: the new value
      is given, not blank, and differs from the current one. */
  predicate Changes(newValue: Option<string>, current: string)
  {
    !IsNullOrWhiteSpace(newValue) && newValue.value != current
  }

  class UserService {
    const users: UserRepository
    const txs: TransactionService

    ghost predicate Valid()
      reads this, users, txs, txs.repo
    {
      txs.users == users && users.Valid() && txs.repo.Valid()
    }

    constructor (users: UserRepository, txs: TransactionService)
      requires txs.users == users
      ensures this.users == users && this.txs == txs
    {
      this.users := users;
      this.txs := txs;
    }

    /** GetProfileAsync. */
    function GetProfile(userId: int): (r: Result<UserProfile>)
      reads users
      ensures userId !in users.users <==> r == Err(UserNotFound)
      ensures r.Ok? ==> var u := users.users[userId];
                        r.value.username == u.username && r.value.email == u.email
                        && r.value.balance == u.balance
    {
      if userId !in users.users then Err(UserNotFound) else Ok(ProfileOf(users.users[userId]))
    }

    /** GetBalanceAsync: the stored balance, unchanged. */
    function GetBalance(userId: int): (r: Result<real>)
      reads users
      ensures userId !in users.users <==> r == Err(UserNotFound)
      ensures userId in users.users ==> r == Ok(users.users[userId].balance)
    {
      if userId !in users.users then Err(UserNotFound) else Ok(users.users[userId].balance)
    }

    /** UpdateProfileAsync: changes the username and the email only when the
        new value is non-blank and different; a value another user already
        holds aborts the whole update. The balance never changes. */
    method UpdateProfile(userId: int, username: Option<string>, email: Option<string>)
      returns (r: Result<UserProfile>)
      requires Valid()
      modifies users
      ensures Valid()
      ensures users.users.Keys == old(users.users.Keys)
      ensures userId !in old(users.users) ==>
                r == Err(UserNotFound) && users.users == old(users.users) && users.writes == old(users.writes)
      ensures userId in old(users.users) ==>
                var u := old(users.users[userId]);
                var nameTaken := Changes(username, u.username) && old(users.UsernameExists(username.value));
                var emailTaken := Changes(email, u.email) && old(users.EmailExists(email.value));
                if nameTaken then
                  r == Err(UsernameExists) && users.users == old(users.users) && users.writes == old(users.writes)
                else if emailTaken then
                  r == Err(EmailExists) && users.users == old(users.users) && users.writes == old(users.writes)
                else
                  var v := u.(username := if Changes(username, u.username) then username.value else u.username,
                              email := if Changes(email, u.email) then email.value else u.email);
                  && users.users == old(users.users)[userId := v]
                  && users.writes == old(users.writes) + 1
                  && r == Ok(ProfileOf(v))
                  && v.balance == u.balance
    {
      if userId !in users.users {
        return Err(UserNotFound);
      }
      var user := users.users[userId];
      if !IsNullOrWhiteSpace(username) && username.value != user.username {
        if users.UsernameExists(username.value) {
          return Err(UsernameExists);
        }
        user := user.(username := username.value);
      }
      if !IsNullOrWhiteSpace(email) && email.value != user.email {
        if users.EmailExists(email.value) {
          return Err(EmailExists);
        }
        user := user.(email := email.value);
      }
      users.Update(user);
      r := Ok(ProfileOf(user));
    }

    /** DepositAsync: raises the balance by exactly `amount` and records one
        Deposit (no game type) whose before/after are the old and new balance. */
    method Deposit(userId: int, amount: real, now: int) returns (r: Result<real>)
      requires Valid()
      modifies users, txs.repo
      ensures Valid()
      ensures users.users.Keys == old(users.users.Keys)
      ensures userId !in old(users.users) ==>
                && r == Err(UserNotFound)
                && users.users == old(users.users)
                && txs.repo.records == old(txs.repo.records)
      ensures userId in old(users.users) ==>
                var b := old(users.users[userId].balance);
                && users.users == old(users.users)[userId := old(users.users[userId]).(balance := b + amount)]
                && r == Ok(b + amount)
                && txs.repo.records == old(txs.repo.records)
                     + [Entry(|old(txs.repo.records)| + 1, userId, TxKind.Deposit, amount, b + amount, None, now)]
                && txs.repo.records[|txs.repo.records| - 1].balanceBefore == b
                && NetFlow(txs.repo.records, userId) == old(NetFlow(txs.repo.records, userId)) + amount
    {
      if userId !in users.users {
        return Err(UserNotFound);
      }
      var balance := users.users[userId].balance + amount;
      users.SetBalance(userId, balance);
      var t := txs.CreateTransaction(userId, TxKind.Deposit, amount, None, now);
      NetFlowAppend(old(txs.repo.records), [t.value], userId);
      r := Ok(balance);
    }

    /** WithdrawAsync: refuses when the balance is below `amount`, changing
        nothing; otherwise lowers the balance by exactly `amount` and records
        one Withdrawal whose before/after are the old and new balance. */
    method Withdraw(userId: int, amount: real, now: int) returns (r: Result<real>)
      requires Valid()
      modifies users, txs.repo
      ensures Valid()
      ensures users.users.Keys == old(users.users.Keys)
      ensures (userId !in old(users.users) || old(users.users[userId].balance) < amount) ==>
                && r == Err(if userId !in old(users.users) then UserNotFound else InsufficientBalance)
                && users.users == old(users.users)
                && users.writes == old(users.writes)
                && txs.repo.records == old(txs.repo.records)
      ensures userId in old(users.users) && old(users.users[userId].balance) >= amount ==>
                var b := old(users.users[userId].balance);
                && users.users == old(users.users)[userId := old(users.users[userId]).(balance := b - amount)]
                && r == Ok(b - amount)
                && txs.repo.records == old(txs.repo.records)
                     + [Entry(|old(txs.repo.records)| + 1, userId, TxKind.Withdrawal, amount, b - amount, None, now)]
                && txs.repo.records[|txs.repo.records| - 1].balanceBefore == b
                && NetFlow(txs.repo.records, userId) == old(NetFlow(txs.repo.records, userId)) - amount
    {
      if userId !in users.users {
        return Err(UserNotFound);
      }
      if users.users[userId].balance < amount {
        return Err(InsufficientBalance);
      }
      var balance := users.users[userId].balance - amount;
      users.SetBalance(userId, balance);
      var t := txs.CreateTransaction(userId, TxKind.Withdrawal, amount, None, now);
      NetFlowAppend(old(txs.repo.records), [t.value], userId);
      r := Ok(balance);
    }
  }
}
