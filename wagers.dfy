/** The two money movements every game service makes through the user
    repository and TransactionService: taking a stake (debit, then a Bet
    record) and paying out (credit, then a Win record, only for a positive
    amount). */
module Wagers {
  import opened Common
  import opened UserStore
  import opened TransactionStore
  import opened Transactions

  /** The balance after a credit of `pay`, which only a positive amount makes. */
  function Credit(balance: real, pay: real): real
  {
    if pay > 0.0 then balance + pay else balance
  }

  /** The users and ledger after a payout of `pay` to `userId` in `game`,
      from users `users0` and ledger `records0`: a positive payout is
      credited and recorded as one Win, anything else changes nothing. */
  ghost predicate Credited(users: UserRepository, repo: TransactionRepository, userId: int, pay: real,
                           game: GameType, now: int, users0: map<int, User>, records0: seq<Transaction>)
    reads users, repo
    requires userId in users0
  {
    var u := users0[userId];
    && users.users == (if pay > 0.0 then users0[userId := u.(balance := u.balance + pay)] else users0)
    && repo.records == records0 + if pay > 0.0 then
         [Entry(|records0| + 1, userId, Win, pay, u.balance + pay, Some(game), now)]
       else []
  }

  /** The user's balance moved by exactly what the new ledger records of
      that user account for. */
  twostate predicate Conserves(users: UserRepository, repo: TransactionRepository, userId: int)
    reads users, repo
    requires userId in old(users.users) && userId in users.users
  {
    users.users[userId].balance - old(users.users[userId].balance)
      == NetFlow(repo.records, userId) - old(NetFlow(repo.records, userId))
  }

  /** The stake taken for a bet: debited from the balance and recorded as
      one Bet whose balance fields hold the balance after the debit. */
  method TakeStake(users: UserRepository, txs: TransactionService, userId: int, amount: real,
                   game: GameType, now: int) returns (balance: real)
    requires txs.users == users && users.Valid() && txs.repo.Valid() && userId in users.users
    modifies users, txs.repo
    ensures users.Valid() && txs.repo.Valid()
    ensures balance == old(users.users[userId].balance) - amount
    ensures users.users == old(users.users)[userId := old(users.users[userId]).(balance := balance)]
    ensures txs.repo.records == old(txs.repo.records)
              + [Entry(|old(txs.repo.records)| + 1, userId, Bet, amount, balance, Some(game), now)]
    ensures Conserves(users, txs.repo, userId)
  {
    balance := users.users[userId].balance - amount;
    users.SetBalance(userId, balance);
    var t := txs.CreateTransaction(userId, Bet, amount, Some(game), now);
    NetFlowAppend(old(txs.repo.records), [t.value], userId);
  }

  /** The payout step: a positive amount is credited and recorded as a Win. */
  method CreditWin(users: UserRepository, txs: TransactionService, userId: int, pay: real,
                   game: GameType, now: int) returns (balance: real)
    requires txs.users == users && users.Valid() && txs.repo.Valid() && userId in users.users
    modifies users, txs.repo
    ensures users.Valid() && txs.repo.Valid()
    ensures users.users.Keys == old(users.users.Keys)
    ensures balance == Credit(old(users.users[userId].balance), pay)
    ensures Credited(users, txs.repo, userId, pay, game, now, old(users.users), old(txs.repo.records))
    ensures Conserves(users, txs.repo, userId)
  {
    balance := users.users[userId].balance;
    if pay > 0.0 {
      balance := balance + pay;
      users.SetBalance(userId, balance);
      var t := txs.CreateTransaction(userId, Win, pay, Some(game), now);
      NetFlowAppend(old(txs.repo.records), [t.value], userId);
    }
  }
}
