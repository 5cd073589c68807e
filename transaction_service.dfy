/** TransactionService: builds ledger records from the user's current
    balance and serves paginated, newest-first history. */
module Transactions {
  import opened Common
  import opened UserStore
  import opened TransactionStore

  /** The balance a record claims the user had before the movement.
      The user's stored balance is taken to be already updated, so a
      Deposit is undone by subtracting and a Withdrawal by adding; every
      other kind (Bet, Win) records the current balance on both sides. */
  function BalanceBefore(kind: TxKind, balance: real, amount: real): real
  {
    if kind == Deposit then balance - amount
    else if kind == Withdrawal then balance + amount
    else balance
  }

  /** What a record says the movement did to the balance. Only deposits
      and withdrawals show a change; bets and wins show none. */
  lemma RecordedChange(kind: TxKind, balance: real, amount: real)
    ensures balance - BalanceBefore(kind, balance, amount)
            == match kind
               case Deposit => amount
               case Withdrawal => -amount
               case Bet => 0.0
               case Win => 0.0
  {
  }

  /** The record CreateTransactionAsync stores, with key `id`, for a user
      whose stored balance is `balance`. */
  function Entry(id: int, userId: int, kind: TxKind, amount: real, balance: real,
                 gameType: Option<GameType>, now: int): Transaction
  {
    Transaction(id, userId, kind, amount, BalanceBefore(kind, balance, amount), balance, gameType, now)
  }

  /** Page numbers below 1 become 1. */
  function ClampPage(page: int): (p: int)
    ensures p >= 1
    ensures page >= 1 ==> p == page
  {
    if page < 1 then 1 else page
  }

  /** Page sizes below 1 become the default 20, sizes above 100 become 100. */
  function ClampPageSize(pageSize: int): (s: int)
    ensures 1 <= s <= 100
    ensures 1 <= pageSize <= 100 ==> s == pageSize
    ensures pageSize < 1 ==> s == 20
    ensures pageSize > 100 ==> s == 100
  {
    if pageSize < 1 then 20 else if pageSize > 100 then 100 else pageSize
  }

  datatype PaginatedResult = PaginatedResult(
    items: seq<Transaction>,
    totalCount: nat,
    page: int,
    pageSize: int,
    totalPages: nat)
  {
    predicate HasPreviousPage() { page > 1 }
    predicate HasNextPage() { page < totalPages }
  }

  class TransactionService {
    const repo: TransactionRepository
    const users: UserRepository

    constructor (repo: TransactionRepository, users: UserRepository)
      ensures this.repo == repo && this.users == users
    {
      this.repo := repo;
      this.users := users;
    }

    /** CreateTransactionAsync: fails for an unknown user and records
        nothing; otherwise appends exactly one record whose after-balance is
        the user's stored balance, and returns that stored record. */
    method CreateTransaction(userId: int, kind: TxKind, amount: real,
                             gameType: Option<GameType>, now: int)
      returns (r: Result<Transaction>)
      requires repo.Valid()
      modifies repo
      ensures repo.Valid()
      ensures userId !in users.users ==> r == Err(UserNotFound) && repo.records == old(repo.records)
      ensures userId in users.users ==>
                && r == Ok(Entry(|old(repo.records)| + 1, userId, kind, amount,
                                 users.users[userId].balance, gameType, now))
                && repo.records == old(repo.records) + [r.value]
    {
      if userId !in users.users {
        return Err(UserNotFound);
      }
      var balance := users.users[userId].balance;
      var transaction := Entry(0, userId, kind, amount, balance, gameType, now);
      var created := repo.Create(transaction);
      r := Ok(created);
    }

    /** GetUserTransactionsAsync: clamps the paging arguments and returns
        one newest-first page of the user's records with the counts. */
    method GetUserTransactions(userId: int, page: int, pageSize: int) returns (r: PaginatedResult)
      ensures r.page == ClampPage(page)
      ensures r.pageSize == ClampPageSize(pageSize)
      ensures r.totalCount == |ForUser(repo.records, userId)|
      ensures r.items == repo.GetByUserId(userId, r.page, r.pageSize)
      ensures |r.items| <= r.pageSize
      ensures forall i :: 0 <= i < |r.items| ==> r.items[i].userId == userId
      ensures NewestFirstOrder(r.items)
      ensures r.totalPages == PageCount(r.totalCount, r.pageSize)
      ensures r.totalPages * r.pageSize >= r.totalCount
      ensures r.totalCount > 0 ==> (r.totalPages - 1) * r.pageSize < r.totalCount
    {
      var p, size := page, pageSize;
      if p < 1 { p := 1; }
      if size < 1 { size := 20; }
      if size > 100 { size := 100; }

      var totalCount := repo.GetCountByUserId(userId);
      var transactions := repo.GetByUserId(userId, p, size);
      GetByUserIdSpec(repo.records, userId, p, size);
      PageCountBounds(totalCount, size);
      r := PaginatedResult(transactions, totalCount, p, size, PageCount(totalCount, size));
    }

    /** GetTransactionByIdAsync: the record with that key, or nothing. */
    function GetTransactionById(transactionId: int): (r: Option<Transaction>)
      reads repo
      requires repo.Valid()
      ensures 1 <= transactionId <= |repo.records| ==> r == Some(repo.records[transactionId - 1])
      ensures (transactionId < 1 || transactionId > |repo.records|) ==> r == None
    {
      FindByKey(repo.records, transactionId, 0);
      repo.GetById(transactionId)
    }
  }

  /** The page counts and neighbour flags the service tests expect:
      25 records in pages of 10 make 3 pages, and page 2 has both
      neighbours; 2 records in pages of 20 make 1 page with neither. */
  lemma PaginationExamples()
    ensures PageCount(25, 10) == 3
    ensures PaginatedResult([], 25, 2, 10, PageCount(25, 10)).HasPreviousPage()
    ensures PaginatedResult([], 25, 2, 10, PageCount(25, 10)).HasNextPage()
    ensures PageCount(2, 20) == 1
    ensures !PaginatedResult([], 2, 1, 20, PageCount(2, 20)).HasPreviousPage()
    ensures !PaginatedResult([], 2, 1, 20, PageCount(2, 20)).HasNextPage()
  {
  }
}
