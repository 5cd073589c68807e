/** The transaction table (TransactionRepository): an append-only ledger
    of money movements and the per-user history query over it. */
module TransactionStore {
  import opened Common

  datatype TxKind = Deposit | Withdrawal | Bet | Win

  datatype GameType = SlotMachine | Blackjack | Poker | Roulette

  datatype Transaction = Transaction(
    transactionId: int,
    userId: int,
    kind: TxKind,
    amount: real,
    balanceBefore: real,
    balanceAfter: real,
    gameType: Option<GameType>,
    createdDate: int)

  /** The signed effect of a record on its user's balance: credits for
      Deposit and Win, debits for Withdrawal and Bet. */
  function Signed(t: Transaction): real
  {
    match t.kind
    case Deposit => t.amount
    case Win => t.amount
    case Withdrawal => -t.amount
    case Bet => -t.amount
  }

  /** The net money flow that the records of `userId` in `rs` account for. */
  function NetFlow(rs: seq<Transaction>, userId: int): real
  {
    if rs == [] then 0.0
    else NetFlow(rs[..|rs| - 1], userId)
         + (if rs[|rs| - 1].userId == userId then Signed(rs[|rs| - 1]) else 0.0)
  }

  lemma {:induction false} NetFlowAppend(rs: seq<Transaction>, more: seq<Transaction>, userId: int)
    ensures NetFlow(rs + more, userId) == NetFlow(rs, userId) + NetFlow(more, userId)
  {
    if more == [] {
      assert rs + more == rs;
    } else {
      assert (rs + more)[..|rs + more| - 1] == rs + more[..|more| - 1];
      NetFlowAppend(rs, more[..|more| - 1], userId);
    }
  }

  // ---------------------------------------------------------------------
  // Query building blocks: Where, OrderByDescending, Skip, Take, Count

  /** Where(t => t.UserId == userId), keeping the ledger order. */
  function ForUser(rs: seq<Transaction>, userId: int): (r: seq<Transaction>)
    ensures |r| <= |rs|
    ensures forall i :: 0 <= i < |r| ==> r[i].userId == userId
    ensures forall t :: t in rs && t.userId == userId <==> t in r
  {
    if rs == [] then []
    else if rs[0].userId == userId then [rs[0]] + ForUser(rs[1..], userId)
    else ForUser(rs[1..], userId)
  }

  lemma {:induction false} ForUserAppend(rs: seq<Transaction>, t: Transaction, userId: int)
    ensures ForUser(rs + [t], userId)
            == ForUser(rs, userId) + (if t.userId == userId then [t] else [])
  {
    if rs == [] {
      assert rs + [t] == [t];
    } else {
      assert (rs + [t])[1..] == rs[1..] + [t];
      ForUserAppend(rs[1..], t, userId);
    }
  }

  /** `a` may be listed before `b` in the history: it is newer, or
      equally old and recorded no earlier (key order breaks date ties). */
  predicate NotOlder(a: Transaction, b: Transaction)
  {
    a.createdDate > b.createdDate
    || (a.createdDate == b.createdDate && a.transactionId >= b.transactionId)
  }

  ghost predicate NewestFirstOrder(s: seq<Transaction>)
  {
    forall i, j :: 0 <= i < j < |s| ==> NotOlder(s[i], s[j])
  }

  /** Places `t` before the first record it is not older than. */
  function InsertByDate(t: Transaction, s: seq<Transaction>): seq<Transaction>
  {
    if s == [] || NotOlder(t, s[0]) then [t] + s
    else [s[0]] + InsertByDate(t, s[1..])
  }

  /** OrderByDescending(t => t.CreatedDate), with records of the same date
      taken newest key first. */
  function NewestFirst(s: seq<Transaction>): seq<Transaction>
  {
    if s == [] then [] else InsertByDate(s[0], NewestFirst(s[1..]))
  }

  lemma {:induction false} InsertByDateContents(t: Transaction, s: seq<Transaction>)
    ensures multiset(InsertByDate(t, s)) == multiset(s) + multiset{t}
    ensures |InsertByDate(t, s)| == |s| + 1
    ensures forall x :: x in InsertByDate(t, s) ==> x == t || x in s
  {
    if s != [] && !NotOlder(t, s[0]) {
      InsertByDateContents(t, s[1..]);
      assert s == [s[0]] + s[1..];
    }
  }

  /** A record no older than any of a newest-first sequence can go in front of it. */
  lemma ConsSorted(x: Transaction, r: seq<Transaction>)
    requires NewestFirstOrder(r)
    requires forall k :: 0 <= k < |r| ==> NotOlder(x, r[k])
    ensures NewestFirstOrder([x] + r)
  {
    var q := [x] + r;
    forall i, j | 0 <= i < j < |q|
      ensures NotOlder(q[i], q[j])
    {
      assert q[j] == r[j - 1];
      if i > 0 {
        assert q[i] == r[i - 1];
      }
    }
  }

  lemma {:induction false} InsertByDateSorted(t: Transaction, s: seq<Transaction>)
    requires NewestFirstOrder(s)
    ensures NewestFirstOrder(InsertByDate(t, s))
  {
    if s == [] || NotOlder(t, s[0]) {
      ConsSorted(t, s);
    } else {
      var r := InsertByDate(t, s[1..]);
      assert NewestFirstOrder(s[1..]);
      InsertByDateSorted(t, s[1..]);
      InsertByDateContents(t, s[1..]);
      forall k | 0 <= k < |r|
        ensures NotOlder(s[0], r[k])
      {
        assert r[k] in r;
        if r[k] != t {
          var m :| 0 <= m < |s[1..]| && s[1..][m] == r[k];
          assert s[1..][m] == s[m + 1];
        }
      }
      ConsSorted(s[0], r);
    }
  }

  lemma {:induction false} NewestFirstSpec(s: seq<Transaction>)
    ensures NewestFirstOrder(NewestFirst(s))
    ensures multiset(NewestFirst(s)) == multiset(s)
    ensures |NewestFirst(s)| == |s|
  {
    NewestFirstSorted(s);
    NewestFirstContents(s);
  }

  lemma {:induction false} NewestFirstSorted(s: seq<Transaction>)
    ensures NewestFirstOrder(NewestFirst(s))
  {
    if s != [] {
      NewestFirstSorted(s[1..]);
      InsertByDateSorted(s[0], NewestFirst(s[1..]));
    }
  }

  lemma {:induction false} NewestFirstContents(s: seq<Transaction>)
    ensures multiset(NewestFirst(s)) == multiset(s)
    ensures |NewestFirst(s)| == |s|
  {
    if s != [] {
      NewestFirstContents(s[1..]);
      InsertByDateContents(s[0], NewestFirst(s[1..]));
      assert s == [s[0]] + s[1..];
    }
  }

  /** Enumerable.Skip: a non-positive count skips nothing. */
  function Skip(s: seq<Transaction>, n: int): seq<Transaction>
  {
    if n <= 0 then s else if n >= |s| then [] else s[n..]
  }

  /** Enumerable.Take: a non-positive count takes nothing. */
  function Take(s: seq<Transaction>, n: int): seq<Transaction>
  {
    if n <= 0 then [] else if n >= |s| then s else s[..n]
  }

  /** The number of records GetByUserIdAsync skips: (page - 1) * pageSize
      computed in C# `int`, so a product past Int32Max wraps around. */
  function PageOffset(page: int, pageSize: int): int
  {
    Wrap32((page - 1) * pageSize)
  }

  /** Skip((page - 1) * pageSize).Take(pageSize). */
  function Page(s: seq<Transaction>, page: int, pageSize: int): seq<Transaction>
  {
    Take(Skip(s, PageOffset(page, pageSize)), pageSize)
  }

  /** The offset is (page - 1) * pageSize itself while that fits an `int`. */
  lemma PageOffsetExact(page: int, pageSize: int)
    requires page >= 1 && pageSize >= 1
    ensures (page - 1) * pageSize <= Int32Max ==> PageOffset(page, pageSize) == (page - 1) * pageSize
  {
    assert (page - 1) * pageSize >= 0 by {
      assert page - 1 >= 0;
    }
  }

  /** The page slice: the records from the offset on, at most pageSize of
      them, empty past the end; an offset that wrapped below zero skips
      nothing. */
  lemma PageSlice(s: seq<Transaction>, page: int, pageSize: int)
    requires pageSize >= 1
    ensures var from := PageOffset(page, pageSize);
            var start := if from < 0 then 0 else from;
            var r := Page(s, page, pageSize);
            && |r| <= pageSize
            && (start >= |s| <==> r == [])
            && (start < |s| ==> r == s[start..if start + pageSize <= |s| then start + pageSize else |s|])
  {
  }

  /** A page whose offset wraps below zero, such as page 21474838 of size
      100 (offset 2147483700, which wraps to -2147483596), repeats page 1. */
  lemma WrappedPageRepeatsFirst(s: seq<Transaction>, page: int, pageSize: int)
    requires page >= 1 && pageSize >= 1
    requires Int32Max < (page - 1) * pageSize < 0x1_0000_0000
    ensures PageOffset(page, pageSize) < 0
    ensures Page(s, page, pageSize) == Page(s, 1, pageSize)
    ensures s != [] ==> Page(s, page, pageSize) != []
  {
    var x := (page - 1) * pageSize;
    assert Wrap32(x) == Wrap32(x - 0x1_0000_0000) == x - 0x1_0000_0000;
  }

  /** The first k pages of size `size`, concatenated. */
  function FirstPages(s: seq<Transaction>, size: int, k: nat): seq<Transaction>
  {
    if k == 0 then [] else FirstPages(s, size, k - 1) + Page(s, k, size)
  }

  lemma {:induction false} FirstPagesPrefix(s: seq<Transaction>, size: int, k: nat)
    requires size >= 1
    requires k == 0 || (k - 1) * size <= Int32Max
    ensures FirstPages(s, size, k) == s[..if k * size <= |s| then k * size else |s|]
  {
    if k > 0 {
      var from := (k - 1) * size;
      PageStep(k, size);
      FirstPagesPrefix(s, size, k - 1);
      NextPage(s, from, size);
    }
  }

  /** The arithmetic of one step from page k - 1 to page k. */
  lemma PageStep(k: int, size: int)
    requires k >= 1 && size >= 1 && (k - 1) * size <= Int32Max
    ensures (k - 1) * size >= 0
    ensures k * size == (k - 1) * size + size
    ensures k == 1 || (k - 2) * size <= Int32Max
    ensures PageOffset(k, size) == (k - 1) * size
  {
    PageOffsetExact(k, size);
    if k > 1 {
      assert (k - 2) * size <= (k - 1) * size;
    }
  }

  /** The prefix up to `from` followed by the page from `from` is the
      prefix up to `from + size`. */
  lemma NextPage(s: seq<Transaction>, from: nat, size: int)
    requires size >= 1
    ensures s[..if from <= |s| then from else |s|] + Take(Skip(s, from), size)
            == s[..if from + size <= |s| then from + size else |s|]
  {
    if from < |s| {
      if from + size <= |s| {
        assert s[..from + size] == s[..from] + s[from..from + size];
      } else {
        assert s == s[..from] + s[from..];
      }
    }
  }

  /** The number of pages Math.Ceiling(count / pageSize) gives. */
  function PageCount(count: nat, pageSize: int): (n: nat)
    requires pageSize >= 1
  {
    if count % pageSize == 0 then count / pageSize else count / pageSize + 1
  }

  lemma PageCountBounds(count: nat, pageSize: int)
    requires pageSize >= 1
    ensures PageCount(count, pageSize) * pageSize >= count
    ensures count > 0 ==> (PageCount(count, pageSize) - 1) * pageSize < count
    ensures count == 0 <==> PageCount(count, pageSize) == 0
  {
    var q, m := count / pageSize, count % pageSize;
    assert count == q * pageSize + m;
    if m != 0 {
      assert (q + 1) * pageSize == q * pageSize + pageSize;
    }
  }

  /** Reading pages 1 .. PageCount in turn yields the whole sequence. A
      count is a C# `int`, so no offset of those pages wraps. */
  lemma AllPagesCoverAll(s: seq<Transaction>, pageSize: int)
    requires pageSize >= 1 && |s| <= Int32Max
    ensures FirstPages(s, pageSize, PageCount(|s|, pageSize)) == s
  {
    PageCountBounds(|s|, pageSize);
    FirstPagesPrefix(s, pageSize, PageCount(|s|, pageSize));
  }

  /** Records of one play written with the same clock reading are listed
      newest key first: a play's Win comes before its Bet. */
  lemma WinListedBeforeBet(bet: Transaction, win: Transaction)
    requires bet.createdDate == win.createdDate
    requires bet.transactionId < win.transactionId
    ensures NewestFirst([bet, win]) == [win, bet]
  {
    assert [bet, win][1..] == [win];
    assert NewestFirst([win]) == [win] by {
      assert [win][1..] == [];
    }
    assert !NotOlder(bet, win);
    assert InsertByDate(bet, [win]) == [win] + InsertByDate(bet, []);
  }

  /** First record carrying the given id (DbSet.FindAsync by key). */
  function Find(rs: seq<Transaction>, transactionId: int): (r: Option<Transaction>)
    ensures r.Some? ==> r.value in rs && r.value.transactionId == transactionId
    ensures r.None? <==> forall t :: t in rs ==> t.transactionId != transactionId
  {
    if rs == [] then None
    else if rs[0].transactionId == transactionId then Some(rs[0])
    else Find(rs[1..], transactionId)
  }

  class TransactionRepository {
    var records: seq<Transaction>

    /** Identity keys: the database numbers records 1, 2, 3, ... */
    ghost predicate Valid()
      reads this
    {
      forall i :: 0 <= i < |records| ==> records[i].transactionId == i + 1
    }

    constructor ()
      ensures Valid() && records == []
    {
      records := [];
    }

    /** CreateAsync: appends the record, which receives the next key. */
    method Create(t: Transaction) returns (created: Transaction)
      requires Valid()
      modifies this
      ensures Valid()
      ensures created == t.(transactionId := |old(records)| + 1)
      ensures records == old(records) + [created]
    {
      created := t.(transactionId := |records| + 1);
      records := records + [created];
    }

    function GetById(transactionId: int): Option<Transaction>
      reads this
    {
      Find(records, transactionId)
    }

    /** GetByUserIdAsync: the user's records, newest first, one page. */
    function GetByUserId(userId: int, page: int, pageSize: int): seq<Transaction>
      reads this
    {
      Page(NewestFirst(ForUser(records, userId)), page, pageSize)
    }

    function GetCountByUserId(userId: int): nat
      reads this
    {
      |ForUser(records, userId)|
    }
  }

  /** GetByUserIdAsync returns only the user's records, newest first, and
      at most pageSize of them. */
  lemma GetByUserIdSpec(rs: seq<Transaction>, userId: int, page: int, pageSize: int)
    requires page >= 1 && pageSize >= 1
    ensures var r := Page(NewestFirst(ForUser(rs, userId)), page, pageSize);
            && |r| <= pageSize
            && NewestFirstOrder(r)
            && (forall i :: 0 <= i < |r| ==> r[i].userId == userId && r[i] in rs)
  {
    var mine := ForUser(rs, userId);
    var all := NewestFirst(mine);
    NewestFirstSpec(mine);
    PageOfSorted(all, page, pageSize);
    var r := Page(all, page, pageSize);
    forall i | 0 <= i < |r|
      ensures r[i].userId == userId && r[i] in rs
    {
      assert r[i] in multiset(all);
      assert r[i] in mine;
    }
  }

  /** A page of a newest-first sequence is newest first and holds only
      records of the sequence. */
  lemma PageOfSorted(s: seq<Transaction>, page: int, pageSize: int)
    requires page >= 1 && pageSize >= 1
    ensures var r := Page(s, page, pageSize);
            && |r| <= pageSize
            && (NewestFirstOrder(s) ==> NewestFirstOrder(r))
            && (forall i :: 0 <= i < |r| ==> r[i] in s)
  {
    PageSlice(s, page, pageSize);
    var from := PageOffset(page, pageSize);
    var start := if from < 0 then 0 else from;
    if start < |s| {
      SliceOfSorted(s, start, if start + pageSize <= |s| then start + pageSize else |s|);
    }
  }

  lemma SliceOfSorted(s: seq<Transaction>, from: int, to: int)
    requires 0 <= from <= to <= |s|
    ensures NewestFirstOrder(s) ==> NewestFirstOrder(s[from..to])
    ensures forall i :: 0 <= i < to - from ==> s[from..to][i] in s
  {
    forall i | 0 <= i < to - from
      ensures s[from..to][i] == s[from + i]
    {
    }
  }

  /** Over a ledger with unique keys, a lookup finds exactly the record at
      that position and nothing for an unknown key. */
  lemma {:induction false} FindByKey(rs: seq<Transaction>, transactionId: int, offset: int)
    requires forall i :: 0 <= i < |rs| ==> rs[i].transactionId == offset + i + 1
    ensures Find(rs, transactionId)
            == if offset < transactionId <= offset + |rs| then Some(rs[transactionId - offset - 1]) else None
  {
    if rs != [] {
      FindByKey(rs[1..], transactionId, offset + 1);
    }
  }
}
