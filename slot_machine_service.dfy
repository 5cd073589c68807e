/** SlotMachineService: a 3x3 grid of symbols, five paylines (the three
    rows and the two diagonals), a multiplier per symbol, and a jackpot
    flag for a winning line of diamonds. */
module SlotMachineService {
  import opened Common
  import opened UserStore
  import opened TransactionStore
  import opened Transactions
  import opened Wagers

  /** The seven reel symbols: cherry, lemon, orange, grape, bell, star and
      diamond. */
  datatype Symbol = Cherry | Lemon | Orange | Grape | Bell | Star | Diamond

  /** Symbols, in the order a random value indexes them. */
  const Symbols: seq<Symbol> := [Cherry, Lemon, Orange, Grape, Bell, Star, Diamond]

  /** SymbolPayouts: the multiplier of the bet a winning line of a symbol pays. */
  const SymbolPayouts: map<Symbol, real> :=
    map[Diamond := 100.0, Star := 50.0, Bell := 25.0, Grape := 15.0,
        Orange := 10.0, Lemon := 5.0, Cherry := 3.0]

  const ReelCount: int := 3
  const RowCount: int := 3

  /** Every symbol is on the reels and has a multiplier, so the lookup of
      a line's symbol never fails; every multiplier is positive, and the
      diamond pays the most. */
  lemma SymbolTable(s: Symbol)
    ensures |Symbols| == 7
    ensures s in Symbols && s in SymbolPayouts
    ensures 3.0 <= SymbolPayouts[s] <= SymbolPayouts[Diamond] == 100.0
  {
  }

  /** GetRandomSymbol: the random value modulo the number of symbols picks one. */
  function GetRandomSymbol(randomValue: uint32): (s: Symbol)
    ensures s in Symbols
    ensures s == Symbols[randomValue as int % 7]
  {
    Symbols[(randomValue % 7) as int]
  }

  /** Each symbol is drawn by exactly the random values congruent to its
      index modulo 7. */
  lemma RandomSymbolIndex(randomValue: uint32, i: int)
    requires 0 <= i < 7
    ensures GetRandomSymbol(randomValue) == Symbols[i] <==> randomValue as int % 7 == i
  {
  }

  /** A 3x3 grid as reels of rows: grid[reel][row]. */
  predicate IsGrid(grid: seq<seq<Symbol>>)
  {
    |grid| == ReelCount && forall i :: 0 <= i < |grid| ==> |grid[i]| == RowCount
  }

  /** The grid GenerateReels fills from nine random values, reel by reel,
      row by row. */
  function ReelsOf(draws: seq<uint32>): (grid: seq<seq<Symbol>>)
    requires |draws| == 9
    ensures IsGrid(grid)
  {
    seq(3, i requires 0 <= i < 3 => seq(3, j requires 0 <= j < 3 => GetRandomSymbol(draws[3 * i + j])))
  }

  /** The cells of an array as a grid. */
  function Grid(reels: array2<Symbol>): (grid: seq<seq<Symbol>>)
    reads reels
    requires reels.Length0 == 3 && reels.Length1 == 3
    ensures IsGrid(grid)
    ensures forall i, j :: 0 <= i < 3 && 0 <= j < 3 ==> grid[i][j] == reels[i, j]
  {
    seq(3, i reads reels requires 0 <= i < 3 => seq(3, j reads reels requires 0 <= j < 3 => reels[i, j]))
  }

  /** GenerateReels: three reels of three rows, each cell drawn in turn. */
  method GenerateReels(draws: seq<uint32>) returns (reels: array2<Symbol>)
    requires |draws| == 9
    ensures fresh(reels) && reels.Length0 == 3 && reels.Length1 == 3
    ensures Grid(reels) == ReelsOf(draws)
  {
    reels := new Symbol[ReelCount, RowCount];
    for i := 0 to ReelCount
      invariant forall a, b :: 0 <= a < i && 0 <= b < 3 ==> reels[a, b] == GetRandomSymbol(draws[3 * a + b])
    {
      for j := 0 to RowCount
        invariant forall a, b :: 0 <= a < i && 0 <= b < 3 ==> reels[a, b] == GetRandomSymbol(draws[3 * a + b])
        invariant forall b :: 0 <= b < j ==> reels[i, b] == GetRandomSymbol(draws[3 * i + b])
      {
        reels[i, j] := GetRandomSymbol(draws[3 * i + j]);
      }
    }
    forall i | 0 <= i < 3
      ensures Grid(reels)[i] == ReelsOf(draws)[i]
    {
      assert forall j :: 0 <= j < 3 ==> Grid(reels)[i][j] == ReelsOf(draws)[i][j];
    }
  }

  /** The three cells of payline k: rows 1-3, then the diagonal from the
      top of the first reel (4) and the one from its bottom (5). */
  function Line(grid: seq<seq<Symbol>>, k: int): seq<Symbol>
    requires IsGrid(grid) && 1 <= k <= 5
  {
    if k <= 3 then [grid[0][k - 1], grid[1][k - 1], grid[2][k - 1]]
    else if k == 4 then [grid[0][0], grid[1][1], grid[2][2]]
    else [grid[0][2], grid[1][1], grid[2][0]]
  }

  /** Three cells showing one symbol. */
  predicate AllSame(cells: seq<Symbol>)
    requires |cells| == 3
  {
    cells[0] == cells[1] && cells[1] == cells[2]
  }

  /** WinLineDto. */
  datatype WinLine = WinLine(lineNumber: int, symbol: Symbol, count: int, payout: real)

  /** What a winning line of a symbol pays on a bet. */
  function LinePay(symbol: Symbol, betAmount: real): real
  {
    SymbolTable(symbol);
    SymbolPayouts[symbol] * betAmount
  }

  /** The win line payline k contributes: one of three equal symbols,
      or none. */
  function Paid(grid: seq<seq<Symbol>>, k: int, betAmount: real): seq<WinLine>
    requires IsGrid(grid) && 1 <= k <= 5
  {
    var cells := Line(grid, k);
    if AllSame(cells) then [WinLine(k, cells[0], 3, LinePay(cells[0], betAmount))] else []
  }

  /** The win lines of paylines 1 .. k, in order. */
  function LinesUpTo(grid: seq<seq<Symbol>>, k: int, betAmount: real): seq<WinLine>
    requires IsGrid(grid) && 0 <= k <= 5
  {
    if k == 0 then [] else LinesUpTo(grid, k - 1, betAmount) + Paid(grid, k, betAmount)
  }

  function WinningLines(grid: seq<seq<Symbol>>, betAmount: real): seq<WinLine>
    requires IsGrid(grid)
  {
    LinesUpTo(grid, 5, betAmount)
  }

  function Payouts(lines: seq<WinLine>): (xs: seq<real>)
    ensures |xs| == |lines|
  {
    seq(|lines|, i requires 0 <= i < |lines| => lines[i].payout)
  }

  /** The win of a spin: the sum of its lines' payouts. */
  function Total(lines: seq<WinLine>): real
  {
    Sum(Payouts(lines))
  }

  /** A spin is a jackpot when one of its winning lines is of diamonds. */
  predicate Jackpot(lines: seq<WinLine>)
  {
    exists i :: 0 <= i < |lines| && lines[i].symbol == Diamond
  }

  lemma TotalAppend(lines: seq<WinLine>, more: seq<WinLine>)
    ensures Total(lines + more) == Total(lines) + Total(more)
  {
    assert Payouts(lines + more) == Payouts(lines) + Payouts(more);
    SumAppend(Payouts(lines), Payouts(more));
  }

  lemma JackpotAppend(lines: seq<WinLine>, more: seq<WinLine>)
    ensures Jackpot(lines + more) <==> Jackpot(lines) || Jackpot(more)
  {
    var all := lines + more;
    if Jackpot(lines) {
      var i :| 0 <= i < |lines| && lines[i].symbol == Diamond;
      assert all[i] == lines[i];
    }
    if Jackpot(more) {
      var i :| 0 <= i < |more| && more[i].symbol == Diamond;
      assert all[|lines| + i] == more[i];
    }
    if Jackpot(all) {
      var i :| 0 <= i < |all| && all[i].symbol == Diamond;
      if i < |lines| {
        assert lines[i] == all[i];
      } else {
        assert more[i - |lines|] == all[i];
      }
    }
  }

  lemma TotalOne(l: WinLine)
    ensures Total([l]) == l.payout
  {
    var xs := Payouts([l]);
    assert xs == [l.payout] && xs[..0] == [];
    assert Sum(xs[..0]) == 0.0;
  }

  /** CalculateWinnings: each row, then each diagonal, in turn; a line of
      three equal symbols is recorded, paid, and flags the jackpot when it
      is of diamonds. */
  method CalculateWinnings(reels: array2<Symbol>, betAmount: real)
    returns (winAmount: real, winLines: seq<WinLine>, isJackpot: bool)
    requires reels.Length0 == 3 && reels.Length1 == 3
    ensures winLines == WinningLines(Grid(reels), betAmount)
    ensures winAmount == Total(winLines)
    ensures isJackpot == Jackpot(winLines)
  {
    ghost var grid := Grid(reels);
    winLines := [];
    winAmount := 0.0;
    isJackpot := false;
    for row := 0 to RowCount
      invariant winLines == LinesUpTo(grid, row, betAmount)
      invariant winAmount == Total(winLines)
      invariant isJackpot == Jackpot(winLines)
    {
      winAmount, winLines, isJackpot := Row(reels, betAmount, row, winAmount, winLines, isJackpot);
    }
    winAmount, winLines, isJackpot := Diagonal(reels, betAmount, 4, winAmount, winLines, isJackpot);
    winAmount, winLines, isJackpot := Diagonal(reels, betAmount, 5, winAmount, winLines, isJackpot);
  }

  /** The check of one row, added to the lines found so far: the symbol of
      the first reel is counted along the row until a reel differs. */
  method Row(reels: array2<Symbol>, betAmount: real, row: int,
             winAmount0: real, winLines0: seq<WinLine>, isJackpot0: bool)
    returns (winAmount: real, winLines: seq<WinLine>, isJackpot: bool)
    requires reels.Length0 == 3 && reels.Length1 == 3 && 0 <= row < RowCount
    requires winLines0 == LinesUpTo(Grid(reels), row, betAmount)
    requires winAmount0 == Total(winLines0) && isJackpot0 == Jackpot(winLines0)
    ensures winLines == LinesUpTo(Grid(reels), row + 1, betAmount)
    ensures winAmount == Total(winLines) && isJackpot == Jackpot(winLines)
  {
    ghost var grid := Grid(reels);
    winAmount, winLines, isJackpot := winAmount0, winLines0, isJackpot0;
    var symbol, count := CountRow(reels, row);
    var line := [];
    if count == ReelCount {
      var payout := LinePay(symbol, betAmount);
      winAmount := winAmount + payout;
      if symbol == Diamond {
        isJackpot := true;
      }
      line := [WinLine(row + 1, symbol, count, payout)];
    }
    assert line == Paid(grid, row + 1, betAmount);
    if line != [] {
      TotalOne(line[0]);
    }
    TotalAppend(winLines, line);
    JackpotAppend(winLines, line);
    winLines := winLines + line;
  }

  /** The run of the first reel's symbol along a row: the count stops at
      the first reel that differs, so it is three exactly when the row's
      payline shows one symbol. */
  method CountRow(reels: array2<Symbol>, row: int) returns (symbol: Symbol, count: int)
    requires reels.Length0 == 3 && reels.Length1 == 3 && 0 <= row < RowCount
    ensures symbol == Line(Grid(reels), row + 1)[0]
    ensures count == ReelCount <==> AllSame(Line(Grid(reels), row + 1))
  {
    symbol := reels[0, row];
    count := 1;
    for col := 1 to ReelCount
      invariant count == col
      invariant forall c :: 0 <= c < col ==> reels[c, row] == symbol
    {
      if reels[col, row] == symbol {
        count := count + 1;
      } else {
        break;
      }
    }
  }

  /** The check of one diagonal, added to the lines found so far. */
  method Diagonal(reels: array2<Symbol>, betAmount: real, k: int,
                  winAmount0: real, winLines0: seq<WinLine>, isJackpot0: bool)
    returns (winAmount: real, winLines: seq<WinLine>, isJackpot: bool)
    requires reels.Length0 == 3 && reels.Length1 == 3 && 4 <= k <= 5
    requires winLines0 == LinesUpTo(Grid(reels), k - 1, betAmount)
    requires winAmount0 == Total(winLines0) && isJackpot0 == Jackpot(winLines0)
    ensures winLines == LinesUpTo(Grid(reels), k, betAmount)
    ensures winAmount == Total(winLines) && isJackpot == Jackpot(winLines)
  {
    ghost var grid := Grid(reels);
    winAmount, winLines, isJackpot := winAmount0, winLines0, isJackpot0;
    var top := if k == 4 then 0 else 2;
    var line := [];
    if reels[0, top] == reels[1, 1] && reels[1, 1] == reels[2, 2 - top] {
      var symbol := reels[0, top];
      var payout := LinePay(symbol, betAmount);
      winAmount := winAmount + payout;
      if symbol == Diamond {
        isJackpot := true;
      }
      line := [WinLine(k, symbol, 3, payout)];
    }
    assert line == Paid(grid, k, betAmount);
    if line != [] {
      TotalOne(line[0]);
    }
    TotalAppend(winLines, line);
    JackpotAppend(winLines, line);
    winLines := winLines + line;
  }

  /** A win line of this grid: a payline of three equal cells, with that
      symbol, a count of three and the symbol's multiplier times the bet. */
  predicate IsWinLine(grid: seq<seq<Symbol>>, betAmount: real, l: WinLine)
    requires IsGrid(grid)
  {
    && 1 <= l.lineNumber <= 5
    && AllSame(Line(grid, l.lineNumber))
    && l == WinLine(l.lineNumber, Line(grid, l.lineNumber)[0], 3, LinePay(Line(grid, l.lineNumber)[0], betAmount))
  }

  /** Every line found is a win line among the first k, in payline order. */
  lemma {:induction false} LinesSound(grid: seq<seq<Symbol>>, k: int, betAmount: real)
    requires IsGrid(grid) && 0 <= k <= 5
    ensures var lines := LinesUpTo(grid, k, betAmount);
            && |lines| <= k
            && (forall i :: 0 <= i < |lines| ==> IsWinLine(grid, betAmount, lines[i]) && lines[i].lineNumber <= k)
            && (forall i, j :: 0 <= i < j < |lines| ==> lines[i].lineNumber < lines[j].lineNumber)
  {
    if k > 0 {
      LinesSound(grid, k - 1, betAmount);
    }
  }

  /** Every payline up to k with three equal cells is found. */
  lemma {:induction false} LinesComplete(grid: seq<seq<Symbol>>, k: int, betAmount: real, m: int)
    requires IsGrid(grid) && 1 <= m <= k <= 5 && AllSame(Line(grid, m))
    ensures exists i :: 0 <= i < |LinesUpTo(grid, k, betAmount)| && LinesUpTo(grid, k, betAmount)[i].lineNumber == m
  {
    var prev := LinesUpTo(grid, k - 1, betAmount);
    var lines := LinesUpTo(grid, k, betAmount);
    if m < k {
      LinesComplete(grid, k - 1, betAmount, m);
      var i :| 0 <= i < |prev| && prev[i].lineNumber == m;
      assert lines[i] == prev[i];
    } else {
      assert lines[|prev|].lineNumber == m;
    }
  }

  /** Payline k wins exactly when its three cells show the same symbol. */
  lemma LineWins(grid: seq<seq<Symbol>>, betAmount: real, k: int)
    requires IsGrid(grid) && 1 <= k <= 5
    ensures (exists i :: 0 <= i < |WinningLines(grid, betAmount)| && WinningLines(grid, betAmount)[i].lineNumber == k)
            <==> AllSame(Line(grid, k))
  {
    var lines := WinningLines(grid, betAmount);
    LinesSound(grid, 5, betAmount);
    if AllSame(Line(grid, k)) {
      LinesComplete(grid, 5, betAmount, k);
    }
    if exists i :: 0 <= i < |lines| && lines[i].lineNumber == k {
      var i :| 0 <= i < |lines| && lines[i].lineNumber == k;
      assert IsWinLine(grid, betAmount, lines[i]);
    }
  }

  /** The spin is a jackpot exactly when some payline shows three diamonds. */
  lemma JackpotIff(grid: seq<seq<Symbol>>, betAmount: real)
    requires IsGrid(grid)
    ensures Jackpot(WinningLines(grid, betAmount))
            <==> exists k :: 1 <= k <= 5 && AllSame(Line(grid, k)) && Line(grid, k)[0] == Diamond
  {
    var lines := WinningLines(grid, betAmount);
    LinesSound(grid, 5, betAmount);
    if exists k :: 1 <= k <= 5 && AllSame(Line(grid, k)) && Line(grid, k)[0] == Diamond {
      var k :| 1 <= k <= 5 && AllSame(Line(grid, k)) && Line(grid, k)[0] == Diamond;
      LinesComplete(grid, 5, betAmount, k);
      var i :| 0 <= i < |lines| && lines[i].lineNumber == k;
      assert lines[i].symbol == Diamond;
    }
    if Jackpot(lines) {
      var i :| 0 <= i < |lines| && lines[i].symbol == Diamond;
      var k := lines[i].lineNumber;
      assert IsWinLine(grid, betAmount, lines[i]);
    }
  }

  lemma PositivePay(symbol: Symbol, betAmount: real)
    ensures betAmount > 0.0 ==> LinePay(symbol, betAmount) > 0.0
    ensures betAmount >= 0.0 ==> LinePay(symbol, betAmount) >= 0.0
  {
    SymbolTable(symbol);
  }

  /** With a bet that is not negative the win is not negative, and with a
      positive bet the win is positive exactly when some line won. */
  lemma WinSign(grid: seq<seq<Symbol>>, betAmount: real)
    requires IsGrid(grid) && betAmount >= 0.0
    ensures Total(WinningLines(grid, betAmount)) >= 0.0
    ensures betAmount > 0.0 ==> (Total(WinningLines(grid, betAmount)) > 0.0 <==> |WinningLines(grid, betAmount)| > 0)
  {
    var lines := WinningLines(grid, betAmount);
    var xs := Payouts(lines);
    LinesSound(grid, 5, betAmount);
    forall i | 0 <= i < |xs|
      ensures xs[i] >= 0.0 && (betAmount > 0.0 ==> xs[i] > 0.0)
    {
      assert IsWinLine(grid, betAmount, lines[i]);
      PositivePay(lines[i].symbol, betAmount);
    }
    SumNonNegative(xs);
    SumPositiveIff(xs);
    if betAmount > 0.0 && |lines| > 0 {
      assert xs[0] > 0.0;
    }
  }

  /** Nine diamonds win on all five lines, a hundred times the bet each,
      and hit the jackpot. */
  lemma AllDiamonds(betAmount: real)
    ensures var grid := [[Diamond, Diamond, Diamond], [Diamond, Diamond, Diamond], [Diamond, Diamond, Diamond]];
            && |WinningLines(grid, betAmount)| == 5
            && Total(WinningLines(grid, betAmount)) == 500.0 * betAmount
            && Jackpot(WinningLines(grid, betAmount))
  {
    var grid := [[Diamond, Diamond, Diamond], [Diamond, Diamond, Diamond], [Diamond, Diamond, Diamond]];
    var l := WinLine(1, Diamond, 3, 100.0 * betAmount);
    assert LinesUpTo(grid, 1, betAmount) == [l];
    assert LinesUpTo(grid, 2, betAmount) == [l, l.(lineNumber := 2)];
    assert LinesUpTo(grid, 3, betAmount) == [l, l.(lineNumber := 2), l.(lineNumber := 3)];
    assert LinesUpTo(grid, 4, betAmount) == [l, l.(lineNumber := 2), l.(lineNumber := 3), l.(lineNumber := 4)];
    var lines := WinningLines(grid, betAmount);
    assert lines == [l, l.(lineNumber := 2), l.(lineNumber := 3), l.(lineNumber := 4), l.(lineNumber := 5)];
    SumRepeat(Payouts(lines), 100.0 * betAmount);
    assert lines[0].symbol == Diamond;
  }

  lemma {:induction false} SumRepeat(xs: seq<real>, x: real)
    requires forall i :: 0 <= i < |xs| ==> xs[i] == x
    ensures Sum(xs) == |xs| as real * x
  {
    if xs != [] {
      SumRepeat(xs[..|xs| - 1], x);
    }
  }

  /** SlotResultDto. */
  datatype SlotResult = SlotResult(
    reels: seq<seq<Symbol>>,
    winAmount: real,
    winLines: seq<WinLine>,
    balanceAfter: real,
    isJackpot: bool)

  class SlotMachineService {
    const users: UserRepository
    const txs: TransactionService

    ghost predicate Valid()
      reads this, users, txs.repo
    {
      txs.users == users && users.Valid() && txs.repo.Valid()
    }

    constructor (users: UserRepository, txs: TransactionService)
      requires txs.users == users && users.Valid() && txs.repo.Valid()
      ensures Valid() && this.users == users && this.txs == txs
    {
      this.users := users;
      this.txs := txs;
    }

    /** The ledger records of a spin, written once the balance is saved:
        a Bet, then a Win when the spin paid, both carrying that balance. */
    method RecordSpin(userId: int, betAmount: real, win: real, now: int)
      requires Valid() && userId in users.users
      modifies txs.repo
      ensures Valid()
      ensures var n := |old(txs.repo.records)|;
              var final := users.users[userId].balance;
              txs.repo.records == old(txs.repo.records)
                + [Entry(n + 1, userId, Bet, betAmount, final, Some(SlotMachine), now)]
                + (if win > 0.0 then [Entry(n + 2, userId, Win, win, final, Some(SlotMachine), now)] else [])
      ensures NetFlow(txs.repo.records, userId)
                == old(NetFlow(txs.repo.records, userId)) - betAmount + (if win > 0.0 then win else 0.0)
    {
      var bet := txs.CreateTransaction(userId, Bet, betAmount, Some(SlotMachine), now);
      NetFlowAppend(old(txs.repo.records), [bet.value], userId);
      if win > 0.0 {
        ghost var records := txs.repo.records;
        var credit := txs.CreateTransaction(userId, Win, win, Some(SlotMachine), now);
        NetFlowAppend(records, [credit.value], userId);
      }
    }

    /** SpinAsync: an unknown user or a balance below the bet fails before
        anything changes. Otherwise the balance less the bet plus the win is
        persisted once, then a Bet and, for a positive win, a Win are
        recorded, both carrying that final balance. */
    method Spin(userId: int, betAmount: real, draws: seq<uint32>, now: int) returns (r: Result<SlotResult>)
      requires Valid() && |draws| == 9
      modifies users, txs.repo
      ensures Valid()
      ensures userId !in old(users.users) ==> r == Err(UserNotFound) && unchanged(users, txs.repo)
      ensures userId in old(users.users) && old(users.users[userId].balance) < betAmount ==>
                r == Err(InsufficientBalance) && unchanged(users, txs.repo)
      ensures userId in old(users.users) && old(users.users[userId].balance) >= betAmount ==>
                var grid := ReelsOf(draws);
                var lines := WinningLines(grid, betAmount);
                var win := Total(lines);
                var u := old(users.users[userId]);
                var final := u.balance - betAmount + win;
                var n := |old(txs.repo.records)|;
                && users.users == old(users.users)[userId := u.(balance := final)]
                && users.writes == old(users.writes) + 1
                && txs.repo.records == old(txs.repo.records)
                     + [Entry(n + 1, userId, Bet, betAmount, final, Some(SlotMachine), now)]
                     + (if win > 0.0 then [Entry(n + 2, userId, Win, win, final, Some(SlotMachine), now)] else [])
                && (win >= 0.0 ==> Conserves(users, txs.repo, userId))
                && r == Ok(SlotResult(grid, win, lines, final, Jackpot(lines)))
    {
      if userId !in users.users {
        return Err(UserNotFound);
      }
      var user := users.users[userId];
      if user.balance < betAmount {
        return Err(InsufficientBalance);
      }
      user := user.(balance := user.balance - betAmount);
      var reels := GenerateReels(draws);
      var winAmount, winLines, isJackpot := CalculateWinnings(reels, betAmount);
      user := user.(balance := user.balance + winAmount);
      users.Update(user);
      RecordSpin(userId, betAmount, winAmount, now);
      r := Ok(SlotResult(Grid(reels), winAmount, winLines, user.balance, isJackpot));
    }
  }
}
