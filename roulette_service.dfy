/** RouletteService: one spin of a single-zero wheel settles a whole slip
    of bets. The stake of every bet is debited at once, each bet is judged
    against the one winning number, and the sum of the wins is credited
    at once. */
module RouletteService {
  import opened Common
  import opened UserStore
  import opened TransactionStore
  import opened Transactions
  import opened Wagers

  /** RedNumbers; the service looks a number up in it with Contains. */
  const RedNumbers: set<int> := {1, 3, 5, 7, 9, 12, 14, 16, 18, 19, 21, 23, 25, 27, 30, 32, 34, 36}
  /** BlackNumbers; the service declares it but never reads it. */
  const BlackNumbers: set<int> := {2, 4, 6, 8, 10, 11, 13, 15, 17, 20, 22, 24, 26, 28, 29, 31, 33, 35}

  /** SpinWheel: the random value reduced modulo 37 gives a pocket 0-36. */
  function SpinWheel(randomValue: uint32): (n: int)
    ensures 0 <= n <= 36
  {
    (randomValue % 37) as int
  }

  /** Every pocket of the wheel is the outcome of some random value. */
  lemma EveryPocketReachable(n: int)
    requires 0 <= n <= 36
    ensures SpinWheel(n as uint32) == n
  {
  }

  /** GetColor: Green for zero, Red for a red number, Black otherwise. */
  function GetColor(number: int): string
  {
    if number == 0 then "Green"
    else if number in RedNumbers then "Red"
    else "Black"
  }

  /** The usual layout of a single-zero wheel: from 1 to 10 and from 19 to
      28 the odd numbers are red, elsewhere in 1-36 the even ones are. */
  predicate RedOnLayout(n: int)
  {
    1 <= n <= 36 && ((1 <= n <= 10 || 19 <= n <= 28) <==> n % 2 == 1)
  }

  /** The two tables follow the layout, they are disjoint and they cover
      1-36; on the wheel the colour is Green exactly on zero, Red exactly
      on the red table and Black exactly on the black table. */
  lemma ColorPartition(n: int)
    ensures n in RedNumbers <==> RedOnLayout(n)
    ensures n in BlackNumbers <==> 1 <= n <= 36 && !RedOnLayout(n)
    ensures 0 <= n <= 36 ==>
              && (GetColor(n) == "Green" <==> n == 0)
              && (GetColor(n) == "Red" <==> n in RedNumbers)
              && (GetColor(n) == "Black" <==> n in BlackNumbers)
  {
  }

  /** The properties of the winning number SpinAsync passes to EvaluateBet. */
  function IsEven(n: int): bool { n != 0 && n % 2 == 0 }
  function IsHigh(n: int): bool { n >= 19 && n <= 36 }

  /** C#'s `%` on int, which truncates toward zero. */
  function CsRem(a: int, b: int): (r: int)
    requires b > 0
    ensures a >= 0 ==> r == a % b
    ensures -b < r < b
  {
    if a >= 0 then a % b else -((-a) % b)
  }

  /** One entry of the bet slip (RouletteBetDto). */
  datatype Bet = Bet(amount: real, betType: string, number: Option<int>, range: Option<string>)

  /** string.ToLower, on the ASCII letters. */
  function LowerChar(c: char): char
  {
    if 'A' <= c <= 'Z' then (c as int + 32) as char else c
  }

  function ToLower(s: string): (t: string)
    ensures |t| == |s|
    ensures forall i :: 0 <= i < |s| ==> t[i] == LowerChar(s[i])
  {
    if s == [] then [] else [LowerChar(s[0])] + ToLower(s[1..])
  }

  /** The Range of a dozen or column bet, compared case-sensitively. */
  predicate IsFirst(range: Option<string>) { range == Some("1st") || range == Some("first") }
  predicate IsSecond(range: Option<string>) { range == Some("2nd") || range == Some("second") }
  predicate IsThird(range: Option<string>) { range == Some("3rd") || range == Some("third") }

  /** EvaluateBet: whether the bet wins on the number with the given
      colour and properties, and the payout multiplier. */
  function EvaluateBet(bet: Bet, winningNumber: int, color: string, isEven: bool, isHigh: bool): (bool, real)
  {
    var t := ToLower(bet.betType);
    if t == "number" || t == "straight" then (bet.number == Some(winningNumber), 36.0)
    else if t == "red" then (color == "Red", 2.0)
    else if t == "black" then (color == "Black", 2.0)
    else if t == "even" then (winningNumber != 0 && isEven, 2.0)
    else if t == "odd" then (winningNumber != 0 && !isEven, 2.0)
    else if t == "high" then (isHigh, 2.0)
    else if t == "low" then (winningNumber >= 1 && winningNumber <= 18, 2.0)
    else if t == "dozen" then
      if IsFirst(bet.range) then (winningNumber >= 1 && winningNumber <= 12, 3.0)
      else if IsSecond(bet.range) then (winningNumber >= 13 && winningNumber <= 24, 3.0)
      else if IsThird(bet.range) then (winningNumber >= 25 && winningNumber <= 36, 3.0)
      else (false, 0.0)
    else if t == "column" then
      if IsFirst(bet.range) then (winningNumber > 0 && CsRem(winningNumber - 1, 3) == 0, 3.0)
      else if IsSecond(bet.range) then (winningNumber > 0 && CsRem(winningNumber - 2, 3) == 0, 3.0)
      else if IsThird(bet.range) then (winningNumber > 0 && CsRem(winningNumber, 3) == 0, 3.0)
      else (false, 0.0)
    else (false, 0.0)
  }

  /** What a bet slip entry stands for on the table, independent of how
      the service spells it. */
  datatype Wager =
    | Straight(pick: Option<int>)
    | RedBet | BlackBet | EvenBet | OddBet | HighBet | LowBet
    | Dozen(dozen: int)      // 1, 2 or 3
    | Column(column: int)    // 1, 2 or 3
    | Void                   // an unknown type, or a dozen or column without a known range

  function Third(range: Option<string>): int
  {
    if IsFirst(range) then 1 else if IsSecond(range) then 2 else if IsThird(range) then 3 else 0
  }

  /** How the bet type, in any letter case, and the range select a wager. */
  function WagerOf(bet: Bet): Wager
  {
    var t := ToLower(bet.betType);
    if t == "number" || t == "straight" then Straight(bet.number)
    else if t == "red" then RedBet
    else if t == "black" then BlackBet
    else if t == "even" then EvenBet
    else if t == "odd" then OddBet
    else if t == "high" then HighBet
    else if t == "low" then LowBet
    else if t == "dozen" then (if Third(bet.range) == 0 then Void else Dozen(Third(bet.range)))
    else if t == "column" then (if Third(bet.range) == 0 then Void else Column(Third(bet.range)))
    else Void
  }

  /** The pockets a wager covers, by the layout of the table. */
  predicate Covers(w: Wager, n: int)
  {
    match w
    case Straight(pick) => pick == Some(n)
    case RedBet => RedOnLayout(n)
    case BlackBet => 1 <= n <= 36 && !RedOnLayout(n)
    case EvenBet => 1 <= n <= 36 && n % 2 == 0
    case OddBet => 1 <= n <= 36 && n % 2 == 1
    case HighBet => 19 <= n <= 36
    case LowBet => 1 <= n <= 18
    case Dozen(k) => 12 * (k - 1) + 1 <= n <= 12 * k
    case Column(k) => 1 <= n <= 36 && n % 3 == k % 3
    case Void => false
  }

  /** The multiplier a winning wager returns on its stake. */
  function Pays(w: Wager): real
  {
    match w
    case Straight(_) => 36.0
    case Dozen(_) => 3.0
    case Column(_) => 3.0
    case Void => 0.0
    case _ => 2.0
  }

  /** EvaluateBet, fed with the colour and properties SpinAsync derives
      from a number on the wheel, wins exactly when the wager covers that
      number and returns the wager's multiplier. */
  lemma EvaluateBetMeaning(bet: Bet, n: int)
    requires 0 <= n <= 36
    ensures EvaluateBet(bet, n, GetColor(n), IsEven(n), IsHigh(n)) == (Covers(WagerOf(bet), n), Pays(WagerOf(bet)))
  {
    var t := ToLower(bet.betType);
    if t == "red" || t == "black" {
      ColourBetMeaning(bet, n);
    } else if t == "dozen" {
      DozenBetMeaning(bet, n, GetColor(n), IsEven(n), IsHigh(n));
    } else if t == "column" {
      ColumnBetMeaning(bet, n, GetColor(n), IsEven(n), IsHigh(n));
    }
  }

  lemma ColourBetMeaning(bet: Bet, n: int)
    requires 0 <= n <= 36 && (ToLower(bet.betType) == "red" || ToLower(bet.betType) == "black")
    ensures EvaluateBet(bet, n, GetColor(n), IsEven(n), IsHigh(n)) == (Covers(WagerOf(bet), n), Pays(WagerOf(bet)))
  {
    ColorOnLayout(n);
  }

  lemma DozenBetMeaning(bet: Bet, n: int, color: string, isEven: bool, isHigh: bool)
    requires 0 <= n <= 36 && ToLower(bet.betType) == "dozen"
    ensures EvaluateBet(bet, n, color, isEven, isHigh) == (Covers(WagerOf(bet), n), Pays(WagerOf(bet)))
  {
    var t := ToLower(bet.betType);
    assert t != "black" && t[0] == 'd';
    if IsFirst(bet.range) {
      assert WagerOf(bet) == Dozen(1);
    } else if IsSecond(bet.range) {
      assert WagerOf(bet) == Dozen(2);
    } else if IsThird(bet.range) {
      assert WagerOf(bet) == Dozen(3);
    }
  }

  lemma ColumnBetMeaning(bet: Bet, n: int, color: string, isEven: bool, isHigh: bool)
    requires 0 <= n <= 36 && ToLower(bet.betType) == "column"
    ensures EvaluateBet(bet, n, color, isEven, isHigh) == (Covers(WagerOf(bet), n), Pays(WagerOf(bet)))
  {
    var t := ToLower(bet.betType);
    assert t != "number" && t != "dozen" && t[0] == 'c';
    ColumnRemainders(n);
  }

  /** The colour GetColor gives a pocket is the colour of the layout. */
  lemma ColorOnLayout(n: int)
    requires 0 <= n <= 36
    ensures GetColor(n) == "Red" <==> RedOnLayout(n)
    ensures GetColor(n) == "Black" <==> 1 <= n <= 36 && !RedOnLayout(n)
  {
    ColorPartition(n);
  }

  /** The truncating remainders of the column tests pick the pockets
      of one residue class modulo 3 each. */
  lemma ColumnRemainders(n: int)
    requires 0 <= n <= 36
    ensures (n > 0 && CsRem(n - 1, 3) == 0) <==> (1 <= n <= 36 && n % 3 == 1)
    ensures (n > 0 && CsRem(n - 2, 3) == 0) <==> (1 <= n <= 36 && n % 3 == 2)
    ensures (n > 0 && CsRem(n, 3) == 0) <==> (1 <= n <= 36 && n % 3 == 0)
  {
  }

  /** Letter case in the bet type does not matter. */
  lemma CaseInsensitive(bet: Bet, t: string)
    requires ToLower(t) == ToLower(bet.betType)
    ensures forall n, c, e, h :: EvaluateBet(bet.(betType := t), n, c, e, h) == EvaluateBet(bet, n, c, e, h)
  {
  }

  /** How many of the pockets 0 .. k-1 a wager covers. */
  function CoveredBelow(w: Wager, k: nat): nat
  {
    if k == 0 then 0 else CoveredBelow(w, k - 1) + if Covers(w, k - 1) then 1 else 0
  }

  lemma {:induction false} StraightCovers(v: int, k: nat)
    ensures CoveredBelow(Straight(Some(v)), k) == if 0 <= v < k then 1 else 0
  {
    if k > 0 {
      StraightCovers(v, k - 1);
    }
  }

  /** The pockets lo .. hi, counted below k, for a wager covering exactly those. */
  lemma {:induction false} IntervalCovers(w: Wager, lo: nat, hi: nat, k: nat)
    requires lo <= hi && forall n :: Covers(w, n) <==> lo <= n <= hi
    ensures CoveredBelow(w, k) == if k <= lo then 0 else if k <= hi then k - lo else hi + 1 - lo
  {
    if k > 0 {
      IntervalCovers(w, lo, hi, k - 1);
    }
  }

  /** A column covers every third pocket from its first one on. */
  lemma {:induction false} ColumnCovers(c: int, k: nat)
    requires 1 <= c <= 3 && k <= 37
    ensures CoveredBelow(Column(c), k) == if k <= c then 0 else (k - c + 2) / 3
  {
    if k > 0 {
      ColumnCovers(c, k - 1);
      ColumnStep(c, k - 1);
    }
  }

  /** Counting one more pocket m adds one to the column's count exactly
      when m is in the column. */
  lemma ColumnStep(c: int, m: nat)
    requires 1 <= c <= 3 && m <= 36
    ensures (if m + 1 <= c then 0 else (m + 1 - c + 2) / 3)
            == (if m <= c then 0 else (m - c + 2) / 3) + if Covers(Column(c), m) then 1 else 0
  {
    if m >= c {
      var d := m - c;
      assert (d + 3) / 3 == (d + 2) / 3 + if d % 3 == 0 then 1 else 0;
      assert Covers(Column(c), m) <==> d % 3 == 0;
    }
  }

  /** Red pockets below k, block by block of the layout: 1 .. 10 alternate
      starting with red, 11 .. 18 starting with black, 19 .. 28 starting
      with red and 29 .. 36 starting with black. */
  lemma RedCovers(k: nat)
    requires k <= 37
    ensures CoveredBelow(RedBet, k) == if k <= 11 then k / 2 else if k <= 19 then 5 + (k - 11) / 2
                                       else if k <= 29 then 9 + (k - 18) / 2 else 14 + (k - 29) / 2
  {
    if k <= 11 { RedCoversFirst(k); }
    else if k <= 19 { RedCoversSecond(k); }
    else if k <= 29 { RedCoversThird(k); }
    else { RedCoversFourth(k); }
  }

  lemma {:induction false} RedCoversFirst(k: nat)
    requires k <= 11
    ensures CoveredBelow(RedBet, k) == k / 2
  {
    if k > 0 {
      RedCoversFirst(k - 1);
      RedStep(k - 1, 0);
    }
  }

  lemma {:induction false} RedCoversSecond(k: nat)
    requires 11 <= k <= 19
    ensures CoveredBelow(RedBet, k) == 5 + (k - 11) / 2
  {
    if k == 11 {
      RedCoversFirst(11);
    } else {
      RedCoversSecond(k - 1);
      RedStep(k - 1, 11);
    }
  }

  lemma {:induction false} RedCoversThird(k: nat)
    requires 19 <= k <= 29
    ensures CoveredBelow(RedBet, k) == 9 + (k - 18) / 2
  {
    if k == 19 {
      RedCoversSecond(19);
    } else {
      RedCoversThird(k - 1);
      RedStep(k - 1, 18);
    }
  }

  lemma {:induction false} RedCoversFourth(k: nat)
    requires 29 <= k <= 37
    ensures CoveredBelow(RedBet, k) == 14 + (k - 29) / 2
  {
    if k == 29 {
      RedCoversThird(29);
    } else {
      RedCoversFourth(k - 1);
      RedStep(k - 1, 29);
    }
  }

  /** Within a block of the layout that starts at pocket c (0, 11, 18 or
      29), the pockets at an odd distance from c are the red ones, so
      counting one more pocket adds one to the half of the distance
      exactly when that pocket is red. */
  lemma RedStep(m: int, c: int)
    requires (c == 0 && 0 <= m <= 10) || (c == 11 && 11 <= m <= 18) || (c == 18 && 19 <= m <= 28) || (c == 29 && 29 <= m <= 36)
    ensures (m + 1 - c) / 2 == (m - c) / 2 + if Covers(RedBet, m) then 1 else 0
  {
    var d := m - c;
    assert (d + 1) / 2 == d / 2 + if d % 2 == 1 then 1 else 0;
    assert Covers(RedBet, m) <==> d % 2 == 1;
  }

  /** Every pocket from 1 to 36 is red or black and not both. */
  lemma {:induction false} RedBlackCovers(k: nat)
    requires k <= 37
    ensures CoveredBelow(RedBet, k) + CoveredBelow(BlackBet, k) == if k == 0 then 0 else k - 1
  {
    if k > 0 {
      RedBlackCovers(k - 1);
    }
  }

  lemma {:induction false} ParityCovers(k: nat)
    requires k <= 37
    ensures CoveredBelow(OddBet, k) == k / 2
    ensures CoveredBelow(EvenBet, k) == if k == 0 then 0 else (k - 1) / 2
  {
    if k > 0 {
      ParityCovers(k - 1);
    }
  }

  /** The pay table is fair but for the zero: every wager on the table
      times the number of pockets it covers returns 36 of the 37 pockets. */
  lemma PayTable(w: Wager)
    requires w != Void && w != Straight(None)
    requires w.Straight? ==> 0 <= w.pick.value <= 36
    requires w.Dozen? ==> 1 <= w.dozen <= 3
    requires w.Column? ==> 1 <= w.column <= 3
    ensures CoveredBelow(w, 37) as real * Pays(w) == 36.0
  {
    if w.Straight? {
      StraightCovers(w.pick.value, 37);
    } else if w.Dozen? || w.Column? {
      ThirdsCount(w);
    } else {
      EvenMoneyCount(w);
    }
  }

  /** A dozen or a column covers 12 pockets. */
  lemma ThirdsCount(w: Wager)
    requires w.Dozen? ==> 1 <= w.dozen <= 3
    requires w.Column? ==> 1 <= w.column <= 3
    requires w.Dozen? || w.Column?
    ensures CoveredBelow(w, 37) == 12
  {
    if w.Dozen? {
      IntervalCovers(w, 12 * (w.dozen - 1) + 1, 12 * w.dozen, 37);
    } else {
      ColumnCovers(w.column, 37);
    }
  }

  /** Red, black, even, odd, high and low each cover 18 pockets. */
  lemma EvenMoneyCount(w: Wager)
    requires w.RedBet? || w.BlackBet? || w.EvenBet? || w.OddBet? || w.HighBet? || w.LowBet?
    ensures CoveredBelow(w, 37) == 18
  {
    match w
    case HighBet => IntervalCovers(w, 19, 36, 37);
    case LowBet => IntervalCovers(w, 1, 18, 37);
    case RedBet => RedCovers(37);
    case BlackBet => RedCovers(37); RedBlackCovers(37);
    case EvenBet => ParityCovers(37);
    case OddBet => ParityCovers(37);
  }

  /** One entry of RouletteResultDto.BetResults. */
  datatype BetResult = BetResult(betType: string, betAmount: real, isWin: bool, winAmount: real, payout: real)

  /** RouletteResultDto. */
  datatype SpinResult = SpinResult(
    winningNumber: int,
    color: string,
    isEven: bool,
    isHigh: bool,
    betResults: seq<BetResult>,
    totalWinAmount: real,
    balanceAfter: real)

  /** The result SpinAsync records for one bet on number n. */
  function Settle(bet: Bet, n: int): BetResult
  {
    var (isWin, payout) := EvaluateBet(bet, n, GetColor(n), IsEven(n), IsHigh(n));
    BetResult(bet.betType, bet.amount, isWin, WinAmount(bet.amount, isWin, payout), payout)
  }

  /** A winning bet returns its amount times the payout, a losing one nothing. */
  function WinAmount(amount: real, isWin: bool, payout: real): real
  {
    if isWin then amount * payout else 0.0
  }

  /** A settled bet won exactly when its wager covers the number; it
      returns its stake times the wager's multiplier, or nothing. */
  lemma SettleMeaning(bet: Bet, n: int)
    requires 0 <= n <= 36
    ensures var r := Settle(bet, n);
            && (r.isWin <==> Covers(WagerOf(bet), n))
            && r.payout == Pays(WagerOf(bet))
            && r.winAmount == if Covers(WagerOf(bet), n) then bet.amount * Pays(WagerOf(bet)) else 0.0
  {
    EvaluateBetMeaning(bet, n);
  }

  function Settled(bets: seq<Bet>, n: int): (rs: seq<BetResult>)
    ensures |rs| == |bets|
  {
    seq(|bets|, i requires 0 <= i < |bets| => Settle(bets[i], n))
  }

  lemma SettledStep(bets: seq<Bet>, i: int, n: int)
    requires 0 <= i < |bets|
    ensures Settled(bets[..i + 1], n) == Settled(bets[..i], n) + [Settle(bets[i], n)]
  {
    assert bets[..i + 1] == bets[..i] + [bets[i]];
  }

  function Amounts(bets: seq<Bet>): (xs: seq<real>)
    ensures |xs| == |bets|
  {
    seq(|bets|, i requires 0 <= i < |bets| => bets[i].amount)
  }

  function WinAmounts(rs: seq<BetResult>): (xs: seq<real>)
    ensures |xs| == |rs|
  {
    seq(|rs|, i requires 0 <= i < |rs| => rs[i].winAmount)
  }

  /** bets.Sum(b => b.Amount): the stake of the whole slip. */
  function TotalBet(bets: seq<Bet>): real
  {
    Sum(Amounts(bets))
  }

  /** With stakes that are not negative, the slip's total win is not
      negative, and it is positive exactly when some bet won something. */
  lemma TotalWin(bets: seq<Bet>, n: int)
    requires forall i :: 0 <= i < |bets| ==> bets[i].amount >= 0.0
    ensures var xs := WinAmounts(Settled(bets, n));
            && Sum(xs) >= 0.0
            && (Sum(xs) > 0.0 <==> exists i :: 0 <= i < |bets| && Settled(bets, n)[i].isWin && xs[i] > 0.0)
  {
    var rs := Settled(bets, n);
    var xs := WinAmounts(rs);
    forall i | 0 <= i < |xs|
      ensures xs[i] >= 0.0 && (xs[i] > 0.0 ==> rs[i].isWin)
    {
      assert rs[i] == Settle(bets[i], n);
      SettleNonNegative(bets[i], n);
    }
    SumNonNegative(xs);
    SumPositiveIff(xs);
  }

  /** A bet with a stake that is not negative wins nothing negative, and
      returns something only when it won. */
  lemma SettleNonNegative(bet: Bet, n: int)
    requires bet.amount >= 0.0
    ensures Settle(bet, n).winAmount >= 0.0
    ensures Settle(bet, n).winAmount > 0.0 ==> Settle(bet, n).isWin
  {
    var e := EvaluateBet(bet, n, GetColor(n), IsEven(n), IsHigh(n));
    PayNonNegative(bet, n, GetColor(n), IsEven(n), IsHigh(n));
    WinAmountSign(bet.amount, e.0, e.1);
    assert Settle(bet, n) == BetResult(bet.betType, bet.amount, e.0, WinAmount(bet.amount, e.0, e.1), e.1);
  }

  lemma WinAmountSign(amount: real, isWin: bool, payout: real)
    requires amount >= 0.0 && payout >= 0.0
    ensures WinAmount(amount, isWin, payout) >= 0.0
    ensures WinAmount(amount, isWin, payout) > 0.0 ==> isWin
  {
    NonNegativeProduct(amount, payout);
  }

  lemma PayNonNegative(bet: Bet, n: int, color: string, isEven: bool, isHigh: bool)
    ensures EvaluateBet(bet, n, color, isEven, isHigh).1 >= 0.0
  {
  }

  lemma NonNegativeProduct(a: real, b: real)
    requires a >= 0.0 && b >= 0.0
    ensures a * b >= 0.0
  {
  }

  class RouletteService {
    const users: UserRepository
    const txs: TransactionService

    ghost predicate Valid()
      reads this, users, txs.repo
    {
      txs.users == users && users.Valid() && txs.repo.Valid()
    }

    constructor (users: UserRepository, txs: TransactionService)
      requires txs.users == users && users.Valid() && txs.repo.Valid()
      ensures Valid() && this.users == users && this.txs == txs
    {
      this.users := users;
      this.txs := txs;
    }

    /** The foreach of SpinAsync: one result per bet, in slip order, and
        the running total of the wins. */
    method SettleAll(bets: seq<Bet>, winningNumber: int) returns (betResults: seq<BetResult>, totalWinAmount: real)
      ensures betResults == Settled(bets, winningNumber)
      ensures totalWinAmount == Sum(WinAmounts(betResults))
    {
      betResults := [];
      totalWinAmount := 0.0;
      for i := 0 to |bets|
        invariant betResults == Settled(bets[..i], winningNumber)
        invariant totalWinAmount == Sum(WinAmounts(betResults))
      {
        var (isWin, payout) := EvaluateBet(bets[i], winningNumber, GetColor(winningNumber),
                                           IsEven(winningNumber), IsHigh(winningNumber));
        var winAmount := WinAmount(bets[i].amount, isWin, payout);
        totalWinAmount := totalWinAmount + winAmount;
        var result := BetResult(bets[i].betType, bets[i].amount, isWin, winAmount, payout);
        assert WinAmounts(betResults + [result]) == WinAmounts(betResults) + [winAmount];
        SumAppend(WinAmounts(betResults), [winAmount]);
        betResults := betResults + [result];
        assert result == Settle(bets[i], winningNumber);
        SettledStep(bets, i, winningNumber);
      }
      assert bets[..|bets|] == bets;
    }

    /** SpinAsync: an unknown user or a balance below the slip's stake
        fails before anything changes; otherwise the stake is debited as
        one Bet, the wheel is spun, every bet is settled, and a positive
        total is credited as one Win. */
    method Spin(userId: int, bets: seq<Bet>, randomValue: uint32, now: int) returns (r: Result<SpinResult>)
      requires Valid()
      modifies users, txs.repo
      ensures Valid()
      ensures userId !in old(users.users) ==> r == Err(UserNotFound) && unchanged(users, txs.repo)
      ensures userId in old(users.users) && old(users.users[userId].balance) < TotalBet(bets) ==>
                r == Err(InsufficientBalance) && unchanged(users, txs.repo)
      ensures userId in old(users.users) && old(users.users[userId].balance) >= TotalBet(bets) ==>
                var stake := TotalBet(bets);
                var n := SpinWheel(randomValue);
                var results := Settled(bets, n);
                var total := Sum(WinAmounts(results));
                var u := old(users.users[userId]);
                var staked := old(users.users)[userId := u.(balance := u.balance - stake)];
                var bet := Entry(|old(txs.repo.records)| + 1, userId, TxKind.Bet, stake, u.balance - stake,
                                 Some(GameType.Roulette), now);
                && Credited(users, txs.repo, userId, total, GameType.Roulette, now,
                            staked, old(txs.repo.records) + [bet])
                && Conserves(users, txs.repo, userId)
                && r == Ok(SpinResult(n, GetColor(n), IsEven(n), IsHigh(n), results, total,
                                      Credit(u.balance - stake, total)))
    {
      if userId !in users.users {
        return Err(UserNotFound);
      }
      var totalBetAmount := TotalBet(bets);
      if users.users[userId].balance < totalBetAmount {
        return Err(InsufficientBalance);
      }
      ghost var flow0, balance0 := NetFlow(txs.repo.records, userId), users.users[userId].balance;
      var balance := Wagers.TakeStake(users, txs, userId, totalBetAmount, GameType.Roulette, now);
      ghost var flow1 := NetFlow(txs.repo.records, userId);
      assert balance - balance0 == flow1 - flow0;
      var winningNumber := SpinWheel(randomValue);
      var color := GetColor(winningNumber);
      var betResults, totalWinAmount := SettleAll(bets, winningNumber);
      ghost var balance1 := balance;
      balance := Wagers.CreditWin(users, txs, userId, totalWinAmount, GameType.Roulette, now);
      assert users.users[userId].balance - balance1 == NetFlow(txs.repo.records, userId) - flow1;
      r := Ok(SpinResult(winningNumber, color, IsEven(winningNumber), IsHigh(winningNumber),
                         betResults, totalWinAmount, balance));
    }
  }

  /** With stakes that are not negative, the balance after a spin is the
      balance before, less the stake, plus the total win. */
  lemma SpinBalance(balance: real, bets: seq<Bet>, n: int)
    requires forall i :: 0 <= i < |bets| ==> bets[i].amount >= 0.0
    ensures Credit(balance - TotalBet(bets), Sum(WinAmounts(Settled(bets, n))))
            == balance - TotalBet(bets) + Sum(WinAmounts(Settled(bets, n)))
  {
    TotalWin(bets, n);
  }
}
