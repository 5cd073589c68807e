/** Jacks-or-Better hand evaluation (EvaluateHand and IsStraight): the
    LINQ grouping, sorting and counting the service does, and a reference
    classification stated directly on how often each value occurs, with
    the proof that the two agree. */
module PokerHands {
  import opened Shuffles
  import opened PokerCards

  datatype HandRank =
    | RoyalFlush
    | StraightFlush
    | FourOfAKind
    | FullHouse
    | Flush
    | Straight
    | ThreeOfAKind
    | TwoPair
    | JacksOrBetter
    | HighCard

  /** The name EvaluateHand reports. */
  function Label(r: HandRank): string
  {
    match r
    case RoyalFlush => "Royal Flush"
    case StraightFlush => "Straight Flush"
    case FourOfAKind => "Four of a Kind"
    case FullHouse => "Full House"
    case Flush => "Flush"
    case Straight => "Straight"
    case ThreeOfAKind => "Three of a Kind"
    case TwoPair => "Two Pair"
    case JacksOrBetter => "Jacks or Better"
    case HighCard => "High Card"
  }

  /** The payout multiplier EvaluateHand reports. */
  function Multiplier(r: HandRank): real
  {
    match r
    case RoyalFlush => 250.0
    case StraightFlush => 50.0
    case FourOfAKind => 25.0
    case FullHouse => 9.0
    case Flush => 6.0
    case Straight => 4.0
    case ThreeOfAKind => 3.0
    case TwoPair => 2.0
    case JacksOrBetter => 1.0
    case HighCard => 0.0
  }

  /** The position of a rank in the pay table, best first. */
  function Order(r: HandRank): nat
  {
    match r
    case RoyalFlush => 0
    case StraightFlush => 1
    case FourOfAKind => 2
    case FullHouse => 3
    case Flush => 4
    case Straight => 5
    case ThreeOfAKind => 6
    case TwoPair => 7
    case JacksOrBetter => 8
    case HighCard => 9
  }

  /** Only a high card pays nothing, and a better rank pays strictly more. */
  lemma PayTable(r: HandRank, s: HandRank)
    ensures Multiplier(r) > 0.0 <==> r != HighCard
    ensures Order(r) < Order(s) ==> Multiplier(r) > Multiplier(s)
  {
  }

  // ---------------------------------------------------------------------
  // The LINQ building blocks

  /** hand.Select(c => c.Value) */
  function Values(hand: seq<Card>): (vs: seq<int>)
    ensures |vs| == |hand|
    ensures forall i :: 0 <= i < |hand| ==> vs[i] == hand[i].value
  {
    seq(|hand|, i requires 0 <= i < |hand| => hand[i].value)
  }

  /** hand.All(c => c.Suit == hand[0].Suit) */
  predicate IsFlush(hand: seq<Card>)
    requires |hand| >= 1
  {
    forall i :: 0 <= i < |hand| ==> hand[i].suit == hand[0].suit
  }

  /** The sort key of OrderBy(v => v), written as a descending key. */
  function Neg(v: int): int { -v }

  /** The sort key of OrderByDescending(v => v). */
  function Id(v: int): int { v }

  /** Places x before the first element whose key is not above its own. */
  function InsertBy(x: int, s: seq<int>, key: int -> int): seq<int>
  {
    if s == [] || key(x) >= key(s[0]) then [x] + s
    else [s[0]] + InsertBy(x, s[1..], key)
  }

  /** Insertion sort, highest key first. */
  function SortBy(s: seq<int>, key: int -> int): (r: seq<int>)
    ensures |r| == |s|
  {
    if s == [] then []
    else
      InsertByLength(s[0], SortBy(s[1..], key), key);
      InsertBy(s[0], SortBy(s[1..], key), key)
  }

  lemma {:induction false} InsertByLength(x: int, s: seq<int>, key: int -> int)
    ensures |InsertBy(x, s, key)| == |s| + 1
  {
    if s != [] && key(x) < key(s[0]) {
      InsertByLength(x, s[1..], key);
    }
  }

  predicate DescBy(s: seq<int>, key: int -> int)
  {
    forall i, j :: 0 <= i < j < |s| ==> key(s[i]) >= key(s[j])
  }

  lemma {:induction false} InsertByPerm(x: int, s: seq<int>, key: int -> int)
    ensures multiset(InsertBy(x, s, key)) == multiset(s) + multiset{x}
  {
    if s != [] && key(x) < key(s[0]) {
      InsertByPerm(x, s[1..], key);
      assert s == [s[0]] + s[1..];
    }
  }

  /** An element whose key is at least every key of an ordered sequence
      can go in front of it. */
  lemma ConsDesc(y: int, r: seq<int>, key: int -> int)
    requires DescBy(r, key)
    requires forall k :: 0 <= k < |r| ==> key(y) >= key(r[k])
    ensures DescBy([y] + r, key)
  {
    var q := [y] + r;
    forall i, j | 0 <= i < j < |q|
      ensures key(q[i]) >= key(q[j])
    {
      assert q[j] == r[j - 1];
      if i > 0 {
        assert q[i] == r[i - 1];
      }
    }
  }

  lemma {:induction false} InsertByOrder(x: int, s: seq<int>, key: int -> int)
    requires DescBy(s, key)
    ensures DescBy(InsertBy(x, s, key), key)
  {
    if s == [] || key(x) >= key(s[0]) {
      ConsDesc(x, s, key);
    } else {
      var t := InsertBy(x, s[1..], key);
      assert DescBy(s[1..], key) by {
        forall i, j | 0 <= i < j < |s[1..]|
          ensures key(s[1..][i]) >= key(s[1..][j])
        {
          assert s[1..][i] == s[i + 1] && s[1..][j] == s[j + 1];
        }
      }
      InsertByOrder(x, s[1..], key);
      InsertByPerm(x, s[1..], key);
      forall k | 0 <= k < |t|
        ensures key(s[0]) >= key(t[k])
      {
        assert t[k] in multiset(t);
        if t[k] != x {
          assert t[k] in multiset(s[1..]);
          var m :| 0 <= m < |s[1..]| && s[1..][m] == t[k];
          assert s[m + 1] == t[k];
        }
      }
      ConsDesc(s[0], t, key);
    }
  }

  /** SortBy orders by key and keeps the same elements. */
  lemma {:induction false} SortBySpec(s: seq<int>, key: int -> int)
    ensures DescBy(SortBy(s, key), key)
    ensures multiset(SortBy(s, key)) == multiset(s)
  {
    SortByOrder(s, key);
    SortByPerm(s, key);
  }

  lemma {:induction false} SortByOrder(s: seq<int>, key: int -> int)
    ensures DescBy(SortBy(s, key), key)
  {
    if s != [] {
      SortByOrder(s[1..], key);
      InsertByOrder(s[0], SortBy(s[1..], key), key);
    }
  }

  lemma {:induction false} SortByPerm(s: seq<int>, key: int -> int)
    ensures multiset(SortBy(s, key)) == multiset(s)
  {
    if s != [] {
      SortByPerm(s[1..], key);
      InsertByPerm(s[0], SortBy(s[1..], key), key);
      assert s == [s[0]] + s[1..];
    }
  }

  /** Two key-ordered sequences with the same elements are equal when the
      key tells elements apart. */
  lemma {:induction false} SortedUnique(a: seq<int>, b: seq<int>, key: int -> int)
    requires forall x, y :: key(x) == key(y) ==> x == y
    requires DescBy(a, key) && DescBy(b, key) && multiset(a) == multiset(b)
    ensures a == b
    decreases |a|
  {
    if a != [] {
      SortedHeads(a, b, key);
      DescTail(a, key);
      DescTail(b, key);
      SortedUnique(a[1..], b[1..], key);
    }
  }

  /** Two key-ordered sequences with the same elements start alike, and
      their tails hold the same elements. */
  lemma SortedHeads(a: seq<int>, b: seq<int>, key: int -> int)
    requires forall x, y :: key(x) == key(y) ==> x == y
    requires DescBy(a, key) && DescBy(b, key) && multiset(a) == multiset(b) && a != []
    ensures b != [] && a[0] == b[0] && multiset(a[1..]) == multiset(b[1..])
  {
    assert a[0] in multiset(a);
    KeyBelowHead(b, a[0], key);
    KeyBelowHead(a, b[0], key);
    TailMultiset(a);
    TailMultiset(b);
  }

  /** No element of a key-ordered sequence has a larger key than its head. */
  lemma KeyBelowHead(b: seq<int>, x: int, key: int -> int)
    requires DescBy(b, key) && x in multiset(b)
    ensures b != [] && key(b[0]) >= key(x) && b[0] in multiset(b)
  {
    assert x in b;
    var i :| 0 <= i < |b| && b[i] == x;
    if i > 0 {
      assert key(b[0]) >= key(b[i]);
    }
  }

  /** The tail holds the elements but the head. */
  lemma TailMultiset(a: seq<int>)
    requires a != []
    ensures multiset(a[1..]) == multiset(a) - multiset{a[0]}
  {
    assert a == [a[0]] + a[1..];
  }

  lemma DescTail(a: seq<int>, key: int -> int)
    requires DescBy(a, key) && a != []
    ensures DescBy(a[1..], key)
  {
    forall x, y | 0 <= x < y < |a[1..]| ensures key(a[1..][x]) >= key(a[1..][y]) {
      assert a[1..][x] == a[x + 1] && a[1..][y] == a[y + 1];
    }
  }


  /** sortedHand.Select(c => c.Value): the hand's values, lowest first. */
  function SortedValues(hand: seq<Card>): (s: seq<int>)
    ensures |s| == |hand|
  {
    SortBy(Values(hand), Neg)
  }

  lemma SortedValuesSpec(hand: seq<Card>)
    ensures forall i, j :: 0 <= i < j < |hand| ==> SortedValues(hand)[i] <= SortedValues(hand)[j]
    ensures multiset(SortedValues(hand)) == multiset(Values(hand))
  {
    SortBySpec(Values(hand), Neg);
    forall i, j | 0 <= i < j < |hand|
      ensures SortedValues(hand)[i] <= SortedValues(hand)[j]
    {
      assert Neg(SortedValues(hand)[i]) >= Neg(SortedValues(hand)[j]);
    }
  }

  /** The distinct values in order of first appearance (the GroupBy keys). */
  function Keys(vs: seq<int>): (ks: seq<int>)
    ensures forall v :: v in ks <==> v in vs
    ensures Distinct(ks)
  {
    if vs == [] then []
    else
      var ks := Keys(vs[..|vs| - 1]);
      assert vs == vs[..|vs| - 1] + [vs[|vs| - 1]];
      if vs[|vs| - 1] in ks then ks else ks + [vs[|vs| - 1]]
  }

  /** The group size of a value, as the sort key of the groups. */
  function CountKey(vs: seq<int>): int -> int
  {
    v => multiset(vs)[v]
  }

  /** The group keys, largest group first. */
  function KeysByCount(vs: seq<int>): seq<int>
  {
    SortBy(Keys(vs), CountKey(vs))
  }

  /** valueCounts.Values.OrderByDescending(v => v): the group sizes,
      largest first, listed here through the keys ordered by group size,
      which gives the same sequence. */
  function Counts(vs: seq<int>): (counts: seq<int>)
    ensures |counts| == |Keys(vs)|
  {
    var ks := KeysByCount(vs);
    seq(|ks|, i requires 0 <= i < |ks| => multiset(vs)[ks[i]])
  }

  /** valueCounts.Keys.OrderByDescending(v => v) */
  function UniqueValues(vs: seq<int>): seq<int>
  {
    SortBy(Keys(vs), Id)
  }

  /** uniqueValues.First(v => valueCounts[v] == count) */
  function FirstWithCount(us: seq<int>, vs: seq<int>, count: nat): (v: int)
    requires exists i :: 0 <= i < |us| && multiset(vs)[us[i]] == count
    ensures v in us && multiset(vs)[v] == count
  {
    if multiset(vs)[us[0]] == count then us[0]
    else
      assert exists i :: 0 <= i < |us[1..]| && multiset(vs)[us[1..][i]] == count by {
        var i :| 0 <= i < |us| && multiset(vs)[us[i]] == count;
        assert us[1..][i - 1] == us[i];
      }
      FirstWithCount(us[1..], vs, count)
  }

  /** First(...) returns the earliest value with that count: every value
      before it in `us` has another count. */
  lemma {:induction false} FirstWithCountIsFirst(us: seq<int>, vs: seq<int>, count: nat)
    requires exists i :: 0 <= i < |us| && multiset(vs)[us[i]] == count
    ensures exists j :: 0 <= j < |us| && us[j] == FirstWithCount(us, vs, count)
                        && forall i :: 0 <= i < j ==> multiset(vs)[us[i]] != count
  {
    if multiset(vs)[us[0]] == count {
      assert us[0] == FirstWithCount(us, vs, count);
    } else {
      var t := us[1..];
      assert exists i :: 0 <= i < |t| && multiset(vs)[t[i]] == count by {
        var i :| 0 <= i < |us| && multiset(vs)[us[i]] == count;
        assert t[i - 1] == us[i];
      }
      FirstWithCountIsFirst(t, vs, count);
      var j :| 0 <= j < |t| && t[j] == FirstWithCount(t, vs, count)
               && forall i :: 0 <= i < j ==> multiset(vs)[t[i]] != count;
      assert us[j + 1] == FirstWithCount(us, vs, count);
      forall i | 0 <= i < j + 1
        ensures multiset(vs)[us[i]] != count
      {
        if i > 0 {
          assert us[i] == t[i - 1];
        }
      }
    }
  }

  // ---------------------------------------------------------------------
  // IsStraight

  /** Each value is one more than the one before it. */
  predicate Consecutive(s: seq<int>)
  {
    forall i :: 1 <= i < |s| ==> s[i] == s[i - 1] + 1
  }

  /** A-2-3-4-5, with the ace sorted last as value 14. */
  predicate IsWheel(s: seq<int>)
    requires |s| == 5
  {
    s[0] == 2 && s[1] == 3 && s[2] == 4 && s[3] == 5 && s[4] == 14
  }

  /** What IsStraight accepts in the sorted values. */
  predicate StraightValues(s: seq<int>)
    requires |s| == 5
  {
    Consecutive(s) || IsWheel(s)
  }

  /** IsStraight over the values of the sorted hand: a loop that stops at
      the first gap, then the wheel test. */
  method IsStraight(sortedValues: seq<int>) returns (b: bool)
    requires |sortedValues| == 5
    ensures b <==> StraightValues(sortedValues)
  {
    var isRegularStraight := true;
    var i := 1;
    while i < |sortedValues|
      invariant 1 <= i <= |sortedValues|
      invariant isRegularStraight
      invariant forall k :: 1 <= k < i ==> sortedValues[k] == sortedValues[k - 1] + 1
    {
      if sortedValues[i] != sortedValues[i - 1] + 1 {
        isRegularStraight := false;
        break;
      }
      i := i + 1;
    }
    if isRegularStraight {
      return true;
    }
    if sortedValues[0] == 2 && sortedValues[1] == 3 && sortedValues[2] == 4
       && sortedValues[3] == 5 && sortedValues[4] == 14 {
      return true;
    }
    return false;
  }

  // ---------------------------------------------------------------------
  // The reference classification, on the multiset of values

  /** Five consecutive values from lo. */
  function Run(lo: int): multiset<int>
  {
    multiset{lo, lo + 1, lo + 2, lo + 3, lo + 4}
  }

  function Wheel(): multiset<int>
  {
    multiset{2, 3, 4, 5, 14}
  }

  ghost predicate IsRun(m: multiset<int>)
  {
    exists lo :: m == Run(lo)
  }

  /** Some value occurs exactly k times. */
  ghost predicate HasGroup(m: multiset<int>, k: nat)
  {
    exists v :: m[v] == k
  }

  ghost predicate HasTwoPairs(m: multiset<int>)
  {
    exists v, w :: v != w && m[v] == 2 && m[w] == 2
  }

  /** A pair of jacks, queens, kings or aces. */
  ghost predicate HasHighPair(m: multiset<int>)
  {
    exists v :: v >= 11 && m[v] == 2
  }

  /** What the rank of a hand depends on: whether it is a flush, whether
      its values in ascending order are a straight (consecutive, or the
      wheel) and whether that straight starts at ten, and which groups of
      equal values it holds. StraightIff shows that the straight tests are
      the same as the values being five consecutive ones, the wheel, or ten
      to ace. */
  datatype Features = Features(
    flush: bool, straight: bool, tenToAce: bool,
    four: bool, three: bool, pair: bool, twoPairs: bool, highPair: bool)

  ghost function HandFeatures(hand: seq<Card>): Features
    requires |hand| == 5
  {
    var m := multiset(Values(hand));
    var s := SortedValues(hand);
    Features(IsFlush(hand), StraightValues(s), StraightValues(s) && s[0] == 10,
             HasGroup(m, 4), HasGroup(m, 3), HasGroup(m, 2), HasTwoPairs(m), HasHighPair(m))
  }

  /** The pay table's ranks, best first, on the features of a hand. */
  function Rank(f: Features): HandRank
  {
    if f.flush && f.tenToAce then RoyalFlush
    else if f.flush && f.straight then StraightFlush
    else if f.four then FourOfAKind
    else if f.three && f.pair then FullHouse
    else if f.flush then Flush
    else if f.straight then Straight
    else if f.three then ThreeOfAKind
    else if f.twoPairs then TwoPair
    else if f.highPair then JacksOrBetter
    else HighCard
  }

  /** The Jacks-or-Better rank of a five-card hand, from its suits and
      from how many times each value occurs. */
  ghost function Classify(hand: seq<Card>): HandRank
    requires |hand| == 5
  {
    Rank(HandFeatures(hand))
  }

  // ---------------------------------------------------------------------
  // Straights: the sorted test against the multiset one

  /** Five consecutive values are the run from the first. */
  lemma ConsecutiveRun(s: seq<int>)
    requires |s| == 5 && Consecutive(s)
    ensures multiset(s) == Run(s[0])
  {
    assert s[1] == s[0] + 1 && s[2] == s[1] + 1 && s[3] == s[2] + 1 && s[4] == s[3] + 1;
    assert s == [s[0], s[0] + 1, s[0] + 2, s[0] + 3, s[0] + 4];
  }

  /** Ascending values with the elements of a given ascending sequence
      are that sequence. */
  lemma AscendingIs(s: seq<int>, r: seq<int>)
    requires DescBy(s, Neg) && DescBy(r, Neg) && multiset(s) == multiset(r)
    ensures s == r
  {
    SortedUnique(s, r, Neg);
  }

  /** The run from lo, written out in order. */
  lemma RunSorted(lo: int)
    ensures var r := [lo, lo + 1, lo + 2, lo + 3, lo + 4];
            DescBy(r, Neg) && Consecutive(r) && multiset(r) == Run(lo)
  {
    AscendingFive(lo, lo + 1, lo + 2, lo + 3, lo + 4);
  }

  /** Five increasing values, written in order, are ordered by Neg. */
  lemma AscendingFive(a: int, b: int, c: int, d: int, e: int)
    requires a < b < c < d < e
    ensures DescBy([a, b, c, d, e], Neg)
  {
    var r := [a, b, c, d, e];
    forall i, j | 0 <= i < j < 5
      ensures Neg(r[i]) >= Neg(r[j])
    {
      assert r[i] < r[j];
    }
  }

  lemma RunAscending(s: seq<int>, lo: int)
    requires DescBy(s, Neg) && multiset(s) == Run(lo)
    ensures s == [lo, lo + 1, lo + 2, lo + 3, lo + 4]
    ensures Consecutive(s)
  {
    RunSorted(lo);
    AscendingIs(s, [lo, lo + 1, lo + 2, lo + 3, lo + 4]);
  }

  lemma WheelAscending(s: seq<int>)
    requires DescBy(s, Neg) && multiset(s) == Wheel()
    ensures s == [2, 3, 4, 5, 14]
  {
    var r := [2, 3, 4, 5, 14];
    assert multiset(r) == Wheel();
    AscendingFive(2, 3, 4, 5, 14);
    AscendingIs(s, r);
  }

  /** On ascending values, IsStraight's test holds exactly for five
      consecutive values or the wheel, and it starts at 10 exactly for
      ten to ace. */
  lemma AscendingStraight(s: seq<int>)
    requires |s| == 5 && DescBy(s, Neg)
    ensures StraightValues(s) <==> IsRun(multiset(s)) || multiset(s) == Wheel()
    ensures StraightValues(s) && s[0] == 10 <==> multiset(s) == Run(10)
  {
    StraightCases(s);
    TenToAce(s);
  }

  lemma StraightCases(s: seq<int>)
    requires |s| == 5 && DescBy(s, Neg)
    ensures StraightValues(s) <==> IsRun(multiset(s)) || multiset(s) == Wheel()
  {
    if StraightValues(s) {
      StraightMultiset(s);
    }
    if IsRun(multiset(s)) || multiset(s) == Wheel() {
      MultisetStraight(s);
    }
  }

  lemma TenToAce(s: seq<int>)
    requires |s| == 5 && DescBy(s, Neg)
    ensures StraightValues(s) && s[0] == 10 <==> multiset(s) == Run(10)
  {
    if StraightValues(s) && s[0] == 10 {
      StraightMultiset(s);
    }
    if multiset(s) == Run(10) {
      RunAscending(s, 10);
    }
  }

  /** Sorted values that pass the test form a run or the wheel, and the
      run from ten when they start at ten. */
  lemma StraightMultiset(s: seq<int>)
    requires |s| == 5 && StraightValues(s)
    ensures IsRun(multiset(s)) || multiset(s) == Wheel()
    ensures s[0] == 10 ==> multiset(s) == Run(10)
  {
    if Consecutive(s) {
      ConsecutiveRun(s);
      assert multiset(s) == Run(s[0]);
    } else {
      assert s == [2, 3, 4, 5, 14];
    }
  }

  /** Ascending values forming a run or the wheel pass the test. */
  lemma MultisetStraight(s: seq<int>)
    requires |s| == 5 && DescBy(s, Neg) && (IsRun(multiset(s)) || multiset(s) == Wheel())
    ensures StraightValues(s)
  {
    if IsRun(multiset(s)) {
      RunConsecutive(s);
    } else {
      WheelAscending(s);
    }
  }

  /** Ascending values forming a run are consecutive. */
  lemma RunConsecutive(s: seq<int>)
    requires DescBy(s, Neg) && IsRun(multiset(s))
    ensures Consecutive(s)
  {
    var lo :| multiset(s) == Run(lo);
    RunAscending(s, lo);
  }


  /** IsStraight's test on the sorted values of a hand, read on the
      multiset of its values. */
  lemma StraightIff(hand: seq<Card>)
    requires |hand| == 5
    ensures var m := multiset(Values(hand));
            && (StraightValues(SortedValues(hand)) <==> IsRun(m) || m == Wheel())
            && (StraightValues(SortedValues(hand)) && SortedValues(hand)[0] == 10 <==> m == Run(10))
  {
    SortBySpec(Values(hand), Neg);
    AscendingStraight(SortedValues(hand));
  }

  /** The straight ranks on the values alone: a royal flush is a flush
      from ten to ace, and a straight flush is any other flush of five
      consecutive values or of A-2-3-4-5, which is not royal. */
  lemma ClassifyStraights(hand: seq<Card>)
    requires |hand| == 5
    ensures var m := multiset(Values(hand));
            && (Classify(hand) == RoyalFlush <==> IsFlush(hand) && m == Run(10))
            && (Classify(hand) == StraightFlush <==> IsFlush(hand) && (IsRun(m) || m == Wheel()) && m != Run(10))
            && (IsFlush(hand) && m == Wheel() ==> Classify(hand) == StraightFlush)
  {
    StraightIff(hand);
    assert Wheel()[2] == 1 && Run(10)[2] == 0;
  }

  // ---------------------------------------------------------------------
  // Group counts: the sorted sizes against the multiset

  lemma {:induction false} PairBound(vs: seq<int>, v: int, w: int)
    requires v != w
    ensures multiset(vs)[v] + multiset(vs)[w] <= |vs|
  {
    if vs != [] {
      assert vs == vs[..|vs| - 1] + [vs[|vs| - 1]];
      PairBound(vs[..|vs| - 1], v, w);
    }
  }

  lemma {:induction false} AllSame(vs: seq<int>, x: int)
    requires forall i :: 0 <= i < |vs| ==> vs[i] == x
    ensures multiset(vs)[x] == |vs|
  {
    if vs != [] {
      assert vs == vs[..|vs| - 1] + [vs[|vs| - 1]];
      AllSame(vs[..|vs| - 1], x);
    }
  }

  lemma {:induction false} DistinctCount(s: seq<int>, x: int)
    requires Distinct(s)
    ensures multiset(s)[x] <= 1
  {
    if s != [] {
      assert s == [s[0]] + s[1..];
      assert Distinct(s[1..]) by {
        forall i, j | 0 <= i < j < |s[1..]|
          ensures s[1..][i] != s[1..][j]
        {
          assert s[1..][i] == s[i + 1] && s[1..][j] == s[j + 1];
        }
      }
      DistinctCount(s[1..], x);
      forall k | 0 <= k < |s[1..]|
        ensures s[1..][k] != s[0]
      {
        assert s[1..][k] == s[k + 1];
      }
      assert s[0] !in s[1..];
    }
  }

  /** The keys ordered by group size: every value once, largest group
      first. */
  lemma KeysByCountFacts(vs: seq<int>)
    ensures var ks := KeysByCount(vs);
            && (forall v :: v in ks <==> v in vs)
            && (forall i, j :: 0 <= i < j < |ks| ==> multiset(vs)[ks[i]] >= multiset(vs)[ks[j]])
            && Distinct(ks)
  {
    KeysByCountMembers(vs);
    KeysByCountOrdered(vs);
    SortBySpec(Keys(vs), CountKey(vs));
    DistinctPerm(Keys(vs), KeysByCount(vs));
  }

  /** A rearrangement of a sequence without repeats has none either. */
  lemma DistinctPerm(a: seq<int>, b: seq<int>)
    requires Distinct(a) && multiset(a) == multiset(b)
    ensures Distinct(b)
  {
    forall i, j | 0 <= i < j < |b|
      ensures b[i] != b[j]
    {
      DistinctCount(a, b[i]);
      assert b == b[..j] + b[j..];
      assert b[i] in multiset(b[..j]) by {
        assert b[..j][i] == b[i];
      }
      assert b[j] in multiset(b[j..]) by {
        assert b[j..][0] == b[j];
      }
    }
  }

  lemma KeysByCountMembers(vs: seq<int>)
    ensures forall v :: v in KeysByCount(vs) <==> v in vs
  {
    var ks := KeysByCount(vs);
    SortBySpec(Keys(vs), CountKey(vs));
    forall v
      ensures v in ks <==> v in vs
    {
      assert v in ks <==> v in multiset(ks);
      assert v in Keys(vs) <==> v in multiset(Keys(vs));
    }
  }

  lemma KeysByCountOrdered(vs: seq<int>)
    ensures var ks := KeysByCount(vs);
            forall i, j :: 0 <= i < j < |ks| ==> multiset(vs)[ks[i]] >= multiset(vs)[ks[j]]
  {
    var ks := KeysByCount(vs);
    SortBySpec(Keys(vs), CountKey(vs));
    forall i, j | 0 <= i < j < |ks|
      ensures multiset(vs)[ks[i]] >= multiset(vs)[ks[j]]
    {
      assert CountKey(vs)(ks[i]) >= CountKey(vs)(ks[j]);
    }
  }

  /** The largest group size is the size of the first key's group. */
  lemma MaxCount(vs: seq<int>, v: int)
    requires v in vs
    ensures |KeysByCount(vs)| >= 1
    ensures Counts(vs)[0] == multiset(vs)[KeysByCount(vs)[0]] >= multiset(vs)[v]
    ensures KeysByCount(vs)[0] in vs
  {
    var ks := KeysByCount(vs);
    KeysByCountFacts(vs);
    var p :| 0 <= p < |ks| && ks[p] == v;
    if p > 0 {
      assert multiset(vs)[ks[0]] >= multiset(vs)[ks[p]];
    }
  }

  /** Any value outside the first group has a group no larger than the
      second size. */
  lemma SecondCount(vs: seq<int>, v: int)
    requires v in vs && |KeysByCount(vs)| >= 1 && v != KeysByCount(vs)[0]
    ensures |KeysByCount(vs)| >= 2
    ensures Counts(vs)[1] == multiset(vs)[KeysByCount(vs)[1]] >= multiset(vs)[v]
    ensures KeysByCount(vs)[1] != KeysByCount(vs)[0]
  {
    var ks := KeysByCount(vs);
    KeysByCountFacts(vs);
    var p :| 0 <= p < |ks| && ks[p] == v;
    if p > 1 {
      assert multiset(vs)[ks[1]] >= multiset(vs)[ks[p]];
    }
  }

  /** In five values, another value than the first key exists unless all
      five are the same. */
  lemma OtherValue(vs: seq<int>, x: int) returns (w: int)
    requires multiset(vs)[x] < |vs|
    ensures w in vs && w != x
  {
    if forall i :: 0 <= i < |vs| ==> vs[i] == x {
      AllSame(vs, x);
    }
    var i :| 0 <= i < |vs| && vs[i] != x;
    w := vs[i];
  }

  /** How the checks of EvaluateHand on the sorted group sizes read on the
      multiset of five values. */
  lemma CountsFacts(vs: seq<int>)
    requires |vs| == 5
    ensures var m := multiset(vs);
            var c := Counts(vs);
            && |c| >= 1
            && (c[0] == 4 <==> HasGroup(m, 4))
            && (c[0] == 3 <==> HasGroup(m, 3))
            && (c[0] == 2 <==> HasGroup(m, 2) && !HasGroup(m, 3) && !HasGroup(m, 4))
            && (c[0] == 3 ==> |c| >= 2 && (c[1] == 2 <==> HasGroup(m, 2)))
            && (c[0] == 2 ==> |c| >= 2 && (c[1] == 2 <==> HasTwoPairs(m)))
  {
    var m := multiset(vs);
    var ks := KeysByCount(vs);
    var c := Counts(vs);
    MaxCount(vs, vs[0]);
    var k0 := ks[0];
    assert c[0] == m[k0] && k0 in vs;
    if c[0] < 5 {
      var w := OtherValue(vs, k0);
      SecondCount(vs, w);
    }
    // A value outside the first group: its size and the first add up to at most five.
    forall v | v != k0
      ensures m[v] + c[0] <= 5
    {
      PairBound(vs, v, k0);
    }
    forall v | m[v] > 0
      ensures c[0] >= m[v]
    {
      assert v in m;
      MaxCount(vs, v);
    }
    if HasGroup(m, 4) {
      var v :| m[v] == 4;
    }
    if HasGroup(m, 3) {
      var v :| m[v] == 3;
    }
    if HasGroup(m, 2) {
      var v :| m[v] == 2;
      assert c[0] >= 2;
    }
    if c[0] == 3 {
      if HasGroup(m, 2) {
        var w :| m[w] == 2;
        assert w in vs && w != k0;
        SecondCount(vs, w);
      }
    }
    if c[0] == 2 {
      assert c[1] == m[ks[1]] && ks[1] != k0;
      if HasTwoPairs(m) {
        var v, w :| v != w && m[v] == 2 && m[w] == 2;
        var u := if v != k0 then v else w;
        assert u in vs && u != k0;
        SecondCount(vs, u);
        assert c[1] <= c[0] by {
          KeysByCountFacts(vs);
        }
      }
      if c[1] == 2 {
        assert m[ks[0]] == 2 && m[ks[1]] == 2;
      }
    }
  }

  /** The pair EvaluateHand looks up once no better rank applies is the
      only pair, so it is a high pair exactly when the hand has one. */
  lemma PairValueFacts(vs: seq<int>)
    requires |vs| == 5
    requires HasGroup(multiset(vs), 2) && !HasTwoPairs(multiset(vs))
    ensures exists i :: 0 <= i < |UniqueValues(vs)| && multiset(vs)[UniqueValues(vs)[i]] == 2
    ensures FirstWithCount(UniqueValues(vs), vs, 2) >= 11 <==> HasHighPair(multiset(vs))
  {
    var m := multiset(vs);
    var v :| m[v] == 2;
    assert v in vs;
    var us := UniqueValues(vs);
    SortBySpec(Keys(vs), Id);
    assert v in multiset(us) by {
      assert v in Keys(vs);
    }
    var i :| 0 <= i < |us| && us[i] == v;
    var p := FirstWithCount(us, vs, 2);
    assert m[p] == 2 && m[v] == 2;
    assert p == v;
    if HasHighPair(m) {
      var h :| h >= 11 && m[h] == 2;
      assert m[h] == 2 && m[v] == 2;
      assert h == v;
    }
  }

  lemma PairsAreGroups(m: multiset<int>)
    ensures HasHighPair(m) ==> HasGroup(m, 2)
    ensures HasTwoPairs(m) ==> HasGroup(m, 2)
  {
    if HasHighPair(m) {
      var h :| h >= 11 && m[h] == 2;
      assert m[h] == 2;
    }
    if HasTwoPairs(m) {
      var v, w :| v != w && m[v] == 2 && m[w] == 2;
      assert m[v] == 2;
    }
  }

  // ---------------------------------------------------------------------
  // EvaluateHand

  /** EvaluateHand: the checks in the service's order on the flush test,
      the straight test and the sorted group sizes. Whatever the order of
      the cards, it reports the rank of the reference classification and
      that rank's multiplier. */
  method EvaluateHand(hand: seq<Card>) returns (handRank: string, payout: real)
    requires |hand| == 5
    ensures handRank == Label(Classify(hand)) && payout == Multiplier(Classify(hand))
  {
    var vs := Values(hand);
    var sortedValues := SortedValues(hand);
    var isFlush := IsFlush(hand);
    var isStraight := IsStraight(sortedValues);
    var counts := Counts(vs);
    var uniqueValues := UniqueValues(vs);
    ChainFacts(hand);
    ghost var f := HandFeatures(hand);

    var rank := HighCard;
    if isFlush && isStraight && sortedValues[0] == 10 {
      rank := RoyalFlush;
    } else if isFlush && isStraight {
      rank := StraightFlush;
    } else if counts[0] == 4 {
      rank := FourOfAKind;
    } else if counts[0] == 3 && counts[1] == 2 {
      rank := FullHouse;
    } else if isFlush {
      rank := Flush;
    } else if isStraight {
      rank := Straight;
    } else if counts[0] == 3 {
      rank := ThreeOfAKind;
    } else if counts[0] == 2 && counts[1] == 2 {
      rank := TwoPair;
    } else if counts[0] == 2 {
      var pairValue := FirstWithCount(uniqueValues, vs, 2);
      if pairValue >= 11 {
        rank := JacksOrBetter;
      }
    }
    assert rank == Rank(f);
    return Label(rank), Multiplier(rank);
  }

  /** The checks of EvaluateHand read as features of the hand. */
  lemma ChainFacts(hand: seq<Card>)
    requires |hand| == 5
    ensures var f := HandFeatures(hand);
            var s := SortedValues(hand);
            var vs := Values(hand);
            var c := Counts(vs);
            && |c| >= 1
            && f.flush == IsFlush(hand) && f.straight == StraightValues(s)
            && f.tenToAce == (StraightValues(s) && s[0] == 10)
            && f.four == (c[0] == 4) && f.three == (c[0] == 3)
            && (c[0] == 3 ==> |c| >= 2 && (c[1] == 2 <==> f.pair))
            && (c[0] == 2 ==> |c| >= 2 && (c[1] == 2 <==> f.twoPairs))
            && (c[0] == 2 <==> f.pair && !f.three && !f.four)
            && (f.highPair ==> f.pair) && (f.twoPairs ==> f.pair)
            && (c[0] == 2 && !f.twoPairs ==>
                  (exists i :: 0 <= i < |UniqueValues(vs)| && multiset(vs)[UniqueValues(vs)[i]] == 2)
                  && (FirstWithCount(UniqueValues(vs), vs, 2) >= 11 <==> f.highPair))
  {
    var vs := Values(hand);
    StraightIff(hand);
    CountsFacts(vs);
    PairsAreGroups(multiset(vs));
    if Counts(vs)[0] == 2 && !HasTwoPairs(multiset(vs)) {
      PairValueFacts(vs);
    }
  }

  /** hand.All(c => c.Suit == hand[0].Suit) says all suits agree. */
  lemma FlushIff(hand: seq<Card>)
    requires |hand| >= 1
    ensures IsFlush(hand) <==> forall a, b :: 0 <= a < |hand| && 0 <= b < |hand| ==> hand[a].suit == hand[b].suit
  {
  }

  /** Exchanging two cards keeps the flush test. */
  lemma FlushSwap(hand: seq<Card>, i: nat, j: nat)
    requires |hand| == 5 && i < 5 && j < 5
    ensures IsFlush(Swap(hand, i, j)) == IsFlush(hand)
  {
    var h := Swap(hand, i, j);
    FlushIff(hand);
    FlushIff(h);
    if IsFlush(h) {
      forall a, b | 0 <= a < 5 && 0 <= b < 5
        ensures hand[a].suit == hand[b].suit
      {
        var pa := if a == i then j else if a == j then i else a;
        var pb := if b == i then j else if b == j then i else b;
        assert hand[a] == h[pa] && hand[b] == h[pb];
      }
    }
  }

  /** The rank does not depend on the order of the cards: exchanging two
      of them keeps it. */
  lemma ClassifySwap(hand: seq<Card>, i: nat, j: nat)
    requires |hand| == 5 && i < 5 && j < 5
    ensures Classify(Swap(hand, i, j)) == Classify(hand)
  {
    var h := Swap(hand, i, j);
    assert Values(h) == Swap(Values(hand), i, j);
    SwapPermutes(Values(hand), i, j);
    FlushSwap(hand, i, j);
    SortBySpec(Values(h), Neg);
    SortBySpec(Values(hand), Neg);
    AscendingIs(SortedValues(h), SortedValues(hand));
    assert HandFeatures(h) == HandFeatures(hand);
  }
}
