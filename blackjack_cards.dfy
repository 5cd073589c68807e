/** Blackjack cards as the service stores them: strings made of a rank
    ("A", "2" .. "10", "J", "Q", "K") followed by a one-character suit
    symbol; the 52-card deck, its Fisher-Yates shuffle, and hand valuation
    with ace demotion. */
module BlackjackCards {
  import opened Shuffles

  const Spade: char := '\U{2660}'
  const Heart: char := '\U{2665}'
  const Diamond: char := '\U{2666}'
  const Club: char := '\U{2663}'

  /** The suit symbols, in the order the deck is built. */
  const Suits: seq<char> := [Spade, Heart, Diamond, Club]
  /** The rank names, in the order the deck is built. */
  const Ranks: seq<string> := ["A", "2", "3", "4", "5", "6", "7", "8", "9", "10", "J", "Q", "K"]

  /** One of the rank names: a single character A, 2 .. 9, J, Q, K, or
      the two characters 10. */
  predicate IsRankName(r: string)
  {
    || (|r| == 1 && (r[0] == 'A' || '2' <= r[0] <= '9' || r[0] == 'J' || r[0] == 'Q' || r[0] == 'K'))
    || (|r| == 2 && r[0] == '1' && r[1] == '0')
  }

  lemma RankNames()
    ensures forall r :: r in Ranks ==> IsRankName(r)
  {
  }

  predicate IsCard(c: string)
  {
    |c| >= 2 && c[|c| - 1] in Suits && IsRankName(c[..|c| - 1])
  }

  type Card = c: string | IsCard(c) witness (assert "A\U{2660}"[..1] == "A"; "A\U{2660}")

  /** card[..^1]: everything but the last character. */
  function RankOf(c: Card): string
  {
    c[..|c| - 1]
  }

  /** card[^1..]: the last character, as a string. */
  function SuitOf(c: Card): string
  {
    c[|c| - 1..]
  }

  /** $"{rank}{suit}" */
  function MakeCard(rank: string, suit: char): string
  {
    rank + [suit]
  }

  /** A card string splits back into the rank and suit it was made of. */
  lemma CardRoundTrip(rank: string, suit: char)
    requires IsRankName(rank) && suit in Suits
    ensures IsCard(MakeCard(rank, suit))
    ensures RankOf(MakeCard(rank, suit)) == rank
    ensures SuitOf(MakeCard(rank, suit)) == [suit]
  {
    assert MakeCard(rank, suit)[..|rank|] == rank;
  }

  /** Rank index r of suit index s, as a card string. */
  function DeckCard(s: nat, r: nat): (c: Card)
    requires s < 4 && r < 13
    ensures RankOf(c) == Ranks[r] && SuitOf(c) == [Suits[s]]
  {
    RankNames();
    CardRoundTrip(Ranks[r], Suits[s]);
    MakeCard(Ranks[r], Suits[s])
  }

  /** The unshuffled deck: for each suit in order, each rank in order. */
  function FullDeck(): (d: seq<Card>)
    ensures |d| == 52
  {
    seq(52, i requires 0 <= i < 52 => DeckCard(i / 13, i % 13))
  }

  /** Position 13 * s + r of the unshuffled deck holds rank r of suit s,
      and extends the prefix before it by one card. */
  lemma FullDeckAt(s: nat, r: nat)
    requires s < 4 && r < 13
    ensures FullDeck()[..13 * s + r + 1] == FullDeck()[..13 * s + r] + [DeckCard(s, r)]
  {
    DeckIndex(s, r);
    PrefixStep(FullDeck(), 13 * s + r);
  }

  lemma DeckIndex(s: nat, r: nat)
    requires s < 4 && r < 13
    ensures FullDeck()[13 * s + r] == DeckCard(s, r)
  {
    var k := 13 * s + r;
    assert k / 13 == s && k % 13 == r;
  }

  lemma PrefixStep<T>(d: seq<T>, k: nat)
    requires k < |d|
    ensures d[..k + 1] == d[..k] + [d[k]]
  {
  }

  lemma RanksDistinct()
    ensures forall a, b :: 0 <= a < b < 13 ==> Ranks[a] != Ranks[b]
  {
  }

  /** The suit and rank indices of deck position k. */
  lemma DeckPosition(k: nat) returns (s: nat, r: nat)
    requires k < 52
    ensures s < 4 && r < 13 && k == 13 * s + r
    ensures FullDeck()[k] == DeckCard(s, r)
  {
    s, r := k / 13, k % 13;
  }

  /** Two different (suit, rank) positions make different cards. */
  lemma DeckCardsDiffer(si: nat, ri: nat, sj: nat, rj: nat)
    requires si < 4 && ri < 13 && sj < 4 && rj < 13
    requires si != sj || ri != rj
    ensures DeckCard(si, ri) != DeckCard(sj, rj)
  {
    if si == sj {
      RanksDistinct();
      assert Ranks[ri] != Ranks[rj];
      assert RankOf(DeckCard(si, ri)) != RankOf(DeckCard(sj, rj));
    } else {
      assert SuitOf(DeckCard(si, ri)) != SuitOf(DeckCard(sj, rj));
    }
  }

  /** The 52 cards of the unshuffled deck are pairwise different. */
  lemma FullDeckDistinct()
    ensures Distinct(FullDeck())
  {
    forall i, j | 0 <= i < j < 52
      ensures FullDeck()[i] != FullDeck()[j]
    {
      var si, ri := DeckPosition(i);
      var sj, rj := DeckPosition(j);
      DeckCardsDiffer(si, ri, sj, rj);
    }
  }

  // ---------------------------------------------------------------------
  // Fisher-Yates shuffle

  /** Steps i, i-1, ..., 1 of the shuffle: step i swaps position i with
      position draws[51 - i] % (i + 1), the draw being a raw 32-bit value. */
  function ShuffleSteps<T>(s: seq<T>, draws: seq<nat>, i: int): (r: seq<T>)
    requires |s| == 52 && |draws| == 51 && i <= 51
    ensures |r| == 52
    decreases i
  {
    if i <= 0 then s
    else ShuffleSteps(Swap(s, i, Pick(draws[51 - i], i + 1)), draws, i - 1)
  }

  /** The deck CreateAndShuffleDeck returns for the given random draws. */
  function Shuffled(draws: seq<nat>): (deck: seq<Card>)
    requires |draws| == 51
    ensures |deck| == 52
  {
    ShuffleSteps(FullDeck(), draws, |draws|)
  }

  lemma {:induction false} ShuffleStepsPermutes<T>(s: seq<T>, draws: seq<nat>, i: int)
    requires |s| == 52 && |draws| == 51 && i <= 51
    ensures multiset(ShuffleSteps(s, draws, i)) == multiset(s)
    decreases i
  {
    if i > 0 {
      SwapPermutes(s, i, Pick(draws[51 - i], i + 1));
      ShuffleStepsPermutes(Swap(s, i, Pick(draws[51 - i], i + 1)), draws, i - 1);
    }
  }

  lemma {:induction false} ShuffleStepsKeepsDistinct<T>(s: seq<T>, draws: seq<nat>, i: int)
    requires |s| == 52 && |draws| == 51 && i <= 51 && Distinct(s)
    ensures Distinct(ShuffleSteps(s, draws, i))
    decreases i
  {
    if i > 0 {
      SwapKeepsDistinct(s, i, Pick(draws[51 - i], i + 1));
      ShuffleStepsKeepsDistinct(Swap(s, i, Pick(draws[51 - i], i + 1)), draws, i - 1);
    }
  }

  /** The shuffled deck is a permutation of the 52 distinct cards. */
  lemma ShuffledIsDeck(draws: seq<nat>)
    requires |draws| == 51
    ensures |Shuffled(draws)| == 52
    ensures multiset(Shuffled(draws)) == multiset(FullDeck())
    ensures Distinct(Shuffled(draws))
  {
    ShuffleStepsPermutes(FullDeck(), draws, |draws|);
    FullDeckDistinct();
    ShuffleStepsKeepsDistinct(FullDeck(), draws, |draws|);
  }

  /** The shuffle loop of CreateAndShuffleDeck: for i from 51 down to 1,
      swaps a[i] with a[draws[51 - i] % (i + 1)]. */
  method ShuffleInPlace<T>(a: array<T>, draws: seq<nat>)
    requires a.Length == 52 && |draws| == 51
    modifies a
    ensures a[..] == ShuffleSteps(old(a[..]), draws, 51)
  {
    for i := 52 downto 1
      invariant ShuffleSteps(a[..], draws, i - 1) == ShuffleSteps(old(a[..]), draws, 51)
    {
      var j := Pick(draws[51 - i], i + 1);
      ghost var before := a[..];
      SwapAt(a, i, j);
      assert ShuffleSteps(before, draws, i) == ShuffleSteps(a[..], draws, i - 1);
    }
  }

  /** CreateAndShuffleDeck: builds the deck suit by suit, then shuffles it
      in place from the last position down to position 1. */
  method CreateAndShuffleDeck(draws: seq<nat>) returns (deck: seq<Card>)
    requires |draws| == 51
    ensures deck == Shuffled(draws)
    ensures |deck| == 52 && multiset(deck) == multiset(FullDeck())
  {
    var built: seq<Card> := [];
    for s := 0 to 4
      invariant built == FullDeck()[..13 * s]
    {
      for r := 0 to 13
        invariant built == FullDeck()[..13 * s + r]
      {
        FullDeckAt(s, r);
        built := built + [DeckCard(s, r)];
      }
    }
    var a := new Card[52](i requires 0 <= i < 52 => built[i]);
    assert a[..] == FullDeck();
    ShuffleInPlace(a, draws);
    deck := a[..];
    ShuffleStepsPermutes(FullDeck(), draws, |draws|);
  }

  // ---------------------------------------------------------------------
  // The client view of a card

  /** CardDto. */
  datatype CardView = CardView(suit: string, rank: string, value: int)

  /** ParseCards on one card: the suit is the last character, the rank the
      rest, and the value GetCardValue. */
  function ParseCard(c: Card): (v: CardView)
    ensures v.rank + v.suit == c
    ensures |v.suit| == 1 && v.suit[0] in Suits && IsRankName(v.rank)
    ensures 2 <= v.value <= 11
  {
    CardValueRange(c);
    assert c == c[..|c| - 1] + c[|c| - 1..];
    CardView(SuitOf(c), RankOf(c), CardValue(c))
  }

  function ParseCards(cards: seq<Card>): (vs: seq<CardView>)
    ensures |vs| == |cards|
    ensures forall i :: 0 <= i < |cards| ==> vs[i] == ParseCard(cards[i])
  {
    seq(|cards|, i requires 0 <= i < |cards| => ParseCard(cards[i]))
  }

  // ---------------------------------------------------------------------
  // Hand valuation

  /** int.Parse on a string of decimal digits. */
  function ParseDigits(s: string): int
  {
    if s == [] then 0 else ParseDigits(s[..|s| - 1]) * 10 + (s[|s| - 1] as int - '0' as int)
  }

  /** GetCardValue on a rank: ace 11, face cards 10, otherwise the number. */
  function RankValue(rank: string): int
  {
    if rank == "A" then 11
    else if rank == "J" || rank == "Q" || rank == "K" then 10
    else ParseDigits(rank)
  }

  lemma RankValues(r: string)
    requires IsRankName(r)
    ensures 2 <= RankValue(r) <= 11
    ensures RankValue(r) == 11 <==> r == "A"
  {
    if |r| == 1 {
      assert r[..0] == "";
      if r[0] == 'A' {
        assert r == "A";
      } else if r[0] == 'J' {
        assert r == "J";
      } else if r[0] == 'Q' {
        assert r == "Q";
      } else if r[0] == 'K' {
        assert r == "K";
      } else {
        assert r != "A" && r != "J" && r != "Q" && r != "K";
        assert ParseDigits(r) == r[0] as int - '0' as int;
      }
    } else {
      assert r[..1][..0] == "";
      assert ParseDigits(r[..1]) == 1;
      assert r != "A";
    }
  }

  function CardValue(c: Card): int
  {
    RankValue(RankOf(c))
  }

  predicate IsAce(c: Card)
  {
    RankOf(c) == "A"
  }

  lemma CardValueRange(c: Card)
    ensures 2 <= CardValue(c) <= 11
    ensures CardValue(c) == 11 <==> IsAce(c)
  {
    RankValues(RankOf(c));
  }

  /** The total with every ace counted as 11. */
  function SoftTotal(cards: seq<Card>): int
  {
    if cards == [] then 0 else SoftTotal(cards[..|cards| - 1]) + CardValue(cards[|cards| - 1])
  }

  function AceCount(cards: seq<Card>): nat
  {
    if cards == [] then 0
    else AceCount(cards[..|cards| - 1]) + (if IsAce(cards[|cards| - 1]) then 1 else 0)
  }

  /** The total with every ace counted as 1. */
  function HardTotal(cards: seq<Card>): int
  {
    SoftTotal(cards) - 10 * AceCount(cards)
  }

  /** Subtract 10 per ace while the total is over 21 and aces remain. */
  function Demote(value: int, aces: nat): int
  {
    if value > 21 && aces > 0 then Demote(value - 10, aces - 1) else value
  }

  /** CalculateHandValue. */
  function HandValue(cards: seq<Card>): int
  {
    Demote(SoftTotal(cards), AceCount(cards))
  }

  /** Adding a card raises the hard total by at least 1 (an ace) and at
      most 10. */
  lemma HardTotalStep(cards: seq<Card>, c: Card)
    ensures HardTotal(cards + [c]) >= HardTotal(cards) + 1
    ensures HardTotal(cards + [c]) <= HardTotal(cards) + 10
  {
    assert (cards + [c])[..|cards|] == cards;
    CardValueRange(c);
  }

  lemma {:induction false} HardTotalAtLeastCount(cards: seq<Card>)
    ensures HardTotal(cards) >= |cards|
  {
    if cards != [] {
      var init := cards[..|cards| - 1];
      HardTotalAtLeastCount(init);
      assert cards == init + [cards[|cards| - 1]];
      HardTotalStep(init, cards[|cards| - 1]);
    }
  }

  lemma {:induction false} AceCountBound(cards: seq<Card>)
    ensures AceCount(cards) <= |cards|
  {
    if cards != [] {
      AceCountBound(cards[..|cards| - 1]);
    }
  }

  lemma {:induction false} DemoteSpec(value: int, aces: nat)
    ensures var v := Demote(value, aces);
            && value - 10 * aces <= v <= value
            && (value - v) % 10 == 0
            && (v <= 21 <==> value - 10 * aces <= 21)
            && (v <= 21 && v < value ==> v + 10 > 21)
            && (v > 21 ==> v == value - 10 * aces)
  {
    if value > 21 && aces > 0 {
      DemoteSpec(value - 10, aces - 1);
    }
  }

  /** The hand value is the largest of the possible totals (each ace 1 or
      11) that does not exceed 21, if there is one; otherwise every ace
      counts 1. So it is at most 21 exactly when counting every ace as 1
      keeps the hand at 21 or less. */
  lemma HandValueIsBestTotal(cards: seq<Card>)
    ensures HardTotal(cards) <= HandValue(cards) <= SoftTotal(cards)
    ensures (SoftTotal(cards) - HandValue(cards)) % 10 == 0
    ensures HandValue(cards) <= 21 <==> HardTotal(cards) <= 21
    ensures HandValue(cards) <= 21 && HandValue(cards) < SoftTotal(cards) ==> HandValue(cards) + 10 > 21
    ensures HandValue(cards) > 21 ==> HandValue(cards) == HardTotal(cards)
  {
    DemoteSpec(SoftTotal(cards), AceCount(cards));
  }

  /** An ace with a ten-valued card is 21. */
  lemma AceAndTenIsTwentyOne(ace: Card, ten: Card)
    requires IsAce(ace) && CardValue(ten) == 10
    ensures HandValue([ace, ten]) == 21
  {
    var h := [ace, ten];
    assert h[..1] == [ace] && h[..1][..0] == [];
    CardValueRange(ace);
    CardValueRange(ten);
    assert SoftTotal([ace]) == 11 && AceCount([ace]) == 1;
    assert h[1] == ten && !IsAce(ten);
    assert SoftTotal(h) == 21 && AceCount(h) == 1;
  }

  /** Two aces are 12: one is demoted to 1. */
  lemma TwoAcesIsTwelve(a: Card, b: Card)
    requires IsAce(a) && IsAce(b)
    ensures HandValue([a, b]) == 12
  {
    var h := [a, b];
    assert h[..1] == [a] && h[..1][..0] == [];
    CardValueRange(a);
    CardValueRange(b);
    assert SoftTotal([a]) == 11 && AceCount([a]) == 1;
    assert h[1] == b;
    assert SoftTotal(h) == 22 && AceCount(h) == 2;
  }

  /** A blackjack: an ace and a ten-valued card. */
  predicate IsNatural(a: Card, b: Card)
  {
    (IsAce(a) && CardValue(b) == 10) || (IsAce(b) && CardValue(a) == 10)
  }

  /** Two cards are worth 21 exactly when they are an ace and a ten-valued
      card, in either order. */
  lemma TwoCardTwentyOne(a: Card, b: Card)
    ensures HandValue([a, b]) == 21 <==> IsNatural(a, b)
  {
    var h := [a, b];
    assert h[..1] == [a] && h[..1][..0] == [];
    assert h[1] == b;
    CardValueRange(a);
    CardValueRange(b);
    assert SoftTotal([a]) == CardValue(a);
    assert AceCount([a]) == if IsAce(a) then 1 else 0;
    assert SoftTotal(h) == CardValue(a) + CardValue(b);
    assert AceCount(h) == (if IsAce(a) then 1 else 0) + (if IsAce(b) then 1 else 0);
    if IsAce(a) && IsAce(b) {
      assert Demote(22, 2) == 12;
    }
  }

  /** CalculateHandValue as the service runs it: one pass summing the
      cards with aces as 11 and counting the aces, then demotion. */
  method CalculateHandValue(cards: seq<Card>) returns (value: int)
    ensures value == HandValue(cards)
  {
    value := 0;
    var aces := 0;
    for i := 0 to |cards|
      invariant value == SoftTotal(cards[..i])
      invariant aces == AceCount(cards[..i])
    {
      assert cards[..i + 1][..i] == cards[..i];
      var rank := RankOf(cards[i]);
      if rank == "A" {
        aces := aces + 1;
        value := value + 11;
      } else if rank == "J" || rank == "Q" || rank == "K" {
        value := value + 10;
      } else {
        value := value + ParseDigits(rank);
      }
    }
    assert cards[..|cards|] == cards;
    while value > 21 && aces > 0
      invariant aces >= 0
      invariant Demote(value, aces) == HandValue(cards)
    {
      value := value - 10;
      aces := aces - 1;
    }
  }

  // ---------------------------------------------------------------------
  // The dealer's draw

  /** While the hand is worth less than 17, so is its hard total, and so
      it holds fewer than 17 cards. */
  lemma DrawProgress(hand: seq<Card>)
    requires HandValue(hand) < 17
    ensures |hand| <= HardTotal(hand) < 17
  {
    HandValueIsBestTotal(hand);
    HardTotalAtLeastCount(hand);
  }

  /** The dealer's hand after drawing deck[i], deck[i+1], ... until its
      value reaches 17. Each draw raises the hard total by at least 1, and a
      hand worth less than 17 has fewer than 17 cards, so the deck never
      runs out. */
  function DealerPlay(dealer: seq<Card>, deck: seq<Card>, i: nat): seq<Card>
    requires i + 17 <= |deck| + |dealer|
    decreases 17 - HardTotal(dealer)
  {
    if HandValue(dealer) >= 17 then dealer
    else
      DrawProgress(dealer);
      HardTotalStep(dealer, deck[i]);
      DealerPlay(dealer + [deck[i]], deck, i + 1)
  }

  /** The dealer keeps the hand and appends deck[i], deck[i+1], ... in
      order, never reading past the end of the deck. */
  lemma {:induction false} DealerPlayDraws(dealer: seq<Card>, deck: seq<Card>, i: nat)
    requires i + 17 <= |deck| + |dealer|
    ensures var r := DealerPlay(dealer, deck, i);
            && |dealer| <= |r| && (|r| > |dealer| ==> i + |r| - |dealer| <= |deck|)
            && r[..|dealer|] == dealer
            && (forall k :: |dealer| <= k < |r| ==> r[k] == deck[i + k - |dealer|])
    decreases 17 - HardTotal(dealer)
  {
    if HandValue(dealer) < 17 {
      DrawProgress(dealer);
      HardTotalStep(dealer, deck[i]);
      var next := dealer + [deck[i]];
      DealerPlayDraws(next, deck, i + 1);
      var r := DealerPlay(next, deck, i + 1);
      assert DealerPlay(dealer, deck, i) == r;
      assert r[..|dealer|] == r[..|next|][..|dealer|];
    }
  }

  /** The dealer stops with a hand worth 17 or more ... */
  lemma {:induction false} DealerPlayStops(dealer: seq<Card>, deck: seq<Card>, i: nat)
    requires i + 17 <= |deck| + |dealer|
    ensures HandValue(DealerPlay(dealer, deck, i)) >= 17
    decreases 17 - HardTotal(dealer)
  {
    if HandValue(dealer) < 17 {
      DrawProgress(dealer);
      HardTotalStep(dealer, deck[i]);
      DealerPlayStops(dealer + [deck[i]], deck, i + 1);
    }
  }

  /** ... and every shorter hand along the way was worth less than 17. */
  lemma {:induction false} DealerPlayMinimal(dealer: seq<Card>, deck: seq<Card>, i: nat)
    requires i + 17 <= |deck| + |dealer|
    ensures forall k :: |dealer| <= k < |DealerPlay(dealer, deck, i)| ==>
              HandValue(DealerPlay(dealer, deck, i)[..k]) < 17
    decreases 17 - HardTotal(dealer)
  {
    if HandValue(dealer) < 17 {
      DrawProgress(dealer);
      HardTotalStep(dealer, deck[i]);
      var next := dealer + [deck[i]];
      DealerPlayMinimal(next, deck, i + 1);
      DealerPlayDraws(next, deck, i + 1);
      var r := DealerPlay(next, deck, i + 1);
      assert DealerPlay(dealer, deck, i) == r;
      forall k | |dealer| <= k < |r|
        ensures HandValue(r[..k]) < 17
      {
        if k == |dealer| {
          assert r[..k] == r[..|next|][..|dealer|];
        }
      }
    }
  }

  /** One draw of the dealer loop: a hand worth less than 17 can take the
      next card, which raises its hard total, and the play goes on from the
      longer hand. */
  lemma DealerStep(cards: seq<Card>, deck: seq<Card>, i: nat)
    requires i + 17 <= |deck| + |cards| && HandValue(cards) < 17
    ensures i < |deck| && HardTotal(cards) < 17
    ensures HardTotal(cards + [deck[i]]) > HardTotal(cards)
    ensures DealerPlay(cards, deck, i) == DealerPlay(cards + [deck[i]], deck, i + 1)
  {
    DrawProgress(cards);
    HardTotalStep(cards, deck[i]);
  }

  /** The dealer loop of StandAsync / DoubleDownAsync: draws from the deck,
      starting at position `from`, while the hand is worth less than 17. */
  method DealerDraws(dealer: seq<Card>, deck: seq<Card>, from: nat) returns (cards: seq<Card>)
    requires from + 17 <= |deck| + |dealer|
    ensures cards == DealerPlay(dealer, deck, from)
    ensures HandValue(cards) >= 17
  {
    cards := dealer;
    var deckIndex: nat := from;
    var value := CalculateHandValue(cards);
    while value < 17
      invariant deckIndex + 17 <= |deck| + |cards|
      invariant value == HandValue(cards)
      invariant DealerPlay(cards, deck, deckIndex) == DealerPlay(dealer, deck, from)
      decreases 17 - HardTotal(cards)
    {
      DealerStep(cards, deck, deckIndex);
      cards := cards + [deck[deckIndex]];
      deckIndex := deckIndex + 1;
      value := CalculateHandValue(cards);
    }
    assert DealerPlay(cards, deck, deckIndex) == cards;
  }
}
