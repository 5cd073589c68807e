/** Video-poker cards as PokerService builds them: a suit name, a rank
    name and a value from 2 (deuce) to 14 (ace); the 52-card deck and the
    while-loop Fisher-Yates shuffle of ShuffleDeck. */
module PokerCards {
  import opened Shuffles

  /** Card: Suit, Rank and Value. */
  datatype Card = Card(suit: string, rank: string, value: int)

  /** The suits, in the order the deck is built. */
  const Suits: seq<string> := ["Hearts", "Diamonds", "Clubs", "Spades"]
  /** The ranks, in the order the deck is built; rank i has value i + 2. */
  const Ranks: seq<string> := ["2", "3", "4", "5", "6", "7", "8", "9", "10", "J", "Q", "K", "A"]

  /** The card CreateShuffledDeck makes for suit s and rank index i. */
  function MakeCard(s: nat, i: nat): Card
    requires s < 4 && i < 13
  {
    Card(Suits[s], Ranks[i], i + 2)
  }

  /** The unshuffled deck: for each suit in order, each rank in order. */
  function FullDeck(): (d: seq<Card>)
    ensures |d| == 52
  {
    seq(52, k requires 0 <= k < 52 => MakeCard(k / 13, k % 13))
  }

  /** A card of the deck: a known suit, and a value from 2 to 14 whose
      rank name is the one at index value - 2. */
  predicate IsDeckCard(c: Card)
  {
    c.suit in Suits && 2 <= c.value <= 14 && c.rank == Ranks[c.value - 2]
  }

  lemma FullDeckCards()
    ensures forall c :: c in FullDeck() ==> IsDeckCard(c)
  {
    forall c | c in FullDeck()
      ensures IsDeckCard(c)
    {
      var k :| 0 <= k < 52 && FullDeck()[k] == c;
      assert c == MakeCard(k / 13, k % 13);
    }
  }

  /** The 52 cards of the unshuffled deck are pairwise different. */
  lemma FullDeckDistinct()
    ensures Distinct(FullDeck())
  {
    forall i, j | 0 <= i < j < 52
      ensures FullDeck()[i] != FullDeck()[j]
    {
      if i / 13 == j / 13 {
        assert i % 13 != j % 13;
      } else {
        assert Suits[i / 13] != Suits[j / 13] by {
          var a, b := i / 13, j / 13;
          assert Suits[a][0] != Suits[b][0] || |Suits[a]| != |Suits[b]|;
        }
      }
    }
  }

  // ---------------------------------------------------------------------
  // ShuffleDeck

  /** The shuffle from loop counter n down: while n > 1, k is the next
      draw modulo n, n drops by one, and positions k and n swap. The draw
      used with counter n is draws[|s| - n]. */
  function ShuffleFrom(s: seq<Card>, draws: seq<nat>, n: nat): (r: seq<Card>)
    requires n <= |s| <= |draws| + 1
    ensures |r| == |s|
    decreases n
  {
    if n <= 1 then s
    else ShuffleFrom(Swap(s, Pick(draws[|s| - n], n), n - 1), draws, n - 1)
  }

  /** The list ShuffleDeck returns for `deck` and the random draws. */
  function Shuffled(deck: seq<Card>, draws: seq<nat>): (r: seq<Card>)
    requires |deck| <= |draws| + 1
    ensures |r| == |deck|
  {
    ShuffleFrom(deck, draws, |deck|)
  }

  lemma {:induction false} ShuffleFromPermutes(s: seq<Card>, draws: seq<nat>, n: nat)
    requires n <= |s| <= |draws| + 1
    ensures multiset(ShuffleFrom(s, draws, n)) == multiset(s)
    decreases n
  {
    if n > 1 {
      SwapPermutes(s, Pick(draws[|s| - n], n), n - 1);
      ShuffleFromPermutes(Swap(s, Pick(draws[|s| - n], n), n - 1), draws, n - 1);
    }
  }

  lemma {:induction false} ShuffleFromKeepsDistinct(s: seq<Card>, draws: seq<nat>, n: nat)
    requires n <= |s| <= |draws| + 1 && Distinct(s)
    ensures Distinct(ShuffleFrom(s, draws, n))
    decreases n
  {
    if n > 1 {
      SwapKeepsDistinct(s, Pick(draws[|s| - n], n), n - 1);
      ShuffleFromKeepsDistinct(Swap(s, Pick(draws[|s| - n], n), n - 1), draws, n - 1);
    }
  }

  /** ShuffleDeck: copies the list and swaps in place from the back. */
  method ShuffleDeck(deck: seq<Card>, draws: seq<nat>) returns (shuffled: seq<Card>)
    requires |deck| <= |draws| + 1
    ensures shuffled == Shuffled(deck, draws)
  {
    var a := new Card[|deck|](i requires 0 <= i < |deck| => deck[i]);
    assert a[..] == deck;
    var n: nat := |deck|;
    while n > 1
      invariant n <= |deck|
      invariant ShuffleFrom(a[..], draws, n) == Shuffled(deck, draws)
    {
      var k := Pick(draws[|deck| - n], n);
      ghost var before := a[..];
      n := n - 1;
      SwapAt(a, k, n);
      assert ShuffleFrom(before, draws, n + 1) == ShuffleFrom(a[..], draws, n);
    }
    shuffled := a[..];
  }

  /** Position 13 * s + i of the unshuffled deck holds rank index i of
      suit index s, and extends the prefix before it by one card. */
  lemma FullDeckAt(s: nat, i: nat)
    requires s < 4 && i < 13
    ensures FullDeck()[..13 * s + i + 1] == FullDeck()[..13 * s + i] + [MakeCard(s, i)]
  {
    var k := 13 * s + i;
    assert k / 13 == s && k % 13 == i;
    assert FullDeck()[k] == MakeCard(s, i);
    assert FullDeck()[..k + 1] == FullDeck()[..k] + [FullDeck()[k]];
  }

  /** CreateShuffledDeck: builds the deck suit by suit, rank by rank, then
      shuffles it with 51 draws. */
  method CreateShuffledDeck(draws: seq<nat>) returns (deck: seq<Card>)
    requires |draws| == 51
    ensures deck == Shuffled(FullDeck(), draws)
  {
    var built: seq<Card> := [];
    for s := 0 to 4
      invariant built == FullDeck()[..13 * s]
    {
      for i := 0 to 13
        invariant built == FullDeck()[..13 * s + i]
      {
        FullDeckAt(s, i);
        built := built + [MakeCard(s, i)];
      }
    }
    assert built == FullDeck();
    deck := ShuffleDeck(built, draws);
  }

  /** The shuffled deck holds each of the 52 cards exactly once, each with
      a value from 2 to 14 matching its rank. */
  lemma ShuffledIsDeck(draws: seq<nat>)
    requires |draws| == 51
    ensures |Shuffled(FullDeck(), draws)| == 52
    ensures multiset(Shuffled(FullDeck(), draws)) == multiset(FullDeck())
    ensures Distinct(Shuffled(FullDeck(), draws))
    ensures forall c :: c in Shuffled(FullDeck(), draws) ==> IsDeckCard(c)
  {
    ShuffleFromPermutes(FullDeck(), draws, 52);
    FullDeckDistinct();
    ShuffleFromKeepsDistinct(FullDeck(), draws, 52);
    FullDeckCards();
    forall c | c in Shuffled(FullDeck(), draws)
      ensures IsDeckCard(c)
    {
      assert c in multiset(Shuffled(FullDeck(), draws));
      assert c in FullDeck();
    }
  }

  /** The deal: the hand is the first five cards and the deck keeps the
      other 47, so between them they hold the 52 cards, each once. */
  lemma DealSplitsDeck(draws: seq<nat>)
    requires |draws| == 51
    ensures var deck := Shuffled(FullDeck(), draws);
            && |deck[..5]| == 5 && |deck[5..]| == 47
            && multiset(deck[..5]) + multiset(deck[5..]) == multiset(FullDeck())
            && Distinct(deck[..5] + deck[5..])
  {
    var deck := Shuffled(FullDeck(), draws);
    ShuffledIsDeck(draws);
    assert deck[..5] + deck[5..] == deck;
  }
}
