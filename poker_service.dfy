/** PokerService: Jacks-or-Better video poker. A game is dealt five cards
    from a fresh shuffled deck, draws once, and is settled against the
    user's balance and the ledger. */
module PokerService {
  import opened Common
  import opened UserStore
  import opened TransactionStore
  import opened Transactions
  import opened Wagers
  import opened Shuffles
  import opened PokerCards
  import opened PokerHands

  datatype GameStatus = Playing | Won | Lost

  /** PokerGame. */
  datatype PokerGame = PokerGame(
    gameId: string,
    userId: int,
    betAmount: real,
    deck: seq<Card>,
    hand: seq<Card>,
    status: GameStatus,
    createdAt: int,
    handRank: string,
    winAmount: real,
    hasDrawn: bool)

  /** PokerStateDto; a CardDto carries the same suit, rank and value as
      the card, so the hand is given as the cards themselves. */
  datatype StateView = StateView(
    gameId: string,
    hand: seq<Card>,
    handRank: string,
    betAmount: real,
    winAmount: real,
    payout: real,
    balanceAfter: real,
    status: GameStatus,
    canDraw: bool,
    cardsToHold: seq<int>)

  /** A new game on the shuffled `deck`: the hand is its first five cards
      and the game keeps the rest. */
  function Dealt(gameId: string, userId: int, betAmount: real, deck: seq<Card>, now: int): (g: PokerGame)
    requires |deck| >= 5
    ensures g.hand + g.deck == deck && |g.hand| == 5
  {
    assert deck[..5] + deck[5..] == deck;
    PokerGame(gameId, userId, betAmount, deck[5..], deck[..5], Playing, now, "", 0.0, false)
  }

  // ---------------------------------------------------------------------
  // The replacement loop of DrawAsync

  /** How many of the positions below i are not held, which is how many
      cards the loop has taken from the deck when it reaches position i. */
  function Replaced(held: seq<int>, i: nat): (n: nat)
    ensures n <= i
  {
    if i == 0 then 0 else Replaced(held, i - 1) + (if i - 1 in held then 0 else 1)
  }

  /** The positions below i that are not held. */
  function NotHeld(held: seq<int>, i: nat): set<nat>
  {
    set k: nat | k < i && k !in held
  }

  /** Replaced counts exactly the positions that are not held. */
  lemma {:induction false} ReplacedCounts(held: seq<int>, i: nat)
    ensures Replaced(held, i) == |NotHeld(held, i)|
  {
    if i > 0 {
      ReplacedCounts(held, i - 1);
      if i - 1 in held {
        assert NotHeld(held, i) == NotHeld(held, i - 1);
      } else {
        assert NotHeld(held, i) == NotHeld(held, i - 1) + {i - 1};
      }
    }
  }

  lemma {:induction false} ReplacedMonotone(held: seq<int>, i: nat, j: nat)
    requires i <= j
    ensures Replaced(held, i) <= Replaced(held, j)
    decreases j
  {
    if i < j {
      ReplacedMonotone(held, i, j - 1);
    }
  }

  /** Each position that is not held takes a later deck card than every
      position before it. */
  lemma ReplacedStrict(held: seq<int>, i: nat, j: nat)
    requires i < j && i !in held
    ensures Replaced(held, i) < Replaced(held, j)
  {
    ReplacedMonotone(held, i + 1, j);
  }

  /** The hand after the draw: a held position keeps its card, the others
      take the deck's cards in order. */
  function Redraw(hand: seq<Card>, deck: seq<Card>, held: seq<int>): (r: seq<Card>)
    requires |hand| == 5 && |deck| >= 5
    ensures |r| == 5
  {
    seq(5, i requires 0 <= i < 5 => if i in held then hand[i] else deck[Replaced(held, i)])
  }

  /** The loop over the five positions: a position not held gets the
      front card of the deck, which is removed from it. */
  method ReplaceCards(hand: seq<Card>, deck: seq<Card>, held: seq<int>) returns (newHand: seq<Card>, newDeck: seq<Card>)
    requires |hand| == 5 && |deck| >= 5
    ensures newHand == Redraw(hand, deck, held)
    ensures newDeck == deck[Replaced(held, 5)..]
  {
    newHand := hand;
    newDeck := deck;
    for i := 0 to 5
      invariant |newHand| == 5
      invariant newDeck == deck[Replaced(held, i)..]
      invariant forall k :: 0 <= k < i ==> newHand[k] == Redraw(hand, deck, held)[k]
      invariant forall k :: i <= k < 5 ==> newHand[k] == hand[k]
    {
      if i !in held {
        newHand := newHand[i := newDeck[0]];
        newDeck := newDeck[1..];
      }
    }
  }

  /** Where card a of the redrawn hand followed by the remaining deck was
      in the old hand followed by the old deck. */
  function Origin(held: seq<int>, a: nat): nat
  {
    if a < 5 then (if a in held then a else 5 + Replaced(held, a))
    else 5 + Replaced(held, 5) + (a - 5)
  }

  /** Cards that were all different stay all different after the draw:
      the held cards, the drawn cards and the rest of the deck come from
      different places. */
  lemma RedrawDistinct(hand: seq<Card>, deck: seq<Card>, held: seq<int>)
    requires |hand| == 5 && |deck| >= 5 && Distinct(hand + deck)
    ensures Distinct(Redraw(hand, deck, held) + deck[Replaced(held, 5)..])
  {
    var before := hand + deck;
    var after := Redraw(hand, deck, held) + deck[Replaced(held, 5)..];
    forall a | 0 <= a < |after|
      ensures Origin(held, a) < |before| && after[a] == before[Origin(held, a)]
    {
      if a >= 5 {
        assert after[a] == deck[Replaced(held, 5) + (a - 5)];
      }
    }
    forall a, b | 0 <= a < b < |after|
      ensures after[a] != after[b]
    {
      if a < 5 && a !in held {
        ReplacedStrict(held, a, if b < 5 then b else 5);
      }
      assert Origin(held, a) != Origin(held, b);
      if Origin(held, a) < Origin(held, b) {
        assert before[Origin(held, a)] != before[Origin(held, b)];
      } else {
        assert before[Origin(held, b)] != before[Origin(held, a)];
      }
    }
  }

  /** The game DrawAsync leaves: the redrawn hand, the rest of the deck,
      the rank of the new hand, and the bet times the multiplier as the
      win, which makes the game Won when it is positive. */
  ghost function Drawn(g: PokerGame, held: seq<int>): (d: PokerGame)
    requires |g.hand| == 5 && |g.deck| >= 5
  {
    var hand := Redraw(g.hand, g.deck, held);
    var rank := Classify(hand);
    var win := Winnings(g.betAmount, Multiplier(rank));
    g.(hand := hand, deck := g.deck[Replaced(held, 5)..], hasDrawn := true,
       handRank := Label(rank), winAmount := win, status := Settled(win))
  }

  /** The computing part of DrawAsync: the cards not held are replaced,
      the new hand is evaluated and the win worked out; the status follows
      once the win is credited. */
  method DrawHand(g: PokerGame, held: seq<int>) returns (game: PokerGame, payout: real)
    requires |g.hand| == 5 && |g.deck| >= 5
    ensures game.(status := Settled(game.winAmount)) == Drawn(g, held)
    ensures payout == Multiplier(Classify(game.hand))
  {
    var hand, deck := ReplaceCards(g.hand, g.deck, held);
    game := g.(hand := hand, deck := deck, hasDrawn := true);
    var handRank, p := EvaluateHand(game.hand);
    game := game.(handRank := handRank);
    game := game.(winAmount := Winnings(game.betAmount, p));
    payout := p;
  }

  /** The win of DrawAsync: the bet times the hand's multiplier. */
  function Winnings(bet: real, multiplier: real): (w: real)
    ensures bet > 0.0 ==> (w > 0.0 <==> multiplier > 0.0)
    ensures w > 0.0 ==> bet != 0.0
  {
    bet * multiplier
  }

  /** A game that has paid out is won, otherwise lost. */
  function Settled(win: real): (s: GameStatus)
    ensures s == Won <==> win > 0.0
    ensures s != Playing
  {
    if win > 0.0 then Won else Lost
  }

  /** With a positive bet, the win is positive exactly on a paying rank,
      and the win over the bet gives back the multiplier. */
  lemma WinPayout(bet: real, rank: HandRank)
    requires bet > 0.0
    ensures Winnings(bet, Multiplier(rank)) > 0.0 <==> rank != HighCard
    ensures (if Winnings(bet, Multiplier(rank)) > 0.0 then Winnings(bet, Multiplier(rank)) / bet else 0.0)
            == Multiplier(rank)
  {
    PayTable(rank, rank);
  }

  /** A positive bet wins exactly on a paying rank, and the payout GetGameStateAsync
      reports for the drawn game is that rank's multiplier. */
  lemma DrawnPayout(g: PokerGame, held: seq<int>)
    requires |g.hand| == 5 && |g.deck| >= 5 && g.betAmount > 0.0
    ensures var d := Drawn(g, held);
            var rank := Classify(d.hand);
            && (d.status == Won <==> rank != HighCard)
            && ReportedPayout(d) == Multiplier(rank)
  {
    var d := Drawn(g, held);
    WinPayout(g.betAmount, Classify(d.hand));
  }

  /** The Payout of GetGameStateAsync: the win over the bet, or 0. */
  function ReportedPayout(g: PokerGame): real
    requires g.winAmount > 0.0 ==> g.betAmount != 0.0
  {
    if g.winAmount > 0.0 then g.winAmount / g.betAmount else 0.0
  }

  /** A stored game: keyed by its id, five cards in hand, enough cards left
      to draw until it has drawn, and a bet to divide by once it has won. */
  predicate Tracked(id: string, g: PokerGame)
  {
    && g.gameId == id
    && |g.hand| == 5
    && (!g.hasDrawn ==> |g.deck| >= 5)
    && (g.winAmount > 0.0 ==> g.betAmount != 0.0)
  }

  class PokerService {
    const users: UserRepository
    const txs: TransactionService
    /** The static _activeGames dictionary. */
    var activeGames: map<string, PokerGame>

    ghost predicate Valid()
      reads this, users, txs.repo
    {
      && txs.users == users
      && users.Valid()
      && txs.repo.Valid()
      && forall id :: id in activeGames ==> Tracked(id, activeGames[id]) && activeGames[id].userId in users.users
    }

    /** No card is both in a game's hand and in its deck, or twice in either. */
    ghost predicate CardsDistinct()
      reads this
    {
      forall id :: id in activeGames ==> Distinct(activeGames[id].hand + activeGames[id].deck)
    }

    constructor (users: UserRepository, txs: TransactionService)
      requires txs.users == users && users.Valid() && txs.repo.Valid()
      ensures Valid() && CardsDistinct() && activeGames == map[]
      ensures this.users == users && this.txs == txs
    {
      this.users := users;
      this.txs := txs;
      activeGames := map[];
    }

    /** The stake taken for a bet; the games stay valid. */
    method TakeStake(userId: int, amount: real, now: int) returns (balance: real)
      requires Valid() && userId in users.users
      modifies users, txs.repo
      ensures Valid()
      ensures balance == old(users.users[userId].balance) - amount
      ensures users.users == old(users.users)[userId := old(users.users[userId]).(balance := balance)]
      ensures txs.repo.records == old(txs.repo.records)
                + [Entry(|old(txs.repo.records)| + 1, userId, Bet, amount, balance, Some(GameType.Poker), now)]
      ensures Conserves(users, txs.repo, userId)
    {
      balance := Wagers.TakeStake(users, txs, userId, amount, GameType.Poker, now);
    }

    /** The payout step of DrawAsync; the games stay valid. */
    method CreditWin(userId: int, pay: real, now: int) returns (balance: real)
      requires Valid() && userId in users.users
      modifies users, txs.repo
      ensures Valid()
      ensures users.users.Keys == old(users.users.Keys)
      ensures balance == Credit(old(users.users[userId].balance), pay)
      ensures Credited(users, txs.repo, userId, pay, GameType.Poker, now, old(users.users), old(txs.repo.records))
      ensures Conserves(users, txs.repo, userId)
    {
      balance := Wagers.CreditWin(users, txs, userId, pay, GameType.Poker, now);
    }

    /** StartGameAsync: takes the stake, then deals five cards from a fresh
        shuffled deck into a new stored game. */
    method StartGame(userId: int, betAmount: real, gameId: string, draws: seq<nat>, now: int)
      returns (r: Result<StateView>)
      requires Valid() && |draws| == 51
      modifies this, users, txs.repo
      ensures Valid()
      ensures old(CardsDistinct()) ==> CardsDistinct()
      ensures userId !in old(users.users) ==> r == Err(UserNotFound) && unchanged(this, users, txs.repo)
      ensures userId in old(users.users) && old(users.users[userId].balance) < betAmount ==>
                r == Err(InsufficientBalance) && unchanged(this, users, txs.repo)
      ensures userId in old(users.users) && old(users.users[userId].balance) >= betAmount ==>
                var b := old(users.users[userId].balance) - betAmount;
                var g := Dealt(gameId, userId, betAmount, Shuffled(FullDeck(), draws), now);
                && users.users == old(users.users)[userId := old(users.users[userId]).(balance := b)]
                && txs.repo.records == old(txs.repo.records)
                     + [Entry(|old(txs.repo.records)| + 1, userId, Bet, betAmount, b, Some(GameType.Poker), now)]
                && Conserves(users, txs.repo, userId)
                && activeGames == old(activeGames)[gameId := g]
                && r == Ok(StateView(gameId, g.hand, "Initial Hand", betAmount, 0.0, 0.0, b, Playing, true, []))
    {
      if userId !in users.users {
        return Err(UserNotFound);
      }
      if users.users[userId].balance < betAmount {
        return Err(InsufficientBalance);
      }
      var balance := TakeStake(userId, betAmount, now);
      var deck := CreateShuffledDeck(draws);
      var game := PokerGame(gameId, userId, betAmount, deck, [], Playing, now, "", 0.0, false);
      game := game.(hand := game.deck[..5]);
      game := game.(deck := game.deck[5..]);
      activeGames := activeGames[gameId := game];
      DealSplitsDeck(draws);
      r := Ok(StateView(gameId, game.hand, "Initial Hand", betAmount, 0.0, 0.0, balance, Playing, true, []));
    }

    /** DrawAsync: the checks in the service's order, before anything
        changes; then the draw and the settlement. The game stays stored,
        marked as drawn. */
    method Draw(gameId: string, cardsToHold: seq<int>, now: int) returns (r: Result<StateView>)
      requires Valid()
      modifies this, users, txs.repo
      ensures Valid()
      ensures users.users.Keys == old(users.users.Keys)
      ensures old(CardsDistinct()) ==> CardsDistinct()
      ensures gameId !in old(activeGames) ==> r == Err(GameNotFound) && unchanged(this, users, txs.repo)
      ensures gameId in old(activeGames) && old(activeGames[gameId]).hasDrawn ==>
                r == Err(AlreadyDrawn) && unchanged(this, users, txs.repo)
      ensures gameId in old(activeGames) && !old(activeGames[gameId]).hasDrawn
              && old(activeGames[gameId]).status != Playing ==>
                r == Err(NotPlaying) && unchanged(this, users, txs.repo)
      ensures gameId in old(activeGames) && !old(activeGames[gameId]).hasDrawn
              && old(activeGames[gameId]).status == Playing
              && (exists k :: 0 <= k < |cardsToHold| && !(0 <= cardsToHold[k] < 5)) ==>
                r == Err(InvalidCardPositions) && unchanged(this, users, txs.repo)
      ensures gameId in old(activeGames) && !old(activeGames[gameId]).hasDrawn
              && old(activeGames[gameId]).status == Playing
              && (forall k :: 0 <= k < |cardsToHold| ==> 0 <= cardsToHold[k] < 5) ==>
                var g := old(activeGames[gameId]);
                var d := Drawn(g, cardsToHold);
                var pay := Multiplier(Classify(d.hand));
                && activeGames == old(activeGames)[gameId := d]
                && Credited(users, txs.repo, g.userId, d.winAmount, GameType.Poker, now,
                            old(users.users), old(txs.repo.records))
                && Conserves(users, txs.repo, g.userId)
                && r == Ok(StateView(gameId, d.hand, d.handRank, g.betAmount, d.winAmount, pay,
                                     Credit(old(users.users[g.userId].balance), d.winAmount),
                                     d.status, false, cardsToHold))
    {
      if gameId !in activeGames {
        return Err(GameNotFound);
      }
      var game := activeGames[gameId];
      if game.hasDrawn {
        return Err(AlreadyDrawn);
      }
      if game.status != Playing {
        return Err(NotPlaying);
      }
      if exists k :: 0 <= k < |cardsToHold| && !(0 <= cardsToHold[k] < 5) {
        return Err(InvalidCardPositions);
      }
      var state := DrawPlaying(gameId, cardsToHold, now);
      r := Ok(state);
    }

    /** The part of DrawAsync after the checks: the cards not held are
        replaced, the hand is evaluated, and a positive win is credited. */
    method DrawPlaying(gameId: string, cardsToHold: seq<int>, now: int) returns (state: StateView)
      requires Valid() && gameId in activeGames && !activeGames[gameId].hasDrawn
      modifies this, users, txs.repo
      ensures Valid()
      ensures users.users.Keys == old(users.users.Keys)
      ensures old(CardsDistinct()) ==> CardsDistinct()
      ensures var g := old(activeGames[gameId]);
              var d := Drawn(g, cardsToHold);
              var pay := Multiplier(Classify(d.hand));
              && activeGames == old(activeGames)[gameId := d]
              && Credited(users, txs.repo, g.userId, d.winAmount, GameType.Poker, now,
                          old(users.users), old(txs.repo.records))
              && Conserves(users, txs.repo, g.userId)
              && state == StateView(gameId, d.hand, d.handRank, g.betAmount, d.winAmount, pay,
                                    Credit(old(users.users[g.userId].balance), d.winAmount),
                                    d.status, false, cardsToHold)
    {
      var game := activeGames[gameId];
      ghost var g := game;
      var payout;
      game, payout := DrawHand(game, cardsToHold);
      var balance := CreditWin(game.userId, game.winAmount, now);
      game := game.(status := Settled(game.winAmount));
      if Distinct(g.hand + g.deck) {
        RedrawDistinct(g.hand, g.deck, cardsToHold);
      }
      activeGames := activeGames[gameId := game];
      state := StateView(gameId, game.hand, game.handRank, game.betAmount, game.winAmount, payout,
                         balance, game.status, false, cardsToHold);
    }

    /** GetGameStateAsync. */
    function GetGameState(gameId: string): (r: Result<StateView>)
      reads this, users, txs.repo
      requires Valid()
      ensures gameId !in activeGames <==> r == Err(GameNotFound)
      ensures r.Ok? ==> var g := activeGames[gameId];
                        && r.value.canDraw == (!g.hasDrawn && g.status == Playing)
                        && r.value.hand == g.hand && r.value.balanceAfter == users.users[g.userId].balance
    {
      if gameId !in activeGames then Err(GameNotFound)
      else
        var g := activeGames[gameId];
        Ok(StateView(g.gameId, g.hand, g.handRank, g.betAmount, g.winAmount, ReportedPayout(g),
                     users.users[g.userId].balance, g.status, !g.hasDrawn && g.status == Playing, []))
    }
  }
}
