/** BlackjackService: single-deck blackjack sessions kept in memory,
    one bet per session, settled against the user's balance and the ledger. */
module BlackjackService {
  import opened Common
  import opened UserStore
  import opened TransactionStore
  import opened Transactions
  import opened BlackjackCards
  import opened Wagers

  datatype Status =
    | Playing
    | PlayerBlackjack
    | DealerBlackjack
    | PlayerBust
    | DealerBust
    | PlayerWin
    | DealerWin
    | Push

  /** BlackjackGame. */
  datatype Game = Game(
    gameId: string,
    userId: int,
    betAmount: real,
    playerCards: seq<Card>,
    dealerCards: seq<Card>,
    status: Status)

  /** BlackjackStateDto. */
  datatype StateView = StateView(
    gameId: string,
    playerHand: seq<CardView>,
    dealerHand: seq<CardView>,
    playerHandValue: int,
    dealerHandValue: int,
    dealerShowingHoleCard: bool,
    status: Status,
    winAmount: Option<real>,
    balanceAfter: real,
    canHit: bool,
    canStand: bool,
    canDouble: bool)

  /** The opening deal: player gets deck[0] and deck[2], dealer deck[1]
      and deck[3]; a natural on either side ends the game at once. */
  function Deal(gameId: string, userId: int, betAmount: real, deck: seq<Card>): (g: Game)
    requires |deck| >= 4
    ensures g.playerCards == [deck[0], deck[2]] && g.dealerCards == [deck[1], deck[3]]
    ensures g.gameId == gameId && g.userId == userId && g.betAmount == betAmount
  {
    var player := [deck[0], deck[2]];
    var dealer := [deck[1], deck[3]];
    Game(gameId, userId, betAmount, player, dealer, OpeningStatus(player, dealer))
  }

  /** The status right after the deal. */
  function OpeningStatus(player: seq<Card>, dealer: seq<Card>): Status
  {
    if HandValue(player) == 21 && |player| == 2 then
      (if HandValue(dealer) == 21 then Push else PlayerBlackjack)
    else if HandValue(dealer) == 21 && |dealer| == 2 then DealerBlackjack
    else Playing
  }

  /** On two-card hands: a player natural wins 3:2 unless the dealer also
      has one (a push); a dealer natural alone wins; otherwise play goes on. */
  lemma OpeningStatusByCards(p0: Card, p1: Card, d0: Card, d1: Card)
    ensures var s := OpeningStatus([p0, p1], [d0, d1]);
            && (s == Push <==> IsNatural(p0, p1) && IsNatural(d0, d1))
            && (s == PlayerBlackjack <==> IsNatural(p0, p1) && !IsNatural(d0, d1))
            && (s == DealerBlackjack <==> !IsNatural(p0, p1) && IsNatural(d0, d1))
            && (s == Playing <==> !IsNatural(p0, p1) && !IsNatural(d0, d1))
  {
    TwoCardTwentyOne(p0, p1);
    TwoCardTwentyOne(d0, d1);
  }

  /** The comparison after the dealer has played. */
  function Showdown(playerValue: int, dealerValue: int): (s: Status)
    ensures s == DealerBust <==> dealerValue > 21
    ensures s == PlayerWin <==> dealerValue <= 21 && playerValue > dealerValue
    ensures s == DealerWin <==> dealerValue <= 21 && dealerValue > playerValue
    ensures s == Push <==> dealerValue <= 21 && dealerValue == playerValue
  {
    if dealerValue > 21 then DealerBust
    else if playerValue > dealerValue then PlayerWin
    else if dealerValue > playerValue then DealerWin
    else Push
  }

  /** The dealer's turn from position `from` of the deck, and the result. */
  function DealerTurn(game: Game, deck: seq<Card>, from: nat): (r: Game)
    requires from + 17 <= |deck| + |game.dealerCards|
    ensures r == game.(dealerCards := r.dealerCards, status := r.status)
    ensures |r.dealerCards| >= |game.dealerCards| && r.dealerCards[..|game.dealerCards|] == game.dealerCards
    ensures HandValue(r.dealerCards) >= 17
    ensures r.status in {DealerBust, PlayerWin, DealerWin, Push}
  {
    DealerPlayDraws(game.dealerCards, deck, from);
    DealerPlayStops(game.dealerCards, deck, from);
    var dealer := DealerPlay(game.dealerCards, deck, from);
    game.(dealerCards := dealer, status := Showdown(HandValue(game.playerCards), HandValue(dealer)))
  }

  /** The dealer's turn as StandAsync and DoubleDownAsync play it: the
      dealer draws from position `from`, then the hand values are compared. */
  method PlayDealerTurn(game: Game, deck: seq<Card>, from: nat) returns (fin: Game)
    requires from + 17 <= |deck| + |game.dealerCards|
    ensures fin == DealerTurn(game, deck, from)
  {
    var dealer := DealerDraws(game.dealerCards, deck, from);
    var dealerValue := CalculateHandValue(dealer);
    var playerValue := CalculateHandValue(game.playerCards);
    var status: Status;
    if dealerValue > 21 {
      status := DealerBust;
    } else if playerValue > dealerValue {
      status := PlayerWin;
    } else if dealerValue > playerValue {
      status := DealerWin;
    } else {
      status := Push;
    }
    fin := game.(dealerCards := dealer, status := status);
  }

  /** The amount FinalizeGameAsync credits for a finished game. */
  function Payout(status: Status, betAmount: real): real
  {
    match status
    case PlayerBlackjack => betAmount * 2.5
    case PlayerWin => betAmount * 2.0
    case DealerBust => betAmount * 2.0
    case Push => betAmount
    case _ => 0.0
  }

  /** What the player ends up with relative to the stake: a natural wins
      3:2, a win 1:1, a push returns the stake, everything else loses it. */
  lemma PayoutNet(status: Status, betAmount: real)
    ensures status == PlayerBlackjack ==> Payout(status, betAmount) - betAmount == 1.5 * betAmount
    ensures status == PlayerWin || status == DealerBust ==> Payout(status, betAmount) - betAmount == betAmount
    ensures status == Push ==> Payout(status, betAmount) == betAmount
    ensures status in {DealerWin, PlayerBust, DealerBlackjack, Playing} ==> Payout(status, betAmount) == 0.0
    ensures betAmount > 0.0 ==> (Payout(status, betAmount) > 0.0 <==> status in {PlayerBlackjack, PlayerWin, DealerBust, Push})
  {
  }

  /** CreateStateDto. */
  function CreateStateDto(game: Game, balance: real, showDealerHoleCard: bool, winAmount: Option<real>): StateView
    requires |game.dealerCards| >= 1
  {
    var hidden := !showDealerHoleCard && game.status == Playing;
    StateView(
      game.gameId,
      ParseCards(game.playerCards),
      if hidden then [ParseCard(game.dealerCards[0])] else ParseCards(game.dealerCards),
      HandValue(game.playerCards),
      if hidden then CardValue(game.dealerCards[0]) else HandValue(game.dealerCards),
      showDealerHoleCard,
      game.status,
      winAmount,
      balance,
      game.status == Playing,
      game.status == Playing,
      game.status == Playing && |game.playerCards| == 2)
  }

  /** What the client sees: while the game is in play and the hole card is
      not to be shown, the view holds only the dealer's first card and its
      value; the actions on offer follow the status. */
  lemma StateDtoShows(game: Game, balance: real, showDealerHoleCard: bool, winAmount: Option<real>)
    requires |game.dealerCards| >= 1
    ensures var s := CreateStateDto(game, balance, showDealerHoleCard, winAmount);
            && s.gameId == game.gameId && s.status == game.status
            && s.balanceAfter == balance && s.winAmount == winAmount
            && s.playerHand == ParseCards(game.playerCards) && s.playerHandValue == HandValue(game.playerCards)
            && (!showDealerHoleCard && game.status == Playing ==>
                  s.dealerHand == [ParseCard(game.dealerCards[0])] && s.dealerHandValue == CardValue(game.dealerCards[0]))
            && (showDealerHoleCard || game.status != Playing ==>
                  s.dealerHand == ParseCards(game.dealerCards) && s.dealerHandValue == HandValue(game.dealerCards))
            && s.canHit == s.canStand == (game.status == Playing)
            && (s.canDouble <==> game.status == Playing && |game.playerCards| == 2)
  {
  }

  /** A stored session: keyed by its id, at least the two dealt player
      cards, and the dealer's two cards. */
  predicate WellDealt(id: string, g: Game)
  {
    g.gameId == id && |g.playerCards| >= 2 && |g.dealerCards| == 2
  }

  /** How a double down on `g` ends with the shuffled `deck`: twice the
      bet, one more card from deck[0], then a bust or the dealer's turn from
      deck[1]. */
  function DoubleDownOutcome(g: Game, deck: seq<Card>): (fin: Game)
    requires |g.dealerCards| >= 1 && |deck| >= 18
    ensures fin.gameId == g.gameId && fin.userId == g.userId
    ensures fin.betAmount == 2.0 * g.betAmount
    ensures fin.playerCards == g.playerCards + [deck[0]]
    ensures fin.status != Playing
    ensures |fin.dealerCards| >= |g.dealerCards|
    ensures fin.status == PlayerBust <==> HandValue(g.playerCards + [deck[0]]) > 21
  {
    var doubled := g.(betAmount := g.betAmount * 2.0, playerCards := g.playerCards + [deck[0]]);
    if HandValue(doubled.playerCards) > 21 then doubled.(status := PlayerBust)
    else DealerTurn(doubled, deck, 1)
  }

  /** Storing a session and then removing it leaves the other sessions as they were. */
  lemma StoreThenRemove(games: map<string, Game>, id: string, g: Game)
    ensures games[id := g] - {id} == games - {id}
  {
    assert forall k :: k in games[id := g] - {id} <==> k in games - {id};
  }

  class BlackjackService {
    const users: UserRepository
    const txs: TransactionService
    /** The static _activeGames dictionary. */
    var activeGames: map<string, Game>

    ghost predicate Valid()
      reads this, users, txs.repo
    {
      && txs.users == users
      && users.Valid()
      && txs.repo.Valid()
      && forall id :: id in activeGames ==> WellDealt(id, activeGames[id]) && activeGames[id].userId in users.users
    }

    /** Every stored session is still in play. */
    ghost predicate AllPlaying()
      reads this
    {
      forall id :: id in activeGames ==> activeGames[id].status == Playing
    }

    constructor (users: UserRepository, txs: TransactionService)
      requires txs.users == users && users.Valid() && txs.repo.Valid()
      ensures Valid() && AllPlaying() && activeGames == map[]
      ensures this.users == users && this.txs == txs
    {
      this.users := users;
      this.txs := txs;
      activeGames := map[];
    }

    /** The state FinalizeGameAsync leaves, from sessions `games0`, users
        `users0` and ledger `records0`: the session is gone and its payout
        is credited. */
    ghost predicate Settled(game: Game, now: int, games0: map<string, Game>,
                            users0: map<int, User>, records0: seq<Transaction>)
      reads this, users, txs.repo
      requires game.userId in users0
    {
      && activeGames == games0 - {game.gameId}
      && Credited(users, txs.repo, game.userId, Payout(game.status, game.betAmount), GameType.Blackjack, now, users0, records0)
    }

    /** The payout step of FinalizeGameAsync, which keeps the sessions valid. */
    method CreditWin(userId: int, pay: real, now: int) returns (balance: real)
      requires Valid() && userId in users.users
      modifies users, txs.repo
      ensures Valid()
      ensures users.users.Keys == old(users.users.Keys)
      ensures balance == Credit(old(users.users[userId].balance), pay)
      ensures Credited(users, txs.repo, userId, pay, GameType.Blackjack, now, old(users.users), old(txs.repo.records))
      ensures Conserves(users, txs.repo, userId)
    {
      balance := Wagers.CreditWin(users, txs, userId, pay, GameType.Blackjack, now);
    }

    /** FinalizeGameAsync. */
    method FinalizeGame(game: Game, now: int) returns (state: StateView)
      requires Valid() && game.userId in users.users && |game.dealerCards| >= 1
      modifies this, users, txs.repo
      ensures Valid()
      ensures users.users.Keys == old(users.users.Keys)
      ensures Settled(game, now, old(activeGames), old(users.users), old(txs.repo.records))
      ensures Conserves(users, txs.repo, game.userId)
      ensures var pay := Payout(game.status, game.betAmount);
              state == CreateStateDto(game, Credit(old(users.users[game.userId].balance), pay), true, Some(pay))
    {
      var winAmount := Payout(game.status, game.betAmount);
      var balance := CreditWin(game.userId, winAmount, now);
      activeGames := activeGames - {game.gameId};
      state := CreateStateDto(game, balance, true, Some(winAmount));
    }

    /** The stake taken for a bet: debited from the balance and recorded as
        one Bet whose balance fields hold the balance after the debit; the
        sessions stay valid. */
    method TakeStake(userId: int, amount: real, now: int) returns (balance: real)
      requires Valid() && userId in users.users
      modifies users, txs.repo
      ensures Valid()
      ensures balance == old(users.users[userId].balance) - amount
      ensures users.users == old(users.users)[userId := old(users.users[userId]).(balance := balance)]
      ensures txs.repo.records == old(txs.repo.records)
                + [Entry(|old(txs.repo.records)| + 1, userId, Bet, amount, balance, Some(GameType.Blackjack), now)]
      ensures Conserves(users, txs.repo, userId)
    {
      balance := Wagers.TakeStake(users, txs, userId, amount, GameType.Blackjack, now);
    }

    /** The dealing part of StartGameAsync, once the stake is taken: the
        session is stored with the opening deal from `deck`, and settled at
        once on a natural. */
    method OpenGame(userId: int, betAmount: real, gameId: string, deck: seq<Card>, now: int)
      returns (state: StateView)
      requires Valid() && userId in users.users && |deck| >= 4
      modifies this, users, txs.repo
      ensures Valid()
      ensures users.users.Keys == old(users.users.Keys)
      ensures old(AllPlaying()) ==> AllPlaying()
      ensures var g := Deal(gameId, userId, betAmount, deck);
              var b := old(users.users[userId].balance);
              var pay := Payout(g.status, betAmount);
              && Conserves(users, txs.repo, userId)
              && (g.status == Playing ==>
                    && activeGames == old(activeGames)[gameId := g]
                    && users.users == old(users.users)
                    && txs.repo.records == old(txs.repo.records)
                    && state == CreateStateDto(g, b, false, None))
              && (g.status != Playing ==>
                    && Settled(g, now, old(activeGames), old(users.users), old(txs.repo.records))
                    && state == CreateStateDto(g, Credit(b, pay), true, Some(pay)))
    {
      var game := Game(gameId, userId, betAmount, [deck[0], deck[2]], [deck[1], deck[3]], Playing);
      activeGames := activeGames[gameId := game];

      var playerValue := CalculateHandValue(game.playerCards);
      var dealerValue := CalculateHandValue(game.dealerCards);
      if playerValue == 21 && |game.playerCards| == 2 {
        game := game.(status := if dealerValue == 21 then Push else PlayerBlackjack);
        state := FinalizeGame(game, now);
        StoreThenRemove(old(activeGames), gameId, game.(status := Playing));
        return;
      }
      if dealerValue == 21 && |game.dealerCards| == 2 {
        game := game.(status := DealerBlackjack);
        state := FinalizeGame(game, now);
        StoreThenRemove(old(activeGames), gameId, game.(status := Playing));
        return;
      }
      state := CreateStateDto(game, users.users[userId].balance, false, None);
    }

    /** StartGameAsync: takes the stake, deals from a fresh shuffled deck and
        settles at once on a natural. */
    method StartGame(userId: int, betAmount: real, gameId: string, draws: seq<nat>, now: int)
      returns (r: Result<StateView>)
      requires Valid() && |draws| == 51
      modifies this, users, txs.repo
      ensures Valid()
      ensures users.users.Keys == old(users.users.Keys)
      ensures old(AllPlaying()) ==> AllPlaying()
      ensures userId !in old(users.users) ==> r == Err(UserNotFound) && unchanged(this, users, txs.repo)
      ensures userId in old(users.users) && old(users.users[userId].balance) < betAmount ==>
                r == Err(InsufficientBalance) && unchanged(this, users, txs.repo)
      ensures userId in old(users.users) && old(users.users[userId].balance) >= betAmount ==>
                var b := old(users.users[userId].balance) - betAmount;
                var debited := old(users.users)[userId := old(users.users[userId]).(balance := b)];
                var ledger := old(txs.repo.records)
                  + [Entry(|old(txs.repo.records)| + 1, userId, Bet, betAmount, b, Some(GameType.Blackjack), now)];
                var g := Deal(gameId, userId, betAmount, Shuffled(draws));
                var pay := Payout(g.status, betAmount);
                && Conserves(users, txs.repo, userId)
                && (g.status == Playing ==>
                      && activeGames == old(activeGames)[gameId := g]
                      && users.users == debited
                      && txs.repo.records == ledger
                      && r == Ok(CreateStateDto(g, b, false, None)))
                && (g.status != Playing ==>
                      && Settled(g, now, old(activeGames), debited, ledger)
                      && r == Ok(CreateStateDto(g, Credit(b, pay), true, Some(pay))))
    {
      if userId !in users.users {
        return Err(UserNotFound);
      }
      if users.users[userId].balance < betAmount {
        return Err(InsufficientBalance);
      }
      var balance := TakeStake(userId, betAmount, now);
      var deck := CreateAndShuffleDeck(draws);
      var state := OpenGame(userId, betAmount, gameId, deck, now);
      r := Ok(state);
    }

    /** The in-play part of HitAsync: the player takes `card`; over 21 is a
        bust, which ends the game with nothing paid. */
    method HitPlaying(gameId: string, card: Card, now: int) returns (state: StateView)
      requires Valid() && gameId in activeGames && activeGames[gameId].status == Playing
      modifies this, users, txs.repo
      ensures Valid()
      ensures old(AllPlaying()) ==> AllPlaying()
      ensures var g := old(activeGames[gameId]);
              var hit := g.(playerCards := g.playerCards + [card]);
              var b := old(users.users[g.userId].balance);
              && users.users == old(users.users)
              && txs.repo.records == old(txs.repo.records)
              && (HandValue(hit.playerCards) > 21 ==>
                    && activeGames == old(activeGames) - {gameId}
                    && state == CreateStateDto(hit.(status := PlayerBust), b, true, Some(0.0)))
              && (HandValue(hit.playerCards) <= 21 ==>
                    && activeGames == old(activeGames)[gameId := hit]
                    && state == CreateStateDto(hit, b, false, None))
    {
      var game := activeGames[gameId];
      game := game.(playerCards := game.playerCards + [card]);
      activeGames := activeGames[gameId := game];

      var playerValue := CalculateHandValue(game.playerCards);
      if playerValue > 21 {
        game := game.(status := PlayerBust);
        assert Payout(game.status, game.betAmount) == 0.0;
        state := FinalizeGame(game, now);
        assert users.users == old(users.users) && txs.repo.records == old(txs.repo.records);
        StoreThenRemove(old(activeGames), gameId, game.(status := Playing));
        return;
      }
      state := CreateStateDto(game, users.users[game.userId].balance, false, None);
    }

    /** HitAsync: one card from a fresh shuffled deck. */
    method Hit(userId: int, gameId: string, draws: seq<nat>, now: int) returns (r: Result<StateView>)
      requires Valid() && |draws| == 51
      modifies this, users, txs.repo
      ensures Valid()
      ensures old(AllPlaying()) ==> AllPlaying()
      ensures gameId !in old(activeGames) ==> r == Err(GameNotFound) && unchanged(this, users, txs.repo)
      ensures gameId in old(activeGames) && old(activeGames[gameId]).userId != userId ==>
                r == Err(NotYourGame) && unchanged(this, users, txs.repo)
      ensures gameId in old(activeGames) && old(activeGames[gameId]).userId == userId
              && old(activeGames[gameId]).status != Playing ==>
                r == Err(NotPlaying) && unchanged(this, users, txs.repo)
      ensures gameId in old(activeGames) && old(activeGames[gameId]).userId == userId
              && old(activeGames[gameId]).status == Playing ==>
                var g := old(activeGames[gameId]);
                var hit := g.(playerCards := g.playerCards + [Shuffled(draws)[0]]);
                var b := old(users.users[userId].balance);
                && users.users == old(users.users)
                && txs.repo.records == old(txs.repo.records)
                && (HandValue(hit.playerCards) > 21 ==>
                      && activeGames == old(activeGames) - {gameId}
                      && r == Ok(CreateStateDto(hit.(status := PlayerBust), b, true, Some(0.0))))
                && (HandValue(hit.playerCards) <= 21 ==>
                      && activeGames == old(activeGames)[gameId := hit]
                      && r == Ok(CreateStateDto(hit, b, false, None)))
    {
      if gameId !in activeGames {
        return Err(GameNotFound);
      }
      var game := activeGames[gameId];
      if game.userId != userId {
        return Err(NotYourGame);
      }
      if game.status != Playing {
        return Err(NotPlaying);
      }
      var deck := CreateAndShuffleDeck(draws);
      var state := HitPlaying(gameId, deck[0], now);
      r := Ok(state);
    }

    /** StandAsync: the dealer draws from a fresh shuffled deck to 17 or
        more, the hands are compared and the game is settled. */
    method Stand(userId: int, gameId: string, draws: seq<nat>, now: int) returns (r: Result<StateView>)
      requires Valid() && |draws| == 51
      modifies this, users, txs.repo
      ensures Valid()
      ensures users.users.Keys == old(users.users.Keys)
      ensures old(AllPlaying()) ==> AllPlaying()
      ensures gameId !in old(activeGames) ==> r == Err(GameNotFound) && unchanged(this, users, txs.repo)
      ensures gameId in old(activeGames) && old(activeGames[gameId]).userId != userId ==>
                r == Err(NotYourGame) && unchanged(this, users, txs.repo)
      ensures gameId in old(activeGames) && old(activeGames[gameId]).userId == userId
              && old(activeGames[gameId]).status != Playing ==>
                r == Err(NotPlaying) && unchanged(this, users, txs.repo)
      ensures gameId in old(activeGames) && old(activeGames[gameId]).userId == userId
              && old(activeGames[gameId]).status == Playing ==>
                var fin := DealerTurn(old(activeGames[gameId]), Shuffled(draws), 0);
                var pay := Payout(fin.status, fin.betAmount);
                && HandValue(fin.dealerCards) >= 17
                && Settled(fin, now, old(activeGames), old(users.users), old(txs.repo.records))
                && Conserves(users, txs.repo, userId)
                && r == Ok(CreateStateDto(fin, Credit(old(users.users[userId].balance), pay), true, Some(pay)))
    {
      if gameId !in activeGames {
        return Err(GameNotFound);
      }
      var game := activeGames[gameId];
      if game.userId != userId {
        return Err(NotYourGame);
      }
      if game.status != Playing {
        return Err(NotPlaying);
      }
      var deck := CreateAndShuffleDeck(draws);
      game := PlayDealerTurn(game, deck, 0);
      var state := FinalizeGame(game, now);
      r := Ok(state);
    }

    /** DoubleDownAsync: only on the first two cards; takes a second stake
        equal to the first, deals exactly one card, then plays the dealer's
        turn from the next card of the same deck unless the player busts. */
    method DoubleDown(userId: int, gameId: string, draws: seq<nat>, now: int) returns (r: Result<StateView>)
      requires Valid() && |draws| == 51
      modifies this, users, txs.repo
      ensures Valid()
      ensures users.users.Keys == old(users.users.Keys)
      ensures old(AllPlaying()) ==> AllPlaying()
      ensures gameId !in old(activeGames) ==> r == Err(GameNotFound) && unchanged(this, users, txs.repo)
      ensures gameId in old(activeGames) && old(activeGames[gameId]).userId != userId ==>
                r == Err(NotYourGame) && unchanged(this, users, txs.repo)
      ensures gameId in old(activeGames) && old(activeGames[gameId]).userId == userId
              && old(activeGames[gameId]).status != Playing ==>
                r == Err(NotPlaying) && unchanged(this, users, txs.repo)
      ensures gameId in old(activeGames) && old(activeGames[gameId]).userId == userId
              && old(activeGames[gameId]).status == Playing && |old(activeGames[gameId]).playerCards| != 2 ==>
                r == Err(CannotDoubleDown) && unchanged(this, users, txs.repo)
      ensures gameId in old(activeGames) && old(activeGames[gameId]).userId == userId
              && old(activeGames[gameId]).status == Playing && |old(activeGames[gameId]).playerCards| == 2 ==>
                var g := old(activeGames[gameId]);
                if old(users.users[userId].balance) < g.betAmount then
                  r == Err(InsufficientBalance) && unchanged(this, users, txs.repo)
                else
                  var b := old(users.users[userId].balance) - g.betAmount;
                  var debited := old(users.users)[userId := old(users.users[userId]).(balance := b)];
                  var ledger := old(txs.repo.records)
                    + [Entry(|old(txs.repo.records)| + 1, userId, Bet, g.betAmount, b, Some(GameType.Blackjack), now)];
                  var fin := DoubleDownOutcome(g, Shuffled(draws));
                  var pay := Payout(fin.status, fin.betAmount);
                  && Settled(fin, now, old(activeGames), debited, ledger)
                  && Conserves(users, txs.repo, userId)
                  && r == Ok(CreateStateDto(fin, Credit(b, pay), true, Some(pay)))
    {
      if gameId !in activeGames {
        return Err(GameNotFound);
      }
      var game := activeGames[gameId];
      if game.userId != userId {
        return Err(NotYourGame);
      }
      if game.status != Playing {
        return Err(NotPlaying);
      }
      if |game.playerCards| != 2 {
        return Err(CannotDoubleDown);
      }
      var deck := CreateAndShuffleDeck(draws);
      r := DoubleStake(game, deck, now);
    }

    /** The part of DoubleDownAsync after the session checks: the balance
        check, the second stake and the play with the shuffled `deck`. */
    method DoubleStake(game: Game, deck: seq<Card>, now: int) returns (r: Result<StateView>)
      requires Valid() && game.userId in users.users && |game.dealerCards| >= 1 && |deck| == 52
      modifies this, users, txs.repo
      ensures Valid()
      ensures users.users.Keys == old(users.users.Keys)
      ensures Conserves(users, txs.repo, game.userId)
      ensures old(users.users[game.userId].balance) < game.betAmount ==>
                r == Err(InsufficientBalance) && unchanged(this, users, txs.repo)
      ensures old(users.users[game.userId].balance) >= game.betAmount ==>
                var b := old(users.users[game.userId].balance) - game.betAmount;
                var debited := old(users.users)[game.userId := old(users.users[game.userId]).(balance := b)];
                var ledger := old(txs.repo.records)
                  + [Entry(|old(txs.repo.records)| + 1, game.userId, Bet, game.betAmount, b, Some(GameType.Blackjack), now)];
                var fin := DoubleDownOutcome(game, deck);
                var pay := Payout(fin.status, fin.betAmount);
                && Settled(fin, now, old(activeGames), debited, ledger)
                && r == Ok(CreateStateDto(fin, Credit(b, pay), true, Some(pay)))
    {
      if users.users[game.userId].balance < game.betAmount {
        return Err(InsufficientBalance);
      }
      ghost var flow0, balance0 := NetFlow(txs.repo.records, game.userId), users.users[game.userId].balance;
      var balance := TakeStake(game.userId, game.betAmount, now);
      ghost var flow1 := NetFlow(txs.repo.records, game.userId);
      assert balance - balance0 == flow1 - flow0;
      ghost var b := old(users.users[game.userId].balance) - game.betAmount;
      var state := PlayDoubled(game, deck, now, old(activeGames),
                               old(users.users)[game.userId := old(users.users[game.userId]).(balance := b)],
                               old(txs.repo.records)
                                 + [Entry(|old(txs.repo.records)| + 1, game.userId, Bet, game.betAmount, b, Some(GameType.Blackjack), now)],
                               b);
      assert users.users[game.userId].balance - balance == NetFlow(txs.repo.records, game.userId) - flow1;
      r := Ok(state);
    }

    /** The play after the second stake is taken: the bet is doubled and
        the player gets deck[0]; a bust ends the game at once, otherwise the
        dealer draws from deck[1] on and the hands are compared; either way
        the game is settled. */
    method PlayDoubled(stored: Game, deck: seq<Card>, now: int, ghost games0: map<string, Game>,
                       ghost debited: map<int, User>, ghost ledger: seq<Transaction>, ghost b: real)
      returns (state: StateView)
      requires Valid() && stored.userId in debited && debited[stored.userId].balance == b
      requires |stored.dealerCards| >= 1 && |deck| == 52
      requires activeGames == games0 && users.users == debited && txs.repo.records == ledger
      modifies this, users, txs.repo
      ensures Valid()
      ensures users.users.Keys == debited.Keys
      ensures var fin := DoubleDownOutcome(stored, deck);
              var pay := Payout(fin.status, fin.betAmount);
              && Settled(fin, now, games0, debited, ledger)
              && Conserves(users, txs.repo, stored.userId)
              && state == CreateStateDto(fin, Credit(b, pay), true, Some(pay))
    {
      var game := stored.(betAmount := stored.betAmount * 2.0);
      game := game.(playerCards := game.playerCards + [deck[0]]);
      var playerValue := CalculateHandValue(game.playerCards);
      if playerValue > 21 {
        assert game.(status := PlayerBust) == DoubleDownOutcome(stored, deck);
        state := FinalizeGame(game.(status := PlayerBust), now);
        return;
      }
      game := PlayDealerTurn(game, deck, 1);
      assert game == DoubleDownOutcome(stored, deck);
      state := FinalizeGame(game, now);
    }
  }
}
