# Casino wagering engine — a Dafny model

This project models the back end of an online casino. The back end is an
ASP.NET API with four games and a ledger:

- **Blackjack** — one single-deck hand per session. The player can hit,
  stand or double down against a dealer who draws to 17.
- **Jacks-or-Better video poker** — five cards, one draw, and a fixed pay table.
- **European roulette** — 37 pockets. Many bets are settled on one spin.
- **A 3×3 slot machine** — five pay lines: three rows and two diagonals.

Each game takes its stake from the user's balance, records a `Bet`
transaction, and credits winnings as one `Win` transaction. The user
service handles deposits, withdrawals and profile edits. The transaction
service builds ledger records and serves the history newest-first, one
page at a time.

## Modules

| module | file | models |
|---|---|---|
| `Common` | `common.dfy` | `Option`/`Result`, error kinds, `Sum` of money amounts, the 32-bit unsigned random value |
| `UserStore` | `user_store.dfy` | the `User` record and the user repository (a `map` from id to user) |
| `TransactionStore` | `transaction_repository.dfy` | the `Transaction` record and the repository: append with a fresh key, lookup by key, the per-user newest-first page, the count |
| `Transactions` | `transaction_service.dfy` | `TransactionService`: the record it builds from the stored balance, and page clamping |
| `Accounts` | `user_service.dfy` | `UserService`: profile, balance, profile update, deposit, withdrawal |
| `Wagers` | `wagers.dfy` | the stake and the payout that every game makes, and the conservation property they keep |
| `Shuffles` | `shuffles.dfy` | the random index `draw % n` and the element swap of the Fisher–Yates shuffles |
| `BlackjackCards` | `blackjack_cards.dfy` | blackjack card strings, the 52-card deck and its shuffle, hand values with soft aces, the dealer's draw rule |
| `BlackjackService` | `blackjack_service.dfy` | blackjack sessions: deal, hit, stand, double down, settlement, the state shown to the player |
| `PokerCards` | `poker_cards.dfy` | the poker deck, its shuffle and the deal of five cards |
| `PokerHands` | `poker_hands.dfy` | hand evaluation: the sort and grouping steps, the straight test, and a reference classification proved equal to it |
| `PokerService` | `poker_service.dfy` | poker sessions: start, draw, settlement, state query |
| `RouletteService` | `roulette_service.dfy` | the wheel, colours, bet evaluation, the loop that settles the bets, the spin |
| `SlotMachineService` | `slot_machine_service.dfy` | the reels, pay-line evaluation, the spin |

### Modelling conventions

- **Money.** C# `decimal` is modelled as `real`. No rounding is modelled.
- **Random numbers.** These become parameters:
  - A shuffle takes one `nat` draw per swap.
  - The roulette wheel and each slot symbol take a `uint32`, the value the
    source reads from four random bytes.
- **The clock and new game ids.** `DateTime.UtcNow` is a `now: int`
  parameter, read once per operation. `Guid.NewGuid()` is a `gameId` parameter.
- **In-memory sessions.** The static session dictionaries of the blackjack
  and poker services become a `map` field of the service class.
- **Repositories.**
  - The user repository is a class holding a `map`.
  - The transaction repository is a class holding a `seq` whose record keys
    are their positions plus one. This is the database's identity column.
- **Errors.** A thrown exception is an `Err` result. Each method's
  contract says that an error changes nothing.
- **Conservation.** `Wagers.Conserves` is the property every state-changing
  game operation keeps. It says the user's balance moved by exactly what the
  ledger records appended for that user account for: the wins minus the bets
  and withdrawals, plus the deposits.

## Model

| member | source | states |
|---|---|---|
| UserStore.UserRepository.Update | backend/CasinoAPI.Core/Interfaces/IUserRepository.cs:12 | replaces exactly the stored user with that id, keeps the set of ids, counts one write |
| UserStore.UserRepository.SetBalance | backend/CasinoAPI.Core/Entities/User.cs:10 | changes only the balance of one user, keeps the set of ids, counts one write |
| TransactionStore.TransactionRepository.Create | backend/CasinoAPI.Infrastructure/Repositories/TransactionRepository.cs:17-22 | appends the record with the next key (count + 1) and returns it; keys stay equal to positions + 1 |
| TransactionStore.Find | backend/CasinoAPI.Infrastructure/Repositories/TransactionRepository.cs:24-27 | finds a stored record with that key, or reports none exactly when no record has it |
| TransactionStore.FindByKey | backend/CasinoAPI.Infrastructure/Repositories/TransactionRepository.cs:24-27 | with keys equal to positions + 1, lookup by key returns the record at position key − 1, and none outside 1..count |
| TransactionStore.ForUser | backend/CasinoAPI.Infrastructure/Repositories/TransactionRepository.cs:32 | the filter keeps exactly the records of that user |
| TransactionStore.ForUserAppend | backend/CasinoAPI.Infrastructure/Repositories/TransactionRepository.cs:39-44 | appending one record grows a user's history (and count) by one exactly when the record is theirs |
| TransactionStore.NewestFirstSpec | backend/CasinoAPI.Infrastructure/Repositories/TransactionRepository.cs:33 | the order by date descending, equal dates taken newest key first, is sorted that way and is a permutation of its input |
| TransactionStore.WinListedBeforeBet | backend/CasinoAPI.Infrastructure/Repositories/TransactionRepository.cs:33 | two records with the same date are listed newer key first, so a play's Win comes before its Bet, as it does when the Win's clock reading is later |
| Common.Wrap32 | backend/CasinoAPI.Infrastructure/Repositories/TransactionRepository.cs:34 | a C# `int` product lands in the `int` range, differs from the exact product by a multiple of 2^32, and equals it when it fits |
| TransactionStore.PageOffsetExact | backend/CasinoAPI.Infrastructure/Repositories/TransactionRepository.cs:34 | the skip count is (page−1)·size exactly while that product fits an `int` |
| TransactionStore.PageSlice | backend/CasinoAPI.Infrastructure/Repositories/TransactionRepository.cs:34-35 | Skip(offset).Take(size) is the slice from the offset (from 0 when the offset is negative), at most size long, empty exactly when that start is past the end |
| TransactionStore.WrappedPageRepeatsFirst | backend/CasinoAPI.Infrastructure/Repositories/TransactionRepository.cs:34-35 | a page whose (page−1)·size overflows into the negative `int`s, such as page 21474838 of size 100, skips nothing and repeats page 1, non-empty when the history is |
| TransactionStore.FirstPagesPrefix | backend/CasinoAPI.Infrastructure/Repositories/TransactionRepository.cs:34-35 | while (k−1)·size fits an `int`, the first k pages, concatenated, are the prefix of length min(k·size, count) |
| TransactionStore.AllPagesCoverAll | backend/CasinoAPI.Core/Services/TransactionService.cs:94 | for a history whose count fits an `int`, the pages 1..TotalPages, concatenated, give back the whole history: no record is lost or repeated |
| TransactionStore.PageCountBounds | backend/CasinoAPI.Core/Services/TransactionService.cs:94 | TotalPages is the ceiling of count/size: enough pages to hold every record, the last one non-empty, zero only for no records |
| TransactionStore.GetByUserIdSpec | backend/CasinoAPI.Infrastructure/Repositories/TransactionRepository.cs:29-37 | a page holds at most pageSize records, all of that user and all stored, newest first |
| TransactionStore.PageOfSorted | backend/CasinoAPI.Infrastructure/Repositories/TransactionRepository.cs:34-35 | a page of a newest-first list is newest first, and its records come from the list |
| Transactions.RecordedChange | backend/CasinoAPI.Core/Services/TransactionService.cs:32-36 | after − before is +amount for a Deposit, −amount for a Withdrawal, and zero for Bet and Win |
| Transactions.ClampPage | backend/CasinoAPI.Core/Services/TransactionService.cs:68 | the page is at least 1 and is kept when already valid |
| Transactions.ClampPageSize | backend/CasinoAPI.Core/Services/TransactionService.cs:69-70 | the page size lies in 1..100: below 1 becomes 20, above 100 becomes 100, others are kept |
| Transactions.TransactionService.CreateTransaction | backend/CasinoAPI.Core/Services/TransactionService.cs:18-64 | an unknown user is an error and nothing is recorded; otherwise exactly one record is appended with the next key, after = stored balance and before from RecordedChange's rule |
| Transactions.TransactionService.GetUserTransactions | backend/CasinoAPI.Core/Services/TransactionService.cs:66-96 | clamps page and size; the items are that user's, newest first, at most pageSize of them; the total is the user's record count and TotalPages equals PageCount of it, the ceiling over the size |
| Transactions.TransactionService.GetTransactionById | backend/CasinoAPI.Core/Services/TransactionService.cs:98-119 | returns the record with that key when 1 ≤ key ≤ count, and nothing otherwise |
| Transactions.PaginationExamples | backend/CasinoAPI.Tests/Services/TransactionServiceTests.cs:118-142 | 25 records in pages of 10 make 3 pages with both neighbours from page 2; 2 records in pages of 20 make 1 page with neither |
| Accounts.UserService.GetProfile | backend/CasinoAPI.Core/Services/UserService.cs:17-35 | an error exactly for an unknown user; otherwise the stored name, email and balance |
| Accounts.UserService.GetBalance | backend/CasinoAPI.Core/Services/UserService.cs:79-92 | an error exactly for an unknown user; otherwise the stored balance |
| Accounts.UserService.UpdateProfile | backend/CasinoAPI.Core/Services/UserService.cs:37-77 | a non-blank, different name or email is changed unless another user holds it, which aborts with nothing written; the balance never changes |
| Accounts.UserService.Deposit | backend/CasinoAPI.Core/Services/UserService.cs:94-121 | the balance rises by exactly the amount; one Deposit record with before = old and after = new balance; the user's net ledger flow rises by the amount |
| Accounts.UserService.Withdraw | backend/CasinoAPI.Core/Services/UserService.cs:123-155 | an unknown user or a balance below the amount changes nothing; otherwise the balance falls by exactly the amount, with one Withdrawal record of before/after |
| Wagers.TakeStake | backend/CasinoAPI.Core/Services/BlackjackService.cs:38-49 | the stake is debited and one Bet record appended; the balance change equals the ledger change (Conserves) |
| Wagers.CreditWin | backend/CasinoAPI.Core/Services/RouletteService.cs:79-93 | a positive amount is credited and recorded as one Win, anything else changes nothing; Conserves holds |
| Shuffles.Pick | backend/CasinoAPI.Core/Services/BlackjackService.cs:362-363 | the random index is below the bound |
| Shuffles.SwapAt | backend/CasinoAPI.Core/Services/BlackjackService.cs:364 | swaps two elements of the array in place |
| Shuffles.SwapPermutes | backend/CasinoAPI.Core/Services/PokerService.cs:252 | a swap keeps the same cards |
| BlackjackCards.CardRoundTrip | backend/CasinoAPI.Core/Services/BlackjackService.cs:349-351 | a card made from a rank and a suit parses back to that rank and suit |
| BlackjackCards.DeckCard | backend/CasinoAPI.Core/Services/BlackjackService.cs:345-353 | the deck card for (suit s, rank r) has rank Ranks[r] and suit Suits[s] |
| BlackjackCards.FullDeckDistinct | backend/CasinoAPI.Core/Services/BlackjackService.cs:345-353 | the 52 cards built by the double loop are pairwise distinct |
| BlackjackCards.ShuffledIsDeck | backend/CasinoAPI.Core/Services/BlackjackService.cs:343-368 | whatever the random draws, the shuffled deck holds the same 52 distinct cards |
| BlackjackCards.ShuffleInPlace | backend/CasinoAPI.Core/Services/BlackjackService.cs:355-365 | the array loop performs exactly the sequence of Fisher–Yates swaps |
| BlackjackCards.CreateAndShuffleDeck | backend/CasinoAPI.Core/Services/BlackjackService.cs:343-368 | returns the shuffled deck, a permutation of the full deck |
| BlackjackCards.ParseCard | backend/CasinoAPI.Core/Services/BlackjackService.cs:414-422 | splits a card into rank and suit, which concatenate back to the card, with its value in 2..11 |
| BlackjackCards.ParseCards | backend/CasinoAPI.Core/Services/BlackjackService.cs:414-422 | parses every card of a hand, in order |
| BlackjackCards.RankValues | backend/CasinoAPI.Core/Services/BlackjackService.cs:403-412 | a rank is worth 2..11, and 11 exactly for the ace |
| BlackjackCards.CardValueRange | backend/CasinoAPI.Core/Services/BlackjackService.cs:403-412 | any card is worth 2..11, and 11 exactly when it is an ace |
| BlackjackCards.DemoteSpec | backend/CasinoAPI.Core/Services/BlackjackService.cs:394-398 | the ace loop lowers the total in steps of 10, stops at the first total ≤ 21, and reaches hard total only when it cannot |
| BlackjackCards.HandValueIsBestTotal | backend/CasinoAPI.Core/Services/BlackjackService.cs:370-401 | the hand value lies between the hard and soft totals, is ≤ 21 exactly when the hard total is, and counts one more ace as 11 would bust |
| BlackjackCards.AceAndTenIsTwentyOne | backend/CasinoAPI.Core/Services/BlackjackService.cs:370-401 | an ace and a ten-valued card make 21 |
| BlackjackCards.TwoAcesIsTwelve | backend/CasinoAPI.Core/Services/BlackjackService.cs:370-401 | two aces make 12 |
| BlackjackCards.TwoCardTwentyOne | backend/CasinoAPI.Core/Services/BlackjackService.cs:370-401 | two cards make 21 exactly when one is an ace and the other is worth ten |
| BlackjackCards.CalculateHandValue | backend/CasinoAPI.Core/Services/BlackjackService.cs:370-401 | the two loops compute the best total: sum with aces at 11, then one ace at a time demoted while over 21 |
| BlackjackCards.DealerPlayDraws | backend/CasinoAPI.Core/Services/BlackjackService.cs:141-146 | the dealer's hand is the old hand followed by the next deck cards in order |
| BlackjackCards.DealerPlayStops | backend/CasinoAPI.Core/Services/BlackjackService.cs:143-146 | the dealer stops at 17 or more |
| BlackjackCards.DealerPlayMinimal | backend/CasinoAPI.Core/Services/BlackjackService.cs:143-146 | every hand the dealer drew to was below 17: no card is drawn after 17 is reached |
| BlackjackCards.DealerDraws | backend/CasinoAPI.Core/Services/BlackjackService.cs:140-146 | the draw loop ends with the dealer's play and a value of at least 17 |
| BlackjackService.Deal | backend/CasinoAPI.Core/Services/BlackjackService.cs:55-66 | the player gets deck cards 0 and 2, the dealer 1 and 3, with the given user, bet and id |
| BlackjackService.OpeningStatusByCards | backend/CasinoAPI.Core/Services/BlackjackService.cs:70-86 | two naturals push, the player's alone is PlayerBlackjack, the dealer's alone DealerBlackjack, and neither keeps the game playing |
| BlackjackService.Showdown | backend/CasinoAPI.Core/Services/BlackjackService.cs:148-166 | dealer over 21 busts; otherwise the higher total wins and equal totals push |
| BlackjackService.DealerTurn | backend/CasinoAPI.Core/Services/BlackjackService.cs:139-166 | only the dealer's cards and the status change; the dealer's earlier cards are kept, the hand ends at 17 or more, and the game is settled |
| BlackjackService.PlayDealerTurn | backend/CasinoAPI.Core/Services/BlackjackService.cs:139-166 | the dealer loop and the comparison compute DealerTurn |
| BlackjackService.PayoutNet | backend/CasinoAPI.Core/Services/BlackjackService.cs:265-284 | a blackjack nets 1.5× the bet, a win or dealer bust nets 1×, a push returns the stake, a loss pays nothing; something is paid exactly in the first four cases |
| BlackjackService.StateDtoShows | backend/CasinoAPI.Core/Services/BlackjackService.cs:311-341 | while playing with the hole card hidden, only the dealer's first card and its value are shown; can hit/stand only while playing, double only with two cards |
| BlackjackService.DoubleDownOutcome | backend/CasinoAPI.Core/Services/BlackjackService.cs:219-258 | the bet doubles, the player takes exactly one card, the game ends, and it is a player bust exactly when that card takes the hand over 21 |
| BlackjackService.BlackjackService.TakeStake | backend/CasinoAPI.Core/Services/BlackjackService.cs:38-49 | debits the stake and records one Bet; Conserves holds |
| BlackjackService.BlackjackService.CreditWin | backend/CasinoAPI.Core/Services/BlackjackService.cs:286-304 | credits a positive payout as one Win; Conserves holds |
| BlackjackService.BlackjackService.FinalizeGame | backend/CasinoAPI.Core/Services/BlackjackService.cs:263-309 | pays Payout(status) as one Win when positive, removes the session, and shows the full table with the balance after |
| BlackjackService.BlackjackService.OpenGame | backend/CasinoAPI.Core/Services/BlackjackService.cs:55-86 | a game without naturals is stored and shown with the hole card hidden; a natural settles it at once |
| BlackjackService.BlackjackService.StartGame | backend/CasinoAPI.Core/Services/BlackjackService.cs:24-87 | an unknown user or a short balance changes nothing; otherwise stake, Bet record, deal from a shuffled deck, and either a stored game or an immediate settlement; Conserves holds |
| BlackjackService.BlackjackService.HitPlaying | backend/CasinoAPI.Core/Services/BlackjackService.cs:106-119 | the player takes the card; over 21 ends the session as PlayerBust with nothing paid, otherwise the game stays stored |
| BlackjackService.BlackjackService.Hit | backend/CasinoAPI.Core/Services/BlackjackService.cs:89-120 | a missing game, another user's game or a finished game is an error that changes nothing; otherwise HitPlaying with the top card of a fresh shuffle; money never moves |
| BlackjackService.BlackjackService.Stand | backend/CasinoAPI.Core/Services/BlackjackService.cs:122-170 | the same three errors; otherwise the dealer draws to 17 or more, the game is settled and removed, and Conserves holds |
| BlackjackService.BlackjackService.DoubleStake | backend/CasinoAPI.Core/Services/BlackjackService.cs:194-260 | a balance below the bet changes nothing; otherwise a second stake is debited and recorded and the doubled game is settled |
| BlackjackService.BlackjackService.PlayDoubled | backend/CasinoAPI.Core/Services/BlackjackService.cs:219-260 | settles DoubleDownOutcome from the debited state |
| BlackjackService.BlackjackService.DoubleDown | backend/CasinoAPI.Core/Services/BlackjackService.cs:172-261 | the three session errors, a hand of other than two cards, or a short balance change nothing; otherwise stake, one card, dealer play unless bust, settlement; Conserves holds |
| PokerCards.FullDeckCards | backend/CasinoAPI.Core/Services/PokerService.cs:218-235 | every deck card has one of the four suits and a rank whose value is its index + 2 |
| PokerCards.FullDeckDistinct | backend/CasinoAPI.Core/Services/PokerService.cs:218-235 | the 52 built cards are pairwise distinct |
| PokerCards.ShuffleDeck | backend/CasinoAPI.Core/Services/PokerService.cs:240-256 | the while loop over a copy performs exactly the Fisher–Yates swaps |
| PokerCards.CreateShuffledDeck | backend/CasinoAPI.Core/Services/PokerService.cs:218-238 | builds the deck and returns its shuffle |
| PokerCards.ShuffledIsDeck | backend/CasinoAPI.Core/Services/PokerService.cs:218-256 | whatever the draws, the shuffled deck holds the same 52 distinct valid cards |
| PokerCards.DealSplitsDeck | backend/CasinoAPI.Core/Services/PokerService.cs:66-67 | Take(5) and Skip(5) split the deck into a hand of 5 and a rest of 47 with no card lost or shared |
| PokerHands.PayTable | backend/CasinoAPI.Core/Services/PokerService.cs:271-330 | every rank but High Card pays, and a better rank pays strictly more |
| PokerHands.SortBySpec | backend/CasinoAPI.Core/Services/PokerService.cs:268-269 | the descending order-by is ordered by its key and is a permutation of its input |
| PokerHands.SortedValuesSpec | backend/CasinoAPI.Core/Services/PokerService.cs:261 | the hand's values sorted ascending, a permutation of the hand's values |
| PokerHands.Keys | backend/CasinoAPI.Core/Services/PokerService.cs:265-266 | the group keys are the hand's values, each once |
| PokerHands.FirstWithCount | backend/CasinoAPI.Core/Services/PokerService.cs:322 | the result is one of the unique values and has the given count |
| PokerHands.FirstWithCountIsFirst | backend/CasinoAPI.Core/Services/PokerService.cs:322 | the result is the first such value: every unique value listed before it has another count |
| PokerHands.IsStraight | backend/CasinoAPI.Core/Services/PokerService.cs:333-360 | true exactly when the sorted values are consecutive or are the wheel 2-3-4-5-A |
| PokerHands.StraightIff | backend/CasinoAPI.Core/Services/PokerService.cs:333-360 | the sorted straight test holds exactly when the values form five in a row or the wheel, and starts at ten exactly for ten to ace |
| PokerHands.ClassifyStraights | backend/CasinoAPI.Core/Services/PokerService.cs:271-281 | a royal flush is exactly a ten-to-ace flush; a straight flush is any other run in one suit, the wheel included |
| PokerHands.KeysByCountFacts | backend/CasinoAPI.Core/Services/PokerService.cs:265-269 | the values ordered by group size are exactly the hand's values, each listed once (no repeats), largest group first |
| PokerHands.CountsFacts | backend/CasinoAPI.Core/Services/PokerService.cs:284-320 | the largest group counts 4, 3 or 2 exactly when the hand has quads, trips or a pair only; the second count tells full house and two pair |
| PokerHands.PairValueFacts | backend/CasinoAPI.Core/Services/PokerService.cs:320-326 | with exactly one pair, the first value counted twice exists and is a jack or better exactly when the pair is |
| PokerHands.EvaluateHand | backend/CasinoAPI.Core/Services/PokerService.cs:258-331 | the label and multiplier of the rank that the reference classification (flush, straight, group sizes) gives the hand |
| PokerHands.ClassifySwap | backend/CasinoAPI.Core/Services/PokerService.cs:261-269 | the rank does not depend on the order of the cards |
| PokerService.Dealt | backend/CasinoAPI.Core/Services/PokerService.cs:55-67 | the hand is the deck's first five cards and the stored deck the rest |
| PokerService.ReplacedCounts | backend/CasinoAPI.Core/Services/PokerService.cs:118-125 | the deck loses exactly as many cards as there are positions not held |
| PokerService.ReplaceCards | backend/CasinoAPI.Core/Services/PokerService.cs:118-125 | held positions keep their card, the others take the deck's cards in order, and those cards leave the deck |
| PokerService.RedrawDistinct | backend/CasinoAPI.Core/Services/PokerService.cs:118-125 | after the draw, no card is both in the hand and in the deck, and none is duplicated |
| PokerService.DrawHand | backend/CasinoAPI.Core/Services/PokerService.cs:118-160 | draws, marks the game drawn, evaluates the new hand, and sets the win and the Won/Lost status |
| PokerService.Winnings | backend/CasinoAPI.Core/Services/PokerService.cs:139 | for a positive bet the win is positive exactly when the multiplier is |
| PokerService.Settled | backend/CasinoAPI.Core/Services/PokerService.cs:142-160 | the game is Won exactly when the win is positive, and Lost otherwise |
| PokerService.WinPayout | backend/CasinoAPI.Core/Services/PokerService.cs:139-160 | for a positive bet, the win is positive exactly for ranks above High Card, and win/bet gives back the multiplier |
| PokerService.DrawnPayout | backend/CasinoAPI.Core/Services/PokerService.cs:210 | the payout shown after the draw is the multiplier of the drawn hand's rank; the game is Won exactly for a paying rank |
| PokerService.PokerService.TakeStake | backend/CasinoAPI.Core/Services/PokerService.cs:41-52 | debits the stake and records one Bet; Conserves holds |
| PokerService.PokerService.CreditWin | backend/CasinoAPI.Core/Services/PokerService.cs:142-156 | credits a positive win as one Win; Conserves holds |
| PokerService.PokerService.StartGame | backend/CasinoAPI.Core/Services/PokerService.cs:26-89 | an unknown user or a short balance changes nothing; otherwise stake, Bet record, five cards from a shuffled deck, the game stored, and the initial hand shown; no card is in both hand and deck |
| PokerService.PokerService.DrawPlaying | backend/CasinoAPI.Core/Services/PokerService.cs:117-183 | the drawn game replaces the stored one, a positive win is credited and recorded, and the state shows the hand, its rank and the payout |
| PokerService.PokerService.Draw | backend/CasinoAPI.Core/Services/PokerService.cs:91-183 | a missing game, a second draw, a finished game or a position outside 0..4 changes nothing; otherwise DrawPlaying; Conserves holds |
| PokerService.PokerService.GetGameState | backend/CasinoAPI.Core/Services/PokerService.cs:185-216 | an error exactly for a missing game; a draw is offered exactly while undrawn and playing; the current balance is shown |
| RouletteService.SpinWheel | backend/CasinoAPI.Core/Services/RouletteService.cs:107-117 | the pocket is in 0..36 |
| RouletteService.EveryPocketReachable | backend/CasinoAPI.Core/Services/RouletteService.cs:107-117 | every pocket 0..36 is the result of some random value |
| RouletteService.ColorPartition | backend/CasinoAPI.Core/Services/RouletteService.cs:119-126 | the red and black tables are the standard layout, and GetColor is Green exactly for 0, Red exactly for the red table, and Black exactly for the black table |
| RouletteService.CsRem | backend/CasinoAPI.Core/Services/RouletteService.cs:174-178 | C#'s remainder: equal to the Euclidean one on non-negative operands, of magnitude below the divisor |
| RouletteService.ToLower | backend/CasinoAPI.Core/Services/RouletteService.cs:130 | lower-cases each character in place, keeping the length |
| RouletteService.CaseInsensitive | backend/CasinoAPI.Core/Services/RouletteService.cs:130 | two bet types equal up to case settle every bet the same way |
| RouletteService.EvaluateBetMeaning | backend/CasinoAPI.Core/Services/RouletteService.cs:128-183 | a bet wins exactly when its wager covers the pocket, and pays the wager's multiplier; an unknown type never wins |
| RouletteService.ColourBetMeaning | backend/CasinoAPI.Core/Services/RouletteService.cs:137-143 | a red or black bet wins exactly on the pockets of that colour |
| RouletteService.DozenBetMeaning | backend/CasinoAPI.Core/Services/RouletteService.cs:161-169 | a dozen bet wins exactly on the twelve numbers of its dozen |
| RouletteService.ColumnBetMeaning | backend/CasinoAPI.Core/Services/RouletteService.cs:171-179 | a column bet wins exactly on the twelve numbers of its column |
| RouletteService.ColumnRemainders | backend/CasinoAPI.Core/Services/RouletteService.cs:173-178 | the truncating-remainder tests pick out 1..36 by n mod 3, and never 0 |
| RouletteService.PayTable | backend/CasinoAPI.Core/Services/RouletteService.cs:128-183 | for every valid wager, pockets covered × multiplier is 36: each bet pays 36 for 1 spread over the 37 pockets |
| RouletteService.ThirdsCount | backend/CasinoAPI.Core/Services/RouletteService.cs:161-179 | each dozen and each column covers 12 pockets |
| RouletteService.EvenMoneyCount | backend/CasinoAPI.Core/Services/RouletteService.cs:137-159 | red, black, even, odd, high and low each cover 18 pockets, none of them 0 |
| RouletteService.SettleMeaning | backend/CasinoAPI.Core/Services/RouletteService.cs:65-76 | a settled bet is a win exactly when its wager covers the number, reports the multiplier, and returns stake × multiplier or nothing |
| RouletteService.SettleNonNegative | backend/CasinoAPI.Core/Services/RouletteService.cs:65-66 | a non-negative stake wins a non-negative amount, and a positive amount only when it won |
| RouletteService.TotalWin | backend/CasinoAPI.Core/Services/RouletteService.cs:60-80 | with non-negative stakes the total win is non-negative, and positive exactly when some bet won something |
| RouletteService.RouletteService.SettleAll | backend/CasinoAPI.Core/Services/RouletteService.cs:59-77 | the loop settles every bet in order and sums their win amounts |
| RouletteService.RouletteService.Spin | backend/CasinoAPI.Core/Services/RouletteService.cs:21-105 | an unknown user or a balance below the stake total changes nothing; otherwise the total stake is debited and recorded, the bets settled on the spun pocket, and a positive total credited as one Win; Conserves holds |
| RouletteService.SpinBalance | backend/CasinoAPI.Core/Services/RouletteService.cs:80-103 | with non-negative stakes, the balance after the spin is balance − total stake + total win |
| SlotMachineService.SymbolTable | backend/CasinoAPI.Core/Services/SlotMachineService.cs:12-23 | seven symbols, each with a payout from 3 to 100, the diamond paying the most |
| SlotMachineService.GetRandomSymbol | backend/CasinoAPI.Core/Services/SlotMachineService.cs:114-126 | the symbol at index value mod 7 |
| SlotMachineService.RandomSymbolIndex | backend/CasinoAPI.Core/Services/SlotMachineService.cs:114-126 | a symbol comes up exactly for the random values congruent to its index mod 7 |
| SlotMachineService.GenerateReels | backend/CasinoAPI.Core/Services/SlotMachineService.cs:98-112 | fills a fresh 3×3 grid, reel by reel, one random symbol per cell |
| SlotMachineService.CountRow | backend/CasinoAPI.Core/Services/SlotMachineService.cs:137-150 | the counting loop reaches 3 exactly when the row holds one symbol |
| SlotMachineService.Row | backend/CasinoAPI.Core/Services/SlotMachineService.cs:135-170 | one row adds its pay line exactly when it matches, with the running total and jackpot flag |
| SlotMachineService.Diagonal | backend/CasinoAPI.Core/Services/SlotMachineService.cs:172-212 | a diagonal adds its pay line exactly when it matches |
| SlotMachineService.CalculateWinnings | backend/CasinoAPI.Core/Services/SlotMachineService.cs:128-215 | the winning lines in order 1..5, their total payout, and whether one is a diamond line |
| SlotMachineService.LinesSound | backend/CasinoAPI.Core/Services/SlotMachineService.cs:128-215 | every reported line matches and pays symbol payout × bet, and lines appear in increasing order, each once |
| SlotMachineService.LinesComplete | backend/CasinoAPI.Core/Services/SlotMachineService.cs:128-215 | every matching line is reported |
| SlotMachineService.LineWins | backend/CasinoAPI.Core/Services/SlotMachineService.cs:135-212 | line k is reported exactly when its three cells hold one symbol |
| SlotMachineService.JackpotIff | backend/CasinoAPI.Core/Services/SlotMachineService.cs:157-203 | the jackpot flag is set exactly when some line is three diamonds |
| SlotMachineService.WinSign | backend/CasinoAPI.Core/Services/SlotMachineService.cs:152-198 | the win is non-negative, and for a positive bet positive exactly when some line matched |
| SlotMachineService.AllDiamonds | backend/CasinoAPI.Core/Services/SlotMachineService.cs:14-23 | a grid of diamonds wins all five lines, 500 × the bet, and the jackpot |
| SlotMachineService.SlotMachineService.RecordSpin | backend/CasinoAPI.Core/Services/SlotMachineService.cs:63-86 | one Bet record and, for a positive win, one Win record, both carrying the final balance; the net flow moves by win − bet |
| SlotMachineService.SlotMachineService.Spin | backend/CasinoAPI.Core/Services/SlotMachineService.cs:34-96 | an unknown user or a short balance changes nothing; otherwise the balance becomes balance − bet + win in one write, with the records of RecordSpin; Conserves holds |

## Left out

- Controllers, authentication (AuthenticationService, JWT, password hashing), Entity Framework mapping, the front end: these are not part of this model.
- Asynchrony and concurrency: every service call runs to completion alone. Two requests racing on one static session dictionary are not modelled.
- Logging calls and the transaction description strings are not modelled. A record's kind, amount, balances, game type and time are modelled.
- Randomness: `RandomNumberGenerator` output becomes parameters. The modulo bias of `value % n` is outside a functional model.
- TransactionStore.NewestFirst: the database lists records of equal CreatedDate in an unspecified order. The model breaks such ties by descending key. A play writes its Bet and Win with one `now`, where the source reads the clock per record, so its Win is strictly newer and listed first; the tie break gives the same order.
- TransactionStore.AllPagesCoverAll: stated for the deterministic tie order above and for at most Int32Max records, the most CountAsync can report. With an unspecified tie order, successive page queries could repeat or skip records of equal date.
- TransactionStore.FirstPagesPrefix: stated only while (k − 1)·size fits an `int`. Past that the skip count wraps, as WrappedPageRepeatsFirst shows.
- `Math.Ceiling` of a `double` quotient is modelled as the exact integer ceiling of count/size.
- The source of `PaginatedResult` is not part of this model. Its `HasPreviousPage`/`HasNextPage` are modelled as page > 1 and page < TotalPages, which the service tests agree with.
- Validation attributes on the DTOs (minimum bet, range checks) are not modelled. The services accept any amount, as their own code does.
- The user's password hash and salt, `IsActive`, and the navigation collections are not modelled: no modelled operation reads them.
- The entities `GameSession` and `GameHistory` are never written by the modelled services, so they are not modelled.
- Re-fetching the user inside a game is modelled as reading the user map. The null-user checks after a re-fetch, in DoubleDownAsync (lines 196-199), DrawAsync (133-137) and GetGameStateAsync (192-196), are not modelled. The services' invariant keeps every stored game's owner in the user map, so these checks cannot fire.
- A `List<string>` or `List<Card>` is a `seq`. The blackjack shuffle works on an `array` copy, which is the in-place part.
- Each blackjack action shuffles a fresh 52-card deck, as the source does. Hit takes that deck's first card and Stand draws the dealer's cards from its start; DoubleDown gives the player card 0 and the dealer cards from 1 on.
- DoubleDownAsync shuffles its deck after the balance check and the debit (line 223). The model shuffles before DoubleStake's balance check and passes the deck in, unused when the check fails. Shuffling changes no state, so the difference is unobservable.
- Some steps of long source methods are separate Dafny methods: OpenGame, HitPlaying, PlayDealerTurn, DoubleStake, PlayDoubled, DrawPlaying, DrawHand, Row, CountRow, Diagonal, RecordSpin, and the TakeStake/CreditWin wrappers. They split the proofs; the statements and their order are the source's.
- Poker `DrawAsync` takes no user id, so any caller may draw on any game, as in the source. A drawn game stays in the session dictionary.
- `PokerHands.EvaluateHand` is proved equal to `Classify`, a reference classification stated on how often each value occurs.
- RouletteService.ToLower: only ASCII letters are lower-cased. Culture-specific casing is not modelled.
- The slot symbols are a datatype rather than emoji strings. The jagged `string[][]` reels are an `array2`, indexed [reel, row] as the source indexes them.
- SlotMachineService.Spin: Conserves is stated only when the win is non-negative (any non-negative bet). A negative bet would give a negative win, which credits the balance but records no Win.
- SlotMachineService.Spin: the Bet record's before and after balances both hold the final balance after the win. This is because the source stores the user before creating either record. The model follows the code.
- Roulette, poker and blackjack credit and record a win only when it is positive, as the source does (Wagers.Credit). Bet and Win records carry before = after, as CreateTransactionAsync computes for kinds other than Deposit and Withdrawal.
