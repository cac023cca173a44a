# Casino core: blackjack engine, game lifecycle, chip ledger

A Dafny model of the server-side core of a small multiplayer casino. It covers four parts:

- **Cards** (`cards.dfy`) builds the 52-card deck, shuffles it and values a hand.
  - `CreateDeck` uses a nested loop over suits and ranks.
  - `ShuffleDeck` is an in-place swap loop over an array copy.
  - `CalculateHandValue` is a counting loop followed by an ace-softening loop.
  - Each method is proved equal to a specification function: `FullDeck`, `Shuffle` and `HandValue`.
  - Lemmas prove what those functions promise: 52 distinct cards; the shuffle is a permutation; the value is the best total at or under 21 that some choice of ace values allows, or the all-low total when even that exceeds 21.
- **Blackjack rules** (`blackjack_rules.dfy`) describe the whole table as a value: a `State` holding the deck, the dealer and a map from player id to `Seat`.
  - Each engine operation is a function from the old state to the new one (`Joined`, `BetPlaced`, `DealtFrom`, `Act`, …) or to what it returns (`ValidateBet`, `PlayerView`, `ResolveAll`).
  - The engine's `for...in` loops visit integer-like keys in ascending order. That visiting order is `SortedIds`.
  - The lemmas prove the rule book:
    - the payout table;
    - the dealer's draw-to-17 rule and its termination;
    - every dealt card comes from a different place in the deck;
    - every operation keeps the table well formed.
  - A well-formed table (`WellFormed`) holds only real cards, stores each hand's value with it, gives every seat a status that agrees with that value, and holds no card in two places: the deck, the dealer's hand and each seat's hand have no repeats and share no card (`CardsApart`).
- **Blackjack engine** (`blackjack.dfy`) is a `GameState` class whose fields the engine's methods update in place.
  - The methods that stand for the engine's own operations (the constructor, `OnPlayerJoined`, `OnPlayerLeft`, `StartNewRound`, `OnBetPlaced`, `DealInitialCards`, `DealFromDeck`, `DealerTurn`, `ResolveBets`, `FinishAction` and `ProcessAction`) ensure that the new `Value()`, or the result, is the rules function applied to the old one.
  - The helper methods (`DrawCard`, `ResetSeats`, `DealTo`, `DealSeats`, `DealDealer`, `ResolveSeats` and `PlayAction`) state field by field what they change.
  - Its loops (seat reset, deal, dealer turn, settlement) carry the invariants that tie them to those functions.
- **Game lifecycle** (`base_game.dfy`) models the generic game object.
  - It is a `Game` class with a player list and a phase.
  - `join` is idempotent. `leave` filters the list. `start` is guarded. `resolveRound` appends to the history.
  - Its pure partners `JoinPlayers`, `Without` and `Started` carry the lemmas: player ids stay distinct across any sequence of joins and leaves, and leave undoes join.
- **Chip ledger** (`chips.dfy`) is a `Ledger` class holding a balance map and an append-only transaction list.
  - `PlaceBet` checks funds, debits and appends a BET row. `AddBalance` credits and appends a WIN row.
  - Both keep the ledger invariant: every balance equals its opening balance plus the sum of that user's rows, and every row's after-balance equals its before-balance plus its amount.
- **User rules** (`user_service.dfy`) cover two decision functions.
  - `canAffordBet` is `CanAffordBet`.
  - The default, limit and `hasMore` rules of `getTransactionHistory` are `TransactionHistory`.

`wrappers.dfy` holds `Option` and `Result`. `service_errors.dfy` holds the service error kinds and their messages.

The engine is modelled as the code behaves. Three consequences of the code are proved:

- **Rejoining.** `onPlayerJoined` (`blackjack.js` lines 19-30) writes the seat afresh even when the player already sits, so a join for a seated player is not a no-op: it resets the seat and a bet already placed is lost (`RejoinDiscardsBet`). Two identical joins in a row still give the same table as one (`JoinedTwiceIsOnce`).
- **The last bet.** `onBetPlaced` (`blackjack.js` lines 75-81) calls `startNewRound` once every seat has bet. That wipes the bets just recorded, the last one included, and deals no card (`LastBetWipesBets`).
- **Doubling into a bust.** A `double` that busts (`blackjack.js` line 156) pushes no resolution, and `resolveBets` (lines 214-216) skips busted seats, so that bet is never resolved at all (`BustResolutions`).

## Model

| member | source | states |
|---|---|---|
| Cards.SuitRow | apps/server/src/services/games/blackjack.js:295-297 | the inner loop yields one card per listed rank |
| Cards.SuitRowMembers | apps/server/src/services/games/blackjack.js:295-297 | a card is in a suit's row exactly when it is a real card of that suit with a listed rank |
| Cards.DeckOfMembers | apps/server/src/services/games/blackjack.js:294-298 | a card is in the nested-loop deck exactly when its suit and its rank are both listed |
| Cards.DeckOfLength | apps/server/src/services/games/blackjack.js:294-298 | the nested loop yields 13 cards per suit |
| Cards.SuitRowDistinct | apps/server/src/services/games/blackjack.js:295-297 | distinct ranks give a suit row without a repeated card |
| Cards.DeckOfDistinct | apps/server/src/services/games/blackjack.js:294-298 | distinct suits and ranks give a deck without a repeated card |
| Cards.SuitsAndRanksDistinct | apps/server/src/services/games/blackjack.js:275-290 | the four suits and the thirteen ranks listed are pairwise different |
| Cards.EverySuitAndRankListed | apps/server/src/services/games/blackjack.js:275-290 | the suit and the rank of every real card are in the lists |
| Cards.FullDeck | apps/server/src/services/games/blackjack.js:274-300 | the fresh deck has 52 cards, no repeats and no hidden card, and holds every real card |
| Cards.CreateDeck | apps/server/src/services/games/blackjack.js:274-300 | the loop builds exactly `FullDeck` |
| Cards.PushSuits | apps/server/src/services/games/blackjack.js:294-298 | the outer loop appends one suit row per suit, in list order |
| Cards.PushRanks | apps/server/src/services/games/blackjack.js:295-297 | the inner loop appends the suit's thirteen cards in rank order after what is there |
| Cards.Swap | apps/server/src/services/games/blackjack.js:306 | the destructuring swap exchanges positions `i` and `j` and leaves every other position as it was |
| Cards.SwapPermutes | apps/server/src/services/games/blackjack.js:306 | a swap keeps the multiset of cards |
| Cards.ShuffleFrom | apps/server/src/services/games/blackjack.js:304-307 | the shuffle passes keep the deck's length |
| Cards.ShufflePermutes | apps/server/src/services/games/blackjack.js:302-309 | whatever the random picks, the shuffle is a permutation of its input |
| Cards.Shuffle | apps/server/src/services/games/blackjack.js:302-309 | the shuffled deck has the same length and the same cards as the input |
| Cards.CopyToArray | apps/server/src/services/games/blackjack.js:303 | the spread copy is a fresh array holding the deck |
| Cards.ShuffleDeck | apps/server/src/services/games/blackjack.js:302-309 | the swap loop over an array copy yields exactly `Shuffle(deck, picks)` |
| Cards.PermutationKeepsDistinct | apps/server/src/services/games/blackjack.js:302-309 | a permutation of a deck without repeats has no repeats |
| Cards.PermutationKeepsReal | apps/server/src/services/games/blackjack.js:302-309 | a permutation of real cards holds no hidden card |
| Cards.ShuffledDeckFacts | apps/server/src/services/games/blackjack.js:86-87 | the shuffled fresh deck has 52 distinct real cards and is a permutation of the full deck |
| Cards.SoftIsHardPlusAces | apps/server/src/services/games/blackjack.js:319-330 | the first pass's total, with aces at 11, is the all-aces-at-1 total plus 10 per ace |
| Cards.HandValue | apps/server/src/services/games/blackjack.js:315-337 | the value lies between the all-low total and that total plus 10 per ace, and is at most 21 unless it is the all-low total |
| Cards.HandValueCharacterised | apps/server/src/services/games/blackjack.js:315-337 | the value is the all-low total plus 10 for some number of aces; it is at most 21 unless it is the all-low total; no other choice of aces gives a larger total at or under 21 |
| Cards.CalculateHandValue | apps/server/src/services/games/blackjack.js:315-337 | the counting loop (hidden cards skipped) and the softening loop return `HandValue` |
| Cards.AceKingIsTwentyOne | apps/server/src/services/games/blackjack.js:315-337 | ace and king are worth 21 |
| Cards.TwoAcesNineIsTwentyOne | apps/server/src/services/games/blackjack.js:315-337 | two aces and a nine are worth 21 |
| Cards.HardPointsAtMostTen | apps/server/src/services/games/blackjack.js:322-329 | with aces at 1, no card is worth more than 10 |
| Cards.HardTotalGrows | apps/server/src/services/games/blackjack.js:196-198 | every real card the dealer draws raises the all-low total by at least 1 |
| BlackjackRules.DrawTakesTop | apps/server/src/services/games/blackjack.js:311-313 | `pop` takes the last card: the remaining deck followed by that card is the old deck |
| BlackjackRules.TopCards | apps/server/src/services/games/blackjack.js:311-313 | `n` pops yield `n` cards, all real when the deck is |
| BlackjackRules.TopCardsAt | apps/server/src/services/games/blackjack.js:311-313 | counting from 0, the `i`-th popped card is the `i`-th card from the end of the deck |
| BlackjackRules.TopTwo | apps/server/src/services/games/blackjack.js:91-94 | two pops give the last card, then the one before it |
| BlackjackRules.SortedIds | apps/server/src/services/games/blackjack.js:89 | the `for...in` order lists every seat exactly once, in ascending id order |
| BlackjackRules.IncreasingIsDistinct | apps/server/src/services/games/blackjack.js:89 | the visiting order never repeats a seat |
| BlackjackRules.InitialState | apps/server/src/services/games/blackjack.js:5-17 | the initial table has no seats, an empty deck, an empty dealer that is not standing, no active round and index 0, and is well formed |
| BlackjackRules.Joined | apps/server/src/services/games/blackjack.js:19-30 | the seat is added, or overwritten, as an empty waiting seat at that position; other seats, deck, dealer, round and player index are untouched |
| BlackjackRules.Left | apps/server/src/services/games/blackjack.js:32-35 | the seat is deleted; other seats, deck, dealer, round and player index are untouched |
| BlackjackRules.LeaveUndoesJoin | apps/server/src/services/games/blackjack.js:19-35 | leaving right after a first join restores the table |
| BlackjackRules.RejoinDiscardsBet | apps/server/src/services/games/blackjack.js:20-28 | a join for a seated player who has bet is not a no-op: it resets the seat and discards the bet and its id |
| BlackjackRules.JoinedTwiceIsOnce | apps/server/src/services/games/blackjack.js:19-30 | two identical joins in a row give the same table as one |
| BlackjackRules.JoinedKeepsWellFormed | apps/server/src/services/games/blackjack.js:19-30 | join keeps the table well formed, no card in two places included |
| BlackjackRules.LeftKeepsWellFormed | apps/server/src/services/games/blackjack.js:32-35 | leave keeps the table well formed, no card in two places included |
| BlackjackRules.CardsApartKeptHands | apps/server/src/services/games/blackjack.js:19-35 | seats whose hands are empty or unchanged keep every card in one place |
| BlackjackRules.CardsApartDrawToSeat | apps/server/src/services/games/blackjack.js:132 | moving the top card of the deck onto a seat keeps every card in one place |
| BlackjackRules.CardsApartDrawToDealer | apps/server/src/services/games/blackjack.js:197 | moving the top card of the deck onto the dealer keeps every card in one place |
| BlackjackRules.PlayerView | apps/server/src/services/games/blackjack.js:37-48 | the dealer is masked exactly when the round is active and the dealer holds cards; the masked hand is the first card plus a hidden card and the value is withheld; otherwise the dealer is shown as is; players and deck are never altered |
| BlackjackRules.ViewIgnoresViewer | apps/server/src/services/games/blackjack.js:37-48 | every viewer gets the same view |
| BlackjackRules.MaskedHandShowsUpCardOnly | apps/server/src/services/games/blackjack.js:37-48 | the masked dealer hand is worth what the up card alone is worth |
| BlackjackRules.ValidateBet | apps/server/src/services/games/blackjack.js:50-66 | unknown player, an existing bet and an active round are rejected in that order, each exactly when its condition is the first to hold; otherwise true |
| BlackjackRules.NewRound | apps/server/src/services/games/blackjack.js:248-272 | every seat becomes an empty waiting seat at its old position; dealer and deck are emptied; the round is off and the index 0 |
| BlackjackRules.ResetEach | apps/server/src/services/games/blackjack.js:249-259 | the reset loop keeps the set of seats |
| BlackjackRules.ResetEachResets | apps/server/src/services/games/blackjack.js:249-259 | the loop clears the listed seats, keeps their positions and leaves the others unchanged |
| BlackjackRules.ResetEachStep | apps/server/src/services/games/blackjack.js:249-259 | one iteration clears one seat and the loop continues on the rest |
| BlackjackRules.NewRoundByLoop | apps/server/src/services/games/blackjack.js:248-259 | the loop over all seats gives `NewRound`'s seats |
| BlackjackRules.NewRoundIdempotent | apps/server/src/services/games/blackjack.js:248-272 | a second reset changes nothing |
| BlackjackRules.NewRoundWellFormed | apps/server/src/services/games/blackjack.js:248-272 | a reset table is well formed |
| BlackjackRules.BetIsRecorded | apps/server/src/services/games/blackjack.js:68-78 | while another seat has no bet, only this seat's bet, bet id, bet flag and status change: its hand, value and position, the other seats, deck, dealer, round and player index are kept |
| BlackjackRules.LastBetWipesBets | apps/server/src/services/games/blackjack.js:75-81 | the last missing bet resets the round: every bet is wiped and no card is dealt |
| BlackjackRules.BetPlaced | apps/server/src/services/games/blackjack.js:68-83 | the seats and their positions are kept; the bet stays recorded, with its amount and id, exactly when some other seat has not bet; otherwise the table is the new round's |
| BlackjackRules.BetPlacedKeepsWellFormed | apps/server/src/services/games/blackjack.js:68-83 | placing a bet keeps the table well formed |
| BlackjackRules.DealAll | apps/server/src/services/games/blackjack.js:89-102 | the deal loop keeps the set of seats and takes two cards per listed seat off the deck |
| BlackjackRules.DealAllLeaves | apps/server/src/services/games/blackjack.js:89-102 | a seat the loop does not visit is untouched |
| BlackjackRules.DealAllFirst | apps/server/src/services/games/blackjack.js:89-102 | the first visited seat is dealt from the whole deck |
| BlackjackRules.DealAllAt | apps/server/src/services/games/blackjack.js:89-102 | the `k`-th visited seat is dealt from the deck less the `2k` cards dealt before it |
| BlackjackRules.HandAt | apps/server/src/services/games/blackjack.js:91-94 | counting from 0, the `k`-th visited seat holds the `2k`-th and `(2k+1)`-th cards from the end of the deck |
| BlackjackRules.TwoCardsAtMost21 | apps/server/src/services/games/blackjack.js:96 | two real cards are never worth more than 21 |
| BlackjackRules.DealSeatOk | apps/server/src/services/games/blackjack.js:90-101 | a dealt seat has two cards and their value; it is blackjack exactly at 21, else playing; position and bet are kept |
| BlackjackRules.DealAllSeats | apps/server/src/services/games/blackjack.js:89-102 | every visited seat is dealt as `DealSeatOk` says |
| BlackjackRules.DealtSeats | apps/server/src/services/games/blackjack.js:85-115 | after the deal every seat, and no other, is dealt as `DealSeatOk` says |
| BlackjackRules.DealtDealer | apps/server/src/services/games/blackjack.js:104-112 | the dealer holds two real cards and their value; two cards per seat and two for the dealer left the deck; the round is on at index 0 |
| BlackjackRules.DealtFrom | apps/server/src/services/games/blackjack.js:89-112 | the seats are kept; the dealer holds two cards and their value; the deck loses two cards per seat and two for the dealer, all from the top; the round is on at index 0 |
| BlackjackRules.DealtFromIgnoresDeck | apps/server/src/services/games/blackjack.js:86-87 | the deal does not depend on the deck the table held before, which the fresh deck replaces |
| BlackjackRules.Dealt | apps/server/src/services/games/blackjack.js:85-115 | from a fresh shuffled deck the seats are kept, the dealer holds two cards, `50 - 2n` cards remain and the round is on at index 0 |
| BlackjackRules.DealtWellFormed | apps/server/src/services/games/blackjack.js:85-115 | the dealt table is well formed, every card in one place |
| BlackjackRules.DealtFacts | apps/server/src/services/games/blackjack.js:85-115 | from a fresh shuffled deck: every seat is dealt, the dealer holds two cards, and `50 - 2n` cards remain |
| BlackjackRules.HandsApart | apps/server/src/services/games/blackjack.js:89-102 | two seats share no card |
| BlackjackRules.DeckAfterSeats | apps/server/src/services/games/blackjack.js:104-107 | the dealer's two cards are the next two below the seats' cards |
| BlackjackRules.HandApartFromRest | apps/server/src/services/games/blackjack.js:89-107 | a seat's two cards differ and it shares no card with the dealer's cards or the remaining deck |
| BlackjackRules.DealerApartFromRest | apps/server/src/services/games/blackjack.js:104-107 | the dealer's cards are not in the remaining deck |
| BlackjackRules.DealtCardsApart | apps/server/src/services/games/blackjack.js:85-115 | after the deal no card is in two places (two seats, a seat and the dealer, a hand and the deck) |
| BlackjackRules.DealtSeatApart | apps/server/src/services/games/blackjack.js:89-107 | after the deal a seat's two cards differ and are neither the dealer's nor left in the deck |
| BlackjackRules.DealtDealerApart | apps/server/src/services/games/blackjack.js:104-107 | after the deal the dealer's two cards differ, and the deck left holds no repeat and neither of them |
| BlackjackRules.PairDistinct | apps/server/src/services/games/blackjack.js:91-94 | two neighbouring cards of a deck without repeats differ |
| BlackjackRules.MessagesIdentifyErrors | apps/server/src/services/games/blackjack.js:50-170 | the engine throws a different message for each check |
| BlackjackRules.ActionError | apps/server/src/services/games/blackjack.js:117-170 | an action may proceed exactly when the player is seated and playing and the action is a hit, a stand, a double on two cards or a split on a pair |
| BlackjackRules.PlayerStep | apps/server/src/services/games/blackjack.js:128-170 | hit and double add exactly the top card; stand sets waiting; a double busts exactly above 21 and otherwise waits; a hit busts exactly above 21 and otherwise keeps playing, and only a busting hit emits one losing resolution paying 0; split changes nothing |
| BlackjackRules.PlayerStepKeepsSeatOk | apps/server/src/services/games/blackjack.js:130-170 | a move keeps the seat well formed |
| BlackjackRules.StepKeepsWellFormed | apps/server/src/services/games/blackjack.js:128-170 | the player's move alone keeps the table well formed, every card in one place |
| BlackjackRules.DealerPlay | apps/server/src/services/games/blackjack.js:195-200 | the dealer ends at 17 or more, draws only from the top, and draws nothing when already at 17 |
| BlackjackRules.DealerTakesTopCards | apps/server/src/services/games/blackjack.js:196-199 | the dealer's new cards are the popped cards in pop order |
| BlackjackRules.DealerStopsAtFirst17 | apps/server/src/services/games/blackjack.js:196 | every hand the dealer passes through on the way is worth less than 17 |
| BlackjackRules.DealerFinishes | apps/server/src/services/games/blackjack.js:196-199 | the loop ends once enough real cards remain, because the all-low total grows with each draw |
| BlackjackRules.DealerPlayKeepsApart | apps/server/src/services/games/blackjack.js:195-200 | each card the dealer's loop draws moves from the deck to the dealer, so every card stays in one place |
| BlackjackRules.DealerTurned | apps/server/src/services/games/blackjack.js:195-204 | the seats, the round and the player index are kept; the dealer stands at 17 or more; the deck only loses cards from the top |
| BlackjackRules.DealerTurnedKeepsWellFormed | apps/server/src/services/games/blackjack.js:195-204 | the dealer's turn leaves the dealer standing at 17 or more, leaves the seats alone, and keeps the table well formed |
| BlackjackRules.Settle | apps/server/src/services/games/blackjack.js:218-238 | payout is bet times multiplier; win, push and lose are multiplier above 1, 1 and 0; the payout lies between 0 and 2.5 times the bet |
| BlackjackRules.SettleRules | apps/server/src/services/games/blackjack.js:218-238 | the payout table: blackjack against a two-card 21 pushes, other blackjacks pay 2.5; otherwise a dealer bust or a higher value wins at exactly 2, an equal value pushes, and a lower value loses |
| BlackjackRules.Unsettled | apps/server/src/services/games/blackjack.js:211-216 | the settlement loop visits exactly the seats that did not bust |
| BlackjackRules.UnsettledIncreasing | apps/server/src/services/games/blackjack.js:211-216 | skipping busted seats keeps the visiting order |
| BlackjackRules.ResolveAll | apps/server/src/services/games/blackjack.js:206-246 | one resolution per seat that did not bust, in visiting order, with that seat's bet id and `Settle` outcome |
| BlackjackRules.ResolveAllStep | apps/server/src/services/games/blackjack.js:211-244 | one iteration appends the seat's resolution unless it busted |
| BlackjackRules.OneResolutionPerSeat | apps/server/src/services/games/blackjack.js:206-246 | a seat is settled exactly when it did not bust, and never twice |
| BlackjackRules.DealerBustPaysEveryone | apps/server/src/services/games/blackjack.js:209-231 | when the dealer busts every resolution is a win |
| BlackjackRules.AfterStep | apps/server/src/services/games/blackjack.js:172-192 | the end of an action succeeds and reports the player's result; its resolutions are the move's own followed, when nobody is still playing, by `ResolveAll` after the dealer's turn, and are the move's own alone otherwise |
| BlackjackRules.Act | apps/server/src/services/games/blackjack.js:117-193 | an action fails exactly when `ActionError` names an error, and then nothing changes |
| BlackjackRules.ActPlaysStep | apps/server/src/services/games/blackjack.js:128-192 | an accepted action applies the player's move to that seat and reports it; its resolutions are the move's own, followed by the settlement of every unbusted seat exactly when nobody is still playing |
| BlackjackRules.ActEndsRound | apps/server/src/services/games/blackjack.js:172-204 | while someone is still playing the table is the one the move left (deck, seats, dealer, round and index) and only the move's own resolutions are reported; otherwise the table is that one after `DealerTurned` with the round ended, the dealer stands at 17 or more, and the move's own resolutions are followed by the settlement of every unbusted seat |
| BlackjackRules.ActKeepsWellFormed | apps/server/src/services/games/blackjack.js:117-193 | an action keeps the table well formed |
| BlackjackRules.BustResolutions | apps/server/src/services/games/blackjack.js:135-156 | a bust is never settled by `resolveBets`; a busting hit reports one losing resolution, a busting double none of its own |
| Blackjack.GameState.constructor | apps/server/src/services/games/blackjack.js:5-17 | the table starts as the initial state |
| Blackjack.GameState.OnPlayerJoined | apps/server/src/services/games/blackjack.js:19-30 | the table becomes `Joined` and stays well formed |
| Blackjack.GameState.OnPlayerLeft | apps/server/src/services/games/blackjack.js:32-35 | the table becomes `Left` and stays well formed |
| Blackjack.GameState.DrawCard | apps/server/src/services/games/blackjack.js:311-313 | returns the last card and removes it; nothing else changes |
| Blackjack.GameState.StartNewRound | apps/server/src/services/games/blackjack.js:248-272 | the table becomes `NewRound` and is well formed |
| Blackjack.GameState.ResetSeats | apps/server/src/services/games/blackjack.js:249-259 | the seat loop clears the listed seats in order; nothing else changes |
| Blackjack.GameState.OnBetPlaced | apps/server/src/services/games/blackjack.js:68-83 | the table becomes `BetPlaced` and stays well formed |
| Blackjack.GameState.DealTo | apps/server/src/services/games/blackjack.js:90-101 | the seat takes the top two cards and is valued; two cards leave the deck |
| Blackjack.GameState.DealSeats | apps/server/src/services/games/blackjack.js:89-102 | the deal loop leaves seats and deck as `DealAll` says |
| Blackjack.GameState.DealDealer | apps/server/src/services/games/blackjack.js:104-109 | the dealer takes the top two cards and their value |
| Blackjack.GameState.DealInitialCards | apps/server/src/services/games/blackjack.js:85-115 | the table becomes `Dealt` for the given shuffle picks and is well formed |
| Blackjack.GameState.DealFromDeck | apps/server/src/services/games/blackjack.js:89-112 | dealing from the table's deck gives `DealtFrom` |
| Blackjack.GameState.DealerTurn | apps/server/src/services/games/blackjack.js:195-204 | the loop leaves the table as `DealerTurned` says and keeps it well formed |
| Blackjack.GameState.ResolveBets | apps/server/src/services/games/blackjack.js:206-246 | returns `ResolveAll` over the seats in visiting order |
| Blackjack.GameState.ResolveSeats | apps/server/src/services/games/blackjack.js:211-244 | the loop returns `ResolveAll` over the listed seats |
| Blackjack.GameState.PlayAction | apps/server/src/services/games/blackjack.js:130-170 | the seat, the deck and the resolutions after the move are `PlayerStep`'s |
| Blackjack.GameState.FinishAction | apps/server/src/services/games/blackjack.js:172-192 | the table and the report are `AfterStep`'s, and the table stays well formed |
| Blackjack.GameState.ProcessAction | apps/server/src/services/games/blackjack.js:117-193 | the table and the result are `Act`'s, and the table stays well formed |
| BaseGame.JoinPlayers | apps/server/src/services/game.service/baseGame.js:28-33 | join fails exactly when the player or its id is missing, with the message `player must have id` |
| BaseGame.JoinKeepsPlayers | apps/server/src/services/game.service/baseGame.js:30-31 | the existing entries are kept in front; a known id adds nothing; a new id adds exactly one entry at the end, a copy with chips defaulting to 0 |
| BaseGame.JoinIdempotent | apps/server/src/services/game.service/baseGame.js:30 | joining twice is joining once |
| BaseGame.JoinKeepsIdsDistinct | apps/server/src/services/game.service/baseGame.js:28-33 | join keeps player ids pairwise distinct |
| BaseGame.Without | apps/server/src/services/game.service/baseGame.js:36 | the filter never lengthens the list |
| BaseGame.WithoutRemoves | apps/server/src/services/game.service/baseGame.js:36 | no entry with that id is left, and every other entry stays |
| BaseGame.WithoutDistributes | apps/server/src/services/game.service/baseGame.js:36 | the filter works entry by entry, so the order of the others is kept |
| BaseGame.WithoutAbsent | apps/server/src/services/game.service/baseGame.js:36 | leaving with an absent id changes nothing |
| BaseGame.WithoutKeepsIdsDistinct | apps/server/src/services/game.service/baseGame.js:35-38 | leave keeps player ids pairwise distinct |
| BaseGame.LeaveUndoesJoin | apps/server/src/services/game.service/baseGame.js:28-38 | a new player joining and then leaving restores the list |
| BaseGame.ReplayKeepsIdsDistinct | apps/server/src/services/game.service/baseGame.js:28-38 | ids stay pairwise distinct across any sequence of joins and leaves |
| BaseGame.Started | apps/server/src/services/game.service/baseGame.js:40-44 | start succeeds exactly in `waiting`; otherwise it fails with `Game already started` |
| BaseGame.StartOnlyOnce | apps/server/src/services/game.service/baseGame.js:40-44 | a successful start moves to `playing`, and a second start fails |
| BaseGame.Game.constructor | apps/server/src/services/game.service/baseGame.js:19-26 | the game takes the requested id, or `game-` and the clock when none is given; no players, phase `waiting`, empty history |
| BaseGame.Game.View | apps/server/src/services/game.service/baseGame.js:51-57 | the copy holds the game's id, players, phase and history; `ResolveRound` records it as the history entry's snapshot |
| BaseGame.Game.Find | apps/server/src/services/game.service/baseGame.js:30 | returns the first index holding the id, or none exactly when the id is absent |
| BaseGame.Game.Join | apps/server/src/services/game.service/baseGame.js:28-33 | the list becomes `JoinPlayers`' on success and is unchanged on failure; the snapshot is returned; ids stay distinct |
| BaseGame.Game.Leave | apps/server/src/services/game.service/baseGame.js:35-38 | the list becomes `Without`'s and the snapshot is returned; ids stay distinct |
| BaseGame.Game.Start | apps/server/src/services/game.service/baseGame.js:40-44 | the phase moves as `Started` says; on failure nothing changes |
| BaseGame.Game.HandleAction | apps/server/src/services/game.service/baseGame.js:46-49 | always fails with `handleAction not implemented` |
| BaseGame.Game.ResolveRound | apps/server/src/services/game.service/baseGame.js:59-64 | from any phase the phase becomes `finished`, and history grows by exactly one entry: the time and the game's own `View` as it was just before the entry was pushed |
| Chips.NetAppend | apps/server/src/services/chips.service.js:26-38 | a new row changes only its own user's net amount, by the row's amount |
| Chips.BetCheck | apps/server/src/services/chips.service.js:8-17 | a bet passes exactly when the user is known and can cover it; unknown users fail NotFound first, then short balances fail BadRequest `Insufficient balance` |
| Chips.RecordKeepsConsistent | apps/server/src/services/chips.service.js:19-38 | applying a row's amount to its user's balance while appending the row keeps the ledger invariant |
| Chips.Ledger.PlaceBet | apps/server/src/services/chips.service.js:7-41 | on a failed check nothing changes and the error is returned; otherwise the balance drops by the amount, exactly one BET row with amount `-amount` and matching before and after is appended, and the new balance, never negative, is returned |
| Chips.Ledger.AddBalance | apps/server/src/services/chips.service.js:43-74 | an unknown user fails NotFound with no change; otherwise the balance grows by the amount, exactly one WIN row carrying game and bet id is appended, and the new balance is returned |
| UserService.CanAffordBet | apps/server/src/services/user.service.js:146-165 | a non-positive amount gives `Invalid bet amount` before any lookup; an unknown user fails NotFound; otherwise affordable exactly when balance covers amount, shortfall 0 or `amount - balance`, reason only when unaffordable, and then it is `Insufficient balance` |
| UserService.InvalidAmountIgnoresUsers | apps/server/src/services/user.service.js:147-149 | for a non-positive amount the answer does not depend on the user table |
| UserService.AffordableIffBetAccepted | apps/server/src/services/user.service.js:156-157 | for a positive amount, affordable exactly when `placeBet`'s checks would pass |
| UserService.TransactionHistory | apps/server/src/services/user.service.js:91-124 | an unknown user fails NotFound; limit defaults to 20 and offset to 0; a limit above 100 fails; one entry per fetched row; `hasMore` exactly when a full page came back |

## Left out

- Persistence and I/O are not modelled. Balances, rows and users live in memory: SQL, the `pg` client, repositories and transactions are outside the model. Each ledger call is one atomic step, so the unlocked balance read and any concurrency are not captured.
- The `UPDATE` statements in `chips.service.js` lines 20 and 52 place the `updated_at` assignment after the `WHERE` clause, so as written they would fail. The model applies the debit and the credit they are evidently meant to perform.
- The user table is modelled as a balance map, and `parseFloat` and the repositories' `|| null` conversions are not modelled. Money is `real`, so floating-point rounding is not captured.
- Randomness is not modelled. `Math.random` in `shuffleDeck` is replaced by caller-supplied picks: position `i` swaps with `picks[i] % (i + 1)`.
- Clocks are not modelled. `Date.now` in the game id and in history entries is a caller-supplied number.
- Cards.CreateDeck: the deck is a `seq` built by appending. The array copy and in-place swaps are kept only in `ShuffleDeck`.
- BaseGame.Game.View stands for both `getState` and `serialize`. In a value model the shallow spread copy and the JSON deep copy are the same thing, so aliasing between the returned object and the live state is not captured. `metadata` is never written by the core and is left out.
- UserService.TransactionHistory takes the row fetch as a parameter. As written, the function calls `transactionRepository.getByUserId`: that import is commented out, and the repository defines `findByUserId`, not `getByUserId`. The model states the intended limit, default, mapping and `hasMore` rules over whatever rows the fetch returns. The `type` filter is passed to the fetch and not interpreted. Non-number or `null` limits are not modelled: the limit and the offset are integers or absent.
- Blackjack.GameState.ProcessAction requires `CanAct`: every card the action and the following dealer turn draw must exist. As written, `pop()` on an empty deck yields `undefined` and `calculateHandValue` then throws; that crash is not modelled.
- Blackjack.GameState.DealerTurn and Blackjack.GameState.FinishAction require the dealer to be able to finish from the deck (`DealerCanFinish`), for the same reason.
- Blackjack.GameState.DealInitialCards requires at most 25 seats, so the 52-card deck covers two cards each plus two for the dealer. Beyond that the source would draw from an empty deck.
- Blackjack.GameState.OnPlayerJoined, OnPlayerLeft, OnBetPlaced, DealerTurn, FinishAction and ProcessAction require `Valid()`, the table invariant. The constructor establishes it and every method keeps it, so it holds on every reachable table. It is what lets each method promise a well-formed result.
- Blackjack.GameState.OnBetPlaced requires the player to be seated, and so does BlackjackRules.BetPlaced. For an unknown id the source reads `gameState.players[userId]` as `undefined` and throws a `TypeError` when it sets `bet`; that exception path is not modelled. `ValidateBet` rejects an unknown player with `Player not found in game`.
- Chips.Ledger.PlaceBet and Chips.Ledger.AddBalance require `Valid()`, the ledger invariant, for the same reason.
- `split` only validates, as in the source. No hand is split and no bet is duplicated.
- `getPlayerView` returns the deck and the other players' hands as the source does. Hiding them is not part of the source.
- The rest of the repository is outside this model: socket handlers, lobby, authentication, the other games and the client.
