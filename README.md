# War card-game engine, modelled in Dafny

This project models the engine of a browser game of War, written in JavaScript (`index.js`).
A Dealer owns a Deck of 52 Cards and deals a card to each of two Players per round. The
strictly higher face wins the round and one point. Equal faces score nothing. When the deck is
exhausted, the player with strictly more points wins the game, and equal points is a tie.

The modules follow the classes of the source:

- `Cards` (`cards.dfy`) holds the `SUITS` and `FACES` tables (suit codes 1 to 4, face codes
  2 to 14) and the `Card` value. A card's display names are looked up in the tables
  (`SuitName`, `FaceName`). `FullDeck` is the 52-card sequence a new deck is built as.
- `Decks` (`deck.dfy`) has the class `Deck`. Its array of cards is the `seq` field `cards`.
  The constructor fills it with the nested push loop. `GetNextCard` splices out a card at an
  index the deck chooses, or returns `None` (JavaScript `null`) when the deck is empty. A
  proof-only field `drawn` records every card handed out. The invariant `Valid` says that the
  drawn and remaining cards together are exactly the 52 standard cards.
- `Dealers` (`dealer.dfy`) has the class `Dealer`: a name and a deck that it forwards to.
- `Players` (`player.dfy`) has the class `Player`: a name and a `points` field.
- `Games` (`game.dfy`) has the class `Game` and the round and game rules:
  - `PlayWar` is the source's `while` loop.
  - `PlayRound` is one pass of that loop body: two deals, then scoring by `ScoreRound` when
    both deals gave a card.
  - The rounds' alert messages become `RoundReport` values. The final message becomes a
    `FinalReport`.
  - `PlayWar` is proved against the functions `ScoreAfter` and `ReportsAfter`. These give the
    scores and reports for any order in which the cards came out of the deck.

The random index of `Deck.getRandomInt` is a nondeterministic choice (`:|`) of any valid
position. `GetNextCard` and `DealACard` return it as a proof-only out-parameter `index`, so
callers can say which card was taken.

## Model

| member | source | states |
|---|---|---|
| Cards.TableKeys | index.js:10-32 | The suit table has exactly the keys 1 to 4 and the face table exactly 2 to 14, so a standard card is exactly one whose suit and face both have a name. It links the constructor's loop ranges and `IsStandard` to the tables. |
| Cards.NamesIdentifyCard | index.js:35-45 | A standard card has both display names (`SuitName`, `FaceName`, looked up in the tables as the `Card` constructor does), and no two standard cards show the same pair of names. |
| Cards.FullDeck | index.js:55-61 | The 52-card sequence a new deck is built as: position k holds suit k/13+1 and face k%13+2, so suits run outermost and faces innermost. Its order and contents are proved by the two lemmas below. |
| Cards.FullDeckOrder | index.js:55-61 | In construction order, suits are outermost and faces innermost: card (suit, face) sits at position 13·(suit−1)+(face−2), and every position holds a standard card. |
| Cards.FullDeckDistinct | index.js:55-61 | No two positions of a new deck hold the same card. |
| Cards.DistinctAtMostOnce | index.js:55-61 | In a sequence with no repeated card, each card occurs once if present and not at all otherwise. |
| Cards.FullDeckExactlyOnce | index.js:48-62 | A new deck has 52 cards: one of every (suit, face) pair of the tables, none missing, no duplicates, nothing else. |
| Cards.AtMostOnceIsDistinct | index.js:84-86 | A sequence in which no card occurs twice has no repeated position. |
| Cards.FullSize | index.js:48-62 | Any collection holding every standard card exactly once has 52 cards. |
| Cards.FullCancel | index.js:84-86 | Two full collections that share a part agree on the rest, so the cards dealt in a game are exactly the cards the deck held. |
| Decks.Deck.constructor | index.js:49-62 | The nested push loop builds exactly `FullDeck()`, and no card has been drawn yet. Every card pushed has a suit name and a face name in the tables. |
| Decks.Deck.NumCardsRemaining | index.js:70-72 | The count is the array's length, which is 52 less the number of cards drawn so far. |
| Decks.Deck.GetNextCard | index.js:75-89 | On an empty deck it returns `None` and changes nothing. Otherwise it returns the card at the chosen index and leaves the other cards in their order. Drawn plus remaining stays the full 52. The returned card is standard, was not drawn before and is no longer in the deck. |
| Decks.DrawnAreDistinct | index.js:82-88 | In any valid deck state, no card has been returned twice and every card held or drawn is standard. |
| Dealers.Dealer.constructor | index.js:95-100 | The dealer keeps its name and owns a fresh, newly built deck. |
| Dealers.Dealer.NumCardsRemaining | index.js:103-105 | The dealer's count is its deck's count. |
| Dealers.Dealer.DealACard | index.js:108-110 | Dealing is a draw from the dealer's deck, with the deck's own contract. |
| Players.Player.constructor | index.js:116-121 | A new player has the given name and 0 points. |
| Players.Player.AwardPoints | index.js:124-126 | Points increase by exactly `numPoints` and nothing else changes. |
| Games.Higher | index.js:157-163 | The shared comparison rule: player 1 wins exactly when its value is strictly greater, player 2 exactly when its value is strictly greater, and Neither exactly when they are equal. |
| Games.RoundWinner | index.js:157-163 | `Higher` applied to the two cards' faces, as `Number(face)` compares them. Its meaning per report, in both directions, is stated by `RoundStep` and `RoundsFollowRule`. |
| Games.GameWinner | index.js:192-197 | The game is won by player 1 exactly when its points are strictly more, by player 2 exactly when its points are strictly more, and is a tie exactly when the points are equal. |
| Games.Award | index.js:165-173 | Awarding a round adds exactly one point to the round's winner and none to the other player; a tie changes neither score. |
| Games.ScoreAfter | index.js:142-183 | The reference meaning of the loop's scoring: the score after the dealt cards are taken in pairs, each pair awarding its face winner one point, and a trailing unpaired card scoring nothing. Its properties are `ScoreIsTally` and `ScoreBounds`. |
| Games.ReportsAfter | index.js:142-183 | The reference meaning of the loop's reports: one report per pair of dealt cards, holding the cards, their winner, the scores after the round and the cards left. Its properties are `ReportsCount`, `ReportAt`, `RoundStep`, `RoundsFollowRule` and `ReportsShowDealt`. |
| Games.ReportedCards | index.js:145-152 | The cards the reports show, two per report, player 1's before player 2's. |
| Games.ReportsShowDealt | index.js:145-152 | After whole rounds, the reports show exactly the dealt cards, in the order they were dealt. |
| Games.RoundsFollowRule | index.js:152-176 | Every report names the face winner of its own two cards, and its scores are the previous report's (or the starting score) with that winner awarded one point. |
| Games.Game.constructor | index.js:133-137 | The dealer, player 1 and player 2 get the three names in that order. Both players have 0 points, and the deck is a full new deck. |
| Games.Game.ScoreRound | index.js:152-176 | The player with the strictly higher face gains exactly one point and the other none. Equal faces change no score. The report carries both cards, the winner, the new scores and the cards left. |
| Games.Game.PlayRound | index.js:142-183 | One pass deals one or two cards (none only when the deck is already empty) and removes them from the deck. With two cards, the round is scored and reported. With fewer, the deck is now empty and nothing is scored or reported. |
| Games.Game.PlayWar | index.js:140-210 | The loop ends with the deck empty, and every card was dealt exactly once. The final scores and the reports are those the round rule gives for the order the cards came out. The game winner is the player with strictly more points, and a tie otherwise. |
| Games.ReportsCount | index.js:142-183 | There is one report per pair of dealt cards. |
| Games.ReportAt | index.js:145-180 | Report j shows the cards dealt at positions 2j and 2j+1, their face winner, the scores after j+1 rounds and the cards then left. |
| Games.RoundStep | index.js:152-176 | Report by report: the winner is the player with the strictly higher face (in both directions). The winner's points rise by exactly one over the previous report, the other's not at all, and a tie changes neither. |
| Games.PairStep | index.js:145-180 | Dealing one more pair after whole rounds awards its winner one point and adds exactly one report. |
| Games.LoneStep | index.js:145-152 | A trailing card dealt without a partner changes no score and adds no report. |
| Games.WinsPartition | index.js:156-171 | Every reported round is won by player 1, won by player 2, or tied. |
| Games.ScoreIsTally | index.js:156-171 | Each score is the starting score plus the number of reported rounds that player won. |
| Games.ScoreBounds | index.js:142-183 | Scores never decrease, and all rounds together award at most one point per pair of dealt cards. |
| Games.PlayNewGame | index.js:247-250 | A new game played to the end gives exactly 26 reports, with 50, 48, …, 0 cards left after them. Each report names the face winner of its own two cards, and its scores are the previous report's (0 and 0 for the first) with that winner awarded one point. The reports show all 52 standard cards, each exactly once. Each final score is that player's number of won rounds. The two scores and the ties add up to 26, and the winner is the player with strictly more points. |

## Left out

- The menu loop, the `prompt` calls and the `exit` flag (index.js:213-258) are interactive I/O. Only the composition "build a `Game` from three names, then play it" is modelled, as `PlayNewGame`.
- `alert` and the message strings are presentation. Each round's message is modelled as a `RoundReport` value, and the final message as a `FinalReport` value. The wording is not modelled. Neither is the fact that a tied round's message omits the scores.
- `Deck.getRandomInt` and `Math.random` (index.js:65-67) use floating-point host randomness. The index is any valid position, chosen nondeterministically. That the draw is uniform cannot be stated.
- The tables' keys are strings in JavaScript (`for...in`), compared through `Number(...)`. Suits and faces are modelled as the integers those strings denote.
- A `Card`'s stored `suitName` and `faceName` are modelled as lookups (`SuitName`, `FaceName`) defined where the tables have the key. A card built with codes outside the tables is not modelled with an `undefined` name.
- Constructing a `Dealer` or `Player` with no name gives JavaScript `undefined`. This is not modelled: names are always strings.
- Players.Player.AwardPoints: accepts any integer, as the source does. The claim that points only go up holds for the game because the game only ever awards 1 (`ScoreBounds`), not for `AwardPoints` in general.
- Names and the dealer's deck are `const` fields: the source never reassigns them after construction.
- JavaScript numbers are doubles. Scores and counts stay below 53 here, so they are modelled as unbounded integers with no rounding.
