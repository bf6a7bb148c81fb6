# Nope 21 — a verified model of the game rules

Nope 21 is a card game. Players take turns playing one card from a hand of five onto a shared running total. Number cards add their value. "x2" doubles the last effect and "Nope" cancels it. Whoever reaches exactly 21 wins. After a play that does not reach 21, the seat the turn passes to loses at once if it holds no card that keeps the total at most 21; the automated opponent, seat 1, likewise loses when it is to play and has no such card. No other seat is ever declared lost, so a human seat dealt an unplayable hand, or handed the turn by the stale test described under Findings, is stuck. The game lives in one React component, `src/App.jsx`. This project models its rule engine in Dafny:

- **the deck** (`DEFAULT_DECK`): a fixed 40-card multiset put in some order, which the model takes as a permutation parameter;
- **dealing** (`startGame`): five cards per seat taken off the front of the deck, with the rest becoming the draw pile;
- **effect resolution** (`calculateEffect`): the delta a card applies against the effect history, or none;
- **legality** (`canPlay`, `playerCanPlay`);
- **the play transition** (`playCard`): the guards, removing the card, refilling from the end of the draw pile, the history push/pop, the total, and the end-of-turn decision;
- **the automated opponent**: the first playable card of seat 1, or seat 1's loss.

The modules:

- `Wrappers` holds `Option`.
- `Cards` holds the cards, the deck and the permutation.
- `Effects` holds the effect history, `Effect`, `CanPlay` and the opponent's choice.
- `Rules` holds the game state as a value, dealing, `Play`, the opponent's step, and the invariant and its preservation. It also holds sequences of actions.
- `Engine` holds the class `Game`. Its fields are the component's state variables. Its methods `StartGame`, `PlayCard` and `OpponentTurn` update them in place, and each method is proved to produce exactly the state that the matching `Rules` function describes.
- `Scenarios` holds worked plays.

The invariant `WellFormed` holds in every state reached from a deal:

- there is a seat to play;
- no hand holds more than five cards;
- the total is the sum of the history's values;
- the total is at most 21.

The total can go below zero: "-1" and "-2" are always playable.

## Model

| member | source | states |
|---|---|---|
| `Cards.ParseInt` | src/App.jsx:76 | Every numeric face reads as a non-zero integer between -2 and 5. |
| `Cards.RepeatCount` | src/App.jsx:4-12 | `k` copies of a card hold that card exactly `k` times and no other card. |
| `Cards.UnshuffledComposition` | src/App.jsx:3-12 | The deck literal has 40 cards: five each of "1".."5", four each of "x2", "-1" and "-2", and three "Nope". |
| `Cards.PermutePreservesMultiset` | src/App.jsx:13 | Putting a sequence in any order given by a permutation keeps its multiset. |
| `Cards.ShuffledComposition` | src/App.jsx:3-13 | Every shuffled deck has 40 cards with the same composition as the literal; only the order varies. |
| `Cards.ShuffledDeck` | src/App.jsx:3-13 | `DEFAULT_DECK()`: the literal put in the order a permutation gives. It has no contract of its own; `Cards.ShuffledComposition` states its size and composition. |
| `Effects.NumberEffect` | src/App.jsx:76-78 | A number card, "-1" and "-2" included, always resolves, to its face value, whatever the history. |
| `Effects.DoubleEffect` | src/App.jsx:79-84 | "x2" resolves exactly when the history is non-empty and its last card is none of "-1", "-2", "x2", "Nope"; it then resolves to twice the last value. |
| `Effects.NopeEffect` | src/App.jsx:85-89 | "Nope" resolves exactly when the history is non-empty, to minus the last value. Adding it gives the sum of the history without its last record. |
| `Effects.UnplayableCards` | src/App.jsx:75-91 | A card has no effect if and only if it is "x2" on a history that forbids doubling, or "Nope" on an empty history. |
| `Effects.Effect` | src/App.jsx:75-91 | `calculateEffect`. It has no contract of its own; `Effects.NumberEffect`, `Effects.DoubleEffect`, `Effects.NopeEffect` and `Effects.UnplayableCards` state what it returns. |
| `Effects.CanPlay` | src/App.jsx:108-111 | `canPlay`: the card resolves and the total plus its delta is at most 21. It has no contract of its own; `Rules.PlayRejected` and `Rules.PlayUpdatesHistory` state its role as the guard. |
| `Effects.HandCanPlay` | src/App.jsx:113 | `playerCanPlay`, `hand.some(canPlay)`. It has no contract of its own; `Effects.ChooseMove` and `Rules.PlayOutcome` relate it to the opponent's choice and the next seat's loss. |
| `Effects.FirstPlayableFrom` | src/App.jsx:176 | The result is the first index at or after `from` whose card can be played; it is none exactly when no such index exists. |
| `Effects.ChooseMove` | src/App.jsx:176-177 | The opponent's choice is the first playable index of the hand; it is none exactly when the hand has no playable card. |
| `Rules.DealtPrefix` | src/App.jsx:38 | The dealt hands laid end to end are the front of the deck, `5n` cards or the whole deck if it is shorter. |
| `Rules.Dealt` | src/App.jsx:36-45 | The state `startGame` sets. It has no contract of its own; `Rules.DealingSplitsDeck` and `Rules.DealtWellFormed` state its properties. |
| `Rules.DealingSplitsDeck` | src/App.jsx:36-45 | The hands followed by the draw pile are the deck, there are `n` hands, and none holds more than 5 cards. When the deck suffices, hand `i` is cards `5i..5i+5` of the deck. |
| `Rules.DealtWellFormed` | src/App.jsx:36-46 | A fresh deal with at least one seat satisfies the invariant: total 0 is the sum of the empty history, seat 0 plays, and hands are at most 5. |
| `Rules.PlayRejected` | src/App.jsx:117-119 | With either next-seat test, a play is a no-op in each of these cases: the game is over; it is out of turn; the index is outside the hand; the card does not resolve; or the card would take the total past 21. |
| `Rules.PlayAsWritten` | src/App.jsx:116-168 | `playCard` as written, with the next seat judged on the pre-play history and total. It has no contract of its own; `Rules.PlayRejected`, `Rules.PlayMovesCards`, `Rules.PlayUpdatesHistory`, `Rules.PlayAsWrittenOutcome` and `Rules.TransitionWellFormed` state its properties, and `Rules.AsWrittenFalseLoss`, `Rules.AsWrittenStrandsNextSeat` and `Scenarios.AsWrittenDoubleSeatPasses` show where it departs from the rule. |
| `Rules.Play` | src/App.jsx:116-168 | `playCard` corrected, with the next seat judged on the state the play produced. It has no contract of its own; `Rules.PlayRejected`, `Rules.PlayMovesCards`, `Rules.PlayUpdatesHistory`, `Rules.PlayOutcome` and `Rules.TransitionWellFormed` state its properties. |
| `Rules.MovedWellFormed` | src/App.jsx:139-158 | Moving the card, refilling and updating the history and total keeps the invariant. |
| `Rules.SettleWellFormed` | src/App.jsx:160-167 | Deciding the outcome leaves the hands, draw pile, history and total as they were, and the seat to play is either unchanged or the next seat `(current + 1) % n`; so it keeps the invariant. |
| `Rules.TransitionWellFormed` | src/App.jsx:116-168 | Every play keeps the invariant, with the end-of-turn test either as written or corrected. |
| `Rules.PlayMovesCards` | src/App.jsx:139-143 | With either next-seat test, an accepted play removes exactly the chosen card and keeps the rest in order. The only card it may add is the last card of the draw pile, when the hand is short and the pile is non-empty. No card is created or lost, and other hands are unchanged. |
| `Rules.PlayUpdatesHistory` | src/App.jsx:145-148 | With either next-seat test, "Nope" pops exactly one record and pushes none. Any other card pushes one record of the card and the delta it applied. The total moves by that delta and stays at most 21. |
| `Rules.PlayOutcome` | src/App.jsx:160-167 | For the corrected play, which judges the next seat on the state the play produced: reaching 21 wins for the mover, the current seat is unchanged and the next seat is not consulted. Otherwise the next seat `(current + 1) % n` loses if and only if it has no playable card, with the current seat left unchanged; if it can play, it takes the turn. After an accepted play that leaves the game running, the seat to play holds a playable card. |
| `Rules.PlayAsWrittenOutcome` | src/App.jsx:160-167 | For `playCard` as written: reaching 21 wins for the mover with the seat unchanged. Otherwise the next seat loses if and only if none of its cards is playable under the history and total from before the play, with the seat unchanged; else it takes the turn. |
| `Rules.AsWrittenFalseLoss` | src/App.jsx:165 | With the source's stale test, seat 1 is declared lost after a "3" even though its "x2" could be played. The corrected play passes the turn instead. |
| `Rules.AsWrittenStrandsNextSeat` | src/App.jsx:165 | With the source's stale test, the turn passes to a seat with no playable card. The corrected play declares that seat lost. |
| `Rules.OpponentStep` | src/App.jsx:171-181 | The watcher's decision for seat 1, played through `playCard` with either next-seat test. It has no contract of its own; `Rules.OpponentMoves` and `Rules.OpponentWaits` state its properties. |
| `Rules.OpponentMoves` | src/App.jsx:173-181 | On seat 1's turn in a running game, with either next-seat test (as written or corrected), a chosen card is always accepted by `playCard`. Seat 1 ends up lost exactly when it has no playable card. |
| `Rules.OpponentWaits` | src/App.jsx:172-173 | Once the game is over, or off seat 1's turn, the opponent leaves the state unchanged, with either next-seat test. |
| `Rules.StepWellFormed` | src/App.jsx:116-181 | A click or an opponent move keeps the invariant, with either next-seat test (the source's pre-play test or the corrected one). |
| `Rules.Run` | src/App.jsx:116-185 | After any sequence of clicks and opponent moves, the invariant still holds, both in the game as written and in the corrected game. |
| `Rules.DecidedIsFinal` | src/App.jsx:117 | Once a game is decided, no sequence of actions changes the state, with either next-seat test. |
| `Engine.Game.constructor` | src/App.jsx:17-27 | The initial fields are: no hands, a shuffled deck as draw pile, empty history, total 0, seat 0, no winner. |
| `Engine.Game.StartGame` | src/App.jsx:36-46 | The splice loop leaves exactly the dealt state. With at least one seat, the invariant holds. |
| `Engine.Game.PlayCard` | src/App.jsx:116-168 | The fields become exactly `Rules.Play` of the old state, and the invariant is preserved. |
| `Engine.Game.MoveCard` | src/App.jsx:139-158 | The in-place filter, `pop` refill, history update and total update give exactly the moved state. |
| `Engine.Game.DecideOutcome` | src/App.jsx:160-167 | The winner and current-seat updates give exactly the settled state. |
| `Engine.Game.OpponentTurn` | src/App.jsx:171-181 | The fields become exactly the opponent's step of the old state, played through the corrected `playCard` (`Rules.OpponentStep` with the post-play test), and the invariant is preserved. |
| `Scenarios.OpeningPlay` | src/App.jsx:116-168 | From a two-seat state with nothing played yet, playing "5" makes the total 5, records it, refills from the end of the pile, and passes the turn. |
| `Scenarios.DoubleReachesTarget` | src/App.jsx:161 | At 19, with a "1" last in the history, "x2" reaches 21 and wins at once. |
| `Scenarios.NopeUndoesLast` | src/App.jsx:146 | At 10, with a "3" last in the history, "Nope" gives 7 and drops that record. |
| `Scenarios.MinusOneKeepsNextSeat` | src/App.jsx:165 | In the corrected play, a next seat holding only "-1" never loses for want of a move. |
| `Scenarios.DoubleStrandsNextSeat` | src/App.jsx:165 | In the corrected play, a next seat holding only "x2" loses at once when the play leaves the history empty. |
| `Scenarios.AsWrittenDoubleSeatPasses` | src/App.jsx:165 | As written, after "Nope" empties the history, the turn passes to a seat holding only "x2", which cannot play; the corrected play declares that seat lost. |
| `Scenarios.DealCanStall` | src/App.jsx:36-46 | A two-seat deal from a deck starting "x2 x2 x2 x2 Nope" satisfies the invariant and is running with seat 0 to play, yet seat 0 holds no playable card: dealing never tests seat 0. |

## Left out

- Rendering, styles, card colours and the rules panel are presentation only.
- Animations, `setTimeout` feedback and the DOM lookups of the flying card are timers and browser I/O.
- The log strings and `getEffectDescription` are display text. The discard pile is written and never read.
- The `type` tag of a history record is omitted. Nothing reads it, and it equals "the card is numeric".
- The winner message becomes `Won(p)` or `Lost(p)` instead of a sentence.
- `Math.random` in the deck's sort is left out. The order the sort produces is a permutation parameter, so no claim is made about the shuffle's distribution.
- React's state scheduling and effect re-running are left out, and so is the 1000 ms delay before the opponent plays. The opponent is an explicit action (`Rules.OpponentStep`, `Engine.Game.OpponentTurn`).
- The `singlePlayerMode` and `gameStarted` flags are not modelled, so the opponent acts whenever seat 1 is to play.
- The `if (!hand)` guard cannot fire here: on seat 1's turn, seat 1 exists.
- The menu, player names, player-count selection and `resetGame` are UI flow.
- JavaScript numbers are doubles. Totals and deltas stay small integers, so they are modelled as unbounded `int`.
- Rules.PlayRejected: an index outside the hand is treated as a rejected play. In the source, `players[p][cardIndex]` would be `undefined`. `calculateEffect` maps that to 0, so a phantom card would be "played" and a record with value 0 pushed. Neither the card buttons nor the opponent can pass such an index.
- Engine.Game.DecideOutcome: the "total above 21, the mover loses" branch is asserted unreachable. The `playCard` guard keeps the total at most 21. `Rules.Settle` still carries the branch.
- Engine.Game.PlayCard: this performs the corrected end-of-turn test (`Rules.Play`). The test as written is `Rules.PlayAsWritten`; see Findings.
- Engine.Game.OpponentTurn: the opponent's move goes through `Engine.Game.PlayCard`, so it performs the corrected end-of-turn test. The state machine `Rules.Run` covers both tests, and `Rules.OpponentStep` takes the test as a parameter.
- Rules.PlayOutcome: proved for the corrected play `Rules.Play`. The end-of-turn test as written (`Rules.PlayAsWritten`) does not have the "loses if and only if it cannot play" property; see Findings.
- Scenarios.MinusOneKeepsNextSeat: stated for the corrected play `Rules.Play`, which judges the next seat on the state the play produced. As written, "-1" is playable under the pre-play state too.
- Scenarios.DoubleStrandsNextSeat: stated for the corrected play `Rules.Play`. As written, the next seat is judged on the pre-play history, and `Scenarios.AsWrittenDoubleSeatPasses` shows the turn passing to a seat holding only "x2".

Facts of the code that the model keeps, where a reader might expect otherwise:

- The deck literal builds 40 cards: 25 number cards, four each of "x2", "-1" and "-2", and three "Nope".
- Refilling takes the last card of the draw pile (`pop`).
- The total is not bounded below.
- A deal can leave seat 0 with no playable card (`Scenarios.DealCanStall`). Neither the source nor the model declares a loss then: the loss test runs only after a play, and the opponent acts only for seat 1.
- A play needs an existing seat: with no hands, `players[playerIndex]` would throw, so `Rules.Play` requires a current seat that exists.

## Findings

| source | as written | input that shows it | evidently intended | confidence | as-written member | corrected member |
|---|---|---|---|---|---|---|
| src/App.jsx:165 | The next seat's hand is tested with `canPlay`, which captured the pre-play `effectHistory` and `total` (lines 108-110). | Two seats, empty history, total 0; seat 0 holds "3 1 1 1 1" and seat 1 holds "x2 x2 x2 x2 Nope". Seat 0 plays "3" and seat 1 is declared lost, although "x2" would double the 3. | Judge the next seat under the history and total the play has just produced. | not executed | Rules.AsWrittenFalseLoss | Rules.PlayOutcome |
| src/App.jsx:165 | The same stale test lets the turn pass to a seat that cannot move. | History "5, x2 (10)", total 15; seat 0 holds "4 1 1 1 1" and seat 1 holds "5 5 4 4 3". Seat 0 plays "4" for 19, and seat 1 gets the turn with no card that keeps the total at most 21. | The seat with no playable card loses at once. | not executed | Rules.AsWrittenStrandsNextSeat | Rules.PlayOutcome |
| src/App.jsx:165 | The stale test still sees a record that the play has just popped. | History "1", total 1; seat 0 holds "Nope 1 1 1 1" and seat 1 holds only "x2". Seat 0 plays "Nope", and seat 1 gets the turn although "x2" cannot resolve on the empty history. | The seat with no playable card loses at once. | not executed | Scenarios.AsWrittenDoubleSeatPasses | Scenarios.DoubleStrandsNextSeat |
