# Game setup of an Exploding-Kittens-style card game

This project models `GameManager.startGame(numPlayers)` of a turn-based card
game for 2 to 5 players, and proves what the setup leaves behind. The steps are:

1. Reject a player count outside 2..5.
2. Build an action-only deck and seat the players.
3. Give every player a Defuse card and shuffle the deck.
4. Deal 7 cards to every player, one per player per pass.
5. Put Defuse cards back into the deck: 1 for 2 or 3 players, `6 - numPlayers` otherwise.
6. Insert `numPlayers - 1` Explode cards.
7. Shuffle the deck again. It becomes the draw pile, and an empty discard pile is created.

Modules:

- `Cards` (`cards.dfy`): the card values (`Defuse`, `Explode`, action cards) and `Copies(c, k)`, the multiset of k copies of a card.
- `Decks` (`deck.dfy`): the `Deck` class. It is a mutable `seq<Card>` with the top at index 0, and offers `Shuffle`, `Deal` and `Insert`.
- `Players` (`player.dfy`): the `Player` class with its hand, `Give` and `Init`.
- `Setup` (`setup.dfy`): what a completed setup is, stated on values.
  - `Dealt` is the round-robin deal. `StartingHands` adds the Defuse in front of each hand.
  - `ReturnedDefuses` is the number of Defuse cards put back.
  - `ValidSetup` is the predicate relating the action deck, the shuffled deck, the hands and the draw pile.
  - Lemmas prove, for every `ValidSetup`, the hand sizes, the round-robin order, the draw pile's size and contents, and conservation of cards.
- `Game` (`game_manager.dfy`): the `GameManager` class and `StartGame`. Its loops become `GiveEach`, `DealPasses`/`DealPass`, `ReturnCards` and `InsertCopies`. `StartGame` and `NewGame` are proved to reach a `ValidSetup`, and every lemma of `Setup` applies to the state they leave.

The randomness of shuffling and of inserting a card is modelled as an arbitrary choice: `Shuffle` may produce any permutation, and `Insert` may choose any position from the top to the bottom. Every property below therefore holds for all possible shuffles and insert positions.

The doc comment of `startGame` (Game/GameManager.java:41) says that for 2 or 3 players two Defuse cards go back into the deck. The code (Game/GameManager.java:68-71) puts back one. The model follows the code: `ReturnedDefuses` is 1, 1, 2, 1 for 2..5 players.

## Model

| member | source | states |
|---|---|---|
| Game.GameManager.StartGame | Game/GameManager.java:49-88 | Succeeds exactly when 2 <= numPlayers <= 5; otherwise returns `WrongPlayerCount(numPlayers)` and leaves the manager unchanged. On success: `deck` is a new deck and `drawpile` is the same object; `players` holds numPlayers new, distinct players; the discard pile is a new empty deck, distinct from the draw pile; hands and draw pile form a `ValidSetup` of the action pool; `turnIndex` is untouched |
| Game.GameManager.constructor | Game/GameManager.java:13-34 | A manager starts with no deck, no players, no piles and turn index 0 |
| Game.NewGame | Game/GameManager.java:55-84 | From fresh objects, the deck, the numPlayers distinct new players and the final deck satisfy `ValidSetup` for the action pool and the deck as shuffled before the deal |
| Game.GiveEach | Game/GameManager.java:57-59 | Every player's hand grows by exactly the given card at its end |
| Game.DealPasses | Game/GameManager.java:61-65 | After 7 passes the deck lost its top 7·numPlayers cards, and player j's hand grew by `Dealt(deck, numPlayers, j, 7)`: the cards at positions i·numPlayers + j |
| Game.DealPass | Game/GameManager.java:62-64 | One pass: the deck loses its top numPlayers cards, and player j receives the card that was at position j |
| Game.HandsAfterDeal | Game/GameManager.java:57-65 | A Defuse followed by the dealt cards in every hand is exactly `StartingHands` of the shuffled deck |
| Game.ReturnCards | Game/GameManager.java:67-82 | The deck's multiset grows by exactly `ReturnedDefuses(numPlayers)` Defuse and numPlayers - 1 Explode cards |
| Game.InsertCopies | Game/GameManager.java:69-71 | Inserting k copies of a card adds exactly k copies of it to the deck's multiset |
| Decks.Deck.constructor | Game/GameManager.java:86 | A new deck is empty |
| Decks.Deck.InitDeckNoExplodeOrDefuse | Game/GameManager.java:55 | The starting deck holds exactly the given action pool, which has no Defuse or Explode |
| Decks.Deck.Shuffle | Game/GameManager.java:60 | The deck's multiset of cards and its size are unchanged |
| Decks.Deck.Deal | Game/GameManager.java:63 | On a non-empty deck, returns the top card and the deck becomes the rest |
| Decks.Deck.Insert | Game/GameManager.java:70 | The card is placed at some position from 0 to the size, the other cards keep their order, and the multiset grows by that card |
| Players.Player.Give | Game/GameManager.java:58 | The card is appended to the hand |
| Players.Player.Init | Game/GameManager.java:56 | Returns exactly numPlayers new, pairwise distinct players with empty hands |
| Setup.ReturnedDefuses | Game/GameManager.java:68-77 | For 2..5 players the number of Defuse cards put back is 1 or 2, is 2 exactly for 4 players, and never exceeds 6 - numPlayers |
| Setup.DealtAt | Game/GameManager.java:61-65 | On pass i, the seat-th player receives the card at position Offset(i, n) + seat of the shuffled deck |
| Setup.SetupDealOrder | Game/GameManager.java:61-65 | After setup, player j's hand at position i + 1 is card i·numPlayers + j of the shuffled deck, for every pass i in 0..6 |
| Setup.OffsetIsProduct | Game/GameManager.java:61-62 | The number of cards dealt in the first `passes` passes is passes·n |
| Setup.DealConserves | Game/GameManager.java:61-65 | The hands dealt in `passes` passes together hold exactly the top passes·n cards of the deck |
| Setup.HandsHoldDealt | Game/GameManager.java:57-65 | The starting hands together hold the top 7·n cards of the shuffled deck plus n Defuse cards |
| Setup.SetupHands | Game/GameManager.java:56-65 | After setup every hand holds 8 cards, its Defuse first, exactly one Defuse and no Explode |
| Setup.SetupDrawPile | Game/GameManager.java:55-85 | After setup the draw pile has size \|action deck\| − 7·numPlayers + ReturnedDefuses + numPlayers − 1, holds exactly ReturnedDefuses Defuse and numPlayers − 1 Explode cards |
| Setup.SetupConserves | Game/GameManager.java:55-84 | No card is created or lost: hands plus draw pile equal the action deck plus numPlayers + ReturnedDefuses Defuse and numPlayers − 1 Explode cards, as multisets |
| Setup.SetupTotals | Game/GameManager.java:55-82 | The cards in play hold numPlayers + ReturnedDefuses Defuse cards, numPlayers − 1 Explode cards, and \|action deck\| + numPlayers + ReturnedDefuses + numPlayers − 1 cards in all |

## Left out

- `mainLoop` (Game/GameManager.java:97-113) is unfinished in the source. It does not compile, its loop cannot end, and it relies on `Turn` and `passOrNope`, which are not part of this model.
- `endGame` (Game/GameManager.java:119) has no body.
- The composition of `Deck.initDeckNoExplodeOrDefuse()` is not part of this model. The action pool is a parameter holding no Defuse or Explode cards.
- Game.GameManager.StartGame: the action pool must hold at least 7·numPlayers cards for a valid player count, because dealing from an empty deck in `Deck.deal` is not part of this model.
- Uniform randomness of `shuffle` and `insert`. Any permutation and any position are allowed instead, so no statement about probabilities is made.
- Card effects, player decisions and console I/O are external to this file.
- `Player[]` is modelled as a sequence of `Player` objects, since the array is never written after `Player.init`.
- Game.GameManager.StartGame: the fields `deck` and `players` are assigned after the setup has built them, where the source assigns them at lines 55-56 and reads them through the setup (lines 57-85). No code outside `startGame` can see the fields before the setup ends. The one way a partly built setup could escape in the source is an exception from dealing from an empty deck; the model rules that out by requiring at least 7·numPlayers action cards.
- Game.GameManager.StartGame: a Java exception is modelled as a `Failed` outcome.
- Cards are values, so `new DefuseCard()` and `new ExplodeCard()` become the values `Defuse` and `Explode`.
