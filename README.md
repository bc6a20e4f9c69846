# A verified model of the socrates-hearts domain layer

This project models the rules engine of a four-player game of Hearts (the
Kotlin package `org.socratesbe.hearts.domain`) in Dafny, and proves what the
engine does. The package holds two overlapping engines that share one card
vocabulary, and the model keeps them apart.

- **Cards** (`cards.dfy`) is the shared vocabulary.
  - It defines suits, symbols and cards, the four seats and `playerToTheLeft`.
  - It defines the rejection reasons and the `Result` type that stands for a thrown exception.
  - It holds list helpers in Kotlin's terms: `ArrayDeque.remove`, `forEach(::remove)`, `toSet()` and set difference.
  - The suit order is HEARTS, SPADES, CLUBS, DIAMONDS. The source does not show the enum; only CLUBS being third is implied (the third seat is dealt the third suit and holds 2♣). The order matters only for the layout of a new deck.
- **HeartsComparator** (`comparator.dfy`) holds `HeartsComparator.compare` and Kotlin's `maxWith` as a left fold.
- **Tricks** (`tricks.dfy`) holds the trick.
  - A trick is an insertion-ordered `Map<Card, PlayerId>`, modelled as a sequence of plays with unique cards.
  - It defines `add`, the 4-card `isFinished`, and the winner. `Trick.winner` in Game.kt and `Trick.wasWonBy` in Trick.kt are the same expression, so both are one function.
- **Decks** (`deck.dfy`) holds the new 52-card deck and `draw` as a class over its `ArrayDeque`, plus the 13-card dealer built on it.
- **StateMachine** (`game.dfy`) is the state-machine engine of Game.kt.
  - Class `Game` has a `state` that moves Open → Full → Started.
  - Seats are given in join order.
  - Dealing goes through a dealer function, and the holder of 2♣ leads.
  - `playCard` checks the turn and the hand, removes the card from the shared hand object (`CardDeque`) and adds it to the trick.
  - The turn then passes by `DealtPlayers.next`, or to the trick winner via `startWith`.
- **Hands** (`hands.dfy`) holds the event-sourced engine's `Hand` class (Players.kt) and its `play`/`pass`/`receive` loops.
- **PassingRules** (`passing.dfy`) holds `validated`, `NoPassing` and `AlwaysPassLeft`.
- **Events** (`events.dfy`) holds the event log of GameEvents.kt.
  - It defines `DealId`, with 32-bit wrap-around, and the events.
  - Class `GameEvents` appends events and notifies matching listeners in registration order; the calls made are kept as a trace.
  - It defines `currentDealId`, `currentDealEvents` and `filterIsInstance`.
- **Players** (`players.dfy`) holds the event-sourced players of Players.kt.
  - It seats players by folding the log and rebuilds each hand from it.
  - It defines the lookups and the legality rules of `DealtPlayer.play`: card in hand, 2♣ first, follow suit, and the hearts rules.

Thrown `GameException`s become `Rejected(reason)`. `error(...)`, `TODO()` and
index exceptions become `Faulted(fault)`. `currentDealId` (GameEvents.kt:40)
calls a `gameError(...)` that the source does not define; the model reads it
as a `GameException`, so a missing deal is `Rejected(NoCurrentDeal)`. Message texts are structured
reasons that carry the player name and card.

## Model

All source paths are under `src/main/kotlin/org/socratesbe/hearts/domain/` unless they name a test.

| member | source | states |
|---|---|---|
| Cards.ToTheLeft | src/main/kotlin/org/socratesbe/hearts/domain/Players.kt:83-90 | the seat to the left has the next ordinal, modulo 4 |
| Cards.ToTheLeftCycle | src/main/kotlin/org/socratesbe/hearts/domain/Players.kt:83-90 | four steps to the left return to the same seat, and one, two or three steps do not |
| Cards.IndexOfName | src/main/kotlin/org/socratesbe/hearts/domain/Game.kt:149-151 | the first player with the name, or none exactly when no player has it |
| Cards.IndexOfId | src/main/kotlin/org/socratesbe/hearts/domain/Game.kt:143 | `indexOfFirst`: the first player on the seat, or none exactly when no player sits there |
| Cards.GameRequires | src/main/kotlin/org/socratesbe/hearts/domain/Game.kt:200-202 | succeeds exactly when the condition holds, else rejects with the given reason |
| Cards.RemoveFirst | src/main/kotlin/org/socratesbe/hearts/domain/Game.kt:196 | `ArrayDeque.remove` drops one occurrence (multiset minus one), and is a no-op on an absent card |
| Cards.RemoveFirstDropsFirstOccurrence | src/main/kotlin/org/socratesbe/hearts/domain/Game.kt:196 | the card removed is the first occurrence; the cards before and after it keep their order |
| Cards.RemoveEach | src/main/kotlin/org/socratesbe/hearts/domain/Players.kt:100 | `forEach(::remove)`; its properties are RemoveEachSnoc, RemoveEachMultiset and RemoveEachMembership |
| Cards.RemoveEachSnoc | src/main/kotlin/org/socratesbe/hearts/domain/Players.kt:100 | `forEach(::remove)` over one more card removes that card from the previous result |
| Cards.RemoveEachMultiset | src/main/kotlin/org/socratesbe/hearts/domain/Players.kt:100 | removing a list of cards one by one is multiset difference |
| Cards.RemoveEachMembership | src/main/kotlin/org/socratesbe/hearts/domain/Players.kt:100 | on a hand without repeats, a card survives exactly when it is not removed |
| Cards.AsCardSetSpec | src/main/kotlin/org/socratesbe/hearts/domain/PassingRules.kt:20 | `toSet()` keeps exactly the same cards, and keeps a list without repeats as it is |
| Cards.ToSet | src/main/kotlin/org/socratesbe/hearts/domain/Players.kt:27 | `toSet()` keeps the first occurrence of each element in encounter order; see ToSetSpec behind AsCardSetSpec |
| Cards.AsCardSet | src/main/kotlin/org/socratesbe/hearts/domain/PassingRules.kt:20 | `toSet()` on a list of cards; see AsCardSetSpec |
| Cards.Minus | src/main/kotlin/org/socratesbe/hearts/domain/PassingRules.kt:20 | set difference: exactly the offered cards that the other set lacks |
| Cards.MinusDistinct | src/main/kotlin/org/socratesbe/hearts/domain/PassingRules.kt:20 | the difference of a set has no repeats |
| Cards.MinusKeepsOrder | src/main/kotlin/org/socratesbe/hearts/domain/PassingRules.kt:20 | the difference keeps the receiver's iteration order: any two of its elements occur in the receiver in the same order |
| HeartsComparator.Compare | src/main/kotlin/org/socratesbe/hearts/domain/HeartsComparator.kt:7-13 | `compare`; its properties are CompareWithinSuit, CompareBetweenPlainSuits, CompareHeartWithOffSuit and CompareZeroOnlyForSameCard |
| HeartsComparator.CompareWithinSuit | src/main/kotlin/org/socratesbe/hearts/domain/HeartsComparator.kt:9 | within a suit, the sign of `compare` is the symbol order, and `compare` is antisymmetric |
| HeartsComparator.CompareBetweenPlainSuits | src/main/kotlin/org/socratesbe/hearts/domain/HeartsComparator.kt:12 | two different non-heart suits compare as 1 in both argument orders |
| HeartsComparator.CompareHeartWithOffSuit | src/main/kotlin/org/socratesbe/hearts/domain/HeartsComparator.kt:10-11 | a heart beats a non-heart in either position (1 on the left, -1 on the right) |
| HeartsComparator.CompareZeroOnlyForSameCard | src/main/kotlin/org/socratesbe/hearts/domain/HeartsComparator.kt:9-12 | `compare` is 0 exactly for the same card |
| HeartsComparator.MaxWith | src/main/kotlin/org/socratesbe/hearts/domain/Trick.kt:9 | the `maxWith` fold picks one of the given cards |
| HeartsComparator.MaxFold | src/main/kotlin/org/socratesbe/hearts/domain/Trick.kt:9 | the running-maximum fold inside `maxWith`: the result is the start value or one of the rest; see MaxFoldWins |
| HeartsComparator.HasHeartCons | src/main/kotlin/org/socratesbe/hearts/domain/HeartsComparator.kt:10-11 | a list holds a heart exactly when its head is one or its tail holds one |
| HeartsComparator.MaxFoldWins | src/main/kotlin/org/socratesbe/hearts/domain/Trick.kt:9 | the fold ends on the highest card of the winning suit: hearts if any heart is present, else the led suit |
| HeartsComparator.MaxWithWins | src/main/kotlin/org/socratesbe/hearts/domain/Trick.kt:9 | `maxWith` under the comparator picks the highest card of the winning suit |
| HeartsComparator.MaxWithSameSuit | src/main/kotlin/org/socratesbe/hearts/domain/Trick.kt:9 | when all cards share a suit, `maxWith` picks the highest symbol |
| HeartsComparator.AceOfHeartsIsHighestHeart | src/main/kotlin/org/socratesbe/hearts/domain/HeartsComparator.kt:9 | the maximum of all thirteen hearts is A♥ |
| HeartsComparator.HeartBeatsLedAce | src/main/kotlin/org/socratesbe/hearts/domain/HeartsComparator.kt:10-11 | 2♥ beats a led A♠, against src/test/kotlin/org/socratesbe/hearts/domain/HeartsTrumpComparatorTest.kt:12-15 |
| HeartsComparator.LedSuitBeatsOtherPlainSuits | src/main/kotlin/org/socratesbe/hearts/domain/HeartsComparator.kt:12 | a led 2♠ beats A♣ and A♦ |
| Tricks.IndexOfCard | src/main/kotlin/org/socratesbe/hearts/domain/Trick.kt:9 | the lookup behind `cards.getValue(card)`: the position of the first play of that card |
| Tricks.PlayerOf | src/main/kotlin/org/socratesbe/hearts/domain/Trick.kt:9 | `cards.getValue(card)`: the player the card was recorded for; see Winner and WinnerPlayedHighestCard |
| Tricks.IsFinished | src/main/kotlin/org/socratesbe/hearts/domain/Trick.kt:11 | `isFinished()`: four cards; see Winner, which has a winner exactly then |
| Tricks.CardsOf | src/main/kotlin/org/socratesbe/hearts/domain/Trick.kt:9 | `cards.keys` in insertion order |
| Tricks.Winner | src/main/kotlin/org/socratesbe/hearts/domain/Trick.kt:6-11 | a winner exists exactly when the trick holds 4 cards, and it is one of the players who played |
| Tricks.WinnerPlayedHighestCard | src/main/kotlin/org/socratesbe/hearts/domain/Trick.kt:9 | the winner played the highest card of the winning suit |
| Tricks.SameSuitHighestSymbolWins | src/main/kotlin/org/socratesbe/hearts/domain/Trick.kt:9 | on a trick of a single suit, the player of the highest symbol wins |
| Tricks.TenOfClubsTakesTheOpeningTrick | src/main/kotlin/org/socratesbe/hearts/domain/Game.kt:125-128 | 2♣, 3♣, 10♣, 9♣ is won by the player of 10♣ |
| Tricks.OffSuitHeartTakesTheTrick | src/main/kotlin/org/socratesbe/hearts/domain/Trick.kt:9 | a heart played on a spade lead wins the trick |
| Tricks.Add | src/main/kotlin/org/socratesbe/hearts/domain/Game.kt:130-131 | a new card is appended; a card already there keeps its place and takes the new player |
| Decks.FlatMapSuits | src/main/kotlin/org/socratesbe/hearts/domain/Deck.kt:9-11 | 13 cards per suit |
| Decks.FlatMapSuitsAt | src/main/kotlin/org/socratesbe/hearts/domain/Deck.kt:9-11 | position i holds symbol i mod 13 of suit i div 13 |
| Decks.FullDeckLayout | src/main/kotlin/org/socratesbe/hearts/domain/Deck.kt:9-11 | a new deck has 52 cards in suit-major order |
| Decks.FullDeckHasEveryCardOnce | src/main/kotlin/org/socratesbe/hearts/domain/Deck.kt:9-11 | a new deck holds every card exactly once |
| Decks.Deck.constructor | src/main/kotlin/org/socratesbe/hearts/domain/Deck.kt:9-11 | a new deck is the full deck in suit-major order |
| Decks.Deck.Draw | src/main/kotlin/org/socratesbe/hearts/domain/Deck.kt:15 | `draw` returns the front card and leaves the rest; on an empty deck it fails with "Deck is empty" |
| Decks.DealThirteen | src/main/kotlin/org/socratesbe/hearts/domain/Game.kt:184-186 | one dealer call takes the next 13 cards; with fewer left it empties the deck and fails |
| Decks.DealFourHandsFromNewDeck | src/main/kotlin/org/socratesbe/hearts/domain/Game.kt:184-186 | four calls on a new deck give pairwise-disjoint 13-card hands that cover all 52 cards |
| StateMachine.CardDeque.constructor | src/main/kotlin/org/socratesbe/hearts/domain/Game.kt:205 | a dealt hand holds what the dealer returned, in order |
| StateMachine.PlayersOf | src/main/kotlin/org/socratesbe/hearts/domain/Game.kt:136 | the players of a table, seat by seat |
| StateMachine.JoinOpen | src/main/kotlin/org/socratesbe/hearts/domain/Game.kt:68-74 | `Open.join`; see JoinSeatsInOrder |
| StateMachine.SeatsFor | src/main/kotlin/org/socratesbe/hearts/domain/Game.kt:68-74 | the players that joining by the given names seats, on seats One, Two, ... |
| StateMachine.JoinSeatsInOrder | src/main/kotlin/org/socratesbe/hearts/domain/Game.kt:68-74 | the k-th join (k = 1..3) stays Open with seats One..k; the 4th gives Full with seats One..Four in join order |
| StateMachine.Next | src/main/kotlin/org/socratesbe/hearts/domain/Game.kt:139 | `next()` has 5 entries: the old second player first, the first four rotated left by one, the fifth repeating the new first |
| StateMachine.RotateFrom | src/main/kotlin/org/socratesbe/hearts/domain/Game.kt:145 | `(k..k + 3).map { players[it % 4] }`; see StartWithAt, RotateFromKeepsTableValid and RotateFromCommutes |
| StateMachine.StartWith | src/main/kotlin/org/socratesbe/hearts/domain/Game.kt:141-147 | the chosen seat comes first and cyclic order is kept: the result is a rotation of the first four |
| StateMachine.HolderOfTwoOfClubs | src/main/kotlin/org/socratesbe/hearts/domain/Game.kt:160 | the first player whose hand holds 2♣, or none exactly when nobody holds it |
| StateMachine.StartIndex | src/main/kotlin/org/socratesbe/hearts/domain/Game.kt:160 | the start position is a seat at the table |
| StateMachine.StartWithAt | src/main/kotlin/org/socratesbe/hearts/domain/Game.kt:141-147 | starting with the k-th player's seat rotates the table to start at k |
| StateMachine.EverySeatAtTable | src/main/kotlin/org/socratesbe/hearts/domain/Game.kt:143 | every seat is at a valid table, so `indexOfFirst` never gives -1 |
| StateMachine.RotateFromKeepsTableValid | src/main/kotlin/org/socratesbe/hearts/domain/Game.kt:145 | a rotation keeps four different seats and hands in clockwise order |
| StateMachine.RotateFromCommutes | src/main/kotlin/org/socratesbe/hearts/domain/Game.kt:145 | rotating the table rotates its players and its hands, and shares the same hand objects |
| StateMachine.NextKeepsTableValid | src/main/kotlin/org/socratesbe/hearts/domain/Game.kt:139 | `next()` keeps the table valid, even though it has five entries |
| StateMachine.StartWithKeepsTableValid | src/main/kotlin/org/socratesbe/hearts/domain/Game.kt:141-147 | every seat can be started with, and doing so keeps the table valid |
| StateMachine.StartWithThenNext | src/test/kotlin/org/socratesbe/hearts/domain/DealtPlayersTest.kt:26-39 | on seats One..Four, starting with Four, then Three, then calling `next()` makes Four current |
| StateMachine.StartingPlayerHoldsTwoOfClubs | src/main/kotlin/org/socratesbe/hearts/domain/Game.kt:157-160 | after dealing, the current player holds 2♣ if anybody does; otherwise the first player starts |
| StateMachine.Arrange | src/main/kotlin/org/socratesbe/hearts/domain/Game.kt:157-160 | `DealtPlayers(players)` rotates the table to the holder of 2♣ and keeps it valid |
| StateMachine.PlayCheck | src/main/kotlin/org/socratesbe/hearts/domain/Game.kt:193-195 | the checks of `DealtPlayer.play`; see PlayCheckAccepts |
| StateMachine.PlayCheckAccepts | src/main/kotlin/org/socratesbe/hearts/domain/Game.kt:193-197 | a play is accepted exactly when the card is held and is 2♣ whenever 2♣ is held; a missing card is reported first; an accepted card leaves the hand once |
| StateMachine.PlayFromHand | src/main/kotlin/org/socratesbe/hearts/domain/Game.kt:193-197 | `DealtPlayer.play` removes the card exactly when accepted, and otherwise leaves the hand alone |
| StateMachine.Deal | src/main/kotlin/org/socratesbe/hearts/domain/Game.kt:116-119 | every player gets a fresh hand of what the dealer gives for their name, and the table starts at the holder of 2♣ |
| StateMachine.DealEach | src/main/kotlin/org/socratesbe/hearts/domain/Game.kt:117 | `players.map { it.deal(dealer) }`: one fresh hand per player, in join order, holding what the dealer gives for their name |
| StateMachine.Verdict | src/main/kotlin/org/socratesbe/hearts/domain/Game.kt:92-95 | the turn check, then the hand checks, of `Started.playCard`; see OnlyCurrentPlayerPlays |
| StateMachine.OnlyCurrentPlayerPlays | src/main/kotlin/org/socratesbe/hearts/domain/Game.kt:92-95 | a play is accepted exactly when it comes from the current player and passes the hand checks |
| StateMachine.AfterPlay | src/main/kotlin/org/socratesbe/hearts/domain/Game.kt:96-111 | `addToTrick(card, id).nextPlayer()`; see AfterPlayKeepsStateValid and AddGrowsTrick |
| StateMachine.AfterPlayKeepsStateValid | src/main/kotlin/org/socratesbe/hearts/domain/Game.kt:105-111 | after the 4th card the winner leads an empty trick; otherwise the player to the left is next |
| StateMachine.AddGrowsTrick | src/main/kotlin/org/socratesbe/hearts/domain/Game.kt:130-131 | adding a new card grows the trick by that card |
| StateMachine.PlayInTable | src/main/kotlin/org/socratesbe/hearts/domain/Game.kt:92-111 | `Started.playCard`: the verdict, then either the next state with the card gone from the current hand, or everything unchanged |
| StateMachine.Game.constructor | src/main/kotlin/org/socratesbe/hearts/domain/Game.kt:10 | a new game is Open with nobody seated |
| StateMachine.Game.WithState | src/main/kotlin/org/socratesbe/hearts/domain/Game.kt:10 | a game built from a given state holds that state |
| StateMachine.Game.IsStarted | src/main/kotlin/org/socratesbe/hearts/domain/Game.kt:36 | `isStarted()`; Game.Start ensures it holds exactly when the game was Full or already Started |
| StateMachine.Game.WhoseTurnIsIt | src/main/kotlin/org/socratesbe/hearts/domain/Game.kt:45-50 | the name at the head of the table once started, a fault before; BobOpens and MaryOutOfTurn follow it through a game |
| StateMachine.Game.PeekIntoHandOf | src/main/kotlin/org/socratesbe/hearts/domain/Game.kt:38-43 | once started, the hand of the first player with the name, and a fault exactly when nobody has it or the game has not started |
| StateMachine.Game.Join | src/main/kotlin/org/socratesbe/hearts/domain/Game.kt:12-22 | Open seats the player; Full rejects with "Game already has four players" and Started with "Game has started", and neither changes the state |
| StateMachine.Game.Start | src/main/kotlin/org/socratesbe/hearts/domain/Game.kt:24-36 | only Full starts ("Not enough players joined" / "Game was started already" otherwise); afterwards `isStarted` holds exactly when Started |
| StateMachine.Game.PlayCard | src/main/kotlin/org/socratesbe/hearts/domain/Game.kt:52-60 | without a started game it faults; otherwise it rejects in the turn, hand, 2♣ order and changes nothing, or removes the card and advances trick and turn |
| StateMachine.FifthPlayerIsTurnedAway | src/main/kotlin/org/socratesbe/hearts/domain/Game.kt:12-22 | four joins succeed on seats One..Four and a fifth is turned away |
| StateMachine.SeatOpeningTable | src/main/kotlin/org/socratesbe/hearts/domain/Game.kt:12-22 | three joins, a refused early play ("game has not started"), and a fourth join fill the table in join order |
| StateMachine.StartOpeningGame | src/main/kotlin/org/socratesbe/hearts/domain/Game.kt:24-29 | playing before the start faults; after it, Bob, who holds 2♣, leads the table |
| StateMachine.OpeningTurns | src/main/kotlin/org/socratesbe/hearts/domain/Game.kt:92-97 | Bob must play 2♣ first, then Mary is refused out of turn, and Jane is next |
| StateMachine.BobOpens | src/main/kotlin/org/socratesbe/hearts/domain/Game.kt:92-97 | from the opening table, 6♦ is refused while Bob holds 2♣, 2♣ is accepted, and Jane then Mary follow |
| StateMachine.MaryOutOfTurn | src/main/kotlin/org/socratesbe/hearts/domain/Game.kt:92-95 | a player who is not first at the table is refused as out of turn, and the turn does not move |
| Hands.HasSuit | src/main/kotlin/org/socratesbe/hearts/domain/Players.kt:97 | some card has the suit |
| Hands.AllOfSuit | src/main/kotlin/org/socratesbe/hearts/domain/Players.kt:107 | every card has the suit |
| Hands.AllOfSuitExcludesOthers | src/main/kotlin/org/socratesbe/hearts/domain/Players.kt:97-107 | an all-one-suit hand holds no other suit, and `allAre` is true of an empty hand |
| Hands.Hand.constructor | src/main/kotlin/org/socratesbe/hearts/domain/Players.kt:93-94 | the deque holds the dealt set in its order |
| Hands.Hand.Contains | src/main/kotlin/org/socratesbe/hearts/domain/Players.kt:96 | `card in cards`; PlayerWithStartCard and StartCardIndex read it |
| Hands.Hand.ContainsSuit | src/main/kotlin/org/socratesbe/hearts/domain/Players.kt:97 | true exactly when some held card has the suit |
| Hands.Hand.AllAre | src/main/kotlin/org/socratesbe/hearts/domain/Players.kt:107 | true exactly when every held card has the suit |
| Hands.Hand.ToList | src/main/kotlin/org/socratesbe/hearts/domain/Players.kt:106 | `toList()`: the cards in deque order; AlwaysPassLeftAcceptsHeldCards reads the hand through it |
| Hands.Hand.Play | src/main/kotlin/org/socratesbe/hearts/domain/Players.kt:99 | removes one occurrence and reports whether the card was there |
| Hands.Hand.PlayAll | src/main/kotlin/org/socratesbe/hearts/domain/Players.kt:100 | removes the cards one by one, in order |
| Hands.Hand.Pass | src/main/kotlin/org/socratesbe/hearts/domain/Players.kt:101 | the same removal as `play` |
| Hands.Hand.PassAll | src/main/kotlin/org/socratesbe/hearts/domain/Players.kt:102 | the same removals as `play(cards)` |
| Hands.Hand.Receive | src/main/kotlin/org/socratesbe/hearts/domain/Players.kt:103 | appends the card, even one already held, and returns true |
| Hands.Hand.ReceiveAll | src/main/kotlin/org/socratesbe/hearts/domain/Players.kt:104 | appends the cards in order |
| Hands.PlayAllRemovesExactly | src/main/kotlin/org/socratesbe/hearts/domain/Players.kt:100 | playing a set from a hand without repeats takes exactly those cards out |
| PassingRules.ValidateOrError | src/main/kotlin/org/socratesbe/hearts/domain/PassingRules.kt:11-33 | `validateOrError` of the three rules; see NoPassingAcceptsAll and AlwaysPassLeftAcceptsHeldCards |
| PassingRules.Validated | src/main/kotlin/org/socratesbe/hearts/domain/PassingRules.kt:6-9 | the block's value is the result exactly when validation does not fail; otherwise the failure is |
| PassingRules.NoPassingAcceptsAll | src/main/kotlin/org/socratesbe/hearts/domain/PassingRules.kt:15 | `NoPassing` accepts every player and every card set |
| PassingRules.AlwaysPassLeftAcceptsHeldCards | src/main/kotlin/org/socratesbe/hearts/domain/PassingRules.kt:18-27 | accepted exactly when the hand holds every offered card; a rejection names exactly the missing ones, each once and in the order offered (the `", nor "` list) |
| PassingRules.AnyNumberOfHeldCardsAccepted | src/main/kotlin/org/socratesbe/hearts/domain/PassingRules.kt:20-21 | four held cards, or two, are accepted: the count is not checked |
| PassingRules.MissingFiveOfSpadesIsNamed | src/main/kotlin/org/socratesbe/hearts/domain/PassingRules.kt:20-26 | offering 6♦, 2♣, 5♠ without 5♠ in hand rejects naming 5♠ alone |
| Events.NextDeal | src/main/kotlin/org/socratesbe/hearts/domain/GameEvents.kt:8 | `DealId.next()`; see DealIdsCountUp and NextDealWraps |
| Events.DealIdsCountUp | src/main/kotlin/org/socratesbe/hearts/domain/GameEvents.kt:7-11 | the n-th deal after `First` has id n + 1 while `Int` does not overflow |
| Events.NextDealWraps | src/main/kotlin/org/socratesbe/hearts/domain/GameEvents.kt:8 | `next()` of the largest `Int` wraps to the smallest; the deal after `First` is 2 |
| Events.FilterIsInstance | src/main/kotlin/org/socratesbe/hearts/domain/GameEvents.kt:62 | `filterIsInstance<E>()`; see FilterIsInstanceMembers and FilterIsInstanceAppend |
| Events.FilterIsInstanceMembers | src/main/kotlin/org/socratesbe/hearts/domain/GameEvents.kt:62 | the filter keeps exactly the events of the class |
| Events.FilterIsInstanceAppend | src/main/kotlin/org/socratesbe/hearts/domain/GameEvents.kt:62 | the filter keeps log order |
| Events.CurrentDealId | src/main/kotlin/org/socratesbe/hearts/domain/GameEvents.kt:40 | `currentDealId`; see CurrentDealIdIsLastStarted and CurrentDealIdKeptByOtherEvents |
| Events.CurrentDealIdIsLastStarted | src/main/kotlin/org/socratesbe/hearts/domain/GameEvents.kt:40 | the current deal is the last one started; without a `DealStarted` there is none |
| Events.CurrentDealIdKeptByOtherEvents | src/main/kotlin/org/socratesbe/hearts/domain/GameEvents.kt:40 | no event other than `DealStarted` changes the current deal |
| Events.DealEventsOf | src/main/kotlin/org/socratesbe/hearts/domain/GameEvents.kt:42 | the `filter` of `currentDealEvents` for a given deal; see DealEventsOfMembers, DealEventsOfAppend and NoEventsOfUnusedDeal |
| Events.DealEventsOfMembers | src/main/kotlin/org/socratesbe/hearts/domain/GameEvents.kt:42 | the events of a deal are exactly the deal events carrying its id |
| Events.DealEventsOfAppend | src/main/kotlin/org/socratesbe/hearts/domain/GameEvents.kt:42 | the events of a deal keep log order |
| Events.CurrentDealEvents | src/main/kotlin/org/socratesbe/hearts/domain/GameEvents.kt:42 | `currentDealEvents`; see CurrentDealEventsSpec and NewDealStartsAfresh |
| Events.CurrentDealEventsSpec | src/main/kotlin/org/socratesbe/hearts/domain/GameEvents.kt:19-26 | exactly the deal events of the current deal; `GameCreated`, `PlayerJoined`, `GameStarted` and `PlayerPassedCards` never appear; this fails only on a non-empty log with no deal |
| Events.NewDealStartsAfresh | src/main/kotlin/org/socratesbe/hearts/domain/GameEvents.kt:40-42 | right after a new deal starts, its `DealStarted` is the only current event |
| Events.NoEventsOfUnusedDeal | src/main/kotlin/org/socratesbe/hearts/domain/GameEvents.kt:42 | a deal id that no event carries has no events |
| Events.Notifications | src/main/kotlin/org/socratesbe/hearts/domain/GameEvents.kt:46-51 | the listener calls of `publish`; see NotificationsInRegistrationOrder, NotifiedOnceIfMatching and NotificationsAreMatching |
| Events.NotificationsInRegistrationOrder | src/main/kotlin/org/socratesbe/hearts/domain/GameEvents.kt:46-51 | listeners are called in registration order |
| Events.NotifiedOnceIfMatching | src/main/kotlin/org/socratesbe/hearts/domain/GameEvents.kt:46-51 | one registration is called once when its class matches, and not at all otherwise |
| Events.NotificationsAreMatching | src/main/kotlin/org/socratesbe/hearts/domain/GameEvents.kt:46-51 | every call passes the event to a matching registration, and there is one call per matching registration |
| Events.GameEvents.constructor | src/main/kotlin/org/socratesbe/hearts/domain/GameEvents.kt:64-66 | a new log is empty, with no listeners |
| Events.GameEvents.Publish | src/main/kotlin/org/socratesbe/hearts/domain/GameEvents.kt:44-52 | appends the event, keeps every earlier entry, and then calls the matching listeners in order |
| Events.GameEvents.Register | src/main/kotlin/org/socratesbe/hearts/domain/GameEvents.kt:54-56 | appends the registration |
| Events.GameEvents.CurrentDeal | src/main/kotlin/org/socratesbe/hearts/domain/GameEvents.kt:40 | `currentDealId` of the object's log; see CurrentDealIdIsLastStarted |
| Events.GameEvents.CurrentEvents | src/main/kotlin/org/socratesbe/hearts/domain/GameEvents.kt:42 | `currentDealEvents` of the object's log; see CurrentDealEventsSpec |
| Events.GameEvents.FilterOf | src/main/kotlin/org/socratesbe/hearts/domain/GameEvents.kt:62 | `filterIsInstance<E>()` of the object's log; see FilterIsInstanceMembers |
| Events.DealListenerHearsOnlyDeals | src/main/kotlin/org/socratesbe/hearts/domain/GameEvents.kt:44-56 | a `DealEvent` listener hears `DealStarted` but not `PlayerJoined` |
| Players.JoinedNames | src/main/kotlin/org/socratesbe/hearts/domain/Players.kt:18 | the names of the `PlayerJoined` events, in log order |
| Players.SeatPlayers | src/main/kotlin/org/socratesbe/hearts/domain/Players.kt:18 | the i-th joined player gets the i-th seat; more than four joins fail |
| Players.SeatsAreDistinct | src/main/kotlin/org/socratesbe/hearts/domain/Players.kt:18 | no two players share a seat, and once four have joined each seat belongs to the player of its ordinal |
| Players.FirstIndexSpec | src/main/kotlin/org/socratesbe/hearts/domain/Players.kt:27 | `firstOrNull`: the first matching event, or none exactly when none matches |
| Players.ForPlayerOrEmpty | src/main/kotlin/org/socratesbe/hearts/domain/Players.kt:26-28 | `forPlayerOrEmpty`: the cards of the first matching event of the class, as a set, or none; see FirstIndexSpec, AsCardSetSpec and FilterIgnores |
| Players.PlayedCardsMembers | src/main/kotlin/org/socratesbe/hearts/domain/Players.kt:36 | exactly the cards of the player's `CardPlayed` events |
| Players.HandProjection | src/main/kotlin/org/socratesbe/hearts/domain/Players.kt:30-39 | the cards `currentHand` leaves in the hand; see HandProjectionCounts, PassedCardsReceivedImmediately and AllPlayersPassedCardsIrrelevant |
| Players.CurrentHand | src/main/kotlin/org/socratesbe/hearts/domain/Players.kt:30-39 | a fresh hand: the first dealt hand, less the first pass by the player, plus the first pass to them, less every card they played |
| Players.HandProjectionCounts | src/main/kotlin/org/socratesbe/hearts/domain/Players.kt:30-39 | as a multiset, the hand is dealt - passed + received - played |
| Players.PassedCardsReceivedImmediately | src/main/kotlin/org/socratesbe/hearts/domain/Players.kt:35 | received cards are in the hand as soon as that one pass is logged; passing 3 of 13 and receiving 3 leaves 13 |
| Players.FilterIgnores | src/main/kotlin/org/socratesbe/hearts/domain/GameEvents.kt:62 | an event of another class does not change what `filterIsInstance` keeps |
| Players.AllPlayersPassedCardsIrrelevant | src/main/kotlin/org/socratesbe/hearts/domain/Players.kt:30-39 | `AllPlayersPassedCards` does not change any hand |
| Players.DealOut | src/main/kotlin/org/socratesbe/hearts/domain/Players.kt:19-22 | each player gets a fresh hand of their own, projected from the log |
| Players.OwnHandsSnoc | src/main/kotlin/org/socratesbe/hearts/domain/Players.kt:19-22 | adding a player whose hand nobody at the table has keeps every hand distinct |
| Players.From | src/main/kotlin/org/socratesbe/hearts/domain/Players.kt:17-24 | one player per join, on seats One..Four in join order, each with their projected hand; a fifth join fails |
| Players.Seated | src/main/kotlin/org/socratesbe/hearts/domain/Players.kt:5 | the players of a table, in order |
| Players.GetByName | src/main/kotlin/org/socratesbe/hearts/domain/Players.kt:7-9 | the first player of the name; a fault exactly when nobody has it |
| Players.GetById | src/main/kotlin/org/socratesbe/hearts/domain/Players.kt:11 | the first player on the seat; a fault exactly when nobody sits there |
| Players.HandsOfTail | src/main/kotlin/org/socratesbe/hearts/domain/Players.kt:14 | the hands of the rest of the table are hands of the table |
| Players.StartCardIndex | src/main/kotlin/org/socratesbe/hearts/domain/Players.kt:13-14 | the first player holding 2♣, or none exactly when nobody does |
| Players.PlayerWithStartCard | src/main/kotlin/org/socratesbe/hearts/domain/Players.kt:13-14 | `playerWithStartCard()`: the first holder of 2♣, if any |
| Players.PlayVerdict | src/main/kotlin/org/socratesbe/hearts/domain/Players.kt:47-50 | the checks of `DealtPlayer.play`; see PlayChecksInOrder and NoTrickNoSuitOrHeartsCheck |
| Players.CardIsPlayable | src/main/kotlin/org/socratesbe/hearts/domain/Players.kt:55-61 | `checkCardIsPlayable`; see FollowSuitIgnoresHand and HeartsRules |
| Players.HeartsVerdict | src/main/kotlin/org/socratesbe/hearts/domain/Players.kt:66-73 | `playerToPlayNoHeartsIfTheyAreAble`; see HeartsRules, HeartOnHeartLeadRejected and LaterHeartsLeadMessage |
| Players.PlayCard | src/main/kotlin/org/socratesbe/hearts/domain/Players.kt:47-53 | on acceptance returns `(id, card)` and removes exactly that card; on rejection leaves the hand untouched |
| Players.PlayChecksInOrder | src/main/kotlin/org/socratesbe/hearts/domain/Players.kt:47-50 | the card-in-hand check comes first, then 2♣; an accepted card is held and obeys the 2♣ rule; a play never faults |
| Players.NoTrickNoSuitOrHeartsCheck | src/main/kotlin/org/socratesbe/hearts/domain/Players.kt:50 | without a current trick, only the hand and 2♣ checks run |
| Players.FollowSuitIgnoresHand | src/main/kotlin/org/socratesbe/hearts/domain/Players.kt:55-61 | a non-heart passes exactly when nothing is led or it has the led suit, else "must follow suit", whatever else the hand holds |
| Players.HeartsRules | src/main/kotlin/org/socratesbe/hearts/domain/Players.kt:66-73 | the four-row hearts table, with its rejection reason for each row |
| Players.HeartOnHeartLeadRejected | src/main/kotlin/org/socratesbe/hearts/domain/Players.kt:71 | on a later trick led with hearts, a heart is always rejected |
| Players.LaterHeartsLeadMessage | src/main/kotlin/org/socratesbe/hearts/domain/Players.kt:70 | leading a heart on a later trick before any heart has been played gets the first-trick message, not the "cannot open" one |

## Code and tests that disagree

The model follows the code. Where a test of the repository expects
otherwise, a lemma shows what the code does instead. The last three items
compare the test's expectations with the event-sourced engine (Players.kt,
PassingRules.kt) as written. `GameTest` itself drives the state-machine
`Game` through the command handlers, whose start handler calls a `start()`
without the dealer argument (CommandHandlers.kt:18) and whose pass handler is
`TODO()` (CommandHandlers.kt:30), so no run of that test reaches this code;
the disagreement is between the expectations and the code, not an observed
failure.

- **Hearts beat other suits.** The class `HeartsComparatorTest` (`HeartsTrumpComparatorTest.kt:12-15`) expects `HeartsComparator` to pick A♠ over 2♥. The comparator makes any heart beat a non-heart (`HeartBeatsLedAce`, `OffSuitHeartTakesTheTrick`). The second class of that file (lines 37-43) expects 2♥ from a `HeartsTrumpComparator`, which the source does not define.
- **Passed cards arrive at once.** `GameTest.kt:383-401` expects Joe to hold 10 cards until all four players have passed. The projection adds the cards of the first pass to a player as soon as that pass is logged, and ignores `AllPlayersPassedCards` (`PassedCardsReceivedImmediately`, `AllPlayersPassedCardsIrrelevant`).
- **The number of passed cards is not checked.** `GameTest.kt:343-366` expects passing four or two cards to fail. `AlwaysPassLeft` checks only that the cards are held (`AnyNumberOfHeldCardsAccepted`).
- **The message for leading hearts too early.** `GameTest.kt:251-268` expects "cannot open with ♥ until first ♥ has been played" when hearts are led on the second trick. The code gives that message only on the first trick, and the first-trick message on later tricks (`LaterHeartsLeadMessage`).

## Left out

- Deck shuffling (Deck.kt:13, Game.kt:179) is randomness. A new deck is modelled in its fixed order.
- Application.kt and the command and query handlers are a console loop and routing over `TODO()` bodies. Only the response types `PlayerJoinResponse` and `StartGameResponse` are kept, as datatypes.
- Listener callbacks are Kotlin lambdas chosen by `KClass`. A listener is modelled as a registered event class and a number, and notification as a trace of (listener, event) calls.
- `FourWayPassing` is a `TODO()` and becomes `Faulted(NotImplemented)`. Scoring, game end and second deals have no implementation.
- `Card.toString` and the message strings become structured `GameError` reasons that carry the name, card or missing cards.
- StateMachine.Game.WithState: models `Game(state)` only for states the engine can reach (`ValidState`). Kotlin accepts any state, for instance a `Full` state with three players, whose `start` then fails with an index exception in `startWith`; the repository's only call is `Game()` (GameTest.kt:47), which is `StateMachine.Game.constructor`.
- StateMachine.Game.Start: takes the dealer as a pure function from name to cards. `defaultDealerFn` over a shared deck is modelled on its own by `Decks.DealThirteen` and `Decks.DealFourHandsFromNewDeck`; it is not composed with `Start`.
- StateMachine.StartWith: requires the seat to be at the table. Kotlin would throw an index exception otherwise, but the engine only passes seats taken from the table (`EverySeatAtTable`).
- `DealtPlayers.getById` of Game.kt (Game.kt:153-155) is never called by that engine. The same lookup in Players.kt is `Players.GetById`.
- StateMachine.Verdict: compares the current player and the player who played by seat and name. Kotlin compares `DealtPlayer` data classes, whose hands compare by content; on a valid table both give the same answer.
- Players.PlayCard: takes the trick as a `TrickView` (is it the first trick, which suit was led) and takes `heartsHaveBeenPlayed` as a parameter. `Trick` defines neither.
- Players.From: reads the log as a sequence of events rather than through the `GameEvents` object.
- PassingRules.Validated: models the block as a value-producing function; the block's side effects are not modelled.
- Events.NextDeal models the `Int` overflow of `DealId.next()` explicitly; no other integer in the core can overflow.
