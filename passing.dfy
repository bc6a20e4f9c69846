/** The passing variants of PassingRules.kt: which cards a player may offer
    to pass. Validation reads a snapshot of the player's hand and never
    changes it. */
module PassingRules {
  import opened Cards
  import opened Hands

  datatype PassingRule = NoPassing | AlwaysPassLeft | FourWayPassing

  /** `validateOrError(player, cards)`. `NoPassing` accepts anything;
      `AlwaysPassLeft` rejects the cards not in the hand, listing them in
      offered order; `FourWayPassing` is not implemented. */
  function ValidateOrError(rule: PassingRule, player: DealtPlayer, cards: CardSet): Result<()>
    reads player.hand
  {
    match rule
    case NoPassing => Ok(())
    case AlwaysPassLeft =>
      var cardsNotInHand := Minus(cards, AsCardSet(player.hand.ToList()));
      GameRequires(cardsNotInHand == [], DoesNotHaveCards(player.player.name, cardsNotInHand))
    case FourWayPassing => Faulted(NotImplemented)
  }

  /** `validated(player, cards, block)`: the block runs, and its value is the
      result, exactly when validation does not fail; otherwise the failure is
      the result. */
  function Validated<T>(rule: PassingRule, player: DealtPlayer, cards: CardSet, block: () -> T): (r: Result<T>)
    reads player.hand
    ensures r.Ok? <==> ValidateOrError(rule, player, cards).Ok?
    ensures r.Ok? ==> r.value == block()
    ensures ValidateOrError(rule, player, cards).Rejected? ==>
              r == Rejected(ValidateOrError(rule, player, cards).error)
    ensures ValidateOrError(rule, player, cards).Faulted? ==>
              r == Faulted(ValidateOrError(rule, player, cards).fault)
  {
    match ValidateOrError(rule, player, cards)
    case Ok(_) => Ok(block())
    case Rejected(e) => Rejected(e)
    case Faulted(f) => Faulted(f)
  }

  /** `NoPassing` accepts every player and every set of cards. */
  lemma NoPassingAcceptsAll(player: DealtPlayer, cards: CardSet)
    ensures ValidateOrError(NoPassing, player, cards) == Ok(())
  {
  }

  /** `AlwaysPassLeft` accepts exactly the offers that the hand holds in full;
      a rejection names precisely the offered cards that are missing, each
      once and in the order they were offered. */
  lemma AlwaysPassLeftAcceptsHeldCards(player: DealtPlayer, cards: CardSet)
    ensures ValidateOrError(AlwaysPassLeft, player, cards).Ok? <==>
              forall c :: c in cards ==> c in player.hand.cards
    ensures !ValidateOrError(AlwaysPassLeft, player, cards).Ok? ==>
              exists missing: seq<Card> ::
                ValidateOrError(AlwaysPassLeft, player, cards) == Rejected(DoesNotHaveCards(player.player.name, missing)) &&
                missing != [] &&
                (forall c :: c in missing <==> c in cards && c !in player.hand.cards) &&
                Distinct(missing) && InOrderOf(missing, cards)
  {
    AsCardSetSpec(player.hand.ToList());
    var missing := Minus(cards, AsCardSet(player.hand.ToList()));
    MinusDistinct(cards, AsCardSet(player.hand.ToList()));
    MinusKeepsOrder(cards, AsCardSet(player.hand.ToList()));
    if missing != [] {
      assert missing[0] in missing;
    }
  }

  /** The number of cards offered is not checked: four held cards, or two,
      are accepted as readily as three. */
  lemma AnyNumberOfHeldCardsAccepted(player: DealtPlayer)
    requires Card(SIX, DIAMONDS) in player.hand.cards && TwoOfClubs in player.hand.cards
    requires Card(FIVE, CLUBS) in player.hand.cards && Card(QUEEN, DIAMONDS) in player.hand.cards
    ensures Distinct([Card(SIX, DIAMONDS), TwoOfClubs, Card(FIVE, CLUBS), Card(QUEEN, DIAMONDS)])
    ensures ValidateOrError(AlwaysPassLeft, player,
              [Card(SIX, DIAMONDS), TwoOfClubs, Card(FIVE, CLUBS), Card(QUEEN, DIAMONDS)]) == Ok(())
    ensures ValidateOrError(AlwaysPassLeft, player, [Card(SIX, DIAMONDS), TwoOfClubs]) == Ok(())
  {
    AlwaysPassLeftAcceptsHeldCards(player, [Card(SIX, DIAMONDS), TwoOfClubs, Card(FIVE, CLUBS), Card(QUEEN, DIAMONDS)]);
    AlwaysPassLeftAcceptsHeldCards(player, [Card(SIX, DIAMONDS), TwoOfClubs]);
  }

  /** Offering 6♦, 2♣ and 5♠ from a hand with the first two but not 5♠ is
      rejected naming 5♠ alone. */
  lemma MissingFiveOfSpadesIsNamed(player: DealtPlayer)
    requires Card(SIX, DIAMONDS) in player.hand.cards && TwoOfClubs in player.hand.cards
    requires Card(FIVE, SPADES) !in player.hand.cards
    ensures Distinct([Card(SIX, DIAMONDS), TwoOfClubs, Card(FIVE, SPADES)])
    ensures ValidateOrError(AlwaysPassLeft, player, [Card(SIX, DIAMONDS), TwoOfClubs, Card(FIVE, SPADES)]) ==
              Rejected(DoesNotHaveCards(player.player.name, [Card(FIVE, SPADES)]))
  {
    var held := AsCardSet(player.hand.ToList());
    AsCardSetSpec(player.hand.ToList());
    assert Minus([Card(SIX, DIAMONDS), TwoOfClubs, Card(FIVE, SPADES)], held) == [Card(FIVE, SPADES)] by {
      assert Card(SIX, DIAMONDS) in held && TwoOfClubs in held && Card(FIVE, SPADES) !in held;
      assert [Card(FIVE, SPADES)][1..] == [];
      assert Minus([Card(FIVE, SPADES)], held) == [Card(FIVE, SPADES)];
      assert [TwoOfClubs, Card(FIVE, SPADES)][1..] == [Card(FIVE, SPADES)];
      assert Minus([TwoOfClubs, Card(FIVE, SPADES)], held) == [Card(FIVE, SPADES)];
      assert [Card(SIX, DIAMONDS), TwoOfClubs, Card(FIVE, SPADES)][1..] == [TwoOfClubs, Card(FIVE, SPADES)];
    }
  }
}
