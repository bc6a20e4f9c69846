/** Trick resolution, shared by `Trick` in Game.kt (with `add` and `winner`)
    and `Trick` in Trick.kt (with `wasWonBy`): both fold `maxWith(HeartsComparator)`
    over the keys of an insertion-ordered `Map<Card, PlayerId>`. */
module Tricks {
  import opened Cards
  import opened HeartsComparator

  /** One entry of a trick: the card and the seat that played it. */
  type Play = (Card, PlayerId)

  predicate UniqueCards(t: seq<Play>) {
    forall i, j :: 0 <= i < j < |t| ==> t[i].0 != t[j].0
  }

  /** A `Map<Card, PlayerId>` in insertion order (Kotlin's LinkedHashMap):
      the cards are keys, so no card occurs twice. */
  type Trick = t: seq<Play> | UniqueCards(t) witness []

  /** `cards.keys`, in insertion order. */
  function CardsOf(t: seq<Play>): (cs: seq<Card>)
    ensures |cs| == |t| && forall i :: 0 <= i < |t| ==> cs[i] == t[i].0
  {
    if t == [] then [] else [t[0].0] + CardsOf(t[1..])
  }

  /** Position of a card among the keys. */
  function IndexOfCard(t: seq<Play>, c: Card): (i: nat)
    requires c in CardsOf(t)
    ensures i < |t| && t[i].0 == c
    ensures forall j :: 0 <= j < i ==> t[j].0 != c
  {
    if t[0].0 == c then 0 else IndexOfCard(t[1..], c) + 1
  }

  /** `cards.getValue(card)` */
  function PlayerOf(t: Trick, c: Card): PlayerId
    requires c in CardsOf(t)
  {
    t[IndexOfCard(t, c)].1
  }

  /** `isFinished()` */
  predicate IsFinished(t: Trick) {
    |t| == 4
  }

  /** `Trick.winner` (Game.kt) and `Trick.wasWonBy` (Trick.kt): nobody until
      four cards are down, then the player of the card `maxWith` picks, which is
      always one of the four who played. */
  function Winner(t: Trick): (w: Option<PlayerId>)
    ensures w.Some? <==> |t| == 4
    ensures w.Some? ==> exists i :: 0 <= i < |t| && t[i].1 == w.value
  {
    if !IsFinished(t) then None
    else
      var i := IndexOfCard(t, MaxWith(CardsOf(t)));
      Some(t[i].1)
  }

  /** The winner played the highest Heart of the trick if there is one,
      otherwise the highest card of the led suit. */
  lemma WinnerPlayedHighestCard(t: Trick)
    requires |t| == 4
    ensures exists i :: (0 <= i < 4 && t[i].1 == Winner(t).value &&
                         HighestOfSuit(t[i].0, CardsOf(t), WinningSuit(CardsOf(t))))
  {
    var cs := CardsOf(t);
    MaxWithWins(cs);
    var i := IndexOfCard(t, MaxWith(cs));
    assert t[i].0 == MaxWith(cs);
  }

  /** When all four cards share a suit, the player of the highest symbol wins. */
  lemma SameSuitHighestSymbolWins(t: Trick, s: Suit)
    requires |t| == 4
    requires forall k :: 0 <= k < 4 ==> t[k].0.suit == s
    ensures exists i :: (0 <= i < 4 && t[i].1 == Winner(t).value &&
                         forall j :: 0 <= j < 4 ==> SymbolOrdinal(t[j].0.symbol) <= SymbolOrdinal(t[i].0.symbol))
  {
    var cs := CardsOf(t);
    MaxWithSameSuit(cs, s);
    var i := IndexOfCard(t, MaxWith(cs));
    assert t[i].0 == MaxWith(cs);
    forall j | 0 <= j < 4
      ensures SymbolOrdinal(t[j].0.symbol) <= SymbolOrdinal(t[i].0.symbol)
    {
      assert cs[j] == t[j].0;
    }
  }

  /** The trick of "the player that won the last trick starts the next trick":
      Bob (seat Three) leads 2♣, Jane (Four) 3♣, Mary (One) 10♣, Joe (Two) 9♣;
      Mary wins. */
  lemma TenOfClubsTakesTheOpeningTrick()
    ensures UniqueCards([(Card(TWO, CLUBS), Three), (Card(THREE, CLUBS), Four),
                         (Card(TEN, CLUBS), One), (Card(NINE, CLUBS), Two)])
    ensures Winner([(Card(TWO, CLUBS), Three), (Card(THREE, CLUBS), Four),
                    (Card(TEN, CLUBS), One), (Card(NINE, CLUBS), Two)]) == Some(One)
  {
    var t: Trick := [(Card(TWO, CLUBS), Three), (Card(THREE, CLUBS), Four),
                     (Card(TEN, CLUBS), One), (Card(NINE, CLUBS), Two)];
    var cs := [Card(TWO, CLUBS), Card(THREE, CLUBS), Card(TEN, CLUBS), Card(NINE, CLUBS)];
    assert CardsOf(t) == cs;
    assert cs[1..] == [Card(THREE, CLUBS), Card(TEN, CLUBS), Card(NINE, CLUBS)];
    assert MaxFold(Card(TEN, CLUBS), [Card(NINE, CLUBS)]) == Card(TEN, CLUBS);
    assert MaxFold(Card(THREE, CLUBS), [Card(TEN, CLUBS), Card(NINE, CLUBS)]) == Card(TEN, CLUBS);
    assert MaxWith(cs) == Card(TEN, CLUBS);
    assert t[2].0 == Card(TEN, CLUBS);
  }

  /** A Heart thrown off on a Spade lead takes the trick: the comparator treats
      Hearts as trumps. */
  lemma OffSuitHeartTakesTheTrick()
    ensures UniqueCards([(Card(ACE, SPADES), One), (Card(TWO, HEARTS), Two),
                         (Card(KING, SPADES), Three), (Card(QUEEN, SPADES), Four)])
    ensures Winner([(Card(ACE, SPADES), One), (Card(TWO, HEARTS), Two),
                    (Card(KING, SPADES), Three), (Card(QUEEN, SPADES), Four)]) == Some(Two)
  {
    var t: Trick := [(Card(ACE, SPADES), One), (Card(TWO, HEARTS), Two),
                     (Card(KING, SPADES), Three), (Card(QUEEN, SPADES), Four)];
    WinnerPlayedHighestCard(t);
    assert HasHeart(CardsOf(t)) by {
      assert CardsOf(t)[1].suit == HEARTS;
    }
  }

  /** `Trick.add` (Game.kt): `cards + (card to playerId)`. A new card is
      appended; a card already present keeps its place and takes the new player. */
  function Add(t: Trick, card: Card, id: PlayerId): (r: Trick)
    ensures card !in CardsOf(t) ==> r == t + [(card, id)]
    ensures card in CardsOf(t) ==>
              |r| == |t| && exists i :: 0 <= i < |t| && t[i].0 == card && r == t[i := (card, id)]
    ensures |r| <= |t| + 1
  {
    if card in CardsOf(t) then
      var i := IndexOfCard(t, card);
      var r := t[i := (card, id)];
      assert UniqueCards(r) by {
        forall a, b | 0 <= a < b < |r| ensures r[a].0 != r[b].0 {
          assert r[a].0 == t[a].0 && r[b].0 == t[b].0;
        }
      }
      r
    else
      var r := t + [(card, id)];
      assert UniqueCards(r) by {
        forall a, b | 0 <= a < b < |r| ensures r[a].0 != r[b].0 {
          if b == |t| {
            assert r[a].0 == CardsOf(t)[a];
          }
        }
      }
      r
  }
}
