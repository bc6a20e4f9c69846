/** `Hand` and `DealtPlayer` of the event-sourced engine (Players.kt): a hand
    is a mutable `ArrayDeque<Card>` that the projection of the event log
    changes card by card. */
module Hands {
  import opened Cards

  /** `suit in cards.map { it.suit }` */
  function HasSuit(cards: seq<Card>, suit: Suit): (b: bool)
    ensures b <==> exists i :: 0 <= i < |cards| && cards[i].suit == suit
  {
    var suits := seq(|cards|, i requires 0 <= i < |cards| => cards[i].suit);
    assert forall i :: 0 <= i < |cards| ==> suits[i] == cards[i].suit;
    suit in suits
  }

  /** `cards.all { card -> card.suit == suit }` */
  function AllOfSuit(cards: seq<Card>, suit: Suit): (b: bool)
    ensures b <==> forall i :: 0 <= i < |cards| ==> cards[i].suit == suit
  {
    if cards == [] then true
    else cards[0].suit == suit && AllOfSuit(cards[1..], suit)
  }

  /** A hand of only `suit` holds no card of any other suit, and `allAre` is
      true of an empty hand whatever the suit. */
  lemma AllOfSuitExcludesOthers(cards: seq<Card>, suit: Suit, other: Suit)
    requires AllOfSuit(cards, suit) && other != suit
    ensures !HasSuit(cards, other)
    ensures cards != [] ==> HasSuit(cards, suit)
    ensures AllOfSuit([], other)
  {
  }

  class Hand {
    /** The private `ArrayDeque<Card>`, front first. */
    var cards: seq<Card>

    /** `Hand(dealtCards)`: the deque holds the dealt set in its order. */
    constructor(dealt: CardSet)
      ensures cards == dealt
    {
      cards := dealt;
    }

    /** `contains(card)` */
    function Contains(card: Card): bool
      reads this
    {
      card in cards
    }

    /** `contains(suit)`: some card of the hand has that suit. */
    function ContainsSuit(suit: Suit): (b: bool)
      reads this
      ensures b <==> exists i :: 0 <= i < |cards| && cards[i].suit == suit
    {
      HasSuit(cards, suit)
    }

    /** `allAre(suit)`: every card of the hand has that suit. */
    function AllAre(suit: Suit): (b: bool)
      reads this
      ensures b <==> forall i :: 0 <= i < |cards| ==> cards[i].suit == suit
    {
      AllOfSuit(cards, suit)
    }

    /** `toList()` */
    function ToList(): seq<Card>
      reads this
    {
      cards
    }

    /** `play(card)`: `cards.remove(card)`, true when the card was there. */
    method Play(card: Card) returns (removed: bool)
      modifies this
      ensures removed <==> card in old(cards)
      ensures cards == RemoveFirst(old(cards), card)
    {
      removed := card in cards;
      cards := RemoveFirst(cards, card);
    }

    /** `play(cards)`: `cards.forEach(::play)`. */
    method PlayAll(cs: CardSet)
      modifies this
      ensures cards == RemoveEach(old(cards), cs)
    {
      var xs: seq<Card> := cs;
      for i := 0 to |xs|
        invariant cards == RemoveEach(old(cards), xs[..i])
      {
        RemoveEachPrefix(old(cards), xs, i);
        var _ := Play(xs[i]);
      }
      assert xs[..|xs|] == xs;
    }

    /** `pass(card)`: the same removal as `play(card)`. */
    method Pass(card: Card) returns (removed: bool)
      modifies this
      ensures removed <==> card in old(cards)
      ensures cards == RemoveFirst(old(cards), card)
    {
      removed := Play(card);
    }

    /** `pass(cards)`: `cards.forEach(::pass)`. */
    method PassAll(cs: CardSet)
      modifies this
      ensures cards == RemoveEach(old(cards), cs)
    {
      var xs: seq<Card> := cs;
      for i := 0 to |xs|
        invariant cards == RemoveEach(old(cards), xs[..i])
      {
        RemoveEachPrefix(old(cards), xs, i);
        var _ := Pass(xs[i]);
      }
      assert xs[..|xs|] == xs;
    }

    /** `receive(card)`: `cards.add(card)` appends, even a card already held. */
    method Receive(card: Card) returns (added: bool)
      modifies this
      ensures added && cards == old(cards) + [card]
    {
      cards := cards + [card];
      added := true;
    }

    /** `receive(cards)`: `cards.forEach(::receive)`. */
    method ReceiveAll(cs: CardSet)
      modifies this
      ensures cards == old(cards) + cs
    {
      var xs: seq<Card> := cs;
      for i := 0 to |xs|
        invariant cards == old(cards) + xs[..i]
      {
        assert xs[..i + 1] == xs[..i] + [xs[i]];
        var _ := Receive(xs[i]);
      }
      assert xs[..|xs|] == xs;
    }
  }

  /** Playing a set of cards from a hand without repeats takes exactly those
      cards out and keeps every other card. */
  lemma PlayAllRemovesExactly(hand: seq<Card>, cs: seq<Card>, c: Card)
    requires Distinct(hand)
    ensures c in RemoveEach(hand, cs) <==> c in hand && c !in cs
    ensures multiset(RemoveEach(hand, cs)) == multiset(hand) - multiset(cs)
  {
    RemoveEachMembership(hand, cs, c);
    RemoveEachMultiset(hand, cs);
  }

  /** `DealtPlayer(player, hand)` (Players.kt). */
  datatype DealtPlayer = DealtPlayer(player: Player, hand: Hand)
}
