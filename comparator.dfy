/** `HeartsComparator` and the `maxWith` fold that the tricks use to pick the
    winning card. HeartsComparator.kt and the copy in Game.kt are the same. */
module HeartsComparator {
  import opened Cards

  /** `HeartsComparator.compare(left, right)`. Within a suit it is
      `Symbol.compareTo`, the difference of the enum ordinals. */
  function Compare(left: Card, right: Card): int {
    if left.suit == right.suit then SymbolOrdinal(left.symbol) - SymbolOrdinal(right.symbol)
    else if left.suit == HEARTS then 1
    else if right.suit == HEARTS then -1
    else 1
  }

  /** Within one suit the comparator is the symbol order, and it is antisymmetric. */
  lemma CompareWithinSuit(left: Card, right: Card)
    requires left.suit == right.suit
    ensures Compare(left, right) < 0 <==> SymbolOrdinal(left.symbol) < SymbolOrdinal(right.symbol)
    ensures Compare(left, right) > 0 <==> SymbolOrdinal(left.symbol) > SymbolOrdinal(right.symbol)
    ensures Compare(left, right) == -Compare(right, left)
  {
  }

  /** Two different suits, neither of them Hearts: the left card is "greater"
      in both argument orders, so a running maximum is never replaced by a card
      of another plain suit. */
  lemma CompareBetweenPlainSuits(left: Card, right: Card)
    requires left.suit != right.suit && left.suit != HEARTS && right.suit != HEARTS
    ensures Compare(left, right) == 1 && Compare(right, left) == 1
  {
  }

  /** A Heart is greater than any card of another suit, on either side. */
  lemma CompareHeartWithOffSuit(heart: Card, other: Card)
    requires heart.suit == HEARTS && other.suit != HEARTS
    ensures Compare(heart, other) == 1 && Compare(other, heart) == -1
  {
  }

  /** The comparator answers 0 for identical cards only. */
  lemma CompareZeroOnlyForSameCard(left: Card, right: Card)
    ensures Compare(left, right) == 0 <==> left == right
  {
    if left.suit == right.suit && Compare(left, right) == 0 {
      SymbolOrdinalInjective(left.symbol, right.symbol);
    }
  }

  // ---------------------------------------------------------------- maxWith

  /** Kotlin's `maxWith(comparator)`: start from the first element and take
      every later element `e` with `compare(max, e) < 0`. */
  function MaxWith(cards: seq<Card>): (m: Card)
    requires |cards| > 0
    ensures m in cards
  {
    MaxFold(cards[0], cards[1..])
  }

  function MaxFold(max: Card, rest: seq<Card>): (m: Card)
    ensures m == max || m in rest
    decreases |rest|
  {
    if rest == [] then max
    else MaxFold(if Compare(max, rest[0]) < 0 then rest[0] else max, rest[1..])
  }

  predicate HasHeart(cards: seq<Card>) {
    exists i :: 0 <= i < |cards| && cards[i].suit == HEARTS
  }

  /** The suit that the fold ends on: Hearts as soon as one Heart is present,
      otherwise the suit of the first (led) card. */
  function WinningSuit(cards: seq<Card>): Suit
    requires |cards| > 0
  {
    if HasHeart(cards) then HEARTS else cards[0].suit
  }

  /** `m` is of suit `s` and at least as high as every card of suit `s` in `cards`. */
  predicate HighestOfSuit(m: Card, cards: seq<Card>, s: Suit) {
    m.suit == s &&
    forall i :: 0 <= i < |cards| && cards[i].suit == s ==>
      SymbolOrdinal(cards[i].symbol) <= SymbolOrdinal(m.symbol)
  }

  /** A list holds a Heart exactly when its head is one or its tail holds one. */
  lemma HasHeartCons(c: Card, cs: seq<Card>)
    ensures HasHeart([c] + cs) <==> c.suit == HEARTS || HasHeart(cs)
  {
    var all := [c] + cs;
    assert all[0] == c;
    if HasHeart(all) {
      var i :| 0 <= i < |all| && all[i].suit == HEARTS;
      if i > 0 {
        assert cs[i - 1] == all[i];
      }
    }
    if HasHeart(cs) {
      var i :| 0 <= i < |cs| && cs[i].suit == HEARTS;
      assert all[i + 1] == cs[i];
    }
  }

  lemma {:induction false} MaxFoldWins(max: Card, rest: seq<Card>)
    ensures HighestOfSuit(MaxFold(max, rest), [max] + rest, WinningSuit([max] + rest))
    decreases |rest|
  {
    var all := [max] + rest;
    if rest == [] {
      HasHeartCons(max, rest);
      assert !HasHeart(rest);
      assert |all| == 1 && all[0] == max;
    } else {
      var next := if Compare(max, rest[0]) < 0 then rest[0] else max;
      var all' := [next] + rest[1..];
      MaxFoldWins(next, rest[1..]);
      var m := MaxFold(max, rest);
      assert m == MaxFold(next, rest[1..]);
      assert HasHeart(all) <==> HasHeart(all') by {
        HasHeartCons(max, rest);
        assert rest == [rest[0]] + rest[1..];
        HasHeartCons(rest[0], rest[1..]);
        HasHeartCons(next, rest[1..]);
      }
      var s := WinningSuit(all);
      assert s == WinningSuit(all');
      forall i | 0 <= i < |all| && all[i].suit == s
        ensures SymbolOrdinal(all[i].symbol) <= SymbolOrdinal(m.symbol)
      {
        if i >= 2 {
          assert all[i] == all'[i - 1];
        } else {
          assert all'[0] == next;
          assert SymbolOrdinal(all[i].symbol) <= SymbolOrdinal(next.symbol);
        }
      }
    }
  }

  /** What `maxWith(HeartsComparator)` picks: the highest Heart when the cards
      hold one, otherwise the highest card of the first card's suit. */
  lemma MaxWithWins(cards: seq<Card>)
    requires |cards| > 0
    ensures HighestOfSuit(MaxWith(cards), cards, WinningSuit(cards))
  {
    assert cards == [cards[0]] + cards[1..];
    MaxFoldWins(cards[0], cards[1..]);
  }

  /** When all cards share one suit, the highest symbol is the maximum. */
  lemma MaxWithSameSuit(cards: seq<Card>, s: Suit)
    requires |cards| > 0
    requires forall i :: 0 <= i < |cards| ==> cards[i].suit == s
    ensures HighestOfSuit(MaxWith(cards), cards, s)
  {
    MaxWithWins(cards);
    if s != HEARTS {
      assert !HasHeart(cards);
    } else {
      assert cards[0].suit == HEARTS;
    }
  }

  /** The Ace of Hearts is the maximum of all the Hearts
      (the comparator test "Ace of Hearts is the highest out of all the Hearts"). */
  lemma AceOfHeartsIsHighestHeart()
    ensures MaxWith(seq(13, i requires 0 <= i < 13 => Card(Symbols[i], HEARTS))) == Card(ACE, HEARTS)
  {
    var hearts := seq(13, i requires 0 <= i < 13 => Card(Symbols[i], HEARTS));
    MaxWithSameSuit(hearts, HEARTS);
    assert hearts[12] == Card(ACE, HEARTS);
    var m := MaxWith(hearts);
    assert SymbolOrdinal(ACE) <= SymbolOrdinal(m.symbol);
    SymbolOrdinalInjective(m.symbol, ACE);
  }

  /** The comparator's test "Hearts is not better than any other suit" expects
      A♠ from [A♠, 2♥]; the code picks 2♥. */
  lemma HeartBeatsLedAce()
    ensures MaxWith([Card(ACE, SPADES), Card(TWO, HEARTS)]) == Card(TWO, HEARTS)
    ensures MaxWith([Card(ACE, SPADES), Card(TWO, HEARTS)]) != Card(ACE, SPADES)
  {
  }

  /** "First Suit is always higher than other Suits": [2♠, A♣, A♦] gives 2♠. */
  lemma LedSuitBeatsOtherPlainSuits()
    ensures MaxWith([Card(TWO, SPADES), Card(ACE, CLUBS), Card(ACE, DIAMONDS)]) == Card(TWO, SPADES)
  {
  }
}
