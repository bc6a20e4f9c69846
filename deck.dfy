/** `Deck` (Deck.kt, and its copy in Game.kt) and the thirteen-card dealer
    `defaultDealerFn` built on it (Game.kt). */
module Decks {
  import opened Cards

  /** `Symbol.entries.map { symbol -> symbol of suit }` */
  function SuitCards(s: Suit): seq<Card> {
    seq(13, i requires 0 <= i < 13 => Card(Symbols[i], s))
  }

  /** `suits.flatMap { suit -> ... }` */
  function FlatMapSuits(ss: seq<Suit>): (r: seq<Card>)
    ensures |r| == 13 * |ss|
  {
    if ss == [] then [] else SuitCards(ss[0]) + FlatMapSuits(ss[1..])
  }

  /** The order of a new deck: suit-major, each suit in symbol order. */
  function FullDeck(): seq<Card> {
    FlatMapSuits(Suits)
  }

  lemma {:induction false} FlatMapSuitsAt(ss: seq<Suit>, i: nat)
    requires i < 13 * |ss|
    ensures FlatMapSuits(ss)[i] == Card(Symbols[i % 13], ss[i / 13])
  {
    var r := FlatMapSuits(ss);
    assert r == SuitCards(ss[0]) + FlatMapSuits(ss[1..]);
    if i < 13 {
      assert i % 13 == i && i / 13 == 0;
      assert r[i] == SuitCards(ss[0])[i];
    } else {
      FlatMapSuitsAt(ss[1..], i - 13);
      assert (i - 13) % 13 == i % 13 && (i - 13) / 13 + 1 == i / 13;
      assert ss[1..][(i - 13) / 13] == ss[i / 13];
      assert r[i] == FlatMapSuits(ss[1..])[i - 13];
    }
  }

  /** Position `i` of a new deck holds symbol `i % 13` of suit `i / 13`. */
  lemma FullDeckLayout()
    ensures |FullDeck()| == 52
    ensures forall i :: 0 <= i < 52 ==> FullDeck()[i] == Card(Symbols[i % 13], Suits[i / 13])
  {
    forall i | 0 <= i < 52 ensures FullDeck()[i] == Card(Symbols[i % 13], Suits[i / 13]) {
      FlatMapSuitsAt(Suits, i);
    }
  }

  lemma SymbolsDistinct(a: nat, b: nat)
    requires a < 13 && b < 13 && Symbols[a] == Symbols[b]
    ensures a == b
  {
  }

  lemma SuitsDistinct(a: nat, b: nat)
    requires a < 4 && b < 4 && Suits[a] == Suits[b]
    ensures a == b
  {
  }

  /** A new deck holds 52 cards, each Suit×Symbol combination exactly once. */
  lemma FullDeckHasEveryCardOnce()
    ensures |FullDeck()| == 52
    ensures Distinct(FullDeck())
    ensures forall c: Card :: c in FullDeck()
  {
    var d := FullDeck();
    FullDeckLayout();
    forall i, j | 0 <= i < j < 52 ensures d[i] != d[j] {
      if d[i] == d[j] {
        SymbolsDistinct(i % 13, j % 13);
        SuitsDistinct(i / 13, j / 13);
        assert false;
      }
    }
    forall c: Card ensures c in d {
      var k := 13 * SuitOrdinal(c.suit) + SymbolOrdinal(c.symbol);
      assert k / 13 == SuitOrdinal(c.suit) && k % 13 == SymbolOrdinal(c.symbol);
      assert d[k] == c;
    }
  }

  class Deck {
    /** The private `ArrayDeque<Card>`, front first. */
    var cards: seq<Card>

    /** `Deck()`: a new, unshuffled deck. */
    constructor()
      ensures cards == FullDeck()
    {
      cards := FullDeck();
    }

    /** `draw()`: takes the front card, or fails with "Deck is empty". */
    method Draw() returns (r: Result<Card>)
      modifies this
      ensures old(cards) == [] ==> r == Faulted(DeckIsEmpty) && cards == []
      ensures old(cards) != [] ==> r == Ok(old(cards)[0]) && cards == old(cards)[1..]
    {
      if cards == [] {
        r := Faulted(DeckIsEmpty);
      } else {
        r := Ok(cards[0]);
        cards := cards[1..];
      }
    }
  }

  /** The dealer that `defaultDealerFn(deck)` returns, applied once:
      `List(13) { deck.draw() }`. It takes the next 13 cards off the front of the
      deck; on a deck with fewer it draws them all and then fails. */
  method DealThirteen(deck: Deck) returns (r: Result<seq<Card>>)
    modifies deck
    ensures |old(deck.cards)| >= 13 ==>
              r == Ok(old(deck.cards)[..13]) && deck.cards == old(deck.cards)[13..]
    ensures |old(deck.cards)| < 13 ==> r == Faulted(DeckIsEmpty) && deck.cards == []
  {
    var hand: seq<Card> := [];
    for i := 0 to 13
      invariant i <= |old(deck.cards)|
      invariant hand == old(deck.cards)[..i]
      invariant deck.cards == old(deck.cards)[i..]
    {
      var c := deck.Draw();
      if c.Faulted? {
        return Faulted(DeckIsEmpty);
      }
      hand := hand + [c.value];
    }
    r := Ok(hand);
  }

  /** Four calls of the default dealer on a new deck: pairwise disjoint hands of
      13 cards that between them hold all 52 cards. */
  method DealFourHandsFromNewDeck() returns (hands: seq<seq<Card>>)
    ensures |hands| == 4
    ensures forall k :: 0 <= k < 4 ==> |hands[k]| == 13 && Distinct(hands[k])
    ensures forall k, l, c :: 0 <= k < l < 4 && c in hands[k] ==> c !in hands[l]
    ensures hands[0] + hands[1] + hands[2] + hands[3] == FullDeck()
    ensures forall c: Card :: c in hands[0] + hands[1] + hands[2] + hands[3]
  {
    var deck := new Deck();
    hands := [];
    for k := 0 to 4
      invariant |hands| == k
      invariant deck.cards == FullDeck()[13 * k..]
      invariant forall j :: 0 <= j < k ==> hands[j] == FullDeck()[13 * j..13 * j + 13]
    {
      var r := DealThirteen(deck);
      assert deck.cards == FullDeck()[13 * (k + 1)..];
      hands := hands + [r.value];
    }
    var d := FullDeck();
    FullDeckHasEveryCardOnce();
    forall k | 0 <= k < 4 ensures Distinct(hands[k]) {
      forall a, b | 0 <= a < b < |hands[k]| ensures hands[k][a] != hands[k][b] {
        assert hands[k][a] == d[13 * k + a] && hands[k][b] == d[13 * k + b];
      }
    }
    forall k, l, c | 0 <= k < l < 4 && c in hands[k] ensures c !in hands[l] {
      var a :| 0 <= a < 13 && hands[k][a] == c;
      assert d[13 * k + a] == c;
    }
    assert hands[0] + hands[1] + hands[2] + hands[3] == d;
  }
}
