/** The card vocabulary shared by both engines: suits, symbols, cards, seats and
    players, the outcome of a rule check, and the list operations of Kotlin's
    ArrayDeque and LinkedHashSet that the engines rely on. */
module Cards {

  /** Suit entries in declaration order. Only the position of CLUBS (third) is
      fixed by the repository; the order of the others is a choice of this model. */
  datatype Suit = HEARTS | SPADES | CLUBS | DIAMONDS

  /** Symbol entries in declaration order, TWO lowest and ACE highest. */
  datatype Symbol = TWO | THREE | FOUR | FIVE | SIX | SEVEN | EIGHT | NINE | TEN
                  | JACK | QUEEN | KING | ACE

  /** `symbol of suit` */
  datatype Card = Card(symbol: Symbol, suit: Suit)

  const Suits: seq<Suit> := [HEARTS, SPADES, CLUBS, DIAMONDS]
  const Symbols: seq<Symbol> :=
    [TWO, THREE, FOUR, FIVE, SIX, SEVEN, EIGHT, NINE, TEN, JACK, QUEEN, KING, ACE]

  const TwoOfClubs: Card := Card(TWO, CLUBS)

  /** The enum ordinal of a suit: its index in `Suit.entries`. */
  function SuitOrdinal(s: Suit): (n: nat)
    ensures n < |Suits| && Suits[n] == s
  {
    match s
    case HEARTS => 0
    case SPADES => 1
    case CLUBS => 2
    case DIAMONDS => 3
  }

  /** The enum ordinal of a symbol: its index in `Symbol.entries`. */
  function SymbolOrdinal(s: Symbol): (n: nat)
    ensures n < |Symbols| && Symbols[n] == s
  {
    match s
    case TWO => 0
    case THREE => 1
    case FOUR => 2
    case FIVE => 3
    case SIX => 4
    case SEVEN => 5
    case EIGHT => 6
    case NINE => 7
    case TEN => 8
    case JACK => 9
    case QUEEN => 10
    case KING => 11
    case ACE => 12
  }

  lemma SymbolOrdinalInjective(a: Symbol, b: Symbol)
    ensures SymbolOrdinal(a) == SymbolOrdinal(b) ==> a == b
  {
  }

  // ---------------------------------------------------------------- seats

  /** The four seats, in `PlayerId.entries` order. */
  datatype PlayerId = One | Two | Three | Four

  const PlayerIds: seq<PlayerId> := [One, Two, Three, Four]

  function PlayerOrdinal(p: PlayerId): (n: nat)
    ensures n < 4 && PlayerIds[n] == p
  {
    match p
    case One => 0
    case Two => 1
    case Three => 2
    case Four => 3
  }

  /** `PlayerId.playerToTheLeft`: the next seat clockwise, with no last seat. */
  function ToTheLeft(p: PlayerId): (q: PlayerId)
    ensures PlayerOrdinal(q) == (PlayerOrdinal(p) + 1) % 4
  {
    match p
    case One => Two
    case Two => Three
    case Three => Four
    case Four => One
  }

  /** Going round the table four times brings every seat back to itself,
      and no fewer steps do. */
  lemma ToTheLeftCycle(p: PlayerId)
    ensures ToTheLeft(ToTheLeft(ToTheLeft(ToTheLeft(p)))) == p
    ensures ToTheLeft(p) != p && ToTheLeft(ToTheLeft(p)) != p
    ensures ToTheLeft(ToTheLeft(ToTheLeft(p))) != p
  {
  }

  /** Four pairwise different seats are all the seats there are. */
  lemma FourDistinctSeatsCoverAll(a: PlayerId, b: PlayerId, c: PlayerId, d: PlayerId, p: PlayerId)
    requires a != b && a != c && a != d && b != c && b != d && c != d
    ensures p == a || p == b || p == c || p == d
  {
  }

  type PlayerName = string

  datatype Player = Player(id: PlayerId, name: PlayerName)

  /** Index of the first player with the given name (`firstOrNull { it.name == name }`). */
  function IndexOfName(ps: seq<Player>, name: PlayerName): (r: Option<nat>)
    ensures r.None? <==> forall i :: 0 <= i < |ps| ==> ps[i].name != name
    ensures r.Some? ==> r.value < |ps| && ps[r.value].name == name &&
                        forall j :: 0 <= j < r.value ==> ps[j].name != name
  {
    if ps == [] then None
    else if ps[0].name == name then Some(0)
    else match IndexOfName(ps[1..], name)
      case None => None
      case Some(k) => Some(k + 1)
  }

  /** Index of the first player sitting on the given seat (`indexOfFirst { it.id == id }`). */
  function IndexOfId(ps: seq<Player>, id: PlayerId): (r: Option<nat>)
    ensures r.None? <==> forall i :: 0 <= i < |ps| ==> ps[i].id != id
    ensures r.Some? ==> r.value < |ps| && ps[r.value].id == id &&
                        forall j :: 0 <= j < r.value ==> ps[j].id != id
  {
    if ps == [] then None
    else if ps[0].id == id then Some(0)
    else match IndexOfId(ps[1..], id)
      case None => None
      case Some(k) => Some(k + 1)
  }

  // ---------------------------------------------------------------- outcomes

  datatype Option<T> = None | Some(value: T)

  /** The `GameException` messages of the engines, as structured reasons. */
  datatype GameError =
    | NotYourTurn(name: PlayerName)                    // "It's not X's turn to play"
    | DoesNotHave(name: PlayerName, card: Card)        // "X does not have C in their hand"
    | MustPlayTwoOfClubs(name: PlayerName)             // "X must play 2♣ on the first turn"
    | MustFollowSuit(name: PlayerName)                 // "X must follow suit"
    | CannotOpenWithHearts(name: PlayerName)           // "X cannot open with ♥ until first ♥ has been played"
    | CannotPlayHeartsOnFirstTrick(name: PlayerName)   // "X cannot play ♥ on the first trick"
    | DoesNotHaveCards(name: PlayerName, missing: seq<Card>) // "X does not have A, nor B"
    | NoCurrentDeal                                    // "Cannot fetch current deal, ..."

  /** Failures that the source signals with `error(...)`, `TODO()` or an index
      exception rather than with a `GameException`. */
  datatype Fault =
    | GameHasNotStartedYet
    | NoPlayerNamed(name: PlayerName)
    | NoPlayerWithId(id: PlayerId)
    | DeckIsEmpty
    | NotImplemented
    | NoSuchSeat(index: nat)

  /** What an operation returns instead of throwing. */
  datatype Result<T> = Ok(value: T) | Rejected(error: GameError) | Faulted(fault: Fault)

  /** `gameRequires(predicate) { message }` */
  function GameRequires(condition: bool, error: GameError): (r: Result<()>)
    ensures r.Ok? <==> condition
    ensures !condition ==> r == Rejected(error)
  {
    if condition then Ok(()) else Rejected(error)
  }

  // ---------------------------------------------------------------- lists

  predicate Distinct<T(==)>(s: seq<T>) {
    forall i, j :: 0 <= i < j < |s| ==> s[i] != s[j]
  }

  /** `ArrayDeque.remove(element)`: drops the first occurrence, if any. */
  function RemoveFirst<T(==)>(s: seq<T>, x: T): (r: seq<T>)
    ensures multiset(r) == multiset(s) - multiset{x}
    ensures x in s ==> |r| == |s| - 1
    ensures x !in s ==> r == s
  {
    if s == [] then []
    else
      assert s == [s[0]] + s[1..];
      if s[0] == x then s[1..] else [s[0]] + RemoveFirst(s[1..], x)
  }

  /** The occurrence `ArrayDeque.remove` drops is the first one, and the
      cards before and after it keep their order. */
  lemma {:induction false} RemoveFirstDropsFirstOccurrence<T>(s: seq<T>, x: T)
    ensures x in s ==> exists k :: 0 <= k < |s| && s[k] == x && x !in s[..k] && RemoveFirst(s, x) == s[..k] + s[k + 1..]
  {
    if x in s {
      var k := FirstOccurrence(s, x);
      assert s[k] == x && x !in s[..k] && RemoveFirst(s, x) == s[..k] + s[k + 1..];
    }
  }

  /** The position of the first occurrence of `x`, and `RemoveFirst` around it. */
  lemma {:induction false} FirstOccurrence<T>(s: seq<T>, x: T) returns (k: nat)
    requires x in s
    ensures k < |s| && s[k] == x && x !in s[..k]
    ensures RemoveFirst(s, x) == s[..k] + s[k + 1..]
  {
    if s[0] == x {
      k := 0;
      assert s[..0] == [];
      assert RemoveFirst(s, x) == s[1..];
    } else {
      var t := s[1..];
      var j := FirstOccurrence(t, x);
      k := j + 1;
      TailSlices(s, j);
      var head, before, after := [s[0]], t[..j], t[j + 1..];
      assert RemoveFirst(s, x) == head + RemoveFirst(t, x);
      assert head + (before + after) == (head + before) + after;
      assert x !in head;
    }
  }

  /** Slicing around position `j + 1` of `s` is slicing around `j` of its tail. */
  lemma TailSlices<T>(s: seq<T>, j: nat)
    requires j + 1 < |s|
    ensures s[..j + 1] == [s[0]] + s[1..][..j]
    ensures s[j + 2..] == s[1..][j + 1..]
  {
  }

  /** `xs.forEach(::remove)`: removes one occurrence of each element of `xs`, in order. */
  function RemoveEach<T(==)>(s: seq<T>, xs: seq<T>): seq<T>
    decreases |xs|
  {
    if xs == [] then s else RemoveEach(RemoveFirst(s, xs[0]), xs[1..])
  }

  /** Removing one more element after the others. */
  lemma {:induction false} RemoveEachSnoc<T>(s: seq<T>, xs: seq<T>, x: T)
    ensures RemoveEach(s, xs + [x]) == RemoveFirst(RemoveEach(s, xs), x)
    decreases |xs|
  {
    if xs == [] {
      assert xs + [x] == [x];
    } else {
      assert (xs + [x])[1..] == xs[1..] + [x];
      RemoveEachSnoc(RemoveFirst(s, xs[0]), xs[1..], x);
    }
  }

  /** Removing a prefix of `xs` one element longer. */
  lemma RemoveEachPrefix<T>(s: seq<T>, xs: seq<T>, i: nat)
    requires i < |xs|
    ensures RemoveEach(s, xs[..i + 1]) == RemoveFirst(RemoveEach(s, xs[..i]), xs[i])
  {
    assert xs[..i + 1] == xs[..i] + [xs[i]];
    RemoveEachSnoc(s, xs[..i], xs[i]);
  }

  /** Removing the elements of `xs` one at a time takes exactly their multiset away. */
  lemma {:induction false} RemoveEachMultiset<T>(s: seq<T>, xs: seq<T>)
    ensures multiset(RemoveEach(s, xs)) == multiset(s) - multiset(xs)
    decreases |xs|
  {
    if xs != [] {
      var r := RemoveFirst(s, xs[0]);
      calc {
        multiset(RemoveEach(s, xs));
        multiset(RemoveEach(r, xs[1..]));
        { RemoveEachMultiset(r, xs[1..]); }
        multiset(r) - multiset(xs[1..]);
        (multiset(s) - multiset{xs[0]}) - multiset(xs[1..]);
        { MinusMinus(multiset(s), multiset{xs[0]}, multiset(xs[1..])); }
        multiset(s) - (multiset{xs[0]} + multiset(xs[1..]));
        { assert xs == [xs[0]] + xs[1..]; }
        multiset(s) - multiset(xs);
      }
    }
  }

  /** Taking away two multisets one after the other takes away their sum. */
  lemma MinusMinus<T>(a: multiset<T>, b: multiset<T>, c: multiset<T>)
    ensures (a - b) - c == a - (b + c)
  {
    forall y
      ensures ((a - b) - c)[y] == (a - (b + c))[y]
    {
    }
  }

  /** Removing does not invent elements, and leaves alone those not removed. */
  lemma RemoveEachMembership<T>(s: seq<T>, xs: seq<T>, x: T)
    ensures x in RemoveEach(s, xs) ==> x in s
    ensures x in s && x !in xs && Distinct(s) ==> x in RemoveEach(s, xs)
    ensures Distinct(s) && x in xs ==> x !in RemoveEach(s, xs)
  {
    RemoveEachMultiset(s, xs);
    var r := RemoveEach(s, xs);
    assert x in r <==> multiset(r)[x] > 0;
    assert x in s <==> multiset(s)[x] > 0;
    assert x in xs <==> multiset(xs)[x] > 0;
    if Distinct(s) {
      DistinctCount(s, x);
    }
  }

  /** In a list without repetitions each element occurs at most once. */
  lemma {:induction false} DistinctCount<T>(s: seq<T>, x: T)
    requires Distinct(s)
    ensures multiset(s)[x] == if x in s then 1 else 0
  {
    if s != [] {
      assert s == [s[0]] + s[1..];
      assert Distinct(s[1..]) by {
        forall i, j | 0 <= i < j < |s[1..]| ensures s[1..][i] != s[1..][j] {
          assert s[1..][i] == s[i + 1] && s[1..][j] == s[j + 1];
        }
      }
      DistinctCount(s[1..], x);
      if s[0] == x {
        assert x !in s[1..] by {
          forall k | 0 <= k < |s[1..]| ensures s[1..][k] != x {
            assert s[1..][k] == s[k + 1];
          }
        }
      }
    }
  }

  /** A Kotlin `Set<Card>`: a LinkedHashSet, so distinct cards in insertion order. */
  type CardSet = s: seq<Card> | Distinct(s) witness []

  /** `toSet()` on a list: Kotlin's LinkedHashSet, which keeps the first
      occurrence of each element in encounter order. */
  function ToSet<T(==)>(s: seq<T>): seq<T>
    decreases |s|
  {
    if s == [] then []
    else if s[|s| - 1] in s[..|s| - 1] then ToSet(s[..|s| - 1])
    else ToSet(s[..|s| - 1]) + [s[|s| - 1]]
  }

  /** `toSet()` keeps exactly the elements, each once. */
  lemma {:induction false} ToSetSpec<T>(s: seq<T>)
    ensures Distinct(ToSet(s))
    ensures forall x :: x in ToSet(s) <==> x in s
    ensures Distinct(s) ==> ToSet(s) == s
    decreases |s|
  {
    if s != [] {
      var init, last := s[..|s| - 1], s[|s| - 1];
      assert s == init + [last];
      ToSetSpec(init);
      if Distinct(s) {
        assert Distinct(init) by {
          forall i, j | 0 <= i < j < |init| ensures init[i] != init[j] {
            assert init[i] == s[i] && init[j] == s[j];
          }
        }
        assert last !in init by {
          forall k | 0 <= k < |init| ensures init[k] != last {
            assert init[k] == s[k];
          }
        }
      }
    }
  }

  /** `toSet()` on a list of cards. */
  function AsCardSet(s: seq<Card>): CardSet {
    ToSetSpec(s);
    ToSet(s)
  }

  /** `toSet()` keeps exactly the cards of the list, and keeps a list without
      repeats as it is. */
  lemma AsCardSetSpec(s: seq<Card>)
    ensures forall c :: c in AsCardSet(s) <==> c in s
    ensures Distinct(s) ==> AsCardSet(s) == s
  {
    ToSetSpec(s);
  }

  /** `xs - other` on a Kotlin set: the elements of `xs` not in `other`, in `xs` order. */
  function Minus<T(==,!new)>(xs: seq<T>, other: seq<T>): (r: seq<T>)
    ensures forall x :: x in r <==> x in xs && x !in other
  {
    if xs == [] then []
    else if xs[0] in other then Minus(xs[1..], other)
    else [xs[0]] + Minus(xs[1..], other)
  }

  /** Set difference on a list without repeats has no repeats either. */
  lemma {:induction false} MinusDistinct<T(!new)>(xs: seq<T>, other: seq<T>)
    requires Distinct(xs)
    ensures Distinct(Minus(xs, other))
    decreases |xs|
  {
    if xs != [] {
      var t := xs[1..];
      assert Distinct(t) by {
        forall i, j | 0 <= i < j < |t| ensures t[i] != t[j] {
          assert t[i] == xs[i + 1] && t[j] == xs[j + 1];
        }
      }
      MinusDistinct(t, other);
      if xs[0] !in other {
        var r := Minus(xs, other);
        var rest := Minus(t, other);
        assert r == [xs[0]] + rest;
        assert xs[0] !in t;
        forall i, j | 0 <= i < j < |r| ensures r[i] != r[j] {
          assert r[j] == rest[j - 1];
          if i == 0 {
            assert rest[j - 1] in rest;
          }
        }
      }
    }
  }

  /** Any two elements of `r` occur in `xs` in the same order. */
  predicate InOrderOf<T(==)>(r: seq<T>, xs: seq<T>) {
    forall i, j :: 0 <= i < j < |r| ==>
      exists a, b :: 0 <= a < b < |xs| && xs[a] == r[i] && xs[b] == r[j]
  }

  /** Set difference keeps the order of `xs`. */
  lemma {:induction false} MinusKeepsOrder<T(!new)>(xs: seq<T>, other: seq<T>)
    ensures InOrderOf(Minus(xs, other), xs)
    decreases |xs|
  {
    if xs != [] {
      var t := xs[1..];
      var r := Minus(xs, other);
      var rest := Minus(t, other);
      MinusKeepsOrder(t, other);
      forall i, j | 0 <= i < j < |r|
        ensures exists a, b :: 0 <= a < b < |xs| && xs[a] == r[i] && xs[b] == r[j]
      {
        if xs[0] in other {
          assert r == rest;
          var a, b :| 0 <= a < b < |t| && t[a] == rest[i] && t[b] == rest[j];
          assert xs[a + 1] == r[i] && xs[b + 1] == r[j];
        } else {
          assert r == [xs[0]] + rest;
          assert r[j] == rest[j - 1];
          if i == 0 {
            assert rest[j - 1] in rest;
            var b :| 0 <= b < |t| && t[b] == rest[j - 1];
            assert xs[0] == r[0] && xs[b + 1] == r[j];
          } else {
            assert r[i] == rest[i - 1];
            var a, b :| 0 <= a < b < |t| && t[a] == rest[i - 1] && t[b] == rest[j - 1];
            assert xs[a + 1] == r[i] && xs[b + 1] == r[j];
          }
        }
      }
    } else {
      assert Minus(xs, other) == [];
    }
  }
}
