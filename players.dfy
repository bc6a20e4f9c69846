/** Players of the event-sourced engine (Players.kt): seating and hands
    rebuilt by folding the event log, lookups in the resulting table, and the
    legality rules `DealtPlayer.play` enforces. */
module Players {
  import opened Cards
  import opened Hands
  import opened Events

  // ---------------------------------------------------------------- seating

  /** The names of the `PlayerJoined` events, in log order. */
  function JoinedNames(events: seq<GameEvent>): (names: seq<PlayerName>)
    ensures |names| == |FilterIsInstance(events, PlayerJoinedClass)|
    ensures forall i :: 0 <= i < |names| ==> FilterIsInstance(events, PlayerJoinedClass)[i] == PlayerJoined(names[i])
  {
    if events == [] then []
    else
      var rest := JoinedNames(events[1..]);
      if events[0].PlayerJoined? then [events[0].playerName] + rest else rest
  }

  /** `mapIndexed { idx, it -> Player(PlayerId.entries[idx], it.playerName) }`:
      the i-th joined player sits on the i-th seat; a fifth join has no seat,
      and `entries[4]` fails. */
  function SeatPlayers(names: seq<PlayerName>): (r: Result<seq<Player>>)
    ensures r.Ok? <==> |names| <= 4
    ensures !r.Ok? ==> r == Faulted(NoSuchSeat(4))
    ensures r.Ok? ==>
              |r.value| == |names| &&
              forall i :: 0 <= i < |names| ==> r.value[i] == Player(PlayerIds[i], names[i])
  {
    if |names| > 4 then Faulted(NoSuchSeat(4))
    else Ok(seq(|names|, i requires 0 <= i < |names| => Player(PlayerIds[i], names[i])))
  }

  /** Seats are handed out One, Two, Three, Four in join order, so no two
      players share a seat and every seat is taken once four have joined. */
  lemma SeatsAreDistinct(names: seq<PlayerName>)
    requires |names| <= 4
    ensures forall i, j :: 0 <= i < j < |names| ==> SeatPlayers(names).value[i].id != SeatPlayers(names).value[j].id
    ensures |names| == 4 ==> forall p: PlayerId :: SeatPlayers(names).value[PlayerOrdinal(p)].id == p
  {
    var ps := SeatPlayers(names).value;
    forall i, j | 0 <= i < j < |names|
      ensures ps[i].id != ps[j].id
    {
      assert ps[i].id == PlayerIds[i] && ps[j].id == PlayerIds[j];
    }
  }

  // ---------------------------------------------------------------- projection

  /** The index of the first event satisfying `matches` (`firstOrNull`). */
  function FirstIndex(events: seq<GameEvent>, matches: GameEvent -> bool): (r: Option<nat>)
    ensures r.Some? ==> r.value < |events|
  {
    if events == [] then None
    else if matches(events[0]) then Some(0)
    else match FirstIndex(events[1..], matches)
      case None => None
      case Some(k) => Some(k + 1)
  }

  /** `firstOrNull` finds the first matching event, and nothing exactly when
      no event matches. */
  lemma {:induction false} FirstIndexSpec(events: seq<GameEvent>, matches: GameEvent -> bool)
    ensures FirstIndex(events, matches).None? <==> forall i :: 0 <= i < |events| ==> !matches(events[i])
    ensures FirstIndex(events, matches).Some? ==>
              var k := FirstIndex(events, matches).value;
              matches(events[k]) && forall j :: 0 <= j < k ==> !matches(events[j])
    decreases |events|
  {
    if events != [] && !matches(events[0]) {
      FirstIndexSpec(events[1..], matches);
      assert forall i :: 0 < i < |events| ==> events[i] == events[1..][i - 1];
    }
  }

  /** `forPlayerOrEmpty<E>(cardSelector, playerSelector)`: the cards of the
      first event of class `c` that matches, as a set, or the empty set. */
  function ForPlayerOrEmpty(events: seq<GameEvent>, c: EventClass, matches: GameEvent -> bool,
                            cardsOf: GameEvent -> seq<Card>): CardSet
  {
    var ofClass := FilterIsInstance(events, c);
    match FirstIndex(ofClass, matches)
    case Some(k) => AsCardSet(cardsOf(ofClass[k]))
    case None => []
  }

  predicate DealtHandFor(id: PlayerId, e: GameEvent) {
    e.PlayerWasDealtHand? && e.playerId == id
  }

  predicate PassedBy(id: PlayerId, e: GameEvent) {
    e.PlayerPassedCards? && e.passedBy == id
  }

  predicate PassedTo(id: PlayerId, e: GameEvent) {
    e.PlayerPassedCards? && e.passedTo == id
  }

  function HandOf(e: GameEvent): seq<Card> {
    if e.PlayerWasDealtHand? then e.hand else []
  }

  function PassedCardsOf(e: GameEvent): seq<Card> {
    if e.PlayerPassedCards? then e.cards else []
  }

  /** The first hand dealt to `id`. */
  function DealtCards(events: seq<GameEvent>, id: PlayerId): CardSet {
    ForPlayerOrEmpty(events, PlayerWasDealtHandClass, e => DealtHandFor(id, e), HandOf)
  }

  /** The cards of the first pass by `id`. */
  function CardsPassedBy(events: seq<GameEvent>, id: PlayerId): CardSet {
    ForPlayerOrEmpty(events, PlayerPassedCardsClass, e => PassedBy(id, e), PassedCardsOf)
  }

  /** The cards of the first pass to `id`. */
  function CardsPassedTo(events: seq<GameEvent>, id: PlayerId): CardSet {
    ForPlayerOrEmpty(events, PlayerPassedCardsClass, e => PassedTo(id, e), PassedCardsOf)
  }

  /** `filter { it.by == id }.map { it.card }` over the `CardPlayed` events. */
  function PlayedCards(played: seq<GameEvent>, id: PlayerId): seq<Card>
    decreases |played|
  {
    if played == [] then []
    else
      var rest := PlayedCards(played[1..], id);
      var e := played[0];
      if e.CardPlayed? && e.playedBy == id then [e.card] + rest else rest
  }

  /** The played cards of `id` are exactly the cards of their `CardPlayed` events. */
  lemma {:induction false} PlayedCardsMembers(played: seq<GameEvent>, id: PlayerId)
    ensures forall c :: c in PlayedCards(played, id) ==>
              exists i :: 0 <= i < |played| && played[i].CardPlayed? && played[i].playedBy == id && played[i].card == c
    ensures forall i :: 0 <= i < |played| && played[i].CardPlayed? && played[i].playedBy == id ==>
              played[i].card in PlayedCards(played, id)
    decreases |played|
  {
    if played != [] {
      var tail := played[1..];
      PlayedCardsMembers(tail, id);
      assert forall i :: 0 <= i < |tail| ==> tail[i] == played[i + 1];
      forall c | c in PlayedCards(played, id)
        ensures exists i :: 0 <= i < |played| && played[i].CardPlayed? && played[i].playedBy == id && played[i].card == c
      {
        if !(played[0].CardPlayed? && played[0].playedBy == id && played[0].card == c) {
          var i :| 0 <= i < |tail| && tail[i].CardPlayed? && tail[i].playedBy == id && tail[i].card == c;
          assert played[i + 1] == tail[i];
        }
      }
      forall i | 0 <= i < |played| && played[i].CardPlayed? && played[i].playedBy == id
        ensures played[i].card in PlayedCards(played, id)
      {
        if i > 0 {
          assert played[i] == tail[i - 1];
        }
      }
    }
  }

  /** The set of cards `id` has played. */
  function CardsPlayedBy(events: seq<GameEvent>, id: PlayerId): CardSet {
    AsCardSet(PlayedCards(FilterIsInstance(events, CardPlayedClass), id))
  }

  /** The hand `currentHand` rebuilds: the dealt cards, less those passed on,
      plus those received, less those played. */
  function HandProjection(events: seq<GameEvent>, id: PlayerId): seq<Card> {
    RemoveEach(RemoveEach(DealtCards(events, id), CardsPassedBy(events, id)) + CardsPassedTo(events, id),
               CardsPlayedBy(events, id))
  }

  /** `currentHand(gameEvents, player)`: a new `Hand` of the dealt cards, from
      which the passed cards are passed, to which the received cards are
      added, and from which the played cards are played. */
  method CurrentHand(events: seq<GameEvent>, player: Player) returns (hand: Hand)
    ensures fresh(hand)
    ensures hand.cards == HandProjection(events, player.id)
  {
    hand := new Hand(DealtCards(events, player.id));
    hand.PassAll(CardsPassedBy(events, player.id));
    hand.ReceiveAll(CardsPassedTo(events, player.id));
    hand.PlayAll(CardsPlayedBy(events, player.id));
  }

  /** As a multiset, the projected hand is what was dealt, less what was
      passed on, plus what was received, less what was played. */
  lemma HandProjectionCounts(events: seq<GameEvent>, id: PlayerId)
    ensures multiset(HandProjection(events, id)) ==
              multiset(DealtCards(events, id)) - multiset(CardsPassedBy(events, id)) +
              multiset(CardsPassedTo(events, id)) - multiset(CardsPlayedBy(events, id))
  {
    var afterPass := RemoveEach(DealtCards(events, id), CardsPassedBy(events, id));
    RemoveEachMultiset(DealtCards(events, id), CardsPassedBy(events, id));
    RemoveEachMultiset(afterPass + CardsPassedTo(events, id), CardsPlayedBy(events, id));
  }

  /** Cards passed to a player are in their hand as soon as that one pass is
      in the log, whether or not every player has passed: a player who has
      passed only held cards and has not played holds what was dealt, less
      what was passed on, plus every card received. Passing three of thirteen
      and receiving three leaves thirteen cards. */
  lemma PassedCardsReceivedImmediately(events: seq<GameEvent>, id: PlayerId)
    requires CardsPlayedBy(events, id) == []
    requires forall c :: c in CardsPassedBy(events, id) ==> c in DealtCards(events, id)
    ensures |HandProjection(events, id)| ==
              |DealtCards(events, id)| - |CardsPassedBy(events, id)| + |CardsPassedTo(events, id)|
    ensures forall c :: c in CardsPassedTo(events, id) ==> c in HandProjection(events, id)
    ensures |DealtCards(events, id)| == 13 && |CardsPassedBy(events, id)| == 3 && |CardsPassedTo(events, id)| == 3 ==>
              |HandProjection(events, id)| == 13
  {
    var dealt := DealtCards(events, id);
    var given := CardsPassedBy(events, id);
    var afterPass := RemoveEach(dealt, given);
    RemoveEachMultiset(dealt, given);
    assert multiset(given) <= multiset(dealt) by {
      forall c | c in multiset(given)
        ensures multiset(given)[c] <= multiset(dealt)[c]
      {
        DistinctCount(given, c);
        DistinctCount(dealt, c);
      }
    }
    assert |multiset(afterPass)| == |multiset(dealt)| - |multiset(given)|;
    assert HandProjection(events, id) == afterPass + CardsPassedTo(events, id);
  }

  /** An event of another class does not change what `filterIsInstance` keeps. */
  lemma FilterIgnores(events: seq<GameEvent>, e: GameEvent, c: EventClass)
    requires !IsInstance(c, e)
    ensures FilterIsInstance(events + [e], c) == FilterIsInstance(events, c)
  {
    FilterIsInstanceAppend(events, [e], c);
    assert FilterIsInstance([e], c) == [];
  }

  /** Each part of the projection depends on the log only through the events
      of its own class. */
  lemma ProjectionReadsOnlyItsClass(a: seq<GameEvent>, b: seq<GameEvent>, id: PlayerId)
    ensures FilterIsInstance(a, PlayerWasDealtHandClass) == FilterIsInstance(b, PlayerWasDealtHandClass) ==>
              DealtCards(a, id) == DealtCards(b, id)
    ensures FilterIsInstance(a, PlayerPassedCardsClass) == FilterIsInstance(b, PlayerPassedCardsClass) ==>
              CardsPassedBy(a, id) == CardsPassedBy(b, id) && CardsPassedTo(a, id) == CardsPassedTo(b, id)
    ensures FilterIsInstance(a, CardPlayedClass) == FilterIsInstance(b, CardPlayedClass) ==>
              CardsPlayedBy(a, id) == CardsPlayedBy(b, id)
  {
  }

  /** `AllPlayersPassedCards` plays no part in the projection. */
  lemma AllPlayersPassedCardsIrrelevant(events: seq<GameEvent>, d: DealId, id: PlayerId)
    ensures HandProjection(events + [AllPlayersPassedCards(d)], id) == HandProjection(events, id)
  {
    var log := events + [AllPlayersPassedCards(d)];
    FilterIgnores(events, AllPlayersPassedCards(d), PlayerWasDealtHandClass);
    FilterIgnores(events, AllPlayersPassedCards(d), PlayerPassedCardsClass);
    FilterIgnores(events, AllPlayersPassedCards(d), CardPlayedClass);
    ProjectionReadsOnlyItsClass(log, events, id);
  }

  // ---------------------------------------------------------------- the table

  /** No two entries share a hand. */
  predicate OwnHands(dealt: seq<DealtPlayer>) {
    forall j, k :: 0 <= j < k < |dealt| ==> dealt[j].hand != dealt[k].hand
  }

  /** `players.map { DealtPlayer(it, currentHand(gameEvents, it)) }`: each
      player gets a new hand of their own, projected from the log. */
  method DealOut(events: seq<GameEvent>, players: seq<Player>) returns (dealt: seq<DealtPlayer>)
    ensures |dealt| == |players| && OwnHands(dealt)
    ensures forall j :: 0 <= j < |dealt| ==> dealt[j].player == players[j] && fresh(dealt[j].hand)
    ensures forall j :: 0 <= j < |dealt| ==> dealt[j].hand.cards == HandProjection(events, players[j].id)
  {
    dealt := [];
    for i := 0 to |players|
      invariant |dealt| == i && OwnHands(dealt)
      invariant forall j :: 0 <= j < i ==> dealt[j].player == players[j] && fresh(dealt[j].hand)
      invariant forall j :: 0 <= j < i ==> dealt[j].hand.cards == HandProjection(events, players[j].id)
    {
      var hand := CurrentHand(events, players[i]);
      assert forall j :: 0 <= j < i ==> dealt[j].hand != hand;
      OwnHandsSnoc(dealt, DealtPlayer(players[i], hand));
      dealt := dealt + [DealtPlayer(players[i], hand)];
    }
  }

  /** A player with a hand nobody else at the table has keeps the hands apart. */
  lemma OwnHandsSnoc(dealt: seq<DealtPlayer>, d: DealtPlayer)
    requires OwnHands(dealt)
    requires forall j :: 0 <= j < |dealt| ==> dealt[j].hand != d.hand
    ensures OwnHands(dealt + [d])
  {
  }

  /** `DealtPlayers.from(gameEvents)`: one player per join, on seats One to
      Four in join order, each with a new hand projected from the log. */
  method From(events: seq<GameEvent>) returns (r: Result<seq<DealtPlayer>>)
    ensures r.Ok? <==> |JoinedNames(events)| <= 4
    ensures !r.Ok? ==> r == Faulted(NoSuchSeat(4))
    ensures r.Ok? ==>
              |r.value| == |JoinedNames(events)| &&
              forall i :: 0 <= i < |r.value| ==>
                r.value[i].player == Player(PlayerIds[i], JoinedNames(events)[i]) &&
                fresh(r.value[i].hand) &&
                r.value[i].hand.cards == HandProjection(events, PlayerIds[i])
    ensures r.Ok? ==> OwnHands(r.value)
  {
    var seated := SeatPlayers(JoinedNames(events));
    if !seated.Ok? {
      return Faulted(NoSuchSeat(4));
    }
    var dealt := DealOut(events, seated.value);
    r := Ok(dealt);
  }

  /** The players of a table. */
  function Seated(ps: seq<DealtPlayer>): (r: seq<Player>)
    ensures |r| == |ps| && forall i :: 0 <= i < |ps| ==> r[i] == ps[i].player
  {
    seq(|ps|, i requires 0 <= i < |ps| => ps[i].player)
  }

  /** `getByName(playerName)`: the first player of that name; without one
      the call fails. */
  function GetByName(ps: seq<DealtPlayer>, name: PlayerName): (r: Result<DealtPlayer>)
    ensures r.Ok? <==> exists i :: 0 <= i < |ps| && ps[i].player.name == name
    ensures !r.Ok? ==> r == Faulted(NoPlayerNamed(name))
    ensures r.Ok? ==>
              exists i :: 0 <= i < |ps| && ps[i] == r.value && ps[i].player.name == name &&
                forall j :: 0 <= j < i ==> ps[j].player.name != name
  {
    var seated := Seated(ps);
    match IndexOfName(seated, name)
    case Some(i) => Ok(ps[i])
    case None =>
      assert forall i :: 0 <= i < |ps| ==> seated[i].name == ps[i].player.name;
      Faulted(NoPlayerNamed(name))
  }

  /** `getById(playerId)`: the first player on that seat; without one the
      call fails. */
  function GetById(ps: seq<DealtPlayer>, id: PlayerId): (r: Result<DealtPlayer>)
    ensures r.Ok? <==> exists i :: 0 <= i < |ps| && ps[i].player.id == id
    ensures !r.Ok? ==> r == Faulted(NoPlayerWithId(id))
    ensures r.Ok? ==>
              exists i :: 0 <= i < |ps| && ps[i] == r.value && ps[i].player.id == id &&
                forall j :: 0 <= j < i ==> ps[j].player.id != id
  {
    var seated := Seated(ps);
    match IndexOfId(seated, id)
    case Some(i) => Ok(ps[i])
    case None =>
      assert forall i :: 0 <= i < |ps| ==> seated[i].id == ps[i].player.id;
      Faulted(NoPlayerWithId(id))
  }

  /** The hands of a table. */
  function HandsOf(ps: seq<DealtPlayer>): set<Hand> {
    set i | 0 <= i < |ps| :: ps[i].hand
  }

  lemma HandsOfTail(ps: seq<DealtPlayer>)
    requires ps != []
    ensures HandsOf(ps[1..]) <= HandsOf(ps)
  {
    forall h | h in HandsOf(ps[1..])
      ensures h in HandsOf(ps)
    {
      var i :| 0 <= i < |ps[1..]| && ps[1..][i].hand == h;
      assert ps[i + 1].hand == h;
    }
  }

  /** The index of the first player holding 2♣. */
  function StartCardIndex(ps: seq<DealtPlayer>): (r: Option<nat>)
    reads HandsOf(ps)
    ensures r.None? <==> forall i :: 0 <= i < |ps| ==> TwoOfClubs !in ps[i].hand.cards
    ensures r.Some? ==>
              r.value < |ps| && TwoOfClubs in ps[r.value].hand.cards &&
              forall j :: 0 <= j < r.value ==> TwoOfClubs !in ps[j].hand.cards
  {
    if ps == [] then None
    else if ps[0].hand.Contains(TwoOfClubs) then Some(0)
    else
      HandsOfTail(ps);
      match StartCardIndex(ps[1..])
      case None => None
      case Some(k) => Some(k + 1)
  }

  /** `playerWithStartCard()`: the first player holding 2♣, if any. */
  function PlayerWithStartCard(ps: seq<DealtPlayer>): (r: Option<DealtPlayer>)
    reads HandsOf(ps)
    ensures r.None? <==> forall i :: 0 <= i < |ps| ==> TwoOfClubs !in ps[i].hand.cards
    ensures r.Some? ==>
              exists i :: 0 <= i < |ps| && ps[i] == r.value && TwoOfClubs in ps[i].hand.cards &&
                forall j :: 0 <= j < i ==> TwoOfClubs !in ps[j].hand.cards
  {
    match StartCardIndex(ps)
    case Some(i) => Some(ps[i])
    case None => None
  }

  // ---------------------------------------------------------------- playing

  /** What `play` reads of the current trick: whether it is the deal's first
      trick and the suit led, if a card has been led. */
  datatype TrickView = TrickView(isFirstTrick: bool, ledSuit: Option<Suit>)

  /** `twoOfClubsIsPlayedOnFirstTurn(card)`: the holder of 2♣ plays it. */
  predicate TwoOfClubsFirst(hand: seq<Card>, card: Card) {
    TwoOfClubs !in hand || card == TwoOfClubs
  }

  /** `playerToFollowSuit(trick, card)`: nothing led, the led suit, or a heart. */
  predicate FollowsSuit(trick: TrickView, card: Card) {
    trick.ledSuit.None? || card.suit == trick.ledSuit.value || card.suit == HEARTS
  }

  /** `playerToPlayNoHeartsIfTheyAreAble(trick, heartsHaveBeenPlayed)`. */
  function HeartsVerdict(name: PlayerName, hand: seq<Card>, trick: TrickView, heartsHaveBeenPlayed: bool): Result<()> {
    if trick.isFirstTrick && trick.ledSuit.None? then
      GameRequires(AllOfSuit(hand, HEARTS), CannotOpenWithHearts(name))
    else if trick.isFirstTrick then
      GameRequires(AllOfSuit(hand, HEARTS), CannotPlayHeartsOnFirstTrick(name))
    else if trick.ledSuit.None? then
      GameRequires(heartsHaveBeenPlayed, CannotPlayHeartsOnFirstTrick(name))
    else
      GameRequires(!HasSuit(hand, trick.ledSuit.value), CannotPlayHeartsOnFirstTrick(name))
  }

  /** `checkCardIsPlayable(card, heartsHaveBeenPlayed)`. */
  function CardIsPlayable(name: PlayerName, hand: seq<Card>, trick: TrickView, card: Card,
                          heartsHaveBeenPlayed: bool): Result<()> {
    if card.suit == HEARTS then HeartsVerdict(name, hand, trick, heartsHaveBeenPlayed)
    else GameRequires(FollowsSuit(trick, card), MustFollowSuit(name))
  }

  /** The checks of `DealtPlayer.play`, in their order, on the hand before
      the play. */
  function PlayVerdict(name: PlayerName, hand: seq<Card>, card: Card, trick: Option<TrickView>,
                       heartsHaveBeenPlayed: bool): Result<()> {
    if card !in hand then Rejected(DoesNotHave(name, card))
    else if !TwoOfClubsFirst(hand, card) then Rejected(MustPlayTwoOfClubs(name))
    else match trick
      case None => Ok(())
      case Some(t) => CardIsPlayable(name, hand, t, card, heartsHaveBeenPlayed)
  }

  /** `DealtPlayer.play(card, currentTrick, heartsHaveBeenPlayed)`: when every
      check passes, the card leaves the hand and the play `(id, card)` is
      returned; otherwise the hand is untouched. */
  method PlayCard(p: DealtPlayer, card: Card, trick: Option<TrickView>, heartsHaveBeenPlayed: bool)
    returns (r: Result<(PlayerId, Card)>)
    modifies p.hand
    ensures var v := PlayVerdict(p.player.name, old(p.hand.cards), card, trick, heartsHaveBeenPlayed);
            (v.Ok? ==> r == Ok((p.player.id, card)) && p.hand.cards == RemoveFirst(old(p.hand.cards), card)) &&
            (v.Rejected? ==> r == Rejected(v.error) && p.hand.cards == old(p.hand.cards))
  {
    var verdict := PlayVerdict(p.player.name, p.hand.ToList(), card, trick, heartsHaveBeenPlayed);
    match verdict
    case Ok(_) =>
      var _ := p.hand.Play(card);
      r := Ok((p.player.id, card));
    case Rejected(e) =>
      r := Rejected(e);
    case Faulted(f) =>
      r := Faulted(f);
  }

  /** The checks run in order: first the card must be held, then the holder
      of 2♣ must play it; the suit and hearts rules come only after both. A
      play is never a fault, only accepted or rejected. */
  lemma PlayChecksInOrder(name: PlayerName, hand: seq<Card>, card: Card, trick: Option<TrickView>, hp: bool)
    ensures card !in hand ==> PlayVerdict(name, hand, card, trick, hp) == Rejected(DoesNotHave(name, card))
    ensures card in hand && TwoOfClubs in hand && card != TwoOfClubs ==>
              PlayVerdict(name, hand, card, trick, hp) == Rejected(MustPlayTwoOfClubs(name))
    ensures PlayVerdict(name, hand, card, trick, hp).Ok? ==> card in hand && TwoOfClubsFirst(hand, card)
    ensures !PlayVerdict(name, hand, card, trick, hp).Faulted?
  {
  }

  /** Without a current trick only the two first checks run: any held card
      is accepted unless its holder owes 2♣. */
  lemma NoTrickNoSuitOrHeartsCheck(name: PlayerName, hand: seq<Card>, card: Card, hp: bool)
    ensures PlayVerdict(name, hand, card, None, hp).Ok? <==> card in hand && TwoOfClubsFirst(hand, card)
  {
  }

  /** A card that is not a heart passes the suit check exactly when nothing
      is led or it has the led suit; otherwise it must follow suit, whatever
      the hand holds: the hand is not asked whether it could. */
  lemma FollowSuitIgnoresHand(name: PlayerName, hand: seq<Card>, other: seq<Card>, card: Card, t: TrickView, hp: bool)
    requires card.suit != HEARTS
    requires card in hand && TwoOfClubsFirst(hand, card)
    requires card in other && TwoOfClubsFirst(other, card)
    ensures PlayVerdict(name, hand, card, Some(t), hp).Ok? <==> t.ledSuit.None? || card.suit == t.ledSuit.value
    ensures !PlayVerdict(name, hand, card, Some(t), hp).Ok? ==>
              PlayVerdict(name, hand, card, Some(t), hp) == Rejected(MustFollowSuit(name))
    ensures PlayVerdict(name, hand, card, Some(t), hp) == PlayVerdict(name, other, card, Some(t), hp)
  {
  }

  /** The hearts table: on the first trick a heart needs a hand of only
      hearts, whether or not a suit was led; on a later trick it needs hearts
      to have been played when leading, and no card of the led suit when
      following. Only the first row has its own message. */
  lemma HeartsRules(name: PlayerName, hand: seq<Card>, card: Card, t: TrickView, hp: bool)
    requires card.suit == HEARTS
    requires card in hand && TwoOfClubsFirst(hand, card)
    ensures t.isFirstTrick ==>
              (PlayVerdict(name, hand, card, Some(t), hp).Ok? <==> forall i :: 0 <= i < |hand| ==> hand[i].suit == HEARTS)
    ensures !t.isFirstTrick && t.ledSuit.None? ==> (PlayVerdict(name, hand, card, Some(t), hp).Ok? <==> hp)
    ensures !t.isFirstTrick && t.ledSuit.Some? ==>
              (PlayVerdict(name, hand, card, Some(t), hp).Ok? <==>
                 forall i :: 0 <= i < |hand| ==> hand[i].suit != t.ledSuit.value)
    ensures !PlayVerdict(name, hand, card, Some(t), hp).Ok? ==>
              PlayVerdict(name, hand, card, Some(t), hp) ==
                if t.isFirstTrick && t.ledSuit.None? then Rejected(CannotOpenWithHearts(name))
                else Rejected(CannotPlayHeartsOnFirstTrick(name))
  {
  }

  /** On a later trick led with hearts, a heart is always rejected: its
      player holds the led suit, namely the heart itself. */
  lemma HeartOnHeartLeadRejected(name: PlayerName, hand: seq<Card>, card: Card, hp: bool)
    requires card.suit == HEARTS && card in hand && TwoOfClubs !in hand
    ensures PlayVerdict(name, hand, card, Some(TrickView(false, Some(HEARTS))), hp) ==
              Rejected(CannotPlayHeartsOnFirstTrick(name))
  {
    var i :| 0 <= i < |hand| && hand[i] == card;
    assert hand[i].suit == HEARTS;
  }

  /** Leading a heart on a later trick before any heart was played is
      rejected with the first-trick message, not with "cannot open with
      hearts until the first heart has been played". */
  lemma LaterHeartsLeadMessage(name: PlayerName, hand: seq<Card>, card: Card)
    requires card.suit == HEARTS && card in hand && TwoOfClubs !in hand
    ensures PlayVerdict(name, hand, card, Some(TrickView(false, None)), false) ==
              Rejected(CannotPlayHeartsOnFirstTrick(name))
    ensures PlayVerdict(name, hand, card, Some(TrickView(false, None)), false) !=
              Rejected(CannotOpenWithHearts(name))
  {
  }
}
