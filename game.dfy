/** The state-machine engine of Game.kt: a `Game` whose `state` moves
    Open → Full → Started, dealing through an injected dealer and checking each
    played card against the turn and the dealt hand. */
module StateMachine {
  import opened Cards
  import opened Tricks

  /** The `ArrayDeque<Card>` a dealt player holds. One object per player: every
      list of players that mentions the player, in this or an earlier state,
      shares it, so removing a card is seen through all of them. */
  class CardDeque {
    var cards: seq<Card>

    constructor(dealt: seq<Card>)
      ensures cards == dealt
    {
      cards := dealt;
    }
  }

  /** `DealtPlayer(player, hand)` */
  datatype DealtPlayer = DealtPlayer(player: Player, hand: CardDeque)

  /** `PlayerJoinResponse` */
  datatype PlayerJoinResponse = PlayerJoined | PlayerCouldNotJoin(player: PlayerName, reason: string)

  /** `StartGameResponse` (StartGame.kt) */
  datatype StartGameResponse = GameHasStarted | GameHasNotStarted(reason: string)

  /** `GameState.Open`, `GameState.Full`, `GameState.Started`. In Started the
      `DealtPlayers` list is given with its head as the current player. */
  datatype GameState =
    | Open(players: seq<Player>)
    | Full(players: seq<Player>)
    | Started(dealtPlayers: seq<DealtPlayer>, currentTrick: Trick)

  function PlayersOf(ps: seq<DealtPlayer>): (r: seq<Player>)
    ensures |r| == |ps| && forall i :: 0 <= i < |ps| ==> r[i] == ps[i].player
  {
    seq(|ps|, i requires 0 <= i < |ps| => ps[i].player)
  }

  /** The hand objects at a table. A fifth entry repeats the first, so the
      first four hold them all. */
  function HandsOf(ps: seq<DealtPlayer>): set<CardDeque>
    requires |ps| >= 4
  {
    {ps[0].hand, ps[1].hand, ps[2].hand, ps[3].hand}
  }

  /** The contents of the first four hands, in table order. */
  function HandCards(ps: seq<DealtPlayer>): seq<seq<Card>>
    requires |ps| >= 4
    reads HandsOf(ps)
  {
    [ps[0].hand.cards, ps[1].hand.cards, ps[2].hand.cards, ps[3].hand.cards]
  }

  // ---------------------------------------------------------------- seating

  /** Players One, Two, ... in join order. */
  predicate Seated(ps: seq<Player>) {
    forall i :: 0 <= i < |ps| ==> i < 4 && ps[i].id == PlayerIds[i]
  }

  /** `GameState.Open.join`: seats One..Three keep the game open, the fourth
      player fills it. */
  function JoinOpen(players: seq<Player>, name: PlayerName): GameState {
    if |players| == 0 then Open(players + [Player(One, name)])
    else if |players| == 1 then Open(players + [Player(Two, name)])
    else if |players| == 2 then Open(players + [Player(Three, name)])
    else Full(players + [Player(Four, name)])
  }

  /** The players seated by the given names, in join order. */
  function SeatsFor(names: seq<PlayerName>): (ps: seq<Player>)
    requires |names| <= 4
    ensures Seated(ps) && |ps| == |names|
  {
    seq(|names|, i requires 0 <= i < |names| => Player(PlayerIds[i], names[i]))
  }

  /** The k-th join seats the k-th name on seat k; joins one to three keep the
      game Open and the fourth makes it Full. */
  lemma JoinSeatsInOrder(names: seq<PlayerName>)
    requires 1 <= |names| <= 4
    ensures var last := |names| - 1;
      JoinOpen(SeatsFor(names[..last]), names[last]) ==
        if |names| < 4 then Open(SeatsFor(names)) else Full(SeatsFor(names))
  {
    var last := |names| - 1;
    var before := SeatsFor(names[..last]);
    assert before + [Player(PlayerIds[last], names[last])] == SeatsFor(names);
  }

  // ---------------------------------------------------------------- DealtPlayers

  predicate AllDifferent<T(==)>(a: T, b: T, c: T, d: T) {
    a != b && a != c && a != d && b != c && b != d && c != d
  }

  /** The lists `DealtPlayers` is ever built from: four players, or the five
      of `next()`, whose last entry repeats the first. */
  predicate TableShape<T(==)>(ps: seq<T>) {
    |ps| == 4 || (|ps| == 5 && ps[4] == ps[0])
  }

  /** Each of the first four players sits to the left of the one before. */
  predicate Clockwise(ps: seq<DealtPlayer>)
    requires |ps| >= 4
  {
    ps[1].player.id == ToTheLeft(ps[0].player.id) &&
    ps[2].player.id == ToTheLeft(ps[1].player.id) &&
    ps[3].player.id == ToTheLeft(ps[2].player.id)
  }

  /** A table whose first four players sit clockwise on different seats and
      hold different hand objects. */
  predicate ValidTable(ps: seq<DealtPlayer>) {
    TableShape(ps) &&
    AllDifferent(ps[0].player.id, ps[1].player.id, ps[2].player.id, ps[3].player.id) &&
    AllDifferent(ps[0].hand, ps[1].hand, ps[2].hand, ps[3].hand) &&
    Clockwise(ps)
  }

  /** `(k..k + 3).map { players[it % 4] }` for a start position `k` among the
      first four. */
  function RotateFrom<T>(ps: seq<T>, k: nat): seq<T>
    requires |ps| >= 4 && k < 4
  {
    [ps[k], ps[(k + 1) % 4], ps[(k + 2) % 4], ps[(k + 3) % 4]]
  }

  /** `DealtPlayers.next()`: `(1..5).map { players[it % 4] }`. The old second
      player becomes current, the first four entries are the old first four
      rotated left by one, and the fifth entry repeats the first. */
  function Next<T(==)>(ps: seq<T>): (r: seq<T>)
    requires |ps| >= 4
    ensures TableShape(r) && |r| == 5 && r[0] == ps[1]
    ensures r[..4] == RotateFrom(ps, 1)
  {
    [ps[1 % 4], ps[2 % 4], ps[3 % 4], ps[4 % 4], ps[5 % 4]]
  }

  /** `DealtPlayers.startWith(id)`: the four players from the first one with
      that id onward, wrapping round, so that the cyclic order is kept. On any
      list `DealtPlayers` is built from, that first position is among the
      first four. */
  function StartWith(ps: seq<DealtPlayer>, id: PlayerId): (r: seq<DealtPlayer>)
    requires TableShape(ps)
    requires IndexOfId(PlayersOf(ps), id).Some?
    ensures |r| == 4 && r[0].player.id == id
    ensures exists k :: 0 <= k < 4 && r == RotateFrom(ps, k)
  {
    var k := IndexOfId(PlayersOf(ps), id).value;
    assert k < 4;
    RotateFrom(ps, k)
  }

  /** Index of the first hand holding 2♣ (`firstOrNull { TWO of CLUBS in it.hand }`). */
  function HolderOfTwoOfClubs(hands: seq<seq<Card>>): (r: Option<nat>)
    ensures r.None? <==> forall i :: 0 <= i < |hands| ==> TwoOfClubs !in hands[i]
    ensures r.Some? ==> r.value < |hands| && TwoOfClubs in hands[r.value] &&
                        forall j :: 0 <= j < r.value ==> TwoOfClubs !in hands[j]
  {
    if hands == [] then None
    else if TwoOfClubs in hands[0] then Some(0)
    else match HolderOfTwoOfClubs(hands[1..])
      case None => None
      case Some(k) => Some(k + 1)
  }

  /** Position of the starting player after dealing: the holder of 2♣, or the
      first player when nobody holds it. */
  function StartIndex(hands: seq<seq<Card>>): (k: nat)
    ensures |hands| > 0 ==> k < |hands|
  {
    match HolderOfTwoOfClubs(hands)
    case Some(k) => k
    case None => 0
  }

  /** On a valid table the player at position `k` is the first with that seat,
      so `startWith` that seat rotates the table to start at `k`. */
  lemma StartWithAt(ps: seq<DealtPlayer>, k: nat)
    requires ValidTable(ps) && k < 4
    ensures IndexOfId(PlayersOf(ps), ps[k].player.id) == Some(k)
    ensures StartWith(ps, ps[k].player.id) == RotateFrom(ps, k)
  {
    assert PlayersOf(ps)[k].id == ps[k].player.id;
    var j := IndexOfId(PlayersOf(ps), ps[k].player.id).value;
    assert PlayersOf(ps)[j].id == ps[j].player.id;
  }

  /** Every seat is at a valid table, so `startWith` is defined for any seat. */
  lemma EverySeatAtTable(ps: seq<DealtPlayer>, id: PlayerId)
    requires ValidTable(ps)
    ensures exists k :: 0 <= k < 4 && ps[k].player.id == id && IndexOfId(PlayersOf(ps), id) == Some(k)
  {
    FourDistinctSeatsCoverAll(ps[0].player.id, ps[1].player.id, ps[2].player.id, ps[3].player.id, id);
    var k :| 0 <= k < 4 && ps[k].player.id == id;
    StartWithAt(ps, k);
  }

  /** Rotating keeps the four seats and hands different. */
  lemma RotateFromKeepsTableValid(ps: seq<DealtPlayer>, k: nat)
    requires ValidTable(ps) && k < 4
    ensures ValidTable(RotateFrom(ps, k))
  {
    if k == 0 {
    } else if k == 1 {
    } else if k == 2 {
    } else {
    }
  }

  /** Rotating the table rotates its players and its hands alike, and uses no
      hand from elsewhere. */
  lemma RotateFromCommutes(ps: seq<DealtPlayer>, k: nat)
    requires |ps| >= 4 && k < 4
    ensures PlayersOf(RotateFrom(ps, k)) == RotateFrom(PlayersOf(ps), k)
    ensures HandsOf(RotateFrom(ps, k)) <= HandsOf(ps)
    ensures HandCards(RotateFrom(ps, k)) == RotateFrom(HandCards(ps), k)
  {
    if k == 0 {
    } else if k == 1 {
    } else if k == 2 {
    } else {
    }
  }

  lemma NextKeepsTableValid(ps: seq<DealtPlayer>)
    requires ValidTable(ps)
    ensures ValidTable(Next(ps))
  {
  }

  lemma StartWithKeepsTableValid(ps: seq<DealtPlayer>, id: PlayerId)
    requires ValidTable(ps)
    ensures IndexOfId(PlayersOf(ps), id).Some?
    ensures ValidTable(StartWith(ps, id))
  {
    EverySeatAtTable(ps, id);
    var k :| 0 <= k < 4 && ps[k].player.id == id && IndexOfId(PlayersOf(ps), id) == Some(k);
    StartWithAt(ps, k);
    RotateFromKeepsTableValid(ps, k);
  }

  /** The "startWith retains order" scenario: from One, Two, Three, Four,
      startWith(Four), startWith(Three), then next(): Four is current. */
  lemma StartWithThenNext(ps: seq<DealtPlayer>)
    requires ValidTable(ps) && |ps| == 4
    requires ps[0].player.id == One && ps[1].player.id == Two
    requires ps[2].player.id == Three && ps[3].player.id == Four
    ensures IndexOfId(PlayersOf(ps), Four).Some?
    ensures IndexOfId(PlayersOf(StartWith(ps, Four)), Three).Some?
    ensures Next(StartWith(StartWith(ps, Four), Three))[0].player.id == Four
  {
    StartWithAt(ps, 3);
    var a := StartWith(ps, Four);
    RotateFromKeepsTableValid(ps, 3);
    assert a[3].player.id == Three;
    StartWithAt(a, 3);
  }

  /** What the dealer hands out to four players, in join order. */
  function DealtHands(ps: seq<Player>, dealer: PlayerName -> seq<Card>): seq<seq<Card>>
    requires |ps| >= 4
  {
    [dealer(ps[0].name), dealer(ps[1].name), dealer(ps[2].name), dealer(ps[3].name)]
  }

  /** The player who starts a deal holds 2♣, and is its first holder in join
      order; when nobody holds it the first player starts. */
  lemma StartingPlayerHoldsTwoOfClubs(hands: seq<seq<Card>>)
    requires |hands| == 4
    ensures var k := StartIndex(hands);
      k < 4 &&
      (TwoOfClubs in RotateFrom(hands, k)[0] <==> exists i :: 0 <= i < 4 && TwoOfClubs in hands[i]) &&
      (forall j :: 0 <= j < k ==> TwoOfClubs !in hands[j]) &&
      (TwoOfClubs !in RotateFrom(hands, k)[0] ==> k == 0)
  {
  }

  /** `DealtPlayers(dealtPlayers)` (the companion `invoke`): `startWith` the
      holder of 2♣, or the first player. */
  function Arrange(dealt: seq<DealtPlayer>): (r: seq<DealtPlayer>)
    requires ValidTable(dealt)
    reads HandsOf(dealt)
    ensures ValidTable(r)
    ensures StartIndex(HandCards(dealt)) < 4 && r == RotateFrom(dealt, StartIndex(HandCards(dealt)))
  {
    var k := StartIndex(HandCards(dealt));
    StartWithAt(dealt, k);
    RotateFromKeepsTableValid(dealt, k);
    StartWith(dealt, dealt[k].player.id)
  }

  // ---------------------------------------------------------------- DealtPlayer.play

  /** The checks of `DealtPlayer.play` (Game.kt), in order: the card is in the
      hand, then a holder of 2♣ must play 2♣. */
  function PlayCheck(name: PlayerName, hand: seq<Card>, card: Card): Result<()> {
    if card !in hand then Rejected(DoesNotHave(name, card))
    else if TwoOfClubs in hand && card != TwoOfClubs then Rejected(MustPlayTwoOfClubs(name))
    else Ok(())
  }

  /** A play is accepted exactly when the card is held and is 2♣ whenever 2♣
      is held; a missing card is reported before the 2♣ rule; an accepted card
      leaves the hand exactly once. */
  lemma PlayCheckAccepts(name: PlayerName, hand: seq<Card>, card: Card)
    ensures PlayCheck(name, hand, card).Ok? <==>
              card in hand && (TwoOfClubs in hand ==> card == TwoOfClubs)
    ensures card !in hand ==> PlayCheck(name, hand, card) == Rejected(DoesNotHave(name, card))
    ensures PlayCheck(name, hand, card).Ok? ==>
              |RemoveFirst(hand, card)| == |hand| - 1 &&
              multiset(RemoveFirst(hand, card)) == multiset(hand) - multiset{card}
  {
  }

  /** `DealtPlayer.play(card)`: checks, then `hand.remove(card)`. */
  method PlayFromHand(p: DealtPlayer, card: Card) returns (r: Result<()>)
    modifies p.hand
    ensures r == PlayCheck(p.player.name, old(p.hand.cards), card)
    ensures p.hand.cards == if r.Ok? then RemoveFirst(old(p.hand.cards), card) else old(p.hand.cards)
  {
    r := PlayCheck(p.player.name, p.hand.cards, card);
    if r.Ok? {
      p.hand.cards := RemoveFirst(p.hand.cards, card);
    }
  }

  // ---------------------------------------------------------------- GameState

  predicate ValidState(s: GameState) {
    match s
    case Open(ps) => |ps| <= 3 && Seated(ps)
    case Full(ps) => |ps| == 4 && Seated(ps)
    case Started(ds, t) => ValidTable(ds) && |t| < 4
  }

  function StateHands(s: GameState): set<CardDeque> {
    if s.Started? && |s.dealtPlayers| >= 4 then HandsOf(s.dealtPlayers) else {}
  }

  /** `Full.deal(dealer)`, that is `Started.Started(players, dealer)`: every
      player in join order gets a fresh hand with what the dealer hands out for
      their name, and the table starts with the holder of 2♣, or with the
      first player. */
  method Deal(ps: seq<Player>, dealer: PlayerName -> seq<Card>) returns (table: seq<DealtPlayer>)
    requires |ps| == 4 && Seated(ps)
    ensures ValidTable(table) && fresh(HandsOf(table))
    ensures var hands := DealtHands(ps, dealer);
      var k := StartIndex(hands);
      k < 4 &&
      PlayersOf(table) == RotateFrom(ps, k) &&
      HandCards(table) == RotateFrom(hands, k)
  {
    var dealt := DealEach(ps, dealer);
    var k := StartIndex(HandCards(dealt));
    table := Arrange(dealt);
    RotateFromCommutes(dealt, k);
  }

  /** `players.map { player -> player.deal(dealer) }`: one fresh hand per
      player, in join order. */
  method DealEach(ps: seq<Player>, dealer: PlayerName -> seq<Card>) returns (dealt: seq<DealtPlayer>)
    requires |ps| == 4 && Seated(ps)
    ensures ValidTable(dealt) && fresh(HandsOf(dealt))
    ensures PlayersOf(dealt) == ps && HandCards(dealt) == DealtHands(ps, dealer)
  {
    var h0 := new CardDeque(dealer(ps[0].name));
    var h1 := new CardDeque(dealer(ps[1].name));
    var h2 := new CardDeque(dealer(ps[2].name));
    var h3 := new CardDeque(dealer(ps[3].name));
    dealt := [DealtPlayer(ps[0], h0), DealtPlayer(ps[1], h1), DealtPlayer(ps[2], h2), DealtPlayer(ps[3], h3)];
    assert ps[0].id == One && ps[1].id == Two && ps[2].id == Three && ps[3].id == Four;
    assert PlayersOf(dealt) == ps;
  }

  /** What the card played by `playedBy` runs into, given the table and the
      contents of its first four hands: an unknown name, a player who is not
      the current one, or the checks of `DealtPlayer.play` on the current
      player's hand. */
  function Verdict(ds: seq<DealtPlayer>, hands: seq<seq<Card>>, card: Card, playedBy: PlayerName): Result<()>
    requires |ds| >= 4 && |hands| == 4
  {
    match IndexOfName(PlayersOf(ds), playedBy)
    case None => Faulted(NoPlayerNamed(playedBy))
    case Some(i) =>
      if ds[i].player != ds[0].player then Rejected(NotYourTurn(playedBy))
      else PlayCheck(playedBy, hands[0], card)
  }

  /** Only the current player can have a card accepted, and only one that
      passes the checks on their own hand. The turn is checked first: a seated
      player out of turn is told so whatever their hand holds. */
  lemma OnlyCurrentPlayerPlays(ds: seq<DealtPlayer>, hands: seq<seq<Card>>, card: Card, playedBy: PlayerName)
    requires ValidTable(ds) && |hands| == 4
    ensures Verdict(ds, hands, card, playedBy).Ok? <==>
              ds[0].player.name == playedBy && PlayCheck(playedBy, hands[0], card).Ok?
    ensures forall i :: IndexOfName(PlayersOf(ds), playedBy) == Some(i) && ds[i].player != ds[0].player ==>
              Verdict(ds, hands, card, playedBy) == Rejected(NotYourTurn(playedBy))
  {
    var seat := IndexOfName(PlayersOf(ds), playedBy);
    if ds[0].player.name == playedBy {
      assert PlayersOf(ds)[0].name == playedBy;
    }
    if seat.Some? && ds[seat.value].player == ds[0].player {
      assert PlayersOf(ds)[0].name == playedBy;
    }
  }

  /** `addToTrick(card, playerId).nextPlayer()`: the card joins the trick for
      the current player; a fourth card hands the lead to the trick's winner
      with an empty trick, otherwise the turn passes with `next()`. */
  function AfterPlay(ds: seq<DealtPlayer>, t: Trick, card: Card): (s: GameState)
    requires ValidTable(ds)
  {
    var t' := Add(t, card, ds[0].player.id);
    match Winner(t')
    case Some(w) =>
      StartWithKeepsTableValid(ds, w);
      Started(StartWith(ds, w), [])
    case None => Started(Next(ds), t')
  }

  /** After a card the table is still valid and the trick unfinished. When the
      card finished the trick, its winner leads an empty trick; otherwise the
      player to the left of the one who played is next. */
  lemma AfterPlayKeepsStateValid(ds: seq<DealtPlayer>, t: Trick, card: Card)
    requires ValidTable(ds) && |t| < 4
    ensures ValidState(AfterPlay(ds, t, card))
    ensures var s := AfterPlay(ds, t, card);
      var t' := Add(t, card, ds[0].player.id);
      (|t'| == 4 ==> s.currentTrick == [] && s.dealtPlayers[0].player.id == Winner(t').value) &&
      (|t'| < 4 ==> s.currentTrick == t' && s.dealtPlayers[0].player.id == ToTheLeft(ds[0].player.id))
  {
    var t' := Add(t, card, ds[0].player.id);
    if |t'| == 4 {
      StartWithKeepsTableValid(ds, Winner(t').value);
    } else {
      NextKeepsTableValid(ds);
    }
  }

  /** A card new to the trick adds one entry to it, so four accepted cards of
      four different players finish it. */
  lemma AddGrowsTrick(t: Trick, card: Card, id: PlayerId)
    requires card !in CardsOf(t)
    ensures |Add(t, card, id)| == |t| + 1
    ensures CardsOf(Add(t, card, id)) == CardsOf(t) + [card]
  {
  }

  /** The whole hand contents after the current player's accepted card. */
  function Played(hands: seq<seq<Card>>, card: Card): seq<seq<Card>>
    requires |hands| == 4
  {
    hands[0 := RemoveFirst(hands[0], card)]
  }

  /** `Started.playCard(card, playedBy)`: on a rejected card nothing changes;
      on an accepted one the current player's hand loses it and the game moves
      on as `AfterPlay` says. */
  method PlayInTable(ds: seq<DealtPlayer>, t: Trick, card: Card, playedBy: PlayerName)
    returns (r: Result<()>, next: GameState)
    requires ValidTable(ds) && |t| < 4
    modifies HandsOf(ds)
    ensures r == Verdict(ds, old(HandCards(ds)), card, playedBy)
    ensures r.Ok? ==> next == AfterPlay(ds, t, card) && HandCards(ds) == Played(old(HandCards(ds)), card)
    ensures !r.Ok? ==> next == Started(ds, t) && HandCards(ds) == old(HandCards(ds))
  {
    next := Started(ds, t);
    var seat := IndexOfName(PlayersOf(ds), playedBy);
    if seat.None? {
      return Faulted(NoPlayerNamed(playedBy)), next;
    }
    var p := ds[seat.value];
    if p.player != ds[0].player {
      return Rejected(NotYourTurn(playedBy)), next;
    }
    assert seat.value == 0;
    ghost var before := HandCards(ds);
    assert ds[1].hand != p.hand && ds[2].hand != p.hand && ds[3].hand != p.hand;
    r := PlayFromHand(p, card);
    assert HandCards(ds) == before[0 := p.hand.cards];
    if r.Ok? {
      next := AfterPlay(ds, t, card);
    }
  }

  // ---------------------------------------------------------------- Game

  class Game {
    var state: GameState

    ghost predicate Valid()
      reads this
    {
      ValidState(state)
    }

    /** `Game()`: an Open game with nobody seated. */
    constructor()
      ensures Valid() && state == Open([])
    {
      state := Open([]);
    }

    /** `Game(state)`: a game resumed from a given state. Only states that
        the engine itself can reach are admitted. */
    constructor WithState(s: GameState)
      requires ValidState(s)
      ensures Valid() && state == s
    {
      state := s;
    }

    /** `isStarted()` */
    function IsStarted(): bool
      reads this
    {
      state.Started?
    }

    /** `whoseTurnIsIt()`: the name of the current player, the head of the
        table; before the start there is no turn. */
    function WhoseTurnIsIt(): (r: Result<PlayerName>)
      requires Valid()
      reads this
      ensures r.Ok? <==> state.Started?
      ensures !r.Ok? ==> r == Faulted(GameHasNotStartedYet)
      ensures r.Ok? ==> r.value == PlayersOf(state.dealtPlayers)[0].name
    {
      if state.Started? then Ok(state.dealtPlayers[0].player.name) else Faulted(GameHasNotStartedYet)
    }

    /** `peekIntoHandOf(name)`: the hand of the first player with that name. */
    function PeekIntoHandOf(name: PlayerName): (r: Result<seq<Card>>)
      requires Valid()
      reads this, StateHands(state)
      ensures r.Ok? <==>
                state.Started? && exists i :: 0 <= i < |state.dealtPlayers| && state.dealtPlayers[i].player.name == name
      ensures !state.Started? ==> r == Faulted(GameHasNotStartedYet)
      ensures r.Ok? ==>
                exists i :: (0 <= i < |state.dealtPlayers| &&
                             state.dealtPlayers[i].player.name == name && r.value == state.dealtPlayers[i].hand.cards &&
                             forall j :: 0 <= j < i ==> state.dealtPlayers[j].player.name != name)
    {
      if !state.Started? then Faulted(GameHasNotStartedYet)
      else match IndexOfName(PlayersOf(state.dealtPlayers), name)
        case None => Faulted(NoPlayerNamed(name))
        case Some(i) => Ok(state.dealtPlayers[i].hand.cards)
    }

    /** `join(player)` */
    method Join(name: PlayerName) returns (r: PlayerJoinResponse)
      requires Valid()
      modifies this
      ensures Valid()
      ensures old(state).Open? ==> r == PlayerJoined && state == JoinOpen(old(state).players, name)
      ensures old(state).Full? ==>
                r == PlayerCouldNotJoin(name, "Game already has four players") && state == old(state)
      ensures old(state).Started? ==> r == PlayerCouldNotJoin(name, "Game has started") && state == old(state)
    {
      match state
      case Open(ps) =>
        state := JoinOpen(ps, name);
        r := PlayerJoined;
      case Full(_) =>
        r := PlayerCouldNotJoin(name, "Game already has four players");
      case Started(_, _) =>
        r := PlayerCouldNotJoin(name, "Game has started");
    }

    /** `start(dealer)`: only a Full game starts; it is then dealt as `Deal` says. */
    method Start(dealer: PlayerName -> seq<Card>) returns (r: StartGameResponse)
      requires Valid()
      modifies this
      ensures Valid()
      ensures IsStarted() <==> old(state).Full? || old(state).Started?
      ensures old(state).Open? ==> r == GameHasNotStarted("Not enough players joined") && state == old(state)
      ensures old(state).Started? ==> r == GameHasNotStarted("Game was started already") && state == old(state)
      ensures old(state).Full? ==>
                r == GameHasStarted && state.Started? && state.currentTrick == [] &&
                fresh(StateHands(state)) &&
                var hands := DealtHands(old(state.players), dealer);
                var k := StartIndex(hands);
                k < 4 &&
                PlayersOf(state.dealtPlayers) == RotateFrom(old(state.players), k) &&
                HandCards(state.dealtPlayers) == RotateFrom(hands, k)
    {
      match state
      case Open(_) =>
        r := GameHasNotStarted("Not enough players joined");
      case Started(_, _) =>
        r := GameHasNotStarted("Game was started already");
      case Full(ps) =>
        var table := Deal(ps, dealer);
        state := Started(table, []);
        r := GameHasStarted;
    }

    /** `playCard(card, playedBy)`: outside a started game it fails; otherwise
        the started state plays the card as `PlayInTable` says. */
    method PlayCard(card: Card, playedBy: PlayerName) returns (r: Result<()>)
      requires Valid()
      modifies this, StateHands(state)
      ensures Valid()
      ensures !old(state).Started? ==> r == Faulted(GameHasNotStartedYet) && state == old(state)
      ensures old(state).Started? ==>
                var ds := old(state.dealtPlayers);
                r == Verdict(ds, old(HandCards(ds)), card, playedBy) &&
                (r.Ok? ==>
                   state == AfterPlay(ds, old(state.currentTrick), card) &&
                   HandCards(ds) == Played(old(HandCards(ds)), card)) &&
                (!r.Ok? ==> state == old(state) && HandCards(ds) == old(HandCards(ds)))
    {
      if !state.Started? {
        return Faulted(GameHasNotStartedYet);
      }
      var ds, t := state.dealtPlayers, state.currentTrick;
      var next;
      r, next := PlayInTable(ds, t, card, playedBy);
      AfterPlayKeepsStateValid(ds, t, card);
      state := next;
    }
  }

  // ---------------------------------------------------------------- scenarios

  /** Four joins fill the game in join order; a fifth is turned away. */
  method FifthPlayerIsTurnedAway(a: PlayerName, b: PlayerName, c: PlayerName, d: PlayerName, e: PlayerName)
    returns (joins: seq<PlayerJoinResponse>, fifth: PlayerJoinResponse, seats: seq<Player>)
    ensures joins == [PlayerJoined, PlayerJoined, PlayerJoined, PlayerJoined]
    ensures fifth == PlayerCouldNotJoin(e, "Game already has four players")
    ensures seats == [Player(One, a), Player(Two, b), Player(Three, c), Player(Four, d)]
  {
    var g := new Game();
    var r1 := g.Join(a);
    var r2 := g.Join(b);
    var r3 := g.Join(c);
    var r4 := g.Join(d);
    joins := [r1, r2, r3, r4];
    seats := g.state.players;
    fifth := g.Join(e);
  }

  /** A dealer for the opening scenario: Bob holds 2♣. */
  function OpeningDealer(name: PlayerName): seq<Card> {
    if name == "Bob" then [TwoOfClubs, Card(SIX, DIAMONDS)]
    else if name == "Mary" then [Card(TWO, HEARTS), Card(TEN, CLUBS)]
    else if name == "Joe" then [Card(KING, HEARTS)]
    else [Card(THREE, CLUBS)]
  }

  /** Mary, Joe and Bob join, Bob's attempt to play is refused because the
      game has not started, and Jane fills the table. */
  method SeatOpeningTable() returns (g: Game, tooEarly: Result<()>)
    ensures fresh(g) && g.Valid()
    ensures tooEarly == Faulted(GameHasNotStartedYet)
    ensures g.state == Full([Player(One, "Mary"), Player(Two, "Joe"), Player(Three, "Bob"), Player(Four, "Jane")])
  {
    g := new Game();
    var _ := g.Join("Mary");
    var _ := g.Join("Joe");
    var _ := g.Join("Bob");
    tooEarly := g.PlayCard(TwoOfClubs, "Bob");
    var _ := g.Join("Jane");
  }

  /** Mary, Joe, Bob and Jane join; nobody can play before the game starts;
      once it starts with `OpeningDealer`, Bob, who holds 2♣, leads. */
  method StartOpeningGame() returns (g: Game, tooEarly: Result<()>)
    ensures fresh(g) && g.Valid()
    ensures tooEarly == Faulted(GameHasNotStartedYet)
    ensures g.state.Started? && g.state.currentTrick == [] && fresh(StateHands(g.state))
    ensures PlayersOf(g.state.dealtPlayers) ==
              [Player(Three, "Bob"), Player(Four, "Jane"), Player(One, "Mary"), Player(Two, "Joe")]
    ensures HandCards(g.state.dealtPlayers)[0] == [TwoOfClubs, Card(SIX, DIAMONDS)]
  {
    g, tooEarly := SeatOpeningTable();
    var seated := [Player(One, "Mary"), Player(Two, "Joe"), Player(Three, "Bob"), Player(Four, "Jane")];
    var hands := DealtHands(seated, OpeningDealer);
    assert HolderOfTwoOfClubs(hands) == Some(2) by {
      assert TwoOfClubs !in hands[0] && TwoOfClubs !in hands[1] && TwoOfClubs in hands[2];
      assert hands[1..][1..] == hands[2..];
    }
    var _ := g.Start(OpeningDealer);
  }

  /** Bob leads; he cannot open with another card than 2♣; after his 2♣ it is
      not Mary's turn but Jane's, who sits to his left. */
  method OpeningTurns()
    returns (turn: Result<PlayerName>, wrongCard: Result<()>,
             bobPlays: Result<()>, maryPlays: Result<()>, next: Result<PlayerName>)
    ensures turn == Ok("Bob")
    ensures wrongCard == Rejected(MustPlayTwoOfClubs("Bob"))
    ensures bobPlays == Ok(())
    ensures maryPlays == Rejected(NotYourTurn("Mary"))
    ensures next == Ok("Jane")
  {
    var g, _ := StartOpeningGame();
    turn, wrongCard, bobPlays := BobOpens(g);
    maryPlays, next := MaryOutOfTurn(g);
  }

  /** From the opening table: Bob is to play, 6♦ is refused because he holds
      2♣, and 2♣ is accepted, after which Jane and then Mary are next. */
  method BobOpens(g: Game) returns (turn: Result<PlayerName>, wrongCard: Result<()>, bobPlays: Result<()>)
    requires g.Valid() && g.state.Started? && g.state.currentTrick == []
    requires PlayersOf(g.state.dealtPlayers) ==
               [Player(Three, "Bob"), Player(Four, "Jane"), Player(One, "Mary"), Player(Two, "Joe")]
    requires HandCards(g.state.dealtPlayers)[0] == [TwoOfClubs, Card(SIX, DIAMONDS)]
    modifies g, StateHands(g.state)
    ensures g.Valid() && g.state.Started? && StateHands(g.state) == old(StateHands(g.state))
    ensures turn == Ok("Bob")
    ensures wrongCard == Rejected(MustPlayTwoOfClubs("Bob"))
    ensures bobPlays == Ok(())
    ensures PlayersOf(g.state.dealtPlayers)[0] == Player(Four, "Jane")
    ensures PlayersOf(g.state.dealtPlayers)[1] == Player(One, "Mary")
  {
    var table := g.state.dealtPlayers;
    assert PlayersOf(table)[0] == Player(Three, "Bob");
    turn := g.WhoseTurnIsIt();
    wrongCard := g.PlayCard(Card(SIX, DIAMONDS), "Bob");
    assert g.state == old(g.state);
    bobPlays := g.PlayCard(TwoOfClubs, "Bob");
    assert Add([], TwoOfClubs, Three) == [(TwoOfClubs, Three)];
    assert g.state == Started(Next(table), [(TwoOfClubs, Three)]);
    assert PlayersOf(Next(table))[0] == PlayersOf(table)[1];
    assert PlayersOf(Next(table))[1] == PlayersOf(table)[2];
  }

  /** Once Jane is to play, Mary is refused as out of turn and it stays Jane's
      turn. */
  method MaryOutOfTurn(g: Game) returns (maryPlays: Result<()>, next: Result<PlayerName>)
    requires g.Valid() && g.state.Started?
    requires PlayersOf(g.state.dealtPlayers)[0] == Player(Four, "Jane")
    requires PlayersOf(g.state.dealtPlayers)[1] == Player(One, "Mary")
    modifies g, StateHands(g.state)
    ensures maryPlays == Rejected(NotYourTurn("Mary"))
    ensures next == Ok("Jane")
  {
    assert IndexOfName(PlayersOf(g.state.dealtPlayers), "Mary") == Some(1);
    maryPlays := g.PlayCard(Card(TWO, HEARTS), "Mary");
    next := g.WhoseTurnIsIt();
  }
}
