/** The append-only event log of the event-sourced engine (GameEvents.kt):
    deal ids, the events, the log with its synchronously notified listeners,
    and the queries `currentDealId`, `currentDealEvents` and
    `filterIsInstance`. */
module Events {
  import opened Cards
  import opened PassingRules

  // ---------------------------------------------------------------- DealId

  /** A Kotlin `Int`. */
  newtype Int32 = x: int | -0x8000_0000 <= x < 0x8000_0000

  /** `DealId(value)`, a value class over `Int`. */
  datatype DealId = DealId(value: Int32)

  /** `DealId.First` */
  const FirstDeal: DealId := DealId(1)

  /** `next()`: `value + 1` in 32-bit arithmetic, which wraps round from the
      largest `Int` to the smallest. */
  function NextDeal(d: DealId): DealId {
    if d.value == 0x7fff_ffff then DealId(-0x8000_0000) else DealId(d.value + 1)
  }

  /** The id of the deal after `n` calls of `next()` on `First`. */
  function NthDeal(n: nat): DealId {
    if n == 0 then FirstDeal else NextDeal(NthDeal(n - 1))
  }

  /** The ids count up from 1 as long as `Int` does not overflow, so they are
      all different; the 2147483647th `next()` wraps round to a negative id. */
  lemma {:induction false} DealIdsCountUp(n: nat)
    requires n < 0x7fff_ffff
    ensures NthDeal(n).value as int == n + 1
  {
    if n > 0 {
      DealIdsCountUp(n - 1);
    }
  }

  lemma NextDealWraps()
    ensures NextDeal(DealId(0x7fff_ffff)) == DealId(-0x8000_0000)
    ensures NextDeal(FirstDeal) == DealId(2)
  {
  }

  // ---------------------------------------------------------------- events

  /** `GameEvent` and its implementations. `PlayerPassedCards` is a plain
      `GameEvent`; the four others with a deal id are `DealEvent`s. */
  datatype GameEvent =
    | GameCreated
    | PlayerJoined(playerName: PlayerName)
    | GameStarted(passingRule: PassingRule)
    | DealStarted(dealId: DealId)
    | PlayerWasDealtHand(dealId: DealId, playerId: PlayerId, hand: seq<Card>)
    | CardPlayed(dealId: DealId, playedBy: PlayerId, card: Card)
    | AllPlayersPassedCards(dealId: DealId)
    | PlayerPassedCards(passedBy: PlayerId, cards: CardSet, passedTo: PlayerId)

  /** `is DealEvent` */
  predicate IsDealEvent(e: GameEvent) {
    e.DealStarted? || e.PlayerWasDealtHand? || e.CardPlayed? || e.AllPlayersPassedCards?
  }

  /** The `KClass` a listener is registered for: an event class, or one of
      the interfaces `GameEvent` and `DealEvent`. */
  datatype EventClass =
    | AnyGameEvent | AnyDealEvent
    | GameCreatedClass | PlayerJoinedClass | GameStartedClass | DealStartedClass
    | PlayerWasDealtHandClass | CardPlayedClass | AllPlayersPassedCardsClass | PlayerPassedCardsClass

  /** `eventClass.isInstance(event)` */
  predicate IsInstance(c: EventClass, e: GameEvent) {
    match c
    case AnyGameEvent => true
    case AnyDealEvent => IsDealEvent(e)
    case GameCreatedClass => e.GameCreated?
    case PlayerJoinedClass => e.PlayerJoined?
    case GameStartedClass => e.GameStarted?
    case DealStartedClass => e.DealStarted?
    case PlayerWasDealtHandClass => e.PlayerWasDealtHand?
    case CardPlayedClass => e.CardPlayed?
    case AllPlayersPassedCardsClass => e.AllPlayersPassedCards?
    case PlayerPassedCardsClass => e.PlayerPassedCards?
  }

  // ---------------------------------------------------------------- queries

  /** `filterIsInstance<E>()`: the events of class `c`, in log order. */
  function FilterIsInstance(events: seq<GameEvent>, c: EventClass): seq<GameEvent> {
    if events == [] then []
    else (if IsInstance(c, events[0]) then [events[0]] else []) + FilterIsInstance(events[1..], c)
  }

  /** The filter keeps exactly the events of class `c`, and no more events
      than the log holds. */
  lemma {:induction false} FilterIsInstanceMembers(events: seq<GameEvent>, c: EventClass)
    ensures forall e :: e in FilterIsInstance(events, c) <==> e in events && IsInstance(c, e)
    ensures |FilterIsInstance(events, c)| <= |events|
  {
    if events != [] {
      FilterIsInstanceMembers(events[1..], c);
      assert events == [events[0]] + events[1..];
    }
  }

  /** Filtering a log in two parts filters each part and keeps their order. */
  lemma {:induction false} FilterIsInstanceAppend(a: seq<GameEvent>, b: seq<GameEvent>, c: EventClass)
    ensures FilterIsInstance(a + b, c) == FilterIsInstance(a, c) + FilterIsInstance(b, c)
  {
    if a != [] {
      assert (a + b)[1..] == a[1..] + b;
      FilterIsInstanceAppend(a[1..], b, c);
    } else {
      assert a + b == b;
    }
  }

  /** `currentDealId`: the deal id of the last `DealStarted`; without one the
      log cannot tell the current deal. */
  function CurrentDealId(events: seq<GameEvent>): Result<DealId> {
    var started := FilterIsInstance(events, DealStartedClass);
    if started == [] then Rejected(NoCurrentDeal)
    else
      var last := started[|started| - 1];
      FilterIsInstanceMembers(events, DealStartedClass);
      assert last in started;
      Ok(last.dealId)
  }

  /** The current deal is the one the last `DealStarted` opened, and a log
      with no `DealStarted` has none. */
  lemma CurrentDealIdIsLastStarted(events: seq<GameEvent>, d: DealId)
    ensures CurrentDealId(events + [DealStarted(d)]) == Ok(d)
    ensures (forall i :: 0 <= i < |events| ==> !events[i].DealStarted?) ==>
              CurrentDealId(events) == Rejected(NoCurrentDeal)
  {
    FilterIsInstanceAppend(events, [DealStarted(d)], DealStartedClass);
    assert FilterIsInstance([DealStarted(d)], DealStartedClass) == [DealStarted(d)];
    var started := FilterIsInstance(events, DealStartedClass);
    if started != [] {
      FilterIsInstanceMembers(events, DealStartedClass);
      assert started[0] in started;
    }
  }

  /** Publishing any event other than `DealStarted` keeps the current deal. */
  lemma CurrentDealIdKeptByOtherEvents(events: seq<GameEvent>, e: GameEvent)
    requires !e.DealStarted?
    ensures CurrentDealId(events + [e]) == CurrentDealId(events)
  {
    FilterIsInstanceAppend(events, [e], DealStartedClass);
    assert FilterIsInstance([e], DealStartedClass) == [];
  }

  /** The deal events of deal `d`, in log order. */
  function DealEventsOf(events: seq<GameEvent>, d: DealId): seq<GameEvent> {
    if events == [] then []
    else
      var e := events[0];
      (if IsDealEvent(e) && e.dealId == d then [e] else []) + DealEventsOf(events[1..], d)
  }

  /** The events of deal `d` are the log's deal events carrying `d`. */
  lemma {:induction false} DealEventsOfMembers(events: seq<GameEvent>, d: DealId)
    ensures forall e :: e in DealEventsOf(events, d) <==> e in events && IsDealEvent(e) && e.dealId == d
  {
    if events != [] {
      DealEventsOfMembers(events[1..], d);
      assert events == [events[0]] + events[1..];
    }
  }

  /** Filtering a log in two parts filters each part and keeps their order. */
  lemma {:induction false} DealEventsOfAppend(a: seq<GameEvent>, b: seq<GameEvent>, d: DealId)
    ensures DealEventsOf(a + b, d) == DealEventsOf(a, d) + DealEventsOf(b, d)
  {
    if a != [] {
      assert (a + b)[1..] == a[1..] + b;
      DealEventsOfAppend(a[1..], b, d);
    } else {
      assert a + b == b;
    }
  }

  /** `currentDealEvents`: `filter { (it as? DealEvent)?.dealId == currentDealId }`.
      The getter `currentDealId` is evaluated once per event, so an empty log
      gives no events even without a deal, while any other log without a
      `DealStarted` fails. */
  function CurrentDealEvents(events: seq<GameEvent>): Result<seq<GameEvent>> {
    if events == [] then Ok([])
    else match CurrentDealId(events)
      case Ok(d) => Ok(DealEventsOf(events, d))
      case Rejected(e) => Rejected(e)
      case Faulted(f) => Faulted(f)
  }

  /** The current deal's events are exactly the deal events of the log that
      carry its id, in log order; `GameCreated`, `PlayerJoined`, `GameStarted`
      and `PlayerPassedCards` are never among them. */
  lemma CurrentDealEventsSpec(events: seq<GameEvent>)
    ensures CurrentDealEvents(events).Ok? <==> events == [] || CurrentDealId(events).Ok?
    ensures CurrentDealEvents(events).Ok? ==>
              forall e :: e in CurrentDealEvents(events).value ==>
                e in events && IsDealEvent(e) && Ok(e.dealId) == CurrentDealId(events) &&
                !e.GameCreated? && !e.PlayerJoined? && !e.GameStarted? && !e.PlayerPassedCards?
    ensures events != [] && CurrentDealId(events).Ok? ==>
              forall e :: e in events && IsDealEvent(e) && Ok(e.dealId) == CurrentDealId(events) ==>
                e in CurrentDealEvents(events).value
  {
    if events != [] && CurrentDealId(events).Ok? {
      DealEventsOfMembers(events, CurrentDealId(events).value);
    }
  }

  /** A new deal starts with an empty set of current events apart from its
      own `DealStarted`: the events of earlier deals drop out, whatever ids
      they carry, as long as they differ from the new one. */
  lemma NewDealStartsAfresh(events: seq<GameEvent>, d: DealId)
    requires forall i :: 0 <= i < |events| ==> !(IsDealEvent(events[i]) && events[i].dealId == d)
    ensures CurrentDealEvents(events + [DealStarted(d)]) == Ok([DealStarted(d)])
  {
    CurrentDealIdIsLastStarted(events, d);
    NoEventsOfUnusedDeal(events, d);
    DealEventsOfAppend(events, [DealStarted(d)], d);
    assert [DealStarted(d)][1..] == [];
    assert DealEventsOf([DealStarted(d)], d) == [DealStarted(d)];
    var log := events + [DealStarted(d)];
    assert log != [] && CurrentDealId(log) == Ok(d);
    assert DealEventsOf(log, d) == [DealStarted(d)];
  }

  /** A deal id that no deal event carries has no events. */
  lemma {:induction false} NoEventsOfUnusedDeal(events: seq<GameEvent>, d: DealId)
    requires forall i :: 0 <= i < |events| ==> !(IsDealEvent(events[i]) && events[i].dealId == d)
    ensures DealEventsOf(events, d) == []
  {
    if events != [] {
      assert !(IsDealEvent(events[0]) && events[0].dealId == d);
      assert forall i :: 0 <= i < |events[1..]| ==> events[1..][i] == events[i + 1];
      NoEventsOfUnusedDeal(events[1..], d);
    }
  }

  // ---------------------------------------------------------------- listeners

  /** A registered listener, told apart by the number it was registered with. */
  type ListenerId = nat

  /** The calls `publish(e)` makes, in order, to the given registrations:
      one call per registration whose class matches `e`. */
  function Notifications(listeners: seq<(EventClass, ListenerId)>, e: GameEvent): seq<(ListenerId, GameEvent)>
    decreases |listeners|
  {
    if listeners == [] then []
    else
      var last := listeners[|listeners| - 1];
      Notifications(listeners[..|listeners| - 1], e) + (if IsInstance(last.0, e) then [(last.1, e)] else [])
  }

  /** Listeners are called in registration order: the calls for two groups of
      registrations are the calls for the first group, then for the second. */
  lemma {:induction false} NotificationsInRegistrationOrder(a: seq<(EventClass, ListenerId)>, b: seq<(EventClass, ListenerId)>, e: GameEvent)
    ensures Notifications(a + b, e) == Notifications(a, e) + Notifications(b, e)
    decreases |b|
  {
    if b == [] {
      assert a + b == a;
    } else {
      var init := b[..|b| - 1];
      assert (a + b)[..|a + b| - 1] == a + init;
      assert (a + b)[|a + b| - 1] == b[|b| - 1];
      NotificationsInRegistrationOrder(a, init, e);
    }
  }

  /** One registration is called exactly when its class matches the event. */
  lemma NotifiedOnceIfMatching(c: EventClass, id: ListenerId, e: GameEvent)
    ensures Notifications([(c, id)], e) == if IsInstance(c, e) then [(id, e)] else []
  {
    assert [(c, id)][..0] == [];
  }

  /** Every call passes the published event to a listener registered for a
      matching class, and there is one call per matching registration. */
  lemma {:induction false} NotificationsAreMatching(listeners: seq<(EventClass, ListenerId)>, e: GameEvent)
    ensures forall n :: n in Notifications(listeners, e) ==>
              n.1 == e && exists i :: 0 <= i < |listeners| && listeners[i].1 == n.0 && IsInstance(listeners[i].0, e)
    ensures |Notifications(listeners, e)| == |FilterMatching(listeners, e)|
    decreases |listeners|
  {
    if listeners != [] {
      var init := listeners[..|listeners| - 1];
      NotificationsAreMatching(init, e);
      forall n | n in Notifications(listeners, e)
        ensures n.1 == e && exists i :: 0 <= i < |listeners| && listeners[i].1 == n.0 && IsInstance(listeners[i].0, e)
      {
        if n in Notifications(init, e) {
          var i :| 0 <= i < |init| && init[i].1 == n.0 && IsInstance(init[i].0, e);
          assert listeners[i] == init[i];
        } else {
          assert n == (listeners[|listeners| - 1].1, e);
        }
      }
    }
  }

  /** The registrations whose class matches `e`, in order. */
  function FilterMatching(listeners: seq<(EventClass, ListenerId)>, e: GameEvent): seq<(EventClass, ListenerId)>
    decreases |listeners|
  {
    if listeners == [] then []
    else
      var last := listeners[|listeners| - 1];
      FilterMatching(listeners[..|listeners| - 1], e) + (if IsInstance(last.0, e) then [last] else [])
  }

  /** `GameEvents`: the event list, the registered listeners, and the trace
      of listener calls made so far. */
  class GameEvents {
    var events: seq<GameEvent>
    var listeners: seq<(EventClass, ListenerId)>
    var notified: seq<(ListenerId, GameEvent)>

    /** `GameEvents()`: an empty log with no listeners. */
    constructor()
      ensures events == [] && listeners == [] && notified == []
    {
      events := [];
      listeners := [];
      notified := [];
    }

    /** `publish(gameEvent)`: append the event, then call each matching
        listener in registration order. */
    method Publish(e: GameEvent)
      modifies this
      ensures events == old(events) + [e]
      ensures listeners == old(listeners)
      ensures notified == old(notified) + Notifications(listeners, e)
    {
      events := events + [e];
      var i := 0;
      while i < |listeners|
        invariant 0 <= i <= |listeners|
        invariant events == old(events) + [e] && listeners == old(listeners)
        invariant notified == old(notified) + Notifications(listeners[..i], e)
      {
        var (eventClass, listener) := listeners[i];
        assert listeners[..i + 1][..i] == listeners[..i];
        if IsInstance(eventClass, e) {
          notified := notified + [(listener, e)];
        }
        i := i + 1;
      }
      assert listeners[..i] == listeners;
    }

    /** `register(eventClass, listener)` */
    method Register(c: EventClass, listener: ListenerId)
      modifies this
      ensures listeners == old(listeners) + [(c, listener)]
      ensures events == old(events) && notified == old(notified)
    {
      listeners := listeners + [(c, listener)];
    }

    /** `currentDealId` on this log. */
    function CurrentDeal(): Result<DealId>
      reads this
    {
      CurrentDealId(events)
    }

    /** `currentDealEvents` on this log. */
    function CurrentEvents(): Result<seq<GameEvent>>
      reads this
    {
      CurrentDealEvents(events)
    }

    /** `filterIsInstance<E>()` on this log. */
    function FilterOf(c: EventClass): seq<GameEvent>
      reads this
    {
      FilterIsInstance(events, c)
    }
  }

  /** Registering a `DealEvent` listener and then publishing `PlayerJoined`
      and `DealStarted` calls the listener once, with the `DealStarted`; the
      log holds both events in order. */
  method DealListenerHearsOnlyDeals(name: PlayerName, d: DealId)
    returns (events: seq<GameEvent>, calls: seq<(ListenerId, GameEvent)>)
    ensures events == [PlayerJoined(name), DealStarted(d)]
    ensures calls == [(7, DealStarted(d))]
  {
    var log := new GameEvents();
    log.Register(AnyDealEvent, 7);
    log.Publish(PlayerJoined(name));
    NotifiedOnceIfMatching(AnyDealEvent, 7, PlayerJoined(name));
    log.Publish(DealStarted(d));
    NotifiedOnceIfMatching(AnyDealEvent, 7, DealStarted(d));
    events, calls := log.events, log.notified;
  }
}
