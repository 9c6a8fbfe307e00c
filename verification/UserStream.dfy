/** In-memory deduplication of user-stream order events. Events are already decoded; only
    what the tracker reads of them is kept. */
module UserStream {
  import opened Common

  datatype FillNotice = FillNotice(tradeId: u64, quantity: real)

  datatype Event =
    | Order(durableId: string, filled: real, fill: Option<FillNotice>)
    | ReconcileEvent

  datatype StreamError = ReconcileRequired

  type TradeKey = (string, u64)

  datatype Tracker = Tracker(cumulative: map<string, real>, seen: set<TradeKey>, healthy: bool)

  const DISCONNECTED := Tracker(map[], {}, false)

  const FRESH := Tracker(map[], {}, true)

  function KeyOf(event: Event): Option<TradeKey>
    requires event.Order?
  {
    if event.fill.None? then None else Some((event.durableId, event.fill.value.tradeId))
  }

  /** The cumulative change is explained by exactly one unseen fill, or there is no change
      and no unseen fill. */
  predicate Consistent(t: Tracker, event: Event)
    requires event.Order? && event.durableId in t.cumulative
  {
    var delta := event.filled - t.cumulative[event.durableId];
    var key := KeyOf(event);
    if delta < 0.0 then false
    else if delta > 0.0 then key.Some? && event.fill.value.quantity == delta && key.value !in t.seen
    else key.None? || key.value in t.seen
  }

  function Accepted(t: Tracker, event: Event): (Tracker, Result<bool, StreamError>) {
    if !t.healthy then (t, Err(ReconcileRequired))
    else if event.ReconcileEvent? || (event.durableId in t.cumulative && !Consistent(t, event))
    then (DISCONNECTED, Err(ReconcileRequired))
    else
      var key := KeyOf(event);
      var isNew := key.Some? && key.value !in t.seen;
      (Tracker(t.cumulative[event.durableId := event.filled], if isNew then t.seen + {key.value} else t.seen, true),
       Ok(isNew))
  }

  class UserOrderTracker {
    var cumulative: map<string, real>
    var seen: set<TradeKey>
    var healthy: bool

    ghost function Value(): Tracker
      reads this
    {
      Tracker(cumulative, seen, healthy)
    }

    constructor ()
      ensures Value() == DISCONNECTED
    {
      cumulative, seen, healthy := map[], {}, false;
    }

    method MarkReconciled()
      modifies `healthy
      ensures Value() == old(Value()).(healthy := true)
    {
      healthy := true;
    }

    method Disconnect()
      modifies this
      ensures Value() == DISCONNECTED
    {
      healthy := false;
      cumulative := map[];
      seen := {};
    }

    method Accept(event: Event) returns (r: Result<bool, StreamError>)
      modifies this
      ensures (Value(), r) == Accepted(old(Value()), event)
    {
      if !healthy {
        return Err(ReconcileRequired);
      }
      if event.ReconcileEvent? {
        Disconnect();
        return Err(ReconcileRequired);
      }
      var key := KeyOf(event);
      if event.durableId in cumulative {
        var delta := event.filled - cumulative[event.durableId];
        var consistent := false;
        if delta < 0.0 {
        } else if delta > 0.0 {
          consistent := key.Some? && event.fill.value.quantity == delta && key.value !in seen;
        } else {
          consistent := key.None? || key.value in seen;
        }
        if !consistent {
          Disconnect();
          return Err(ReconcileRequired);
        }
      }
      cumulative := cumulative[event.durableId := event.filled];
      var isNew := key.Some? && key.value !in seen;
      if isNew {
        seen := seen + {key.value};
      }
      return Ok(isNew);
    }
  }

  // ---------------------------------------------------------------- one connection

  /** The tracker after a sequence of events on one reconciled connection. */
  function Tracked(events: seq<Event>): Tracker {
    if events == [] then FRESH else Accepted(Tracked(events[..|events| - 1]), events[|events| - 1]).0
  }

  function Outcome(events: seq<Event>, i: nat): Result<bool, StreamError>
    requires i < |events|
  {
    Accepted(Tracked(events[..i]), events[i]).1
  }

  /** The first observed filled quantity of an order plus the quantities of the later events
      accepted as new. */
  function Accounted(events: seq<Event>, id: string): Option<real> {
    if events == [] then None
    else
      var n := |events| - 1;
      var before, last := Accounted(events[..n], id), events[n];
      if !last.Order? || last.durableId != id then before
      else if before.None? then Some(last.filled)
      else if Outcome(events, n) == Ok(true) && last.fill.Some? then Some(before.value + last.fill.value.quantity)
      else before
  }

  lemma {:induction false} HealthyMeansAllAccepted(events: seq<Event>, i: nat)
    requires Tracked(events).healthy && i < |events|
    ensures Tracked(events[..i]).healthy && Outcome(events, i).Ok?
    ensures Tracked(events[..i]).seen <= Tracked(events).seen
    decreases |events|
  {
    var n := |events| - 1;
    assert events[..n][..i] == events[..i];
    if i < n {
      assert events[..n][i] == events[i];
      HealthyMeansAllAccepted(events[..n], i);
    }
  }

  /** While the connection is healthy, each tracked cumulative quantity is accounted for. */
  lemma {:induction false} CumulativeIsAccounted(events: seq<Event>, id: string)
    requires Tracked(events).healthy
    ensures id in Tracked(events).cumulative <==> Accounted(events, id).Some?
    ensures id in Tracked(events).cumulative ==> Tracked(events).cumulative[id] == Accounted(events, id).value
  {
    if events != [] {
      var n := |events| - 1;
      HealthyMeansAllAccepted(events, n);
      CumulativeIsAccounted(events[..n], id);
    }
  }

  /** Each trade is accepted as new at most once per connection. */
  lemma NewAtMostOnce(events: seq<Event>, i: nat, j: nat)
    requires i < j < |events| && Tracked(events[..j]).healthy
    requires Outcome(events, i) == Ok(true) && Outcome(events, j) == Ok(true)
    ensures events[i].Order? && events[j].Order? && KeyOf(events[i]) != KeyOf(events[j])
  {
    SeenAfter(events, i, j);
  }

  lemma {:induction false} SeenAfter(events: seq<Event>, i: nat, j: nat)
    requires i < j <= |events| && Tracked(events[..j]).healthy && Outcome(events, i) == Ok(true)
    ensures events[i].Order? && KeyOf(events[i]).Some? && KeyOf(events[i]).value in Tracked(events[..j]).seen
    decreases j
  {
    assert events[..j][..j - 1] == events[..j - 1];
    if i + 1 < j {
      HealthyMeansAllAccepted(events[..j], j - 1);
      SeenAfter(events, i, j - 1);
    }
  }

  /** An inconsistent event empties the state; until the next reconcile every event is refused
      and nothing is recorded. */
  lemma {:induction false} BlockedUntilReconciled(t: Tracker, events: seq<Event>)
    requires !t.healthy
    ensures forall i :: 0 <= i < |events| ==> Accepted(t, events[i]) == (t, Err(ReconcileRequired))
    ensures RunFrom(t, events) == t
  {
    if events != [] {
      BlockedUntilReconciled(t, events[..|events| - 1]);
    }
  }

  function RunFrom(t: Tracker, events: seq<Event>): Tracker {
    if events == [] then t else Accepted(RunFrom(t, events[..|events| - 1]), events[|events| - 1]).0
  }

  lemma RefusalEmptiesTheTracker(t: Tracker, event: Event)
    requires t.healthy && Accepted(t, event).1.Err?
    ensures Accepted(t, event).0 == DISCONNECTED
    ensures event.Order? ==> event.durableId in t.cumulative
  {
  }

  /** Delivering an accepted event again is harmless exactly while its order has not grown;
      otherwise the copy disconnects the tracker. */
  lemma RedeliveryIsHarmlessUntilGrowth(events: seq<Event>, i: nat)
    requires i < |events| && events[i].Order? && Tracked(events).healthy
    ensures var t := Tracked(events);
            && events[i].durableId in t.cumulative && events[i].filled <= t.cumulative[events[i].durableId]
            && (Accepted(t, events[i]) == (t, Ok(false)) <==> t.cumulative[events[i].durableId] == events[i].filled)
            && (Accepted(t, events[i]) == (t, Ok(false)) || Accepted(t, events[i]).0 == DISCONNECTED)
  {
    ObservedBefore(events, i);
    var t, e := Tracked(events), events[i];
    if t.cumulative[e.durableId] == e.filled {
      assert t.cumulative[e.durableId := e.filled] == t.cumulative;
    }
  }

  /** An accepted event leaves its order tracked, never shrinking, and its trade seen. */
  lemma {:induction false} ObservedBefore(events: seq<Event>, i: nat)
    requires i < |events| && events[i].Order? && Tracked(events).healthy
    ensures events[i].durableId in Tracked(events).cumulative
    ensures events[i].filled <= Tracked(events).cumulative[events[i].durableId]
    ensures KeyOf(events[i]).Some? ==> KeyOf(events[i]).value in Tracked(events).seen
    decreases |events|
  {
    var n := |events| - 1;
    HealthyMeansAllAccepted(events, n);
    if i < n {
      assert events[..n][i] == events[i];
      ObservedBefore(events[..n], i);
    }
  }

  /** It happens: two fills of one order are accepted, then the first event arrives again. */
  lemma RedeliveryAfterGrowthDisconnects(id: string, first: u64, second: u64)
    requires first != second
    ensures var events := [Order(id, 1.0, Some(FillNotice(first, 1.0))), Order(id, 2.0, Some(FillNotice(second, 1.0)))];
            && Outcome(events, 0) == Ok(true) && Outcome(events, 1) == Ok(true)
            && Accepted(Tracked(events), events[0]) == (DISCONNECTED, Err(ReconcileRequired))
  {
    var a, b := Order(id, 1.0, Some(FillNotice(first, 1.0))), Order(id, 2.0, Some(FillNotice(second, 1.0)));
    assert [a, b][..1] == [a] && [a, b][..0] == [] && [a][..0] == [];
    assert Tracked([a]) == Tracker(map[id := 1.0], {(id, first)}, true);
    assert Tracked([a, b]).cumulative[id] == 2.0;
  }

  // ---------------------------------------------------------------- which events are accepted

  /** The filled quantity last told of an order. */
  function LastFilled(events: seq<Event>, id: string): Option<real> {
    if events == [] then None
    else if events[|events| - 1].Order? && events[|events| - 1].durableId == id then Some(events[|events| - 1].filled)
    else LastFilled(events[..|events| - 1], id)
  }

  /** Some earlier event told the same trade of the same order. */
  ghost predicate Told(events: seq<Event>, event: Event)
    requires event.Order? && event.fill.Some?
  {
    exists i :: 0 <= i < |events| && events[i].Order? && KeyOf(events[i]) == KeyOf(event)
  }

  lemma {:induction false} TrackedIsLastFilled(events: seq<Event>, id: string)
    requires Tracked(events).healthy
    ensures LastFilled(events, id)
         == if id in Tracked(events).cumulative then Some(Tracked(events).cumulative[id]) else None
  {
    if events != [] {
      HealthyMeansAllAccepted(events, |events| - 1);
      TrackedIsLastFilled(events[..|events| - 1], id);
    }
  }

  lemma {:induction false} SeenIsTold(events: seq<Event>, event: Event)
    requires Tracked(events).healthy && event.Order? && event.fill.Some?
    ensures Told(events, event) <==> KeyOf(event).value in Tracked(events).seen
  {
    if events != [] {
      var n := |events| - 1;
      HealthyMeansAllAccepted(events, n);
      SeenIsTold(events[..n], event);
      if events[n].Order? && KeyOf(events[n]) == KeyOf(event) {
        ObservedBefore(events, n);
      } else {
        assert Told(events, event) <==> Told(events[..n], event) by {
          if Told(events, event) {
            var i :| 0 <= i < |events| && events[i].Order? && KeyOf(events[i]) == KeyOf(event);
            assert events[..n][i] == events[i];
          }
        }
      }
    }
  }

  /** The first event of an order, or one that repeats its last quantity with no untold trade, or
      one that grows it by exactly the quantity of an untold trade. */
  ghost predicate Expected(events: seq<Event>, event: Event)
    requires event.Order?
  {
    var last := LastFilled(events, event.durableId);
    || last.None?
    || (last.value == event.filled && (event.fill.None? || Told(events, event)))
    || (event.fill.Some? && !Told(events, event)
        && 0.0 < event.fill.value.quantity && last.value + event.fill.value.quantity == event.filled)
  }

  /** On a reconciled connection exactly the expected events are accepted, and as new exactly
      those that tell an untold trade. */
  lemma AcceptedExactly(events: seq<Event>, event: Event)
    requires Tracked(events).healthy
    ensures var answer := Accepted(Tracked(events), event).1;
            && (answer.Ok? <==> event.Order? && Expected(events, event))
            && (answer.Ok? ==> (answer.value <==> event.fill.Some? && !Told(events, event)))
  {
    if event.Order? {
      TrackedIsLastFilled(events, event.durableId);
      if event.fill.Some? {
        SeenIsTold(events, event);
      }
    }
  }

  // ---------------------------------------------------------------- all connections

  datatype Step = Reconciled | Disconnected | Received(event: Event)

  function AfterStep(t: Tracker, step: Step): Tracker {
    match step
    case Reconciled => t.(healthy := true)
    case Disconnected => DISCONNECTED
    case Received(event) => Accepted(t, event).0
  }

  function Run(steps: seq<Step>): Tracker {
    if steps == [] then DISCONNECTED else AfterStep(Run(steps[..|steps| - 1]), steps[|steps| - 1])
  }

  /** The events received since the tracker was last reconciled out of a disconnect. */
  function Connection(steps: seq<Step>): seq<Event> {
    if steps == [] then []
    else
      var front := steps[..|steps| - 1];
      match steps[|steps| - 1]
      case Reconciled => if Run(front).healthy then Connection(front) else []
      case Disconnected => []
      case Received(event) => Connection(front) + [event]
  }

  lemma TrackedAppend(events: seq<Event>, event: Event)
    ensures Tracked(events + [event]) == Accepted(Tracked(events), event).0
  {
    assert (events + [event])[..|events|] == events;
  }

  /** In every run of reconciles, disconnects and events an unhealthy tracker is empty, so a
      reconcile after it starts a fresh connection, and a healthy one has tracked exactly the
      events of its connection. */
  lemma {:induction false} EveryRunIsOneConnection(steps: seq<Step>)
    ensures !Run(steps).healthy ==> Run(steps) == DISCONNECTED && AfterStep(Run(steps), Reconciled) == FRESH
    ensures Run(steps).healthy ==> Run(steps) == Tracked(Connection(steps))
  {
    if steps != [] {
      var n := |steps| - 1;
      EveryRunIsOneConnection(steps[..n]);
      if steps[n].Received? {
        TrackedAppend(Connection(steps[..n]), steps[n].event);
      }
    }
  }

  /** So in every run a tracked quantity is accounted for by the events of its connection. */
  lemma EveryRunIsAccounted(steps: seq<Step>, id: string)
    requires id in Run(steps).cumulative
    ensures Run(steps).healthy && Accounted(Connection(steps), id) == Some(Run(steps).cumulative[id])
  {
    EveryRunIsOneConnection(steps);
    CumulativeIsAccounted(Connection(steps), id);
  }
}
