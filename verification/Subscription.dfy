/** Connection state of the derived market-data feeds. A feed is named by its key. */
module Subscription {
  import opened Common

  type Feed = string

  datatype Connection = Connected | Degraded | Reconnecting | Stale | Failed

  datatype Status = Status(state: Connection, reconnects: u64, lastEvent: Option<u64>)

  /** The feed table and the status table. */
  datatype Feeds = Feeds(feeds: set<Feed>, statuses: map<Feed, Status>)

  const NO_FEEDS := Feeds({}, map[])

  const NEW_STATUS := Status(Reconnecting, 0, None)

  function Derived(f: Feeds, next: set<Feed>): Feeds {
    Feeds(next, map feed | feed in next :: if feed in f.statuses then f.statuses[feed] else NEW_STATUS)
  }

  function WithState(f: Feeds, feed: Feed, state: Connection): Feeds {
    if feed !in f.statuses then f else f.(statuses := f.statuses[feed := f.statuses[feed].(state := state)])
  }

  function Observed(f: Feeds, feed: Feed, received: u64): Feeds {
    if feed !in f.statuses then f
    else f.(statuses := f.statuses[feed := f.statuses[feed].(state := Connected, lastEvent := Some(received))])
  }

  function Reconnected(f: Feeds, feed: Feed): Feeds {
    if feed !in f.statuses then f
    else
      var s := f.statuses[feed];
      f.(statuses := f.statuses[feed := s.(state := Reconnecting, reconnects := SaturatingAdd64(s.reconnects, 1))])
  }

  predicate IsStale(s: Status, now: u64, maxStaleness: u64) {
    s.lastEvent.None? || now - s.lastEvent.value > maxStaleness
  }

  function Refreshed(f: Feeds, now: u64, maxStaleness: u64): Feeds {
    f.(statuses := map feed | feed in f.statuses ::
         var s := f.statuses[feed];
         if !s.state.Failed? && IsStale(s, now, maxStaleness) then s.(state := Stale) else s)
  }

  function ConnectedFeeds(f: Feeds): set<Feed> {
    set feed | feed in f.statuses && f.statuses[feed].state.Connected?
  }

  /** The source compares two counts. */
  predicate AllConnected(f: Feeds) {
    f.feeds != {} && |ConnectedFeeds(f)| == |f.feeds|
  }

  /** What every reachable table satisfies. */
  ghost predicate Sound(f: Feeds) {
    && f.statuses.Keys == f.feeds
    && forall feed :: feed in f.statuses && f.statuses[feed].state.Connected? ==> f.statuses[feed].lastEvent.Some?
  }

  /** Equal counts mean that each feed is connected, because the tables have the same keys. */
  lemma AllConnectedMeansEach(f: Feeds)
    requires Sound(f)
    ensures AllConnected(f) <==> f.feeds != {} && forall feed :: feed in f.feeds ==> f.statuses[feed].state.Connected?
  {
    var connected := ConnectedFeeds(f);
    assert connected <= f.feeds;
    if |connected| == |f.feeds| {
      EqualSize(connected, f.feeds);
    }
    if forall feed :: feed in f.feeds ==> f.statuses[feed].state.Connected? {
      assert connected == f.feeds;
    }
  }

  lemma EqualSize(a: set<Feed>, b: set<Feed>)
    requires a <= b && |a| == |b|
    ensures a == b
  {
    assert b == a + (b - a);
    assert |b| == |a| + |b - a|;
  }

  class SubscriptionSupervisor {
    var feeds: set<Feed>
    var statuses: map<Feed, Status>

    ghost function Value(): Feeds
      reads this
    {
      Feeds(feeds, statuses)
    }

    constructor ()
      ensures Value() == NO_FEEDS
    {
      feeds, statuses := {}, map[];
    }

    method ApplyDerivedFeeds(specs: seq<Feed>)
      modifies this
      ensures Value() == Derived(old(Value()), set i | 0 <= i < |specs| :: specs[i])
    {
      var next: set<Feed> := {};
      for i := 0 to |specs|
        invariant next == set k | 0 <= k < i :: specs[k]
        invariant statuses.Keys == old(statuses).Keys + next
        invariant forall feed :: feed in statuses ==>
          statuses[feed] == if feed in old(statuses) then old(statuses)[feed] else NEW_STATUS
      {
        if specs[i] !in statuses {
          statuses := statuses[specs[i] := NEW_STATUS];
        }
        next := next + {specs[i]};
      }
      statuses := map feed | feed in statuses && feed in next :: statuses[feed];
      feeds := next;
    }

    method Observe(feed: Feed, received: u64) returns (known: bool)
      modifies `statuses
      ensures known <==> feed in old(statuses)
      ensures Value() == Observed(old(Value()), feed, received)
    {
      if feed !in statuses {
        return false;
      }
      statuses := statuses[feed := statuses[feed].(state := Connected, lastEvent := Some(received))];
      return true;
    }

    method MarkReconnecting(feed: Feed) returns (known: bool)
      modifies `statuses
      ensures known <==> feed in old(statuses)
      ensures Value() == Reconnected(old(Value()), feed)
    {
      if feed !in statuses {
        return false;
      }
      var s := statuses[feed];
      statuses := statuses[feed := s.(state := Reconnecting, reconnects := SaturatingAdd64(s.reconnects, 1))];
      return true;
    }

    method MarkFailed(feed: Feed) returns (known: bool)
      modifies `statuses
      ensures known <==> feed in old(statuses)
      ensures Value() == WithState(old(Value()), feed, Failed)
    {
      if feed !in statuses {
        return false;
      }
      statuses := statuses[feed := statuses[feed].(state := Failed)];
      return true;
    }

    method RefreshStaleness(now: u64, maxStaleness: u64)
      requires maxStaleness > 0
      modifies `statuses
      ensures Value() == Refreshed(old(Value()), now, maxStaleness)
    {
      statuses := map feed | feed in statuses ::
        if !statuses[feed].state.Failed? && IsStale(statuses[feed], now, maxStaleness)
        then statuses[feed].(state := Stale) else statuses[feed];
    }
  }

  // ---------------------------------------------------------------- runs

  datatype Step =
    | Derive(next: set<Feed>)
    | Observe(feed: Feed, received: u64)
    | MarkReconnecting(feed: Feed)
    | MarkFailed(feed: Feed)
    | Refresh(now: u64, maxStaleness: u64)

  function After(f: Feeds, step: Step): Feeds {
    match step
    case Derive(next) => Derived(f, next)
    case Observe(feed, received) => Observed(f, feed, received)
    case MarkReconnecting(feed) => Reconnected(f, feed)
    case MarkFailed(feed) => WithState(f, feed, Failed)
    case Refresh(now, maxStaleness) => Refreshed(f, now, maxStaleness)
  }

  function Run(steps: seq<Step>): Feeds {
    if steps == [] then NO_FEEDS else After(Run(steps[..|steps| - 1]), steps[|steps| - 1])
  }

  /** Every reachable table is sound, so "all connected" always means each feed is connected
      and has been heard from. */
  lemma {:induction false} RunsAreSound(steps: seq<Step>)
    ensures Sound(Run(steps))
  {
    if steps != [] {
      RunsAreSound(steps[..|steps| - 1]);
    }
  }

  /** Right after a staleness refresh, connected means heard from within the limit. */
  lemma RefreshedConnectionsAreRecent(f: Feeds, now: u64, maxStaleness: u64, feed: Feed)
    requires Sound(f) && feed in f.feeds
    ensures Sound(Refreshed(f, now, maxStaleness))
    ensures Refreshed(f, now, maxStaleness).statuses[feed].state.Connected?
       <==> f.statuses[feed].state.Connected? && now - f.statuses[feed].lastEvent.value <= maxStaleness
  {
  }

  /** When a feed was last heard from, since it was last derived anew. */
  function LastHeard(steps: seq<Step>, feed: Feed): Option<u64> {
    if steps == [] then None
    else
      var before := LastHeard(steps[..|steps| - 1], feed);
      match steps[|steps| - 1]
      case Derive(next) => if feed in next then before else None
      case Observe(f, received) => if f == feed && IsDerived(steps[..|steps| - 1], feed) then Some(received) else before
      case _ => before
  }

  function IsDerived(steps: seq<Step>, feed: Feed): bool {
    if steps == [] then false
    else match steps[|steps| - 1]
      case Derive(next) => feed in next
      case _ => IsDerived(steps[..|steps| - 1], feed)
  }

  /** The feed was heard from after it last failed, reconnected or was found stale. */
  function IsLive(steps: seq<Step>, feed: Feed): bool {
    if steps == [] then false
    else
      var front := steps[..|steps| - 1];
      match steps[|steps| - 1]
      case Derive(next) => feed in next && IsLive(front, feed)
      case Observe(f, _) => IsDerived(front, feed) && (f == feed || IsLive(front, feed))
      case MarkReconnecting(f) => f != feed && IsLive(front, feed)
      case MarkFailed(f) => f != feed && IsLive(front, feed)
      case Refresh(now, maxStaleness) =>
        IsLive(front, feed) && LastHeard(front, feed).Some? && now <= LastHeard(front, feed).value + maxStaleness
  }

  /** In every run the table says of each feed when it was last heard from, and that it is
      connected exactly when that was after anything that speaks against it. */
  lemma {:induction false} ConnectedMeaning(steps: seq<Step>, feed: Feed)
    ensures feed in Run(steps).feeds <==> IsDerived(steps, feed)
    ensures feed in Run(steps).statuses <==> IsDerived(steps, feed)
    ensures IsDerived(steps, feed) ==>
              && Run(steps).statuses[feed].lastEvent == LastHeard(steps, feed)
              && (Run(steps).statuses[feed].state.Connected? <==> IsLive(steps, feed))
    ensures !IsDerived(steps, feed) ==> LastHeard(steps, feed).None? && !IsLive(steps, feed)
  {
    if steps != [] {
      ConnectedMeaning(steps[..|steps| - 1], feed);
    }
  }

  /** A refresh makes exactly those feeds stale that have not failed and were not heard from
      within the limit, and touches nothing else. */
  lemma RefreshStalesTheSilent(f: Feeds, now: u64, maxStaleness: u64, feed: Feed)
    requires feed in f.statuses
    ensures var before, after := f.statuses[feed], Refreshed(f, now, maxStaleness).statuses[feed];
            if !before.state.Failed? && (before.lastEvent.None? || before.lastEvent.value + maxStaleness < now)
            then after == Status(Stale, before.reconnects, before.lastEvent)
            else after == before
    ensures Refreshed(f, now, maxStaleness).feeds == f.feeds
  {
  }
}
