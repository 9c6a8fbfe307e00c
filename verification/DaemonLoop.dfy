/** The arms of the daemon's select loop as methods over its mutable gate variables, each
    proved to take exactly one step of the protocol in `LiveDaemon`. */
module DaemonLoop {
  import opened Common
  import opened Execution
  import opened RuntimePins
  import opened LiveDaemon
  import G = UnattendedGuard
  import S = Subscription

  class Daemon {
    const config: Config
    const entryGuard: G.EntryGuard
    const supervisor: S.SubscriptionSupervisor
    var allow: bool
    var halt: bool
    var started: bool
    var passed: set<Gate>
    var positions: Positions
    var orders: Orders
    var hold: set<AssetKey>
    var pins: Pins
    var running: bool

    ghost function Value(): State
      reads this, entryGuard, supervisor
    {
      State(allow, halt, started, entryGuard.Value(), passed, supervisor.Value(), positions, orders, hold, pins, running)
    }

    constructor (config: Config, autoStart: bool, startupClean: bool, ambiguousClean: bool, passed: set<Gate>,
                 feeds: seq<S.Feed>, positions: Positions, orders: Orders, hold: set<AssetKey>)
      ensures this.config == config && fresh(entryGuard) && fresh(supervisor)
      ensures Value() == Started(autoStart, startupClean, ambiguousClean, passed, SetOf(feeds), positions, orders, hold)
    {
      this.config := config;
      allow, halt, started, running := false, false, autoStart && startupClean && ambiguousClean, true;
      this.passed, this.positions, this.orders, this.hold := passed, positions, orders, hold;
      var derived := DeriveRuntimePins(positions, orders, hold);
      pins := derived;
      var guard := new G.EntryGuard(startupClean && ambiguousClean);
      var feedTable := new S.SubscriptionSupervisor();
      entryGuard, supervisor := guard, feedTable;
      new;
      supervisor.ApplyDerivedFeeds(feeds);
    }

    method SubmitIntent(intent: Intent) returns (attempted: bool)
      ensures attempted == Admitted(allow, pins.safeHold, intent)
    {
      if intent.effect.Increase? && intent.key in pins.safeHold {
        return false;
      }
      if intent.quantity <= 0.0 {
        return false;
      }
      if intent.effect.Increase? && !allow {
        return false;
      }
      return true;
    }

    method OnMarketEvent(feed: S.Feed, received: u64, markable: bool, intents: seq<Intent>) returns (sent: seq<Intent>)
      requires running
      modifies supervisor, `running
      ensures (Value(), sent) == After(config, old(Value()), MarketEvent(feed, received, markable, intents))
    {
      sent := [];
      var known := supervisor.Observe(feed, received);
      if !markable {
        running := false;
        return;
      }
      ghost var observed := Value();
      for i := 0 to |intents|
        invariant Value() == observed
        invariant sent == if halt then [] else Dispatched(allow, pins.safeHold, intents[..i])
      {
        assert intents[..i + 1][..i] == intents[..i];
        if halt {
          continue;
        }
        var attempted := SubmitIntent(intents[i]);
        if attempted {
          sent := sent + [intents[i]];
        }
      }
      assert intents[..|intents|] == intents;
    }

    method CollectVenues(venues: seq<VenueOutcome>) returns (got: Collected)
      ensures got == Collect(venues)
    {
      var clean, cycleHold: set<AssetKey>, nextPositions: Positions, nextOrders: Orders := true, {}, map[], map[];
      for i := 0 to |venues|
        invariant Collected(clean, cycleHold, nextPositions, nextOrders) == Collect(venues[..i])
      {
        assert venues[..i + 1][..i] == venues[..i];
        match venues[i]
        case RecoveryFailed =>
          clean := false;
        case ReconcileFailed(unresolved) =>
          clean := false;
          cycleHold := cycleHold + unresolved;
        case Cycle(unresolved, reportClean, safeHold, orders, positions) =>
          if unresolved != {} || !reportClean {
            clean := false;
          }
          cycleHold := cycleHold + unresolved + safeHold;
          nextPositions := nextPositions + positions;
          nextOrders := nextOrders + orders;
      }
      assert venues[..|venues|] == venues;
      return Collected(clean, cycleHold, nextPositions, nextOrders);
    }

    method OnReconcile(venues: seq<VenueOutcome>, fillsIngested: bool, viewsRebuilt: bool)
      requires running
      modifies `positions, `orders, `hold, `pins, `passed, `allow, entryGuard
      ensures Value() == AfterReconcile(config, old(Value()), venues, fillsIngested, viewsRebuilt)
    {
      var got := CollectVenues(venues);
      var clean := got.clean && fillsIngested && viewsRebuilt;
      Adopt(got, clean);
      entryGuard.ReconcileResult(clean);
      Readmit();
    }

    method Adopt(got: Collected, clean: bool)
      modifies `positions, `orders, `hold, `pins, `passed
      ensures Value() == Adopted(old(Value()), got, clean)
    {
      if clean {
        positions, orders, hold := got.positions, got.orders, got.hold;
        pins := DeriveRuntimePins(positions, orders, hold);
        passed := passed + {OwnershipReconciled, UnknownStateClear};
      } else {
        pins := pins.(safeHold := pins.safeHold + got.hold);
        passed := passed - {OwnershipReconciled};
      }
    }

    /** Recomputes the admission of new exposure from the current gates. */
    method Readmit()
      modifies `allow
      ensures Value() == old(Value()).(allow := allow)
      ensures allow == (!halt && G.MayIncrease(entryGuard.Value(), started, ReadyFor(passed, config.mode),
                                               S.AllConnected(supervisor.Value())))
    {
      allow := !halt && G.MayIncrease(G.Guard(entryGuard.topologyBlocker, entryGuard.reconcileClean), started,
                                      ReadyFor(passed, config.mode),
                                      S.AllConnected(S.Feeds(supervisor.feeds, supervisor.statuses)));
    }

    method ApplyTopology(topology: Topology)
      modifies entryGuard, supervisor
      ensures Value() == AfterTopology(old(Value()), topology)
    {
      match topology
      case RefreshFailed(reason) =>
        entryGuard.TopologyFailed(reason);
      case ApplyFailed(reason, synced) =>
        if synced.Some? {
          supervisor.ApplyDerivedFeeds(synced.value);
        }
        entryGuard.TopologyFailed(reason);
      case Applied(feeds) =>
        supervisor.ApplyDerivedFeeds(feeds);
        entryGuard.TopologyValidated();
    }

    method Freeze()
      modifies `allow, entryGuard
      ensures Value() == Frozen(old(Value()))
    {
      allow := false;
      entryGuard.BeginTopologyChange();
    }

    method OnUniverseTick(topology: Topology)
      requires running
      modifies `allow, entryGuard, supervisor
      ensures Value() == After(config, old(Value()), UniverseTick(topology)).0
    {
      if config.dynamicEnabled {
        Freeze();
        ApplyTopology(topology);
      }
    }

    method OnReload(reload: Reload)
      requires running
      modifies `allow, entryGuard, supervisor
      ensures Value() == AfterReload(config, old(Value()), reload)
    {
      Freeze();
      match reload
      case ReloadFailed(reason) =>
        entryGuard.TopologyFailed(reason);
      case ModeChanged =>
        entryGuard.TopologyFailed(DYNAMIC_CHANGED);
      case Reloaded(topology) =>
        if !config.dynamicEnabled {
          ApplyTopology(topology);
        }
    }

    method OnFeedFatal(feed: S.Feed)
      requires running
      modifies `allow, supervisor
      ensures Value() == After(config, old(Value()), FeedFatal(feed)).0
    {
      var known := supervisor.MarkFailed(feed);
      allow := false;
      known := supervisor.MarkReconnecting(feed);
    }

    method OnHealthTick(now: u64)
      requires running && config.maxStaleness > 0
      modifies `allow, `passed, supervisor
      ensures Value() == AfterHealth(config, old(Value()), now)
    {
      supervisor.RefreshStaleness(now, config.maxStaleness);
      var connected := S.AllConnected(S.Feeds(supervisor.feeds, supervisor.statuses));
      if connected {
        passed := passed + {MarketDataSynchronized};
      } else {
        passed := passed - {MarketDataSynchronized};
        allow := false;
      }
      Readmit();
    }

    method OnStop()
      requires running
      modifies `allow, `started
      ensures Value() == After(config, old(Value()), Stop).0
    {
      started := false;
      allow := false;
    }

    method OnStart() returns (accepted: bool)
      requires running
      modifies `allow, `started
      ensures Value() == AfterStart(config, old(Value()))
      ensures accepted <==> && !halt && ReadyFor(passed, config.mode) && S.AllConnected(supervisor.Value())
                            && G.Ready(entryGuard.Value(), true)
      ensures accepted ==> allow && started
      ensures !accepted ==> Value() == old(Value())
    {
      var ready := ReadyFor(passed, config.mode);
      var connected := S.AllConnected(S.Feeds(supervisor.feeds, supervisor.statuses));
      var guard := G.Guard(entryGuard.topologyBlocker, entryGuard.reconcileClean);
      if halt {
        return false;
      }
      if !ready || !connected || !G.Ready(guard, ready) {
        return false;
      }
      started := true;
      allow := G.MayIncrease(guard, true, ready, connected);
      return true;
    }

    method Flatten(reported: seq<Position>) returns (sent: seq<Intent>)
      ensures sent == Flattened(reported)
    {
      sent := [];
      for i := 0 to |reported|
        invariant sent == Flattened(reported[..i])
      {
        assert reported[..i + 1][..i] == reported[..i];
        var intent := FlattenIntent(reported[i]);
        if intent.Some? && Admitted(false, {}, intent.value) {
          sent := sent + [intent.value];
        }
      }
      assert reported[..|reported|] == reported;
    }

    method OnEmergencyExit(reported: seq<Position>) returns (sent: seq<Intent>)
      requires running
      modifies `halt, `started, `allow
      ensures (Value(), sent) == After(config, old(Value()), EmergencyExit(reported))
    {
      halt := true;
      started := false;
      allow := false;
      sent := Flatten(reported);
    }

    /** After the loop has been left, whether by a lost lease or a shutdown signal. */
    method EndLoop(flatten: seq<Position>) returns (sent: seq<Intent>)
      modifies `started, `allow, `running
      ensures Value() == Ended(old(Value())) && sent == Flattened(flatten)
    {
      started := false;
      allow := false;
      running := false;
      sent := Flatten(flatten);
    }

    method OnLeaseLost(flatten: seq<Position>) returns (sent: seq<Intent>)
      requires running
      modifies `started, `allow, `running
      ensures (Value(), sent) == After(config, old(Value()), LeaseLost(flatten))
    {
      allow := false;
      sent := EndLoop(flatten);
    }

    method OnShutdown(flatten: seq<Position>) returns (sent: seq<Intent>)
      requires running
      modifies `started, `allow, `running
      ensures (Value(), sent) == After(config, old(Value()), Shutdown(flatten))
    {
      sent := EndLoop(flatten);
    }
  }
}
