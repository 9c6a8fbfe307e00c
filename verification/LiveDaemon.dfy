/** The select loop of the real-venue daemon. Each arm is one atomic step; what the network,
    the database and the clock deliver to an arm is its argument. */
module LiveDaemon {
  import opened Common
  import opened Execution
  import opened UnattendedGuard
  import Oms
  import opened RuntimePins
  import S = Subscription

  datatype Mode = Live | Paper

  datatype Gate =
    | JournalWritable
    | DatabaseReachable
    | RuntimeLeaseAcquired
    | VenueAuthenticated
    | MarketDataSynchronized
    | OpenOrdersLoaded
    | PositionsLoaded
    | OwnershipReconciled
    | UnknownStateClear
    | StrategyAllowlistLoaded
    | LiveTradingExplicitlyEnabled

  function RequiredGates(mode: Mode): set<Gate> {
    match mode
    case Paper =>
      {JournalWritable, DatabaseReachable, RuntimeLeaseAcquired, MarketDataSynchronized, StrategyAllowlistLoaded}
    case Live =>
      {JournalWritable, DatabaseReachable, RuntimeLeaseAcquired, VenueAuthenticated, MarketDataSynchronized,
       OpenOrdersLoaded, PositionsLoaded, OwnershipReconciled, UnknownStateClear, StrategyAllowlistLoaded,
       LiveTradingExplicitlyEnabled}
  }

  predicate ReadyFor(passed: set<Gate>, mode: Mode) {
    RequiredGates(mode) <= passed
  }

  datatype Config = Config(mode: Mode, dynamicEnabled: bool, maxStaleness: u64)

  // ---------------------------------------------------------------- dispatch

  datatype Intent = Intent(
    strategy: string, clientOrderId: string, key: AssetKey, side: Side, quantity: real, effect: Effect)

  /** The SAFE_HOLD check and the risk gate of `submit_intent`. */
  predicate Admitted(allow: bool, safeHold: set<AssetKey>, intent: Intent) {
    && !(intent.effect.Increase? && intent.key in safeHold)
    && intent.quantity > 0.0
    && !(intent.effect.Increase? && !allow)
  }

  /** The intents of a list that reach the venue, in order. */
  function Dispatched(allow: bool, safeHold: set<AssetKey>, intents: seq<Intent>): seq<Intent> {
    if intents == [] then []
    else
      var front, last := Dispatched(allow, safeHold, intents[..|intents| - 1]), intents[|intents| - 1];
      if Admitted(allow, safeHold, last) then front + [last] else front
  }

  lemma {:induction false} DispatchedAreAdmitted(allow: bool, safeHold: set<AssetKey>, intents: seq<Intent>)
    ensures forall i :: 0 <= i < |Dispatched(allow, safeHold, intents)| ==>
      Admitted(allow, safeHold, Dispatched(allow, safeHold, intents)[i])
  {
    if intents != [] {
      DispatchedAreAdmitted(allow, safeHold, intents[..|intents| - 1]);
    }
  }

  /** Of a list of intents exactly those reach the venue that have a positive quantity and, if
      they increase exposure, come while it is allowed and for an asset that is not held. */
  lemma {:induction false} DispatchedExactly(allow: bool, safeHold: set<AssetKey>, intents: seq<Intent>, intent: Intent)
    ensures intent in Dispatched(allow, safeHold, intents)
       <==> && intent in intents && intent.quantity > 0.0
            && (intent.effect.ReduceOnly? || (allow && intent.key !in safeHold))
    ensures |Dispatched(allow, safeHold, intents)| <= |intents|
  {
    if intents != [] {
      var front, last := intents[..|intents| - 1], intents[|intents| - 1];
      DispatchedExactly(allow, safeHold, front, intent);
      assert intents == front + [last];
    }
  }

  /** The order that closes a strategy-owned position, and nothing for any other. */
  function FlattenIntent(p: Position): Option<Intent> {
    if !p.ownership.OwnedBy? || p.quantity == 0.0 then None
    else Some(Intent(p.ownership.strategy, "", p.key, if p.quantity > 0.0 then Sell else Buy, Abs(p.quantity), ReduceOnly))
  }

  /** What an emergency exit or a flattening shutdown dispatches for the reported positions. */
  function Flattened(positions: seq<Position>): seq<Intent> {
    if positions == [] then []
    else
      var front, last := Flattened(positions[..|positions| - 1]), FlattenIntent(positions[|positions| - 1]);
      if last.Some? && Admitted(false, {}, last.value) then front + [last.value] else front
  }

  /** The order brings exactly this strategy-owned position to flat, without opening another. */
  predicate Closes(p: Position, intent: Intent) {
    && p.ownership == OwnedBy(intent.strategy) && intent.key == p.key
    && intent.quantity > 0.0 && p.quantity + Signed(intent.quantity, intent.side) == 0.0
    && intent.effect.ReduceOnly?
  }

  /** The reported positions that belong to a strategy and are not flat, in order. */
  function OwnedExposure(positions: seq<Position>): seq<Position> {
    if positions == [] then []
    else
      var front, last := OwnedExposure(positions[..|positions| - 1]), positions[|positions| - 1];
      if last.ownership.OwnedBy? && last.quantity != 0.0 then front + [last] else front
  }

  /** Flattening sends one order for each owned, non-flat position, in the order of the report,
      and each closes its position. */
  lemma {:induction false} FlatteningClosesEach(positions: seq<Position>)
    ensures |Flattened(positions)| == |OwnedExposure(positions)|
    ensures forall i :: 0 <= i < |OwnedExposure(positions)| ==> Closes(OwnedExposure(positions)[i], Flattened(positions)[i])
  {
    if positions != [] {
      FlatteningClosesEach(positions[..|positions| - 1]);
    }
  }

  lemma {:induction false} OwnedExposureFacts(positions: seq<Position>)
    ensures forall i :: 0 <= i < |OwnedExposure(positions)| ==> OwnedExposure(positions)[i] in positions
    ensures forall k :: 0 <= k < |positions| && positions[k].ownership.OwnedBy? && positions[k].quantity != 0.0 ==>
              positions[k] in OwnedExposure(positions)
  {
    if positions != [] {
      var front := positions[..|positions| - 1];
      OwnedExposureFacts(front);
      assert forall k :: 0 <= k < |front| ==> front[k] == positions[k];
    }
  }

  ghost predicate ClosesOne(positions: seq<Position>, intent: Intent) {
    exists k :: 0 <= k < |positions| && Closes(positions[k], intent)
  }

  ghost predicate ClosedByOne(intents: seq<Intent>, p: Position) {
    exists i :: 0 <= i < |intents| && Closes(p, intents[i])
  }

  /** Flattening only ever closes positions: each order brings one reported strategy-owned
      position to flat. */
  lemma FlatteningOnlyCloses(positions: seq<Position>, i: nat)
    requires i < |Flattened(positions)|
    ensures ClosesOne(positions, Flattened(positions)[i]) && Flattened(positions)[i].effect.ReduceOnly?
  {
    FlatteningClosesEach(positions);
    OwnedExposureFacts(positions);
    var owned := OwnedExposure(positions)[i];
    assert owned in positions;
    var k :| 0 <= k < |positions| && positions[k] == owned;
    assert Closes(positions[k], Flattened(positions)[i]);
  }

  /** And no strategy-owned position is forgotten. */
  lemma FlatteningIsComplete(positions: seq<Position>, k: nat)
    requires k < |positions| && positions[k].ownership.OwnedBy? && positions[k].quantity != 0.0
    ensures ClosedByOne(Flattened(positions), positions[k])
  {
    FlatteningClosesEach(positions);
    OwnedExposureFacts(positions);
    var i :| 0 <= i < |OwnedExposure(positions)| && OwnedExposure(positions)[i] == positions[k];
    assert Closes(positions[k], Flattened(positions)[i]);
  }

  // ---------------------------------------------------------------- state

  datatype State = State(
    allow: bool, halt: bool, started: bool, guard: Guard, passed: set<Gate>, feeds: S.Feeds,
    positions: Positions, orders: Orders, hold: set<AssetKey>, pins: Pins, running: bool)

  /** What the admission of new exposure is supposed to mean. */
  predicate ExposureIsSafe(c: Config, s: State) {
    && !s.halt && s.started
    && s.guard.topologyBlocker.None? && s.guard.reconcileClean
    && ReadyFor(s.passed, c.mode)
    && S.AllConnected(s.feeds)
  }

  /** The daemon as it enters the loop, after a clean or unclean startup. */
  function Started(autoStart: bool, startupClean: bool, ambiguousClean: bool, passed: set<Gate>, feeds: set<S.Feed>,
                   positions: Positions, orders: Orders, hold: set<AssetKey>): State {
    State(false, false, autoStart && startupClean && ambiguousClean, Guard(None, startupClean && ambiguousClean), passed,
          S.Derived(S.NO_FEEDS, feeds), positions, orders, hold, DerivedPins(positions, orders, hold), true)
  }

  // ---------------------------------------------------------------- what the arms receive

  /** What recovering and reconciling one venue yields. */
  datatype VenueOutcome =
    | RecoveryFailed
    | ReconcileFailed(unresolved: set<AssetKey>)
    | Cycle(unresolved: set<AssetKey>, reportClean: bool, safeHold: set<AssetKey>, orders: Orders, positions: Positions)

  datatype Collected = Collected(clean: bool, hold: set<AssetKey>, positions: Positions, orders: Orders)

  function AddVenue(c: Collected, v: VenueOutcome): Collected {
    match v
    case RecoveryFailed => c.(clean := false)
    case ReconcileFailed(unresolved) => c.(clean := false, hold := c.hold + unresolved)
    case Cycle(unresolved, reportClean, safeHold, orders, positions) =>
      Collected(c.clean && unresolved == {} && reportClean, c.hold + unresolved + safeHold,
                c.positions + positions, c.orders + orders)
  }

  function Collect(venues: seq<VenueOutcome>): Collected {
    if venues == [] then Collected(true, {}, map[], map[])
    else AddVenue(Collect(venues[..|venues| - 1]), venues[|venues| - 1])
  }

  datatype Topology =
    | RefreshFailed(reason: string)
    | ApplyFailed(reason: string, synced: Option<seq<S.Feed>>)
    | Applied(feeds: seq<S.Feed>)

  datatype Reload = ReloadFailed(reason: string) | ModeChanged | Reloaded(topology: Topology)

  datatype Step =
    | MarketEvent(feed: S.Feed, received: u64, markable: bool, intents: seq<Intent>)
    | Reconcile(venues: seq<VenueOutcome>, fillsIngested: bool, viewsRebuilt: bool)
    | UniverseTick(topology: Topology)
    | FeedFatal(feed: S.Feed)
    | LeaseLost(flatten: seq<Position>)
    | HealthTick(now: u64)
    | Stop
    | Start
    | EmergencyExit(reported: seq<Position>)
    | ReloadStrategies(reload: Reload)
    | Shutdown(flatten: seq<Position>)

  function SetOf(specs: seq<S.Feed>): set<S.Feed> {
    set i | 0 <= i < |specs| :: specs[i]
  }

  const DYNAMIC_CHANGED: string := "strategy reload changed dynamic-template mode; restart required"

  // ---------------------------------------------------------------- the arms

  /** A clean cycle replaces everything; any other only extends the hold. */
  function Adopted(s: State, got: Collected, clean: bool): State {
    if clean then
      s.(positions := got.positions, orders := got.orders, hold := got.hold,
         pins := DerivedPins(got.positions, got.orders, got.hold),
         passed := s.passed + {OwnershipReconciled, UnknownStateClear})
    else
      s.(pins := s.pins.(safeHold := s.pins.safeHold + got.hold), passed := s.passed - {OwnershipReconciled})
  }

  function AfterReconcile(c: Config, s: State, venues: seq<VenueOutcome>, fillsIngested: bool, viewsRebuilt: bool): State {
    var got := Collect(venues);
    var clean := got.clean && fillsIngested && viewsRebuilt;
    var next := Adopted(s, got, clean);
    var guard := s.guard.(reconcileClean := clean);
    next.(guard := guard,
          allow := !s.halt && MayIncrease(guard, s.started, ReadyFor(next.passed, c.mode), S.AllConnected(s.feeds)))
  }

  /** Applying a topology with exposure already frozen. */
  function AfterTopology(s: State, t: Topology): State {
    match t
    case RefreshFailed(reason) => s.(guard := s.guard.(topologyBlocker := Some(reason)))
    case ApplyFailed(reason, synced) =>
      s.(guard := s.guard.(topologyBlocker := Some(reason)),
         feeds := if synced.Some? then S.Derived(s.feeds, SetOf(synced.value)) else s.feeds)
    case Applied(feeds) =>
      s.(guard := s.guard.(topologyBlocker := None), feeds := S.Derived(s.feeds, SetOf(feeds)))
  }

  function Frozen(s: State): State {
    s.(allow := false, guard := s.guard.(topologyBlocker := Some(PENDING)))
  }

  function AfterReload(c: Config, s: State, r: Reload): State {
    match r
    case ReloadFailed(reason) => Frozen(s).(guard := s.guard.(topologyBlocker := Some(reason)))
    case ModeChanged => Frozen(s).(guard := s.guard.(topologyBlocker := Some(DYNAMIC_CHANGED)))
    case Reloaded(topology) => if c.dynamicEnabled then Frozen(s) else AfterTopology(Frozen(s), topology)
  }

  function AfterHealth(c: Config, s: State, now: u64): State {
    var feeds := S.Refreshed(s.feeds, now, c.maxStaleness);
    var connected := S.AllConnected(feeds);
    var passed := if connected then s.passed + {MarketDataSynchronized} else s.passed - {MarketDataSynchronized};
    s.(feeds := feeds, passed := passed,
       allow := !s.halt && MayIncrease(s.guard, s.started, ReadyFor(passed, c.mode), connected))
  }

  function AfterStart(c: Config, s: State): State {
    var ready := ReadyFor(s.passed, c.mode);
    if s.halt || !ready || !S.AllConnected(s.feeds) || !Ready(s.guard, ready) then s
    else s.(started := true, allow := MayIncrease(s.guard, true, ready, S.AllConnected(s.feeds)))
  }

  /** Leaving the loop, for whatever reason, runs the shutdown policy with exposure closed. */
  function Ended(s: State): State {
    s.(started := false, allow := false, running := false)
  }

  /** One step: the new state and what reached the venue. A stopped daemon does nothing. */
  function After(c: Config, s: State, step: Step): (State, seq<Intent>) {
    if !s.running then (s, [])
    else
      match step
      case MarketEvent(feed, received, markable, intents) =>
        var next := s.(feeds := S.Observed(s.feeds, feed, received));
        if !markable then (next.(running := false), [])
        else (next, if s.halt then [] else Dispatched(s.allow, s.pins.safeHold, intents))
      case Reconcile(venues, fillsIngested, viewsRebuilt) => (AfterReconcile(c, s, venues, fillsIngested, viewsRebuilt), [])
      case UniverseTick(topology) => (if c.dynamicEnabled then AfterTopology(Frozen(s), topology) else s, [])
      case FeedFatal(feed) =>
        (s.(allow := false, feeds := S.Reconnected(S.WithState(s.feeds, feed, S.Failed), feed)), [])
      case LeaseLost(flatten) => (Ended(s), Flattened(flatten))
      case HealthTick(now) => (AfterHealth(c, s, now), [])
      case Stop => (s.(started := false, allow := false), [])
      case Start => (AfterStart(c, s), [])
      case EmergencyExit(reported) => (s.(halt := true, started := false, allow := false), Flattened(reported))
      case ReloadStrategies(reload) => (AfterReload(c, s, reload), [])
      case Shutdown(flatten) => (Ended(s), Flattened(flatten))
  }

  type Transition = (State, Step) -> State

  function Fold(f: Transition, s: State, steps: seq<Step>): State {
    if steps == [] then s else f(Fold(f, s, steps[..|steps| - 1]), steps[|steps| - 1])
  }

  function Transitions(c: Config): Transition {
    (s, step) => After(c, s, step).0
  }

  function RunFrom(c: Config, s: State, steps: seq<Step>): State {
    Fold(Transitions(c), s, steps)
  }

  lemma {:induction false} FoldKeeps(f: Transition, kept: State -> bool, s: State, steps: seq<Step>)
    requires kept(s) && forall t, step :: kept(t) ==> kept(f(t, step))
    ensures kept(Fold(f, s, steps))
  {
    if steps != [] {
      FoldKeeps(f, kept, s, steps[..|steps| - 1]);
    }
  }

  lemma {:induction false} FoldSplits(f: Transition, s: State, steps: seq<Step>, k: nat)
    requires k <= |steps|
    ensures Fold(f, s, steps) == Fold(f, Fold(f, s, steps[..k]), steps[k..])
    decreases |steps|
  {
    if k < |steps| {
      var n := |steps| - 1;
      assert steps[..n][..k] == steps[..k] && steps[k..][..n - k] == steps[..n][k..];
      FoldSplits(f, s, steps[..n], k);
    } else {
      assert steps[..k] == steps;
    }
  }

  // ---------------------------------------------------------------- what every reachable state satisfies

  /** The startup state of a run. */
  ghost predicate Initial(s: State) {
    && !s.allow && !s.halt && s.running
    && s.pins == DerivedPins(s.positions, s.orders, s.hold)
    && S.Sound(s.feeds)
  }

  ghost predicate Safe(c: Config, s: State) {
    && (s.allow ==> ExposureIsSafe(c, s))
    && (s.halt ==> !s.started && !s.allow)
    && HeldPositions(s.positions) + HeldOrders(s.orders) <= s.pins.safeHold
    && S.Sound(s.feeds)
  }

  lemma StartupIsInitial(autoStart: bool, startupClean: bool, ambiguousClean: bool, passed: set<Gate>, feeds: set<S.Feed>,
                         positions: Positions, orders: Orders, hold: set<AssetKey>)
    ensures Initial(Started(autoStart, startupClean, ambiguousClean, passed, feeds, positions, orders, hold))
  {
  }

  /** An observed event can only complete the set of connected feeds. */
  lemma ObservingKeepsConnected(f: S.Feeds, feed: S.Feed, received: u64)
    requires S.Sound(f) && S.AllConnected(f)
    ensures S.AllConnected(S.Observed(f, feed, received))
  {
    S.AllConnectedMeansEach(f);
    S.AllConnectedMeansEach(S.Observed(f, feed, received));
  }

  lemma ReconcileKeepsSafe(c: Config, s: State, venues: seq<VenueOutcome>, fillsIngested: bool, viewsRebuilt: bool)
    requires Safe(c, s)
    ensures Safe(c, AfterReconcile(c, s, venues, fillsIngested, viewsRebuilt))
  {
  }

  lemma TopologyKeepsSafe(c: Config, s: State, t: Topology)
    requires Safe(c, s) && !s.allow
    ensures Safe(c, AfterTopology(s, t))
  {
  }

  lemma HealthKeepsSafe(c: Config, s: State, now: u64)
    requires Safe(c, s)
    ensures Safe(c, AfterHealth(c, s, now))
  {
  }

  lemma MarketEventKeepsSafe(c: Config, s: State, feed: S.Feed, received: u64, running: bool)
    requires Safe(c, s)
    ensures Safe(c, s.(feeds := S.Observed(s.feeds, feed, received), running := running))
  {
    if s.allow { ObservingKeepsConnected(s.feeds, feed, received); }
  }

  lemma ReloadKeepsSafe(c: Config, s: State, r: Reload)
    requires Safe(c, s)
    ensures Safe(c, AfterReload(c, s, r))
  {
    if r.Reloaded? { TopologyKeepsSafe(c, Frozen(s), r.topology); }
  }

  lemma StartKeepsSafe(c: Config, s: State)
    requires Safe(c, s)
    ensures Safe(c, AfterStart(c, s))
  {
  }

  lemma FatalKeepsSafe(c: Config, s: State, feed: S.Feed)
    requires Safe(c, s)
    ensures Safe(c, s.(allow := false, feeds := S.Reconnected(S.WithState(s.feeds, feed, S.Failed), feed)))
  {
  }

  lemma StepKeepsSafe(c: Config, s: State, step: Step)
    requires Safe(c, s)
    ensures Safe(c, After(c, s, step).0)
  {
    if s.running {
      match step
      case MarketEvent(feed, received, markable, intents) => MarketEventKeepsSafe(c, s, feed, received, markable);
      case Reconcile(venues, fillsIngested, viewsRebuilt) => ReconcileKeepsSafe(c, s, venues, fillsIngested, viewsRebuilt);
      case UniverseTick(topology) => TopologyKeepsSafe(c, Frozen(s), topology);
      case FeedFatal(feed) => FatalKeepsSafe(c, s, feed);
      case ReloadStrategies(reload) => ReloadKeepsSafe(c, s, reload);
      case HealthTick(now) => HealthKeepsSafe(c, s, now);
      case Start => StartKeepsSafe(c, s);
      case _ =>
    }
  }

  lemma EveryRunIsSafe(c: Config, s: State, steps: seq<Step>)
    requires Initial(s)
    ensures Safe(c, RunFrom(c, s, steps))
  {
    var kept := (t: State) => Safe(c, t);
    forall t: State, step: Step | kept(t)
      ensures kept(Transitions(c)(t, step))
    {
      StepKeepsSafe(c, t, step);
    }
    FoldKeeps(Transitions(c), kept, s, steps);
  }

  /** In every reachable state, admitting new exposure means: no operator halt, started by the
      operator, no topology blocker, the last reconcile clean, every required gate passed and
      each feed connected. */
  lemma AdmissionIsJustified(c: Config, s: State, steps: seq<Step>)
    requires Initial(s)
    ensures var now := RunFrom(c, s, steps);
            && (now.allow ==> ExposureIsSafe(c, now))
            && (now.allow ==> now.feeds.feeds != {}
                              && forall feed :: feed in now.feeds.feeds ==>
                                   feed in now.feeds.statuses && now.feeds.statuses[feed].state.Connected?)
  {
    EveryRunIsSafe(c, s, steps);
    S.AllConnectedMeansEach(RunFrom(c, s, steps).feeds);
  }

  /** After a reconcile, a health tick or an operator start the admission is exact: new exposure
      is allowed if and only if all of that holds. No other step ever opens it. */
  lemma AdmissionIsExact(c: Config, s: State, step: Step)
    requires Safe(c, s) && s.running
    ensures var next := After(c, s, step).0;
            && (step.Reconcile? || step.HealthTick? || step.Start? ==> (next.allow <==> ExposureIsSafe(c, next)))
            && (next.allow && !s.allow ==> step.Reconcile? || step.HealthTick? || step.Start?)
  {
    match step
    case Reconcile(venues, fillsIngested, viewsRebuilt) => ReconcileIsExact(c, s, venues, fillsIngested, viewsRebuilt);
    case HealthTick(now) => HealthIsExact(c, s, now);
    case Start => StartIsExact(c, s);
    case ReloadStrategies(reload) => ReloadKeepsSafe(c, s, reload);
    case _ =>
  }

  lemma ReconcileIsExact(c: Config, s: State, venues: seq<VenueOutcome>, fillsIngested: bool, viewsRebuilt: bool)
    requires Safe(c, s)
    ensures var next := AfterReconcile(c, s, venues, fillsIngested, viewsRebuilt);
            next.allow <==> ExposureIsSafe(c, next)
  {
  }

  lemma HealthIsExact(c: Config, s: State, now: u64)
    ensures AfterHealth(c, s, now).allow <==> ExposureIsSafe(c, AfterHealth(c, s, now))
  {
  }

  lemma StartIsExact(c: Config, s: State)
    requires Safe(c, s)
    ensures AfterStart(c, s).allow <==> ExposureIsSafe(c, AfterStart(c, s))
  {
  }

  /** A stop, an exit, a fatal feed, a topology change, a reload and leaving the loop close it. */
  lemma TheseStepsClose(c: Config, s: State, step: Step)
    requires s.running
    requires || step.Stop? || step.EmergencyExit? || step.FeedFatal? || step.LeaseLost? || step.Shutdown?
             || step.ReloadStrategies? || (step.UniverseTick? && c.dynamicEnabled)
    ensures !After(c, s, step).0.allow
    ensures step.Stop? || step.EmergencyExit? ==> !After(c, s, step).0.started
    ensures step.EmergencyExit? ==> After(c, s, step).0.halt
    ensures step.LeaseLost? || step.Shutdown? <==> !After(c, s, step).0.running
  {
  }

  /** A topology change leaves the topology blocked unless it was fully applied, and a reload
      also while universes are dynamic; nothing else touches that gate. */
  lemma TopologyBlocksUntilApplied(c: Config, s: State, step: Step)
    requires s.running
    ensures var before, after := s.guard.topologyBlocker, After(c, s, step).0.guard.topologyBlocker;
            match step
            case UniverseTick(t) => if c.dynamicEnabled then after.None? <==> t.Applied? else after == before
            case ReloadStrategies(r) => after.None? <==> !c.dynamicEnabled && r.Reloaded? && r.topology.Applied?
            case _ => after == before
  {
  }

  /** The venue was recovered and reconciled with nothing unresolved. */
  predicate CleanVenue(v: VenueOutcome) {
    v.Cycle? && v.unresolved == {} && v.reportClean
  }

  function HeldBy(v: VenueOutcome): set<AssetKey> {
    match v
    case RecoveryFailed => {}
    case ReconcileFailed(unresolved) => unresolved
    case Cycle(unresolved, _, safeHold, _, _) => unresolved + safeHold
  }

  type VenueTest = VenueOutcome -> bool

  ghost predicate SomeVenue(venues: seq<VenueOutcome>, test: VenueTest) {
    exists i :: 0 <= i < |venues| && test(venues[i])
  }

  function Unclean(): VenueTest {
    (v: VenueOutcome) => !CleanVenue(v)
  }

  function Holding(key: AssetKey): VenueTest {
    (v: VenueOutcome) => key in HeldBy(v)
  }

  function Reporting(key: AssetKey): VenueTest {
    (v: VenueOutcome) => v.Cycle? && key in v.positions
  }

  function Knowing(id: string): VenueTest {
    (v: VenueOutcome) => v.Cycle? && id in v.orders
  }

  lemma SomeOfOneMore(venues: seq<VenueOutcome>, test: VenueTest)
    requires venues != []
    ensures SomeVenue(venues, test) <==> SomeVenue(venues[..|venues| - 1], test) || test(venues[|venues| - 1])
  {
    var n := |venues| - 1;
    if SomeVenue(venues[..n], test) {
      var i :| 0 <= i < n && test(venues[..n][i]);
      assert test(venues[i]);
    }
    if i :| 0 <= i < |venues| && test(venues[i]) {
      assert i < n ==> test(venues[..n][i]);
    }
  }

  /** A collection is clean exactly when no venue is unclean, holds what some venue holds, and
      knows exactly the orders and positions that some reconciled venue reported. */
  lemma {:induction false} CollectMeaning(venues: seq<VenueOutcome>, key: AssetKey, id: string)
    ensures Collect(venues).clean <==> !SomeVenue(venues, Unclean())
    ensures key in Collect(venues).hold <==> SomeVenue(venues, Holding(key))
    ensures key in Collect(venues).positions <==> SomeVenue(venues, Reporting(key))
    ensures id in Collect(venues).orders <==> SomeVenue(venues, Knowing(id))
  {
    if venues != [] {
      var n := |venues| - 1;
      CollectMeaning(venues[..n], key, id);
      SomeOfOneMore(venues, Unclean());
      SomeOfOneMore(venues, Holding(key));
      SomeOfOneMore(venues, Reporting(key));
      SomeOfOneMore(venues, Knowing(id));
    }
  }

  /** Every increase that reaches the venue was admitted by all the gates, on an asset that no
      manual or unknown position and no ambiguous order of the last adopted snapshot holds. */
  lemma IncreasesAreGated(c: Config, s: State, steps: seq<Step>, step: Step, i: nat)
    requires Initial(s)
    requires i < |After(c, RunFrom(c, s, steps), step).1|
    requires After(c, RunFrom(c, s, steps), step).1[i].effect.Increase?
    ensures var now, intent := RunFrom(c, s, steps), After(c, RunFrom(c, s, steps), step).1[i];
            && ExposureIsSafe(c, now)
            && intent.key !in now.pins.safeHold
            && intent.key !in HeldPositions(now.positions) && intent.key !in HeldOrders(now.orders)
  {
    EveryRunIsSafe(c, s, steps);
    var now := RunFrom(c, s, steps);
    match step
    case MarketEvent(_, _, _, intents) => DispatchedAreAdmitted(now.allow, now.pins.safeHold, intents);
    case EmergencyExit(reported) => FlatteningOnlyCloses(reported, i);
    case LeaseLost(flatten) => FlatteningOnlyCloses(flatten, i);
    case Shutdown(flatten) => FlatteningOnlyCloses(flatten, i);
    case _ =>
  }

  lemma HaltStays(c: Config, s: State, step: Step)
    requires s.halt
    ensures After(c, s, step).0.halt
  {
  }

  lemma HaltedRunsStayHalted(c: Config, s: State, steps: seq<Step>)
    requires s.halt
    ensures RunFrom(c, s, steps).halt
  {
    var f, kept := Transitions(c), (t: State) => t.halt;
    forall t: State, step: Step | kept(t)
      ensures kept(f(t, step))
    {
      HaltStays(c, t, step);
    }
    FoldKeeps(f, kept, s, steps);
  }

  lemma HaltIsSticky(c: Config, s: State, steps: seq<Step>, k: nat)
    requires k < |steps| && steps[k].EmergencyExit? && RunFrom(c, s, steps[..k]).running
    ensures RunFrom(c, s, steps).halt
  {
    assert steps[..k + 1][..k] == steps[..k];
    ExitHalts(c, s, steps[..k + 1]);
    HaltedRunsStayHalted(c, RunFrom(c, s, steps[..k + 1]), steps[k + 1..]);
    FoldSplits(Transitions(c), s, steps, k + 1);
  }

  lemma ExitHalts(c: Config, s: State, steps: seq<Step>)
    requires steps != [] && steps[|steps| - 1].EmergencyExit? && RunFrom(c, s, steps[..|steps| - 1]).running
    ensures RunFrom(c, s, steps).halt
  {
  }

  /** After an emergency exit, no increase ever reaches the venue again in that run, and no
      strategy intent does at all: only the closing orders of another exit or of leaving the loop. */
  lemma NothingAfterEmergencyExit(c: Config, s: State, steps: seq<Step>, k: nat, step: Step, i: nat)
    requires Initial(s)
    requires k < |steps| && steps[k].EmergencyExit? && RunFrom(c, s, steps[..k]).running
    requires i < |After(c, RunFrom(c, s, steps), step).1|
    ensures step.EmergencyExit? || step.LeaseLost? || step.Shutdown?
    ensures After(c, RunFrom(c, s, steps), step).1[i].effect.ReduceOnly?
  {
    HaltIsSticky(c, s, steps, k);
    match step
    case EmergencyExit(reported) => FlatteningOnlyCloses(reported, i);
    case LeaseLost(flatten) => FlatteningOnlyCloses(flatten, i);
    case Shutdown(flatten) => FlatteningOnlyCloses(flatten, i);
    case _ =>
  }

  /** The hold only shrinks when a whole cycle is clean, and then to exactly what that cycle
      justifies. */
  lemma HoldOnlyShrinksOnCleanCycles(c: Config, s: State, step: Step)
    ensures var next := After(c, s, step).0;
            || s.pins.safeHold <= next.pins.safeHold
            || (&& step.Reconcile? && Collect(step.venues).clean && step.fillsIngested && step.viewsRebuilt
                && next.pins.safeHold
                   == Collect(step.venues).hold + HeldPositions(next.positions) + HeldOrders(next.orders))
  {
  }
}
