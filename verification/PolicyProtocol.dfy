/** Policy orders across lost acknowledgments, unclean reconciles and restarts. The venue and
    the durable store are part of the state; an order is live while it may still be
    non-terminal at the venue, whatever its record says. */
module PolicyProtocol {
  import opened Common
  import opened Execution
  import opened UnattendedGuard
  import Oms
  import OrderedSet

  type Records = map<string, Oms.Order>

  datatype State = State(
    durable: Records, policy: set<string>, live: set<string>,   // the store; which orders are policy orders; the venue
    latest: Records, attempted: map<string, Attempt>,           // the daemon's memory
    reconcileClean: bool)                                       // the last reconcile of this process

  const INITIAL := State(map[], {}, {}, map[], map[], false)

  /** How a dispatch ends: without a durable record and without an order, or with a record
      whose order may or may not be live. */
  datatype Outcome = NotJournaled | Journaled(live: bool)

  datatype Step =
    | Decide(order: Oms.Order, gate: bool, outcome: Outcome)  // a policy decision; `order` as its dispatch leaves it
    | OtherOrder(order: Oms.Order, live: bool)                // a native strategy order or a closing order
    | Write(writes: Records)                                  // cancels, and reconciles that fail half-way
    | Reconcile(writes: Records, clean: bool)                 // records written by recovery and reconcile
    | VenueTerminates(client: string)
    | Restart(writes: Records, clean: bool)                   // a startup that got through its reconcile

  /** A decision is dispatched: not busy, not refused by the risk gate, and an increase needs
      exposure admission, which is never open after an unclean reconcile. */
  predicate Dispatches(s: State, step: Step)
    requires step.Decide?
  {
    && !Busy(step.order.owner, s.latest, s.attempted)
    && step.gate
    && (step.order.effect != Some(ReduceOnly) ==> s.reconcileClean)
  }

  function AfterDecide(s: State, step: Step): State
    requires step.Decide?
  {
    var order := step.order;
    var remembered := Remembered(order.owner, s.latest, s.attempted);
    if !Dispatches(s, step) then s.(attempted := remembered)
    else
      var tried := s.(attempted := remembered[order.owner := Attempt(order.venue, order.clientOrderId)]);
      if step.outcome.NotJournaled? then tried
      else tried.(durable := s.durable[order.clientOrderId := order], policy := s.policy + {order.clientOrderId},
                  live := if step.outcome.live then s.live + {order.clientOrderId} else s.live)
  }

  /** A reconcile returns every durable record, clean or not; the loop adopts them only when
      clean, a startup always. */
  function After(s: State, step: Step): State {
    match step
    case Decide(_, _, _) => AfterDecide(s, step)
    case OtherOrder(order, live) =>
      s.(durable := s.durable[order.clientOrderId := order], live := if live then s.live + {order.clientOrderId} else s.live)
    case Write(writes) => s.(durable := s.durable + writes)
    case Reconcile(writes, clean) =>
      var durable := s.durable + writes;
      s.(durable := durable, latest := if clean then durable else s.latest, reconcileClean := clean)
    case VenueTerminates(client) => s.(live := s.live - {client})
    case Restart(writes, clean) =>
      var durable := s.durable + writes;
      s.(durable := durable, latest := durable, attempted := map[], reconcileClean := clean)
  }

  /** Writes update known records, keep their identity and resurrect no terminal one. */
  ghost predicate Legal(s: State, writes: Records) {
    forall c :: c in writes ==>
      && c in s.durable
      && writes[c].owner == s.durable[c].owner
      && writes[c].venue == s.durable[c].venue
      && (Oms.IsTerminal(s.durable[c]) ==> Oms.IsTerminal(writes[c]))
  }

  /** A live order whose record is terminal. */
  ghost predicate Hidden(s: State, c: string) {
    c in s.live && c in s.durable && Oms.IsTerminal(s.durable[c])
  }

  /** What the environment may do: fresh client ids and legal writes. Only a clean reconcile is
      trusted about the venue. */
  ghost predicate Possible(s: State, step: Step) {
    match step
    case Decide(order, _, _) => order.clientOrderId !in s.durable
    case OtherOrder(order, _) => order.clientOrderId !in s.durable
    case Write(writes) => Legal(s, writes)
    case Reconcile(writes, clean) => Legal(s, writes) && (clean ==> forall c :: !Hidden(After(s, step), c))
    case Restart(writes, clean) => Legal(s, writes) && (clean ==> forall c :: !Hidden(After(s, step), c))
    case VenueTerminates(_) => true
  }

  function Run(steps: seq<Step>): State {
    if steps == [] then INITIAL else After(Run(steps[..|steps| - 1]), steps[|steps| - 1])
  }

  ghost predicate PossibleRun(steps: seq<Step>) {
    forall i {:trigger steps[i]} :: 0 <= i < |steps| ==> Possible(Run(steps[..i]), steps[i])
  }

  /** The policy orders of one strategy whose record is not terminal. */
  function OpenOf(s: State, strategy: string): set<string> {
    set c | c in s.policy && c in s.durable && s.durable[c].owner == strategy && !Oms.IsTerminal(s.durable[c])
  }

  /** The policy orders of one strategy that are live. */
  function LiveOf(s: State, strategy: string): set<string> {
    set c | c in s.policy && c in s.durable && s.durable[c].owner == strategy && c in s.live
  }

  /** A strategy with a live policy order is busy. */
  ghost predicate Covered(s: State) {
    forall strategy :: LiveOf(s, strategy) != {} ==> Busy(strategy, s.latest, s.attempted)
  }

  ghost predicate OneOpen(s: State, strategy: string) {
    |OpenOf(s, strategy)| <= 1 && (OpenOf(s, strategy) != {} ==> Busy(strategy, s.latest, s.attempted))
  }

  ghost predicate Sound(s: State) {
    && s.policy <= s.durable.Keys && s.live <= s.durable.Keys && s.latest.Keys <= s.durable.Keys
    && (forall strategy :: OneOpen(s, strategy))
    && (s.reconcileClean ==> Covered(s))
  }

  ghost predicate AtMostOneLive(s: State) {
    forall strategy :: |LiveOf(s, strategy)| <= 1
  }

  // ---------------------------------------------------------------- why it works

  /** A new attempt is busy until a snapshot settles it. */
  lemma NewAttemptIsBusy(s: State, step: Step)
    requires step.Decide? && Dispatches(s, step) && step.order.clientOrderId !in s.latest
    ensures Busy(step.order.owner, After(s, step).latest, After(s, step).attempted)
  {
  }

  /** A decision changes nobody else's memory. */
  lemma OthersStayBusy(s: State, step: Step, strategy: string)
    requires step.Decide? && strategy != step.order.owner
    ensures Busy(strategy, After(s, step).latest, After(s, step).attempted) == Busy(strategy, s.latest, s.attempted)
  {
  }

  lemma DecideKeepsOneOpen(s: State, step: Step, strategy: string)
    requires Sound(s) && Possible(s, step) && step.Decide?
    ensures OneOpen(After(s, step), strategy)
  {
    var next := After(s, step);
    assert OneOpen(s, strategy);
    if strategy != step.order.owner {
      OthersStayBusy(s, step, strategy);
      assert OpenOf(next, strategy) == OpenOf(s, strategy);
    } else if Dispatches(s, step) {
      NewAttemptIsBusy(s, step);
      assert OpenOf(next, strategy) <= {step.order.clientOrderId};
      OrderedSet.SubsetSize(OpenOf(next, strategy), {step.order.clientOrderId});
    } else {
      assert OpenOf(next, strategy) == OpenOf(s, strategy);
    }
  }

  lemma DecideKeepsCovered(s: State, step: Step)
    requires Sound(s) && Possible(s, step) && step.Decide? && Covered(s)
    ensures Covered(After(s, step))
  {
    var next := After(s, step);
    forall strategy | LiveOf(next, strategy) != {}
      ensures Busy(strategy, next.latest, next.attempted)
    {
      if strategy != step.order.owner {
        OthersStayBusy(s, step, strategy);
        assert LiveOf(next, strategy) == LiveOf(s, strategy);
      } else if Dispatches(s, step) {
        NewAttemptIsBusy(s, step);
      } else {
        assert LiveOf(next, strategy) == LiveOf(s, strategy);
      }
    }
  }

  /** Writing records opens none and moves none to another strategy. */
  lemma WritesOnlyClose(s: State, writes: Records, strategy: string)
    requires Sound(s) && Legal(s, writes)
    ensures var t := s.(durable := s.durable + writes);
            OpenOf(t, strategy) <= OpenOf(s, strategy) && LiveOf(t, strategy) == LiveOf(s, strategy)
  {
  }

  lemma WriteKeepsSound(s: State, writes: Records)
    requires Sound(s) && Legal(s, writes)
    ensures Sound(s.(durable := s.durable + writes))
  {
    var t := s.(durable := s.durable + writes);
    forall strategy
      ensures OneOpen(t, strategy) && LiveOf(t, strategy) == LiveOf(s, strategy)
    {
      assert OneOpen(s, strategy);
      WritesOnlyClose(s, writes, strategy);
      OrderedSet.SubsetSize(OpenOf(t, strategy), OpenOf(s, strategy));
    }
  }

  /** Adopting the durable records shows every open one. */
  lemma AdoptingShowsOpen(s: State, attempted: map<string, Attempt>, strategy: string, c: string)
    requires c in OpenOf(s, strategy)
    ensures Busy(strategy, s.durable, attempted)
  {
    assert c in s.durable;
  }

  lemma AdoptingKeepsSound(s: State, attempted: map<string, Attempt>, clean: bool)
    requires Sound(s) && (clean ==> forall c :: !Hidden(s, c))
    ensures Sound(s.(latest := s.durable, attempted := attempted, reconcileClean := clean))
  {
    var t := s.(latest := s.durable, attempted := attempted, reconcileClean := clean);
    forall strategy
      ensures OneOpen(t, strategy) && (clean && LiveOf(t, strategy) != {} ==> Busy(strategy, t.latest, t.attempted))
    {
      assert OneOpen(s, strategy);
      assert OpenOf(t, strategy) == OpenOf(s, strategy);
      if c :| c in OpenOf(t, strategy) { AdoptingShowsOpen(s, attempted, strategy, c); }
      if clean {
        if c :| c in LiveOf(t, strategy) {
          assert !Hidden(s, c);
          AdoptingShowsOpen(s, attempted, strategy, c);
        }
      }
    }
  }

  lemma LifeKeepsSound(s: State, step: Step)
    requires Sound(s) && Possible(s, step) && (step.OtherOrder? || step.VenueTerminates?)
    ensures Sound(After(s, step))
  {
    var next := After(s, step);
    forall strategy
      ensures OneOpen(next, strategy) && LiveOf(next, strategy) <= LiveOf(s, strategy)
    {
      assert OneOpen(s, strategy);
      assert OpenOf(next, strategy) == OpenOf(s, strategy);
    }
  }

  lemma ReconcileKeepsSound(s: State, writes: Records, attempted: map<string, Attempt>, clean: bool)
    requires Sound(s) && Legal(s, writes)
    requires clean ==> forall c :: !Hidden(s.(durable := s.durable + writes), c)
    ensures var t := s.(durable := s.durable + writes);
            && Sound(t.(reconcileClean := false))
            && Sound(t.(latest := t.durable, attempted := attempted, reconcileClean := clean))
  {
    var t := s.(durable := s.durable + writes);
    WriteKeepsSound(s, writes);
    forall strategy
      ensures OneOpen(t.(reconcileClean := false), strategy)
    {
      assert OneOpen(t, strategy);
      assert OpenOf(t.(reconcileClean := false), strategy) == OpenOf(t, strategy);
    }
    AdoptingKeepsSound(t, attempted, clean);
  }

  lemma StepKeepsSound(s: State, step: Step)
    requires Sound(s) && Possible(s, step)
    ensures Sound(After(s, step))
  {
    match step
    case Decide(_, _, _) =>
      forall strategy
        ensures OneOpen(After(s, step), strategy)
      {
        DecideKeepsOneOpen(s, step, strategy);
      }
      if s.reconcileClean { DecideKeepsCovered(s, step); }
    case OtherOrder(_, _) => LifeKeepsSound(s, step);
    case VenueTerminates(_) => LifeKeepsSound(s, step);
    case Write(writes) => WriteKeepsSound(s, writes);
    case Reconcile(writes, clean) =>
      assert forall c :: Hidden(After(s, step), c) <==> Hidden(s.(durable := s.durable + writes), c);
      ReconcileKeepsSound(s, writes, s.attempted, clean);
    case Restart(writes, clean) =>
      assert forall c :: Hidden(After(s, step), c) <==> Hidden(s.(durable := s.durable + writes), c);
      ReconcileKeepsSound(s, writes, map[], clean);
  }

  lemma PossiblePrefix(steps: seq<Step>, n: nat)
    requires PossibleRun(steps) && n <= |steps|
    ensures PossibleRun(steps[..n])
  {
    forall i | 0 <= i < n
      ensures Possible(Run(steps[..n][..i]), steps[..n][i])
    {
      assert steps[..n][..i] == steps[..i];
      assert steps[..n][i] == steps[i];
    }
  }

  lemma {:induction false} EveryRunIsSound(steps: seq<Step>)
    requires PossibleRun(steps)
    ensures Sound(Run(steps))
  {
    if steps != [] {
      var n := |steps| - 1;
      PossiblePrefix(steps, n);
      EveryRunIsSound(steps[..n]);
      assert Possible(Run(steps[..n]), steps[n]);
      StepKeepsSound(Run(steps[..n]), steps[n]);
    }
  }

  // ---------------------------------------------------------------- the guarantees

  /** In every run, with lost acknowledgments, unclean reconciles and unclean starts, and
      whatever the venue does or claims: a strategy has at most one policy order whose durable
      record is not terminal, and while it has one it is busy. */
  lemma OneOpenRecordInEveryRun(steps: seq<Step>, strategy: string)
    requires PossibleRun(steps)
    ensures |OpenOf(Run(steps), strategy)| <= 1
    ensures OpenOf(Run(steps), strategy) != {} ==> Busy(strategy, Run(steps).latest, Run(steps).attempted)
  {
    EveryRunIsSound(steps);
    assert OneOpen(Run(steps), strategy);
  }

  /** In every such run the live policy orders of a strategy, all but those recorded as
      terminal, are at most one; so there is at most one where no record lies. */
  lemma OneLiveOrderUnlessARecordLies(steps: seq<Step>, strategy: string)
    requires PossibleRun(steps)
    ensures |set c | c in LiveOf(Run(steps), strategy) && !Hidden(Run(steps), c)| <= 1
    ensures (forall c :: c in LiveOf(Run(steps), strategy) ==> !Hidden(Run(steps), c)) ==>
              |LiveOf(Run(steps), strategy)| <= 1
  {
    var s := Run(steps);
    OneOpenRecordInEveryRun(steps, strategy);
    var honest := set c | c in LiveOf(s, strategy) && !Hidden(s, c);
    assert honest <= OpenOf(s, strategy);
    OrderedSet.SubsetSize(honest, OpenOf(s, strategy));
    if forall c :: c in LiveOf(s, strategy) ==> !Hidden(s, c) {
      assert honest == LiveOf(s, strategy);
    }
  }

  /** In every run an increase is dispatched only when no policy order of its strategy is live,
      trusting no record but those of clean reconciles. */
  lemma IncreasesFindNothingLive(steps: seq<Step>, step: Step)
    requires PossibleRun(steps) && step.Decide? && step.order.effect == Some(Increase) && Dispatches(Run(steps), step)
    ensures LiveOf(Run(steps), step.order.owner) == {}
  {
    EveryRunIsSound(steps);
    assert Covered(Run(steps));
  }

  /** What a start would have to show: an active record for each strategy with a live order. */
  ghost predicate Shows(s: State) {
    forall strategy :: LiveOf(s, strategy) != {} ==> HasActiveOrder(strategy, s.latest)
  }

  ghost predicate EveryStartShows(steps: seq<Step>) {
    steps != [] ==>
      && EveryStartShows(steps[..|steps| - 1])
      && (steps[|steps| - 1].Restart? ==> Shows(Run(steps)))
  }

  /** Every state of the run is covered. */
  ghost predicate AlwaysCovered(steps: seq<Step>) {
    Covered(Run(steps)) && (steps != [] ==> AlwaysCovered(steps[..|steps| - 1]))
  }

  lemma CoveredUnlessRestart(s: State, step: Step)
    requires Sound(s) && Possible(s, step) && Covered(s) && !step.Restart?
    ensures Covered(After(s, step))
  {
    match step
    case Decide(_, _, _) => DecideKeepsCovered(s, step);
    case Reconcile(writes, clean) =>
      StepKeepsSound(s, step);
      if !clean { WritingKeepsCovered(s, writes, After(s, step)); }
    case Write(writes) => WritingKeepsCovered(s, writes, After(s, step));
    case OtherOrder(_, _) => FewerLiveKeepsCovered(s, After(s, step));
    case VenueTerminates(_) => FewerLiveKeepsCovered(s, After(s, step));
  }

  lemma FewerLiveKeepsCovered(s: State, t: State)
    requires Covered(s) && s.latest == t.latest && s.attempted == t.attempted
    requires forall strategy :: LiveOf(t, strategy) <= LiveOf(s, strategy)
    ensures Covered(t)
  {
  }

  lemma WritingKeepsCovered(s: State, writes: Records, t: State)
    requires Sound(s) && Legal(s, writes) && Covered(s)
    requires t == s.(durable := s.durable + writes, reconcileClean := t.reconcileClean)
    ensures Covered(t)
  {
    forall strategy
      ensures LiveOf(t, strategy) <= LiveOf(s, strategy)
    {
      WritesOnlyClose(s, writes, strategy);
    }
    FewerLiveKeepsCovered(s, t);
  }

  /** A start forgets all attempts, so it covers exactly what its records show. */
  lemma StartCoversWhatItShows(s: State, step: Step)
    requires step.Restart?
    ensures Covered(After(s, step)) <==> Shows(After(s, step))
  {
  }

  /** Along a whole run every live policy order blocks its strategy exactly when every start
      does so with the records it adopts. */
  lemma {:induction false} CoveredIffEveryStartShows(steps: seq<Step>)
    requires PossibleRun(steps)
    ensures AlwaysCovered(steps) <==> EveryStartShows(steps)
  {
    if steps != [] {
      var n := |steps| - 1;
      var s, step := Run(steps[..n]), steps[n];
      PossiblePrefix(steps, n);
      CoveredIffEveryStartShows(steps[..n]);
      EveryRunIsSound(steps[..n]);
      assert Possible(s, step);
      if step.Restart? {
        StartCoversWhatItShows(s, step);
      } else if Covered(s) {
        CoveredUnlessRestart(s, step);
      }
    }
  }

  lemma StepKeepsOneLive(s: State, step: Step, strategy: string)
    requires Sound(s) && Possible(s, step) && Covered(s) && |LiveOf(s, strategy)| <= 1
    ensures |LiveOf(After(s, step), strategy)| <= 1
  {
    var next := After(s, step);
    if step.Decide? && strategy == step.order.owner && Dispatches(s, step) {
      assert LiveOf(next, strategy) <= {step.order.clientOrderId};
      OrderedSet.SubsetSize(LiveOf(next, strategy), {step.order.clientOrderId});
    } else {
      assert LiveOf(next, strategy) <= LiveOf(s, strategy);
      OrderedSet.SubsetSize(LiveOf(next, strategy), LiveOf(s, strategy));
    }
  }

  /** If every start shows an active record for each strategy with a live order, then no
      strategy ever has two live policy orders, whatever is lost or misreported in between. */
  lemma {:induction false} OneLiveOrderIfEveryStartShows(steps: seq<Step>)
    requires PossibleRun(steps) && EveryStartShows(steps)
    ensures AtMostOneLive(Run(steps))
  {
    if steps != [] {
      var n := |steps| - 1;
      PossiblePrefix(steps, n);
      OneLiveOrderIfEveryStartShows(steps[..n]);
      CoveredIffEveryStartShows(steps[..n]);
      EveryRunIsSound(steps[..n]);
      assert Possible(Run(steps[..n]), steps[n]);
      forall strategy
        ensures |LiveOf(Run(steps), strategy)| <= 1
      {
        assert |LiveOf(Run(steps[..n]), strategy)| <= 1;
        StepKeepsOneLive(Run(steps[..n]), steps[n], strategy);
      }
    }
  }

  /** No start adopts a terminal record of an order that is live. */
  ghost predicate NoStartHides(steps: seq<Step>) {
    steps != [] ==>
      && NoStartHides(steps[..|steps| - 1])
      && (steps[|steps| - 1].Restart? ==> forall c :: !Hidden(Run(steps), c))
  }

  /** Starts that hide nothing show what they have to, and clean starts hide nothing. */
  lemma {:induction false} StartsThatHideNothingShow(steps: seq<Step>)
    requires PossibleRun(steps)
    ensures NoStartHides(steps) ==> EveryStartShows(steps)
    ensures (forall i :: 0 <= i < |steps| && steps[i].Restart? ==> steps[i].clean) ==> NoStartHides(steps)
  {
    if steps != [] {
      var n := |steps| - 1;
      PossiblePrefix(steps, n);
      StartsThatHideNothingShow(steps[..n]);
      EveryRunIsSound(steps);
      assert Possible(Run(steps[..n]), steps[n]);
      if steps[n].Restart? && NoStartHides(steps) { HidingNothingShows(Run(steps)); }
    }
  }

  lemma HidingNothingShows(s: State)
    requires s.latest == s.durable && forall c :: !Hidden(s, c)
    ensures Shows(s)
  {
    forall strategy | LiveOf(s, strategy) != {}
      ensures HasActiveOrder(strategy, s.latest)
    {
      var c :| c in LiveOf(s, strategy);
      assert !Hidden(s, c);
    }
  }

  /** A reduce-only decision adds a second live order exactly when the strategy is not busy. */
  lemma DoublesIffNotBusy(s: State, order: Oms.Order)
    requires order.effect == Some(ReduceOnly) && order.clientOrderId !in s.durable && |LiveOf(s, order.owner)| == 1
    ensures |LiveOf(After(s, Decide(order, true, Journaled(true))), order.owner)| == 2
       <==> !Busy(order.owner, s.latest, s.attempted)
  {
    var next := After(s, Decide(order, true, Journaled(true)));
    if Busy(order.owner, s.latest, s.attempted) {
      assert LiveOf(next, order.owner) == LiveOf(s, order.owner);
    } else {
      assert LiveOf(next, order.owner) == LiveOf(s, order.owner) + {order.clientOrderId};
    }
  }

  /** The condition cannot be dropped: after a start, a reduce-only decision of a strategy with
      one live order places a second one exactly when every record of the strategy that the
      start adopted is terminal. */
  lemma StartDoublesIffAllRecordsTerminal(s: State, start: Step, order: Oms.Order)
    requires start.Restart? && order.effect == Some(ReduceOnly)
    requires order.clientOrderId !in After(s, start).durable && |LiveOf(After(s, start), order.owner)| == 1
    ensures |LiveOf(After(After(s, start), Decide(order, true, Journaled(true))), order.owner)| == 2
       <==> (forall c :: c in After(s, start).durable && After(s, start).durable[c].owner == order.owner ==>
               Oms.IsTerminal(After(s, start).durable[c]))
  {
    DoublesIffNotBusy(After(s, start), order);
  }

  /** A run that does it: a dispatch is answered with an error that is taken for a rejection
      although the order is live; a restart's reconcile is unclean, yet its records are adopted;
      the strategy's next reduce-only decision places a second live order. */
  lemma UncleanStartAdmitsTwoLiveOrders(first: Oms.Order, second: Oms.Order)
    requires first.clientOrderId != second.clientOrderId && first.owner == second.owner
    requires first.state.Rejected? && first.effect == Some(Increase) && second.effect == Some(ReduceOnly)
    ensures var steps := [Restart(map[], true), Decide(first, true, Journaled(true)),
                          Restart(map[], false), Decide(second, true, Journaled(true))];
            PossibleRun(steps) && LiveOf(Run(steps), first.owner) == {first.clientOrderId, second.clientOrderId}
  {
    var a, b := Restart(map[], true), Decide(first, true, Journaled(true));
    var c, d := Restart(map[], false), Decide(second, true, Journaled(true));
    var steps := [a, b, c, d];
    assert steps[..0] == [];
    assert steps[..1] == [a] && [a][..0] == [];
    assert steps[..2] == [a, b] && [a, b][..1] == [a];
    assert steps[..3] == [a, b, c] && [a, b, c][..2] == [a, b];
    var s1, s2, s3 := Run([a]), Run([a, b]), Run([a, b, c]);
    assert s1 == INITIAL.(reconcileClean := true) by { assert Run([a][..0]) == INITIAL; }
    assert s2 == After(s1, b);
    assert s2.durable == map[first.clientOrderId := first] && s2.live == {first.clientOrderId};
    assert s3 == After(s2, c);
    assert s3.latest == s2.durable && s3.attempted == map[];
    assert !Busy(first.owner, s3.latest, s3.attempted);
    assert Run(steps) == After(s3, d);
    assert Run(steps).policy == {first.clientOrderId, second.clientOrderId};
    forall i | 0 <= i < |steps|
      ensures Possible(Run(steps[..i]), steps[i])
    {
    }
  }

  /** A clean reconcile frees a strategy exactly when all its records are terminal and its last
      attempt, if it has one, was journaled; it may then dispatch whatever the risk gate lets pass. */
  lemma FreeAfterCleanReconcile(s: State, writes: Records, order: Oms.Order, gate: bool, outcome: Outcome)
    ensures var t, strategy := After(s, Reconcile(writes, true)), order.owner;
            Dispatches(t, Decide(order, gate, outcome)) <==>
              && gate
              && (forall c :: c in t.durable && t.durable[c].owner == strategy ==> Oms.IsTerminal(t.durable[c]))
              && (strategy in s.attempted ==>
                    var attempt := s.attempted[strategy];
                    attempt.clientOrderId in t.durable && t.durable[attempt.clientOrderId].owner == strategy
                    && t.durable[attempt.clientOrderId].venue == attempt.venue)
  {
    var t := After(s, Reconcile(writes, true));
    FreeMeaning(order.owner, t.latest, t.attempted);
  }
}
