/** Scoring of experiment outcomes and the linear exploration policy. `f64` values are
    reals, so the finiteness checks have no counterpart; the range checks do. */
module Exploration {
  import opened Common
  import opened OrderedSet
  import opened DiscoveryWorld

  // ---------------------------------------------------------------- scores

  datatype Constraints = Constraints(minSharpe: Option<real>, maxDrawdownPct: Option<real>, minTrades: Option<nat>)

  datatype Weights = Weights(returnWeight: real, sharpeWeight: real, drawdownPenalty: real, executionCostPenalty: real)

  datatype Evaluator = Evaluator(constraints: Constraints, weights: Weights)

  datatype Violation = Unsuccessful | SharpeBelowMinimum | DrawdownAboveLimit | TradesBelowMinimum

  datatype NodeScore = NodeScore(feasible: bool, utility: real, violations: seq<Violation>)

  datatype EvaluationError = InvalidRange

  function When(condition: bool, v: Violation): seq<Violation> {
    if condition then [v] else []
  }

  function Violations(c: Constraints, outcome: Outcome): seq<Violation> {
    var m := outcome.metrics;
    When(!outcome.success, Unsuccessful)
    + When(c.minSharpe.Some? && m.sharpe < c.minSharpe.value, SharpeBelowMinimum)
    + When(c.maxDrawdownPct.Some? && m.maxDrawdownPct > c.maxDrawdownPct.value, DrawdownAboveLimit)
    + When(c.minTrades.Some? && m.trades < c.minTrades.value, TradesBelowMinimum)
  }

  function Score(e: Evaluator, outcome: Outcome): Result<NodeScore, EvaluationError> {
    var m := outcome.metrics;
    if m.maxDrawdownPct < 0.0 || m.turnover < 0.0 || m.executionCostBps < 0.0 then Err(InvalidRange)
    else
      var utility := e.weights.returnWeight * m.netReturnPct
                     + e.weights.sharpeWeight * m.sharpe
                     - e.weights.drawdownPenalty * m.maxDrawdownPct
                     - e.weights.executionCostPenalty * m.executionCostBps;
      var violations := Violations(e.constraints, outcome);
      Ok(NodeScore(violations == [], utility, violations))
  }

  predicate IsBetter(candidate: NodeScore, current: NodeScore) {
    if candidate.feasible != current.feasible then candidate.feasible
    else candidate.utility > current.utility
  }

  /** `is_better` is a strict weak order: no score beats itself, and "not beaten by" is
      transitive, so keeping the newest better score finds a maximum. */
  lemma BetterIsAWeakOrder(a: NodeScore, b: NodeScore, c: NodeScore)
    ensures !(IsBetter(a, b) && IsBetter(b, a))
    ensures !IsBetter(a, b) && !IsBetter(b, c) ==> !IsBetter(a, c)
    ensures IsBetter(a, b) && !IsBetter(c, b) ==> IsBetter(a, c)
  {
  }

  /** An experiment has a score unless its drawdown, turnover or cost is negative, and the score is
      feasible exactly when it succeeded within every bound, the bounds themselves included. */
  lemma FeasibleMeaning(e: Evaluator, outcome: Outcome)
    ensures Score(e, outcome).Ok?
       <==> 0.0 <= outcome.metrics.maxDrawdownPct && 0.0 <= outcome.metrics.turnover && 0.0 <= outcome.metrics.executionCostBps
    ensures Score(e, outcome).Ok? ==>
      (Score(e, outcome).value.feasible
       <==> && outcome.success
            && (e.constraints.minSharpe.Some? ==> outcome.metrics.sharpe >= e.constraints.minSharpe.value)
            && (e.constraints.maxDrawdownPct.Some? ==> outcome.metrics.maxDrawdownPct <= e.constraints.maxDrawdownPct.value)
            && (e.constraints.minTrades.Some? ==> outcome.metrics.trades >= e.constraints.minTrades.value))
  {
    var c, m := e.constraints, outcome.metrics;
    var a := When(!outcome.success, Unsuccessful);
    var b := When(c.minSharpe.Some? && m.sharpe < c.minSharpe.value, SharpeBelowMinimum);
    var d := When(c.maxDrawdownPct.Some? && m.maxDrawdownPct > c.maxDrawdownPct.value, DrawdownAboveLimit);
    assert |Violations(c, outcome)| == |a| + |b| + |d| + |Violations(c, outcome)[|a| + |b| + |d|..]|;
  }

  lemma Distribute(w: real, x: real, y: real)
    ensures w * x - w * y == w * (x - y)
  {
  }

  /** Each metric moves the utility by its own weight: return and Sharpe up, drawdown and cost
      down. An outcome of zeros has utility zero. */
  lemma UtilityDifference(e: Evaluator, a: Outcome, b: Outcome)
    requires Score(e, a).Ok? && Score(e, b).Ok?
    ensures Score(e, a).value.utility - Score(e, b).value.utility
         == e.weights.returnWeight * (a.metrics.netReturnPct - b.metrics.netReturnPct)
            + e.weights.sharpeWeight * (a.metrics.sharpe - b.metrics.sharpe)
            + e.weights.drawdownPenalty * (b.metrics.maxDrawdownPct - a.metrics.maxDrawdownPct)
            + e.weights.executionCostPenalty * (b.metrics.executionCostBps - a.metrics.executionCostBps)
    ensures a.metrics.netReturnPct == a.metrics.sharpe == a.metrics.maxDrawdownPct == a.metrics.executionCostBps == 0.0 ==>
              Score(e, a).value.utility == 0.0
  {
    Distribute(e.weights.returnWeight, a.metrics.netReturnPct, b.metrics.netReturnPct);
    Distribute(e.weights.sharpeWeight, a.metrics.sharpe, b.metrics.sharpe);
    Distribute(e.weights.drawdownPenalty, b.metrics.maxDrawdownPct, a.metrics.maxDrawdownPct);
    Distribute(e.weights.executionCostPenalty, b.metrics.executionCostBps, a.metrics.executionCostBps);
  }

  // ---------------------------------------------------------------- policies

  datatype Candidate = Candidate(nodeId: NodeId, depth: u32, createdSeq: nat, costUnits: u64, score: NodeScore)

  datatype PolicyView = PolicyView(round: u32, remainingCostUnits: u64, stagnationRounds: u32,
                                   candidates: seq<Candidate>)

  datatype PolicyAction = PolicyAction(expand: seq<NodeId>, stop: bool)

  const STOP := PolicyAction([], true)

  /** The source's `ExplorationPolicy` trait: any function of the view. */
  type Policy = PolicyView -> PolicyAction

  datatype PolicyConfig = PolicyConfig(workerLimit: nat, fanoutPerParent: nat, depthPenalty: real,
                                       nodeCostPenalty: real, patienceRounds: u32, maxRounds: u32)

  predicate ValidConfig(c: PolicyConfig) {
    && c.workerLimit > 0 && c.fanoutPerParent > 0 && c.fanoutPerParent <= c.workerLimit
    && c.patienceRounds > 0 && c.maxRounds > 0
    && c.depthPenalty >= 0.0 && c.nodeCostPenalty >= 0.0
  }

  function Priority(c: PolicyConfig, candidate: Candidate): real {
    candidate.score.utility - c.depthPenalty * candidate.depth as real - c.nodeCostPenalty * candidate.costUnits as real
  }

  /** Utility counts in full, each level of depth and each unit of cost by its own penalty. */
  lemma PriorityDifference(c: PolicyConfig, a: Candidate, b: Candidate)
    ensures Priority(c, a) - Priority(c, b)
         == a.score.utility - b.score.utility
            + c.depthPenalty * (b.depth - a.depth) as real + c.nodeCostPenalty * (b.costUnits - a.costUnits) as real
    ensures a.depth == 0 && a.costUnits == 0 ==> Priority(c, a) == a.score.utility
  {
    assert (b.depth - a.depth) as real == b.depth as real - a.depth as real;
    assert (b.costUnits - a.costUnits) as real == b.costUnits as real - a.costUnits as real;
    Distribute(c.depthPenalty, b.depth as real, a.depth as real);
    Distribute(c.nodeCostPenalty, b.costUnits as real, a.costUnits as real);
  }

  /** `a` may stand before `b` in the ranking. */
  predicate RanksBefore(c: PolicyConfig, a: Candidate, b: Candidate) {
    if a.score.feasible != b.score.feasible then a.score.feasible
    else if Priority(c, a) != Priority(c, b) then Priority(c, a) > Priority(c, b)
    else if a.createdSeq != b.createdSeq then a.createdSeq < b.createdSeq
    else a.nodeId <= b.nodeId
  }

  /** Stable insertion: before the first element it may precede. */
  function Insert(c: PolicyConfig, x: Candidate, ranked: seq<Candidate>): seq<Candidate> {
    if ranked == [] || RanksBefore(c, x, ranked[0]) then [x] + ranked
    else [ranked[0]] + Insert(c, x, ranked[1..])
  }

  /** The stable sort of the candidates. */
  function Ranked(c: PolicyConfig, candidates: seq<Candidate>): seq<Candidate> {
    if candidates == [] then [] else Insert(c, candidates[0], Ranked(c, candidates[1..]))
  }

  function Repeat(id: NodeId, count: nat): seq<NodeId> {
    if count == 0 then [] else Repeat(id, count - 1) + [id]
  }

  /** `fanout` slots for each candidate in turn. */
  function Slots(ranked: seq<Candidate>, fanout: nat): seq<NodeId> {
    if ranked == [] then []
    else Slots(ranked[..|ranked| - 1], fanout) + Repeat(ranked[|ranked| - 1].nodeId, fanout)
  }

  function Truncate(slots: seq<NodeId>, limit: nat): seq<NodeId> {
    slots[..Min(limit, |slots|)]
  }

  /** What the linear policy decides: stop on an exhausted budget, round or patience limit;
      otherwise fill the workers with `fanoutPerParent` slots per candidate, best first. */
  function LinearAction(c: PolicyConfig, view: PolicyView): PolicyAction {
    if view.remainingCostUnits == 0
       || view.round >= c.maxRounds
       || view.stagnationRounds >= c.patienceRounds
       || view.candidates == [] then STOP
    else
      var expand := Truncate(Slots(Ranked(c, view.candidates), c.fanoutPerParent), c.workerLimit);
      PolicyAction(expand, expand == [])
  }

  lemma {:induction false} SlotsGrow(ranked: seq<Candidate>, fanout: nat, i: nat)
    requires i <= |ranked|
    ensures |Slots(ranked[..i], fanout)| <= |Slots(ranked, fanout)|
    ensures Slots(ranked, fanout)[..|Slots(ranked[..i], fanout)|] == Slots(ranked[..i], fanout)
  {
    if i < |ranked| {
      var front := ranked[..|ranked| - 1];
      assert front[..i] == ranked[..i];
      SlotsGrow(front, fanout, i);
    } else {
      assert ranked[..i] == ranked;
    }
  }

  class LinearExplorationPolicy {
    const config: PolicyConfig

    constructor (config: PolicyConfig)
      requires ValidConfig(config)
      ensures this.config == config
    {
      this.config := config;
    }

    method Select(view: PolicyView) returns (action: PolicyAction)
      ensures action == LinearAction(config, view)
    {
      if view.remainingCostUnits == 0
         || view.round >= config.maxRounds
         || view.stagnationRounds >= config.patienceRounds
         || view.candidates == [] {
        return STOP;
      }
      var ranked := Ranked(config, view.candidates);
      var expand := FillSlots(ranked);
      action := PolicyAction(expand, expand == []);
    }

    method FillSlots(ranked: seq<Candidate>) returns (expand: seq<NodeId>)
      ensures expand == Truncate(Slots(ranked, config.fanoutPerParent), config.workerLimit)
    {
      var limit, fanout := config.workerLimit, config.fanoutPerParent;
      expand := [];
      for i := 0 to |ranked|
        invariant expand == Truncate(Slots(ranked[..i], fanout), limit)
      {
        var id := ranked[i].nodeId;
        expand := FillSlotsOf(id, expand, Slots(ranked[..i], fanout));
        NextSlots(ranked, fanout, i);
        if |expand| == limit {
          SlotsGrow(ranked, fanout, i + 1);
          return;
        }
      }
      assert ranked[..|ranked|] == ranked;
    }

    method FillSlotsOf(id: NodeId, filled: seq<NodeId>, ghost base: seq<NodeId>) returns (expand: seq<NodeId>)
      requires filled == Truncate(base, config.workerLimit)
      ensures expand == Truncate(base + Repeat(id, config.fanoutPerParent), config.workerLimit)
    {
      var limit, fanout := config.workerLimit, config.fanoutPerParent;
      expand := filled;
      assert base + Repeat(id, 0) == base;
      for k := 0 to fanout
        invariant expand == Truncate(base + Repeat(id, k), limit)
      {
        if |expand| == limit {
          FullTakesNoMore(base, id, k, fanout, limit);
          return;
        }
        OneMoreSlot(base, id, k, limit);
        expand := expand + [id];
      }
    }
  }

  lemma NextSlots(ranked: seq<Candidate>, fanout: nat, i: nat)
    requires i < |ranked|
    ensures Slots(ranked[..i + 1], fanout) == Slots(ranked[..i], fanout) + Repeat(ranked[i].nodeId, fanout)
  {
    assert ranked[..i + 1][..i] == ranked[..i];
  }

  lemma OneMoreSlot(base: seq<NodeId>, id: NodeId, k: nat, limit: nat)
    requires |Truncate(base + Repeat(id, k), limit)| < limit
    ensures Truncate(base + Repeat(id, k + 1), limit) == Truncate(base + Repeat(id, k), limit) + [id]
  {
    assert base + Repeat(id, k + 1) == base + Repeat(id, k) + [id];
  }

  lemma FullTakesNoMore(base: seq<NodeId>, id: NodeId, k: nat, n: nat, limit: nat)
    requires k <= n && |base + Repeat(id, k)| >= limit
    ensures Truncate(base + Repeat(id, n), limit) == Truncate(base + Repeat(id, k), limit)
  {
    RepeatSplit(id, k, n);
    assert base + Repeat(id, n) == base + Repeat(id, k) + Repeat(id, n - k);
  }

  lemma {:induction false} RepeatSplit(id: NodeId, k: nat, n: nat)
    requires k <= n
    ensures Repeat(id, k) + Repeat(id, n - k) == Repeat(id, n)
  {
    if n > k {
      RepeatSplit(id, k, n - 1);
    }
  }

  // ---------------------------------------------------------------- what the ranking promises

  lemma {:induction false} InsertIsPermutation(c: PolicyConfig, x: Candidate, ranked: seq<Candidate>)
    ensures multiset(Insert(c, x, ranked)) == multiset(ranked) + multiset{x}
  {
    if ranked != [] {
      assert ranked == [ranked[0]] + ranked[1..];
      InsertIsPermutation(c, x, ranked[1..]);
    }
  }

  lemma {:induction false} InsertFacts(c: PolicyConfig, x: Candidate, ranked: seq<Candidate>)
    ensures |Insert(c, x, ranked)| == |ranked| + 1
    ensures Insert(c, x, ranked)[0] == x || (ranked != [] && Insert(c, x, ranked)[0] == ranked[0])
    ensures IsRanked(c, ranked) ==> IsRanked(c, Insert(c, x, ranked))
  {
    if ranked != [] {
      InsertFacts(c, x, ranked[1..]);
    }
  }

  ghost predicate IsRanked(c: PolicyConfig, ranked: seq<Candidate>) {
    forall i :: 0 < i < |ranked| ==> RanksBefore(c, ranked[i - 1], ranked[i])
  }

  /** The ranking is a permutation of the candidates in rank order. */
  lemma {:induction false} RankedIsSortedPermutation(c: PolicyConfig, candidates: seq<Candidate>)
    ensures multiset(Ranked(c, candidates)) == multiset(candidates)
    ensures IsRanked(c, Ranked(c, candidates))
  {
    if candidates != [] {
      assert candidates == [candidates[0]] + candidates[1..];
      RankedIsSortedPermutation(c, candidates[1..]);
      InsertFacts(c, candidates[0], Ranked(c, candidates[1..]));
      InsertIsPermutation(c, candidates[0], Ranked(c, candidates[1..]));
    }
  }

  lemma RanksTransitively(c: PolicyConfig, a: Candidate, b: Candidate, d: Candidate)
    requires RanksBefore(c, a, b) && RanksBefore(c, b, d)
    ensures RanksBefore(c, a, d)
  {
  }

  lemma {:induction false} RankedPairs(c: PolicyConfig, ranked: seq<Candidate>, i: nat, j: nat)
    requires IsRanked(c, ranked) && i < j < |ranked|
    ensures RanksBefore(c, ranked[i], ranked[j])
    decreases j
  {
    assert RanksBefore(c, ranked[j - 1], ranked[j]);
    if i < j - 1 {
      RankedPairs(c, ranked, i, j - 1);
      RanksTransitively(c, ranked[i], ranked[j - 1], ranked[j]);
    }
  }

  /** Of any two ranked candidates the earlier one is feasible if the later one is; of two that
      agree so far it has no lower priority, then no later creation, then no greater id. */
  lemma RankingMeaning(c: PolicyConfig, candidates: seq<Candidate>, i: nat, j: nat)
    requires i < j < |Ranked(c, candidates)|
    ensures var a, b := Ranked(c, candidates)[i], Ranked(c, candidates)[j];
            && (b.score.feasible ==> a.score.feasible)
            && (a.score.feasible == b.score.feasible ==>
                  && Priority(c, a) >= Priority(c, b)
                  && (Priority(c, a) == Priority(c, b) ==>
                        a.createdSeq <= b.createdSeq && (a.createdSeq == b.createdSeq ==> a.nodeId <= b.nodeId)))
  {
    RankedIsSortedPermutation(c, candidates);
    RankedPairs(c, Ranked(c, candidates), i, j);
  }

  /** The linear policy stops exactly on an exhausted budget, round or patience limit or without
      candidates; otherwise it names as many slots as it has workers for, slot `k` for the
      candidate ranked `k / fanout`. */
  lemma LinearActionMeaning(c: PolicyConfig, view: PolicyView)
    requires ValidConfig(c)
    ensures var action, ranked := LinearAction(c, view), Ranked(c, view.candidates);
            && (action.stop <==> || view.remainingCostUnits == 0 || view.candidates == []
                                 || c.maxRounds <= view.round || c.patienceRounds <= view.stagnationRounds)
            && |ranked| == |view.candidates|
            && |action.expand| == (if action.stop then 0 else Min(c.workerLimit, |ranked| * c.fanoutPerParent))
            && (forall k :: 0 <= k < |action.expand| ==>
                  0 <= k / c.fanoutPerParent < |ranked| && action.expand[k] == ranked[k / c.fanoutPerParent].nodeId)
  {
    var action, ranked := LinearAction(c, view), Ranked(c, view.candidates);
    RankedIsSortedPermutation(c, view.candidates);
    assert |ranked| == |multiset(ranked)| && |view.candidates| == |multiset(view.candidates)|;
    SlotsLength(ranked, c.fanoutPerParent);
    if view.candidates != [] {
      TimesMonotone(0, |ranked|, c.fanoutPerParent);
    }
    forall k | 0 <= k < |action.expand|
      ensures 0 <= k / c.fanoutPerParent < |ranked| && action.expand[k] == ranked[k / c.fanoutPerParent].nodeId
    {
      SlotOwner(ranked, c.fanoutPerParent, k);
    }
  }

  /** With penalties that are not negative and a fan-out within the workers, the valid
      configurations are those that expand something in the first round. */
  lemma ValidConfigsStart(c: PolicyConfig, view: PolicyView)
    requires view.round == 0 && view.stagnationRounds == 0 && view.remainingCostUnits > 0 && view.candidates != []
    requires c.depthPenalty >= 0.0 && c.nodeCostPenalty >= 0.0 && c.fanoutPerParent <= c.workerLimit
    ensures ValidConfig(c) <==> LinearAction(c, view).expand != []
  {
    var ranked := Ranked(c, view.candidates);
    RankedIsSortedPermutation(c, view.candidates);
    assert view.candidates[0] in multiset(ranked);
    SlotsLength(ranked, c.fanoutPerParent);
    if c.fanoutPerParent > 0 {
      TimesMonotone(0, |ranked|, c.fanoutPerParent);
    }
  }

  ghost predicate Offered(candidates: seq<Candidate>, id: NodeId) {
    exists i :: 0 <= i < |candidates| && candidates[i].nodeId == id
  }

  lemma {:induction false} SlotsAreRanked(ranked: seq<Candidate>, fanout: nat, k: nat)
    requires k < |Slots(ranked, fanout)|
    ensures Offered(ranked, Slots(ranked, fanout)[k])
  {
    var front := ranked[..|ranked| - 1];
    if k < |Slots(front, fanout)| {
      SlotsAreRanked(front, fanout, k);
      var i :| 0 <= i < |front| && front[i].nodeId == Slots(front, fanout)[k];
      assert ranked[i].nodeId == Slots(ranked, fanout)[k];
    } else {
      RepeatIs(ranked[|ranked| - 1].nodeId, fanout, k - |Slots(front, fanout)|);
      assert ranked[|ranked| - 1].nodeId == Slots(ranked, fanout)[k];
    }
  }

  lemma {:induction false} RepeatIs(id: NodeId, count: nat, k: nat)
    requires k < |Repeat(id, count)|
    ensures Repeat(id, count)[k] == id
  {
    if k < |Repeat(id, count - 1)| {
      RepeatIs(id, count - 1, k);
    }
  }

  /** Slot `k` belongs to the candidate ranked `k / fanout`: every candidate gets exactly
      `fanout` slots, in rank order. */
  lemma {:induction false} SlotOwner(ranked: seq<Candidate>, fanout: nat, k: nat)
    requires fanout > 0 && k < |ranked| * fanout
    ensures |Slots(ranked, fanout)| == |ranked| * fanout
    ensures 0 <= k / fanout < |ranked| && Slots(ranked, fanout)[k] == ranked[k / fanout].nodeId
  {
    var front, last := ranked[..|ranked| - 1], ranked[|ranked| - 1];
    var before := |front| * fanout;
    assert |ranked| * fanout == before + fanout;
    SlotsLength(front, fanout);
    RepeatLength(last.nodeId, fanout);
    if k < before {
      SlotOwner(front, fanout, k);
    } else {
      RepeatIs(last.nodeId, fanout, k - before);
      Quotient(|front|, fanout, k);
    }
  }

  lemma {:induction false} TimesMonotone(a: nat, b: nat, d: nat)
    requires a < b
    ensures a * d + d <= b * d
    decreases b
  {
    assert b * d == (b - 1) * d + d;
    if a < b - 1 { TimesMonotone(a, b - 1, d); }
  }

  lemma Quotient(q: nat, d: nat, k: nat)
    requires d > 0 && q * d <= k < q * d + d
    ensures k / d == q
  {
    var x := k / d;
    assert k == d * x + k % d && d * x == x * d;
    if x < q {
      TimesMonotone(x, q, d);
    } else if q < x {
      TimesMonotone(q, x, d);
    }
  }

  lemma {:induction false} RepeatLength(id: NodeId, count: nat)
    ensures |Repeat(id, count)| == count
  {
    if count > 0 { RepeatLength(id, count - 1); }
  }

  lemma {:induction false} SlotsLength(ranked: seq<Candidate>, fanout: nat)
    ensures |Slots(ranked, fanout)| == |ranked| * fanout
  {
    if ranked != [] {
      SlotsLength(ranked[..|ranked| - 1], fanout);
      RepeatLength(ranked[|ranked| - 1].nodeId, fanout);
      assert |ranked| * fanout == (|ranked| - 1) * fanout + fanout;
    }
  }

  /** A policy that only expands nodes it was offered. */
  ghost predicate Obedient(policy: Policy) {
    forall view: PolicyView, k {:trigger policy(view).expand[k]} ::
      0 <= k < |policy(view).expand| ==> Offered(view.candidates, policy(view).expand[k])
  }

  /** The linear policy never names a node it was not offered. */
  lemma LinearActionIsObedient(c: PolicyConfig, view: PolicyView, k: nat)
    requires k < |LinearAction(c, view).expand|
    ensures Offered(view.candidates, LinearAction(c, view).expand[k])
  {
    var ranked := Ranked(c, view.candidates);
    SlotsAreRanked(ranked, c.fanoutPerParent, k);
    RankedIsSortedPermutation(c, view.candidates);
    var i :| 0 <= i < |ranked| && ranked[i].nodeId == LinearAction(c, view).expand[k];
    assert ranked[i] in multiset(ranked);
    assert ranked[i] in view.candidates;
  }

  // ---------------------------------------------------------------- revisions

  function Scaled(penalty: real, multiplier: real): real {
    if penalty == 0.0 then (if multiplier < 1.0 then 0.01 else 0.05) else penalty * multiplier
  }

  /** Bounded changes of one setting, in the order they are tried (lowering the worker limit
      caps the fan-out). */
  function Proposals(c: PolicyConfig): seq<PolicyConfig> {
    (if c.workerLimit > 1
     then [c.(workerLimit := c.workerLimit - 1, fanoutPerParent := Min(c.fanoutPerParent, c.workerLimit - 1))] else [])
    + (if c.workerLimit < 16 then [c.(workerLimit := c.workerLimit + 1)] else [])
    + (if c.fanoutPerParent > 1 then [c.(fanoutPerParent := c.fanoutPerParent - 1)] else [])
    + (if c.fanoutPerParent < c.workerLimit then [c.(fanoutPerParent := c.fanoutPerParent + 1)] else [])
    + [c.(depthPenalty := Scaled(c.depthPenalty, 0.5)), c.(nodeCostPenalty := Scaled(c.nodeCostPenalty, 0.5)),
       c.(depthPenalty := Scaled(c.depthPenalty, 2.0)), c.(nodeCostPenalty := Scaled(c.nodeCostPenalty, 2.0))]
    + (if c.patienceRounds > 1 then [c.(patienceRounds := c.patienceRounds - 1)] else [])
    + (if c.patienceRounds < 32 then [c.(patienceRounds := c.patienceRounds + 1)] else [])
  }

  function PushUnique(out: seq<PolicyConfig>, candidate: PolicyConfig): seq<PolicyConfig> {
    if ValidConfig(candidate) && candidate !in out then out + [candidate] else out
  }

  function PushAll(out: seq<PolicyConfig>, candidates: seq<PolicyConfig>): seq<PolicyConfig> {
    if candidates == [] then out
    else PushUnique(PushAll(out, candidates[..|candidates| - 1]), candidates[|candidates| - 1])
  }

  /** The meta-search neighbourhood: the incumbent first, then the valid new proposals. */
  function Revisions(c: PolicyConfig): seq<PolicyConfig> {
    PushAll([c], Proposals(c))
  }

  ghost predicate DistinctValid(out: seq<PolicyConfig>) {
    && (forall i :: 0 <= i < |out| ==> ValidConfig(out[i]))
    && (forall i, j :: 0 <= i < j < |out| ==> out[i] != out[j])
  }

  lemma {:induction false} PushAllFacts(out: seq<PolicyConfig>, candidates: seq<PolicyConfig>)
    requires out != [] && DistinctValid(out)
    ensures var r := PushAll(out, candidates);
            && DistinctValid(r) && r != [] && r[0] == out[0]
            && (forall d :: d in r <==> d in out || (d in candidates && ValidConfig(d)))
  {
    if candidates != [] {
      var front, last := candidates[..|candidates| - 1], candidates[|candidates| - 1];
      PushAllFacts(out, front);
      var before := PushAll(out, front);
      assert candidates == front + [last];
      if last !in before {
        forall i | 0 <= i < |before| ensures before[i] != last {
          assert before[i] in before;
        }
      }
    }
  }

  /** `d` changes one setting of `c` by one step: a worker, a slot or a round more or less
      within the tried ranges, or a penalty halved, doubled or raised from zero. */
  ghost predicate OneStepFrom(c: PolicyConfig, d: PolicyConfig) {
    || (1 < c.workerLimit && d == c.(workerLimit := c.workerLimit - 1,
                                     fanoutPerParent := Min(c.fanoutPerParent, c.workerLimit - 1)))
    || (c.workerLimit < 16 && d == c.(workerLimit := c.workerLimit + 1))
    || (d == c.(fanoutPerParent := d.fanoutPerParent) && 1 <= d.fanoutPerParent <= c.workerLimit
        && (d.fanoutPerParent == c.fanoutPerParent + 1 || d.fanoutPerParent == c.fanoutPerParent - 1))
    || (d == c.(depthPenalty := d.depthPenalty) && Rescaled(c.depthPenalty, d.depthPenalty))
    || (d == c.(nodeCostPenalty := d.nodeCostPenalty) && Rescaled(c.nodeCostPenalty, d.nodeCostPenalty))
    || (d == c.(patienceRounds := d.patienceRounds) && 1 <= d.patienceRounds
        && (d.patienceRounds == c.patienceRounds - 1
            || (c.patienceRounds < 32 && d.patienceRounds == c.patienceRounds + 1)))
  }

  ghost predicate Rescaled(from: real, to: real) {
    if from == 0.0 then to == 0.01 || to == 0.05 else to + to == from || to == from + from
  }

  lemma ProposalsAreSteps(c: PolicyConfig, d: PolicyConfig)
    requires ValidConfig(c)
    ensures d in Proposals(c) <==> OneStepFrom(c, d)
  {
  }

  /** The neighbourhood of a valid incumbent is every valid configuration one step away. */
  lemma RevisionsAreOneStepAway(c: PolicyConfig, d: PolicyConfig)
    requires ValidConfig(c)
    ensures d in Revisions(c) <==> d == c || (ValidConfig(d) && OneStepFrom(c, d))
  {
    RevisionsFacts(c);
    ProposalsAreSteps(c, d);
  }

  /** The revisions are distinct valid configurations, the incumbent first: exactly it and
      the valid proposals. */
  lemma RevisionsFacts(c: PolicyConfig)
    requires ValidConfig(c)
    ensures var r := Revisions(c);
            && DistinctValid(r) && r != [] && r[0] == c
            && (forall d :: d in r <==> d == c || (d in Proposals(c) && ValidConfig(d)))
  {
    PushAllFacts([c], Proposals(c));
  }
}
