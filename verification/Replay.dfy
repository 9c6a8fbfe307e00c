/** Replay of an exploration policy over a stored tree under a cost budget: outcomes are
    revealed from the tree, never recomputed. */
module Replay {
  import opened Common
  import opened OrderedSet
  import opened DiscoveryWorld
  import opened Exploration

  datatype ReplayConfig = ReplayConfig(maxCostUnits: u64, maxRounds: u32, discoveryCostPenalty: real,
                                       parallelismBonus: real, infeasiblePenalty: real)

  datatype Engine = Engine(evaluator: Evaluator, config: ReplayConfig)

  datatype ReplayError = WorldFailed(world: WorldError) | EvaluationFailed(evaluation: EvaluationError)
                       | IneligibleAction(id: NodeId)

  datatype ReplayStep = ReplayStep(round: u32, selectedParents: seq<NodeId>, revealedNodes: seq<NodeId>,
                                   bestNodeId: NodeId, bestUtility: real, costUnits: u64)

  datatype ReplayResult = ReplayResult(bestNodeId: NodeId, bestScore: NodeScore, revealedNodes: nat,
                                       decisionRounds: u32, costUnits: u64, historyExhausted: bool,
                                       objective: real, trace: seq<ReplayStep>)

  type Cursors = map<NodeId, nat>

  /** The loop variables of the replay. */
  datatype Progress = Progress(revealed: set<NodeId>, cursor: Cursors, best: NodeId, bestScore: NodeScore,
                               cost: u64, round: u32, stagnation: u32, trace: seq<ReplayStep>)

  function CursorOf(cursor: Cursors, id: NodeId): nat {
    if id in cursor then cursor[id] else 0
  }

  // ---------------------------------------------------------------- one decision round as functions

  ghost function CandidateFor(e: Engine, w: World, id: NodeId, cursor: Cursors): Result<Option<Candidate>, ReplayError> {
    if CursorOf(cursor, id) >= |Children(w, id)| then Ok(None)
    else if id !in w.nodes then Err(WorldFailed(MissingNode(id)))
    else if DepthOf(w, id).Err? then Err(WorldFailed(DepthOf(w, id).error))
    else
      var node := w.nodes[id];
      match Score(e.evaluator, node.outcome)
      case Err(error) => Err(EvaluationFailed(error))
      case Ok(score) => Ok(Some(Candidate(id, DepthOf(w, id).value, node.createdSeq, node.outcome.costUnits, score)))
  }

  ghost function CandidatesOf(e: Engine, w: World, ids: seq<NodeId>, cursor: Cursors): Result<seq<Candidate>, ReplayError> {
    if ids == [] then Ok([])
    else
      match CandidatesOf(e, w, ids[..|ids| - 1], cursor)
      case Err(error) => Err(error)
      case Ok(before) =>
        match CandidateFor(e, w, ids[|ids| - 1], cursor)
        case Err(error) => Err(error)
        case Ok(None) => Ok(before)
        case Ok(Some(c)) => Ok(before + [c])
  }

  ghost function PolicyCandidates(e: Engine, w: World, p: Progress): Result<seq<Candidate>, ReplayError> {
    CandidatesOf(e, w, Sorted(p.revealed, IdLeq), p.cursor)
  }

  function ViewOf(e: Engine, p: Progress, candidates: seq<Candidate>): PolicyView {
    PolicyView(p.round,
               if e.config.maxCostUnits >= p.cost then e.config.maxCostUnits - p.cost else 0,
               p.stagnation, candidates)
  }

  predicate IsOffered(candidates: seq<Candidate>, id: NodeId) {
    exists i :: 0 <= i < |candidates| && candidates[i].nodeId == id
  }

  function FirstIneligible(candidates: seq<Candidate>, expand: seq<NodeId>): Option<NodeId> {
    if expand == [] then None
    else if !IsOffered(candidates, expand[0]) then Some(expand[0])
    else FirstIneligible(candidates, expand[1..])
  }

  /** The variables of the inner loop over the selected parents. */
  datatype Expansion = Expansion(p: Progress, newly: seq<NodeId>, budgetHit: bool)

  ghost function ExpandOne(e: Engine, w: World, x: Expansion, parentId: NodeId): Result<Expansion, ReplayError> {
    var p, kids, c := x.p, Children(w, parentId), CursorOf(x.p.cursor, parentId);
    if x.budgetHit then Ok(x)
    else if c >= |kids| then Ok(x.(p := p.(cursor := p.cursor[parentId := c])))
    else
      ChildrenFacts(w, parentId);
      var child, outcome := kids[c], w.nodes[kids[c]].outcome;
      var nextCost := SaturatingAdd64(p.cost, outcome.costUnits);
      if nextCost > e.config.maxCostUnits then
        Ok(Expansion(p.(cursor := p.cursor[parentId := c]), x.newly, true))
      else
        var cursor := p.cursor[parentId := c + 1];
        if child in p.revealed then Ok(x.(p := p.(cursor := cursor)))
        else
          match Score(e.evaluator, outcome)
          case Err(error) => Err(EvaluationFailed(error))
          case Ok(score) =>
            var better := IsBetter(score, p.bestScore);
            Ok(x.(p := p.(revealed := p.revealed + {child}, cursor := cursor, cost := nextCost,
                          best := if better then child else p.best,
                          bestScore := if better then score else p.bestScore),
                  newly := x.newly + [child]))
  }

  ghost function ExpandAll(e: Engine, w: World, x: Expansion, parents: seq<NodeId>): Result<Expansion, ReplayError> {
    if parents == [] then Ok(x)
    else
      match ExpandAll(e, w, x, parents[..|parents| - 1])
      case Err(error) => Err(error)
      case Ok(x') => ExpandOne(e, w, x', parents[|parents| - 1])
  }

  function OpenRound(p: Progress): Expansion {
    Expansion(p.(round := SaturatingInc32(p.round)), [], false)
  }

  function CloseRound(previousBest: NodeId, x: Expansion, selected: seq<NodeId>): Progress {
    x.p.(stagnation := if x.p.best == previousBest then SaturatingInc32(x.p.stagnation) else 0,
         trace := x.p.trace + [ReplayStep(x.p.round, selected, x.newly, x.p.best, x.p.bestScore.utility, x.p.cost)])
  }

  ghost function RunFrom(e: Engine, w: World, policy: Policy, p: Progress): Result<Progress, ReplayError>
    decreases e.config.maxRounds - p.round
  {
    if p.round >= e.config.maxRounds || p.cost >= e.config.maxCostUnits then Ok(p)
    else
      var candidates := PolicyCandidates(e, w, p);
      if candidates.Err? then Err(candidates.error)
      else if candidates.value == [] then Ok(p)
      else
        var action := policy(ViewOf(e, p, candidates.value));
        if action.stop || action.expand == [] then Ok(p)
        else
          var ineligible := FirstIneligible(candidates.value, action.expand);
          if ineligible.Some? then Err(IneligibleAction(ineligible.value))
          else
            ExpandAllKeepsRound(e, w, OpenRound(p), action.expand);
            match ExpandAll(e, w, OpenRound(p), action.expand)
            case Err(error) => Err(error)
            case Ok(x) =>
              var next := CloseRound(p.best, x, action.expand);
              if x.budgetHit then Ok(next) else RunFrom(e, w, policy, next)
  }

  lemma {:induction false} ExpandAllKeepsRound(e: Engine, w: World, x: Expansion, parents: seq<NodeId>)
    ensures ExpandAll(e, w, x, parents).Ok? ==>
              var x' := ExpandAll(e, w, x, parents).value;
              x'.p.round == x.p.round && x'.p.trace == x.p.trace && x'.p.stagnation == x.p.stagnation
  {
    if parents != [] {
      ExpandAllKeepsRound(e, w, x, parents[..|parents| - 1]);
    }
  }

  function Start(w: World, rootScore: NodeScore): Progress
    requires w.rootId in w.nodes
  {
    Progress({w.rootId}, map[], w.rootId, rootScore, w.nodes[w.rootId].outcome.costUnits, 0, 0, [])
  }

  function Objective(e: Engine, p: Progress): real {
    var attempts := if p.round == 0 then 0.0 else (|p.revealed| - 1) as real / p.round as real;
    p.bestScore.utility
    - e.config.discoveryCostPenalty * p.cost as real
    + e.config.parallelismBonus * attempts
    - (if p.bestScore.feasible then 0.0 else e.config.infeasiblePenalty)
  }

  function Report(e: Engine, p: Progress, exhausted: bool): ReplayResult {
    ReplayResult(p.best, p.bestScore, |p.revealed|, p.round, p.cost, exhausted, Objective(e, p), p.trace)
  }

  ghost function Replayed(e: Engine, w: World, policy: Policy): Result<ReplayResult, ReplayError> {
    var bad := Validation(w);
    if bad.Some? then Err(WorldFailed(bad.value))
    else
      var rootScore := Score(e.evaluator, w.nodes[w.rootId].outcome);
      if rootScore.Err? then Err(EvaluationFailed(rootScore.error))
      else
        var end := RunFrom(e, w, policy, Start(w, rootScore.value));
        if end.Err? then Err(end.error)
        else
          var left := PolicyCandidates(e, w, end.value);
          if left.Err? then Err(left.error)
          else Ok(Report(e, end.value, left.value == []))
  }

  // ---------------------------------------------------------------- the replay loop

  method CandidateAt(e: Engine, tree: DiscoveryTree, id: NodeId, cursor: Cursors)
    returns (r: Result<Option<Candidate>, ReplayError>)
    ensures r == CandidateFor(e, tree.Value(), id, cursor)
  {
    var w := tree.Value();
    if CursorOf(cursor, id) >= |Children(w, id)| {
      return Ok(None);
    }
    if id !in w.nodes {
      return Err(WorldFailed(MissingNode(id)));
    }
    var node := w.nodes[id];
    var depth := tree.Depth(id);
    if depth.Err? {
      return Err(WorldFailed(depth.error));
    }
    var score := Score(e.evaluator, node.outcome);
    if score.Err? {
      return Err(EvaluationFailed(score.error));
    }
    return Ok(Some(Candidate(id, depth.value, node.createdSeq, node.outcome.costUnits, score.value)));
  }

  lemma NextCandidate(e: Engine, w: World, ids: seq<NodeId>, cursor: Cursors, i: nat)
    requires i < |ids| && CandidatesOf(e, w, ids[..i], cursor).Ok?
    ensures var front, c := CandidatesOf(e, w, ids[..i], cursor).value, CandidateFor(e, w, ids[i], cursor);
            CandidatesOf(e, w, ids[..i + 1], cursor)
            == if c.Err? then Err(c.error) else if c.value.Some? then Ok(front + [c.value.value]) else Ok(front)
  {
    assert ids[..i + 1][..i] == ids[..i];
  }

  method PolicyCandidatesOf(e: Engine, tree: DiscoveryTree, revealed: set<NodeId>, cursor: Cursors)
    returns (r: Result<seq<Candidate>, ReplayError>)
    ensures r == CandidatesOf(e, tree.Value(), Sorted(revealed, IdLeq), cursor)
  {
    var ids := Sorted(revealed, IdLeq);
    var candidates: seq<Candidate> := [];
    for i := 0 to |ids|
      invariant CandidatesOf(e, tree.Value(), ids[..i], cursor) == Ok(candidates)
    {
      NextCandidate(e, tree.Value(), ids, cursor, i);
      var candidate := CandidateAt(e, tree, ids[i], cursor);
      if candidate.Err? {
        CandidatesFail(e, tree.Value(), ids, cursor, i + 1);
        return Err(candidate.error);
      }
      if candidate.value.Some? {
        candidates := candidates + [candidate.value.value];
      }
    }
    assert ids[..|ids|] == ids;
    return Ok(candidates);
  }

  lemma {:induction false} CandidatesFail(e: Engine, w: World, ids: seq<NodeId>, cursor: Cursors, i: nat)
    requires i <= |ids| && CandidatesOf(e, w, ids[..i], cursor).Err?
    ensures CandidatesOf(e, w, ids, cursor) == CandidatesOf(e, w, ids[..i], cursor)
  {
    if i < |ids| {
      var front := ids[..|ids| - 1];
      assert front[..i] == ids[..i];
      CandidatesFail(e, w, front, cursor, i);
    } else {
      assert ids[..i] == ids;
    }
  }

  lemma NextExpansion(e: Engine, w: World, x: Expansion, parents: seq<NodeId>, i: nat)
    requires i < |parents| && ExpandAll(e, w, x, parents[..i]).Ok?
    ensures ExpandAll(e, w, x, parents[..i + 1]) == ExpandOne(e, w, ExpandAll(e, w, x, parents[..i]).value, parents[i])
  {
    assert parents[..i + 1][..i] == parents[..i];
  }

  lemma CursorTwice(cursor: Cursors, id: NodeId, c: nat, d: nat)
    ensures cursor[id := c][id := d] == cursor[id := d]
  {
  }

  /** The body of the inner loop: the next child of one parent is paid for and revealed. */
  method ExpandParent(e: Engine, w: World, p: Progress, newly: seq<NodeId>, parentId: NodeId)
    returns (r: Result<Expansion, ReplayError>)
    ensures r == ExpandOne(e, w, Expansion(p, newly, false), parentId)
  {
    var children := Children(w, parentId);
    var next := CursorOf(p.cursor, parentId);
    var cursor: Cursors := p.cursor[parentId := next];
    if next >= |children| {
      return Ok(Expansion(p.(cursor := cursor), newly, false));
    }
    ChildrenFacts(w, parentId);
    var child := children[next];
    var nextCost := SaturatingAdd64(p.cost, w.nodes[child].outcome.costUnits);
    if nextCost > e.config.maxCostUnits {
      return Ok(Expansion(p.(cursor := cursor), newly, true));
    }
    CursorTwice(p.cursor, parentId, next, next + 1);
    cursor := cursor[parentId := next + 1];
    if child in p.revealed {
      return Ok(Expansion(p.(cursor := cursor), newly, false));
    }
    var score := Score(e.evaluator, w.nodes[child].outcome);
    if score.Err? {
      return Err(EvaluationFailed(score.error));
    }
    var best, bestScore := p.best, p.bestScore;
    if IsBetter(score.value, bestScore) {
      best, bestScore := child, score.value;
    }
    return Ok(Expansion(p.(revealed := p.revealed + {child}, cursor := cursor, cost := nextCost,
                           best := best, bestScore := bestScore), newly + [child], false));
  }

  /** The inner loop: reveal one child per selected parent until the budget is hit. */
  method ExpandParents(e: Engine, tree: DiscoveryTree, start: Progress, parents: seq<NodeId>)
    returns (r: Result<Expansion, ReplayError>)
    ensures r == ExpandAll(e, tree.Value(), Expansion(start, [], false), parents)
  {
    var w := tree.Value();
    ghost var x0 := Expansion(start, [], false);
    var progress, newly: seq<NodeId> := start, [];
    for i := 0 to |parents|
      invariant ExpandAll(e, w, x0, parents[..i]) == Ok(Expansion(progress, newly, false))
    {
      NextExpansion(e, w, x0, parents, i);
      var expanded := ExpandParent(e, w, progress, newly, parents[i]);
      if expanded.Err? || expanded.value.budgetHit {
        ExpansionSettled(e, w, x0, parents, i + 1);
        return expanded;
      }
      progress, newly := expanded.value.p, expanded.value.newly;
    }
    assert parents[..|parents|] == parents;
    return Ok(Expansion(progress, newly, false));
  }

  /** Once the budget is hit or a score fails, later parents change nothing. */
  lemma {:induction false} ExpansionSettled(e: Engine, w: World, x: Expansion, parents: seq<NodeId>, i: nat)
    requires i <= |parents|
    requires var r := ExpandAll(e, w, x, parents[..i]); r.Err? || r.value.budgetHit
    ensures ExpandAll(e, w, x, parents) == ExpandAll(e, w, x, parents[..i])
  {
    if i < |parents| {
      var front := parents[..|parents| - 1];
      assert front[..i] == parents[..i];
      ExpansionSettled(e, w, x, front, i);
    } else {
      assert parents[..i] == parents;
    }
  }

  method Run(e: Engine, tree: DiscoveryTree, policy: Policy) returns (r: Result<ReplayResult, ReplayError>)
    ensures r == Replayed(e, tree.Value(), policy)
  {
    var bad := tree.Validate();
    if bad.Some? {
      return Err(WorldFailed(bad.value));
    }
    var rootScore := Score(e.evaluator, tree.nodes[tree.rootId].outcome);
    if rootScore.Err? {
      return Err(EvaluationFailed(rootScore.error));
    }
    var p := Start(tree.Value(), rootScore.value);
    ghost var all := RunFrom(e, tree.Value(), policy, p);
    while true
      invariant RunFrom(e, tree.Value(), policy, p) == all
      decreases e.config.maxRounds - p.round
    {
      if p.round >= e.config.maxRounds || p.cost >= e.config.maxCostUnits {
        break;
      }
      var candidates := PolicyCandidatesOf(e, tree, p.revealed, p.cursor);
      if candidates.Err? {
        return Err(candidates.error);
      }
      if candidates.value == [] {
        break;
      }
      var action := policy(ViewOf(e, p, candidates.value));
      if action.stop || action.expand == [] {
        break;
      }
      var ineligible := FirstIneligible(candidates.value, action.expand);
      if ineligible.Some? {
        return Err(IneligibleAction(ineligible.value));
      }
      ExpandAllKeepsRound(e, tree.Value(), OpenRound(p), action.expand);
      var expansion := ExpandParents(e, tree, OpenRound(p).p, action.expand);
      if expansion.Err? {
        return Err(expansion.error);
      }
      p := CloseRound(p.best, expansion.value, action.expand);
      if expansion.value.budgetHit {
        break;
      }
    }
    assert all == Ok(p);
    var left := PolicyCandidatesOf(e, tree, p.revealed, p.cursor);
    if left.Err? {
      return Err(left.error);
    }
    return Ok(Report(e, p, left.value == []));
  }
}
