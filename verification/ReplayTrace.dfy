/** What a replay's trace says: each round is the policy's own answer to what had been revealed
    by then, and the replay ends only for one of the reasons it may end for. The definitions
    here read the trace and the tree; cursors and loop variables do not occur in them. */
module ReplayTrace {
  import opened Common
  import opened OrderedSet
  import opened DiscoveryWorld
  import opened Exploration
  import opened Replay
  import opened ReplayProperties

  type Trace = seq<ReplayStep>

  // ---------------------------------------------------------------- read off a trace

  /** The revealed nodes in the order of their revelation. */
  ghost function Order(rootId: NodeId, trace: Trace): seq<NodeId> {
    if trace == [] then [rootId]
    else Order(rootId, trace[..|trace| - 1]) + trace[|trace| - 1].revealedNodes
  }

  ghost function CostOf(w: World, revealed: set<NodeId>): u64
    requires revealed <= w.nodes.Keys
  {
    Min(U64_MAX, TotalCost(w, revealed))
  }

  ghost function BestAfter(rootId: NodeId, trace: Trace): NodeId {
    if trace == [] then rootId else trace[|trace| - 1].bestNodeId
  }

  /** The rounds since the best node last changed. */
  ghost function Stagnation(rootId: NodeId, trace: Trace): u32 {
    if trace == [] then 0
    else
      var front := trace[..|trace| - 1];
      if trace[|trace| - 1].bestNodeId == BestAfter(rootId, front) then SaturatingInc32(Stagnation(rootId, front)) else 0
  }

  // ---------------------------------------------------------------- what may be revealed

  function FirstHidden(kids: seq<NodeId>, revealed: set<NodeId>): Option<NodeId> {
    if kids == [] then None
    else if kids[0] !in revealed then Some(kids[0])
    else FirstHidden(kids[1..], revealed)
  }

  /** The oldest child of the node that is not revealed. */
  ghost function NextHidden(w: World, revealed: set<NodeId>, parentId: NodeId): (c: Option<NodeId>)
  {
    FirstHidden(Children(w, parentId), revealed)
  }

  lemma {:induction false} FirstHiddenFacts(kids: seq<NodeId>, revealed: set<NodeId>)
    ensures var c := FirstHidden(kids, revealed);
            && (c.None? <==> forall i :: 0 <= i < |kids| ==> kids[i] in revealed)
            && (c.Some? ==> exists k :: 0 <= k < |kids| && kids[k] == c.value && c.value !in revealed
                                        && forall i :: 0 <= i < k ==> kids[i] in revealed)
  {
    if kids != [] && kids[0] in revealed {
      var rest := kids[1..];
      FirstHiddenFacts(rest, revealed);
      assert forall i :: 0 < i < |kids| ==> kids[i] == rest[i - 1];
      if FirstHidden(rest, revealed).Some? {
        var k :| 0 <= k < |rest| && rest[k] == FirstHidden(rest, revealed).value && rest[k] !in revealed
                 && forall i :: 0 <= i < k ==> rest[i] in revealed;
        assert kids[k + 1] == rest[k];
      }
    }
  }

  /** The next hidden child is a hidden child, recorded before every other one. */
  lemma NextHiddenIsOldest(w: World, revealed: set<NodeId>, parentId: NodeId)
    ensures var c := NextHidden(w, revealed, parentId);
            && (c.Some? ==> c.value in w.nodes && w.nodes[c.value].parentId == Some(parentId) && c.value !in revealed)
            && (forall id :: id in w.nodes && w.nodes[id].parentId == Some(parentId) && id !in revealed ==>
                  c.Some? && (id == c.value || RecordedBefore(w, c.value, id)))
  {
    var kids := Children(w, parentId);
    ChildrenFacts(w, parentId);
    FirstHiddenFacts(kids, revealed);
    forall id | id in w.nodes && w.nodes[id].parentId == Some(parentId) && id !in revealed
      ensures NextHidden(w, revealed, parentId).Some?
              && (id == NextHidden(w, revealed, parentId).value || RecordedBefore(w, NextHidden(w, revealed, parentId).value, id))
    {
      var i := ChildPlace(w, id);
    }
  }

  /** The children a list of parents reveals, one each in turn, and whether one of them was too
      expensive, which ends the round. */
  ghost function Reveal(w: World, max: u64, revealed: set<NodeId>, parents: seq<NodeId>): (r: (seq<NodeId>, bool))
    requires revealed <= w.nodes.Keys
    ensures Listed(r.0) <= w.nodes.Keys
  {
    if parents == [] then ([], false)
    else
      var (front, blocked) := Reveal(w, max, revealed, parents[..|parents| - 1]);
      var now := revealed + Listed(front);
      NextHiddenIsOldest(w, now, parents[|parents| - 1]);
      var next := NextHidden(w, now, parents[|parents| - 1]);
      if blocked || next.None? then (front, blocked)
      else if CostOf(w, now + {next.value}) > max then (front, true)
      else
        assert (front + [next.value])[..|front|] == front;
        (front + [next.value], false)
  }

  /** The offered candidates: the revealed nodes with a hidden child, by id, each as recorded. */
  ghost predicate Offers(e: Engine, w: World, revealed: set<NodeId>, candidates: seq<Candidate>)
    requires revealed <= w.nodes.Keys
  {
    && (forall j, k :: 0 <= j < k < |candidates| ==> candidates[j].nodeId < candidates[k].nodeId)
    && (forall k :: 0 <= k < |candidates| ==> IsCandidate(e, w, revealed, candidates[k]))
    && (forall id :: id in revealed && NextHidden(w, revealed, id).Some? ==> IsOffered(candidates, id))
  }

  ghost predicate IsCandidate(e: Engine, w: World, revealed: set<NodeId>, c: Candidate)
    requires revealed <= w.nodes.Keys
  {
    && c.nodeId in revealed && NextHidden(w, revealed, c.nodeId).Some?
    && var node := w.nodes[c.nodeId];
       && c.depth == node.variant.generation && c.createdSeq == node.createdSeq && c.costUnits == node.outcome.costUnits
       && Score(e.evaluator, node.outcome) == Ok(c.score)
  }

  /** What the policy is shown after these rounds. */
  ghost function ViewAfter(e: Engine, w: World, trace: Trace, candidates: seq<Candidate>): PolicyView
    requires RevealedBy(w.rootId, trace) <= w.nodes.Keys && |trace| <= U32_MAX
  {
    var cost := CostOf(w, RevealedBy(w.rootId, trace));
    PolicyView(|trace|, if cost <= e.config.maxCostUnits then e.config.maxCostUnits - cost else 0,
               Stagnation(w.rootId, trace), candidates)
  }

  /** The node at place `k` is not beaten by any node of the order, and beats all before it. */
  ghost predicate IsFirstBest(e: Engine, w: World, order: seq<NodeId>, k: nat) {
    && k < |order|
    && (forall i :: 0 <= i < |order| ==> order[i] in w.nodes && Score(e.evaluator, w.nodes[order[i]].outcome).Ok?)
    && var best := Score(e.evaluator, w.nodes[order[k]].outcome).value;
       && (forall i :: 0 <= i < |order| ==> !IsBetter(Score(e.evaluator, w.nodes[order[i]].outcome).value, best))
       && (forall i :: 0 <= i < k ==> IsBetter(best, Score(e.evaluator, w.nodes[order[i]].outcome).value))
  }

  ghost predicate FirstBest(e: Engine, w: World, order: seq<NodeId>, best: NodeId, score: NodeScore) {
    && best in w.nodes && Score(e.evaluator, w.nodes[best].outcome) == Ok(score)
    && exists k: nat :: IsFirstBest(e, w, order, k) && order[k] == best
  }

  // ---------------------------------------------------------------- one round, and the end

  /** The policy, shown the state after these rounds, expands exactly these nodes. */
  ghost predicate Answers(e: Engine, w: World, policy: Policy, trace: Trace, expand: seq<NodeId>)
    requires RevealedBy(w.rootId, trace) <= w.nodes.Keys && |trace| <= U32_MAX
  {
    exists candidates ::
      && Offers(e, w, RevealedBy(w.rootId, trace), candidates)
      && policy(ViewAfter(e, w, trace, candidates)) == PolicyAction(expand, false)
      && forall i :: 0 <= i < |expand| ==> IsOffered(candidates, expand[i])
  }

  /** After the rounds `before`, the round `step` was due, asked the policy, revealed what its
      parents reveal, and recorded the cost and the first best node since then. Unless it is the
      last one, the budget did not cut it short. */
  ghost predicate RoundFollows(e: Engine, w: World, policy: Policy, before: Trace, step: ReplayStep, last: bool) {
    var revealed, now := RevealedBy(w.rootId, before), RevealedBy(w.rootId, before + [step]);
    && revealed <= w.nodes.Keys && now <= w.nodes.Keys
    && |before| < e.config.maxRounds && CostOf(w, revealed) < e.config.maxCostUnits
    && step.selectedParents != [] && Answers(e, w, policy, before, step.selectedParents)
    && step.revealedNodes == Reveal(w, e.config.maxCostUnits, revealed, step.selectedParents).0
    && (!last ==> !Reveal(w, e.config.maxCostUnits, revealed, step.selectedParents).1)
    && step.round == |before| + 1 && step.costUnits == CostOf(w, now)
    && step.bestNodeId in w.nodes && Score(e.evaluator, w.nodes[step.bestNodeId].outcome).Ok?
    && var score := Score(e.evaluator, w.nodes[step.bestNodeId].outcome).value;
       FirstBest(e, w, Order(w.rootId, before + [step]), step.bestNodeId, score) && step.bestUtility == score.utility
  }

  ghost predicate Followed(e: Engine, w: World, policy: Policy, trace: Trace) {
    |trace| <= U32_MAX
    && forall i :: 0 <= i < |trace| ==> RoundFollows(e, w, policy, trace[..i], trace[i], i + 1 == |trace|)
  }

  /** The policy stops. */
  ghost predicate PolicyStops(e: Engine, w: World, policy: Policy, trace: Trace)
    requires RevealedBy(w.rootId, trace) <= w.nodes.Keys && |trace| <= U32_MAX
  {
    exists candidates :: Offers(e, w, RevealedBy(w.rootId, trace), candidates)
                         && Stops(policy(ViewAfter(e, w, trace, candidates)))
  }

  predicate Stops(action: PolicyAction) {
    action.stop || action.expand == []
  }

  /** The last round selected a parent whose next child does not fit into the budget. */
  ghost predicate BudgetBlocks(e: Engine, w: World, trace: Trace)
    requires RevealedBy(w.rootId, trace) <= w.nodes.Keys
  {
    && trace != []
    && exists id :: id in trace[|trace| - 1].selectedParents && TooExpensive(e, w, RevealedBy(w.rootId, trace), id)
  }

  ghost predicate TooExpensive(e: Engine, w: World, revealed: set<NodeId>, parentId: NodeId)
    requires revealed <= w.nodes.Keys
  {
    NextHiddenIsOldest(w, revealed, parentId);
    var next := NextHidden(w, revealed, parentId);
    next.Some? && CostOf(w, revealed + {next.value}) > e.config.maxCostUnits
  }

  /** Every reason for which a replay may end. */
  ghost predicate MayEnd(e: Engine, w: World, policy: Policy, trace: Trace)
    requires RevealedBy(w.rootId, trace) <= w.nodes.Keys && |trace| <= U32_MAX
  {
    || |trace| >= e.config.maxRounds
    || CostOf(w, RevealedBy(w.rootId, trace)) >= e.config.maxCostUnits
    || RevealedBy(w.rootId, trace) == w.nodes.Keys
    || PolicyStops(e, w, policy, trace)
    || BudgetBlocks(e, w, trace)
  }

  // ---------------------------------------------------------------- the candidates are the offers

  lemma {:induction false} CursorsShowHidden(w: World, revealed: set<NodeId>, cursor: Cursors, id: NodeId)
    requires CursorsAreExact(w, revealed, cursor)
    ensures var c := CursorOf(cursor, id);
            NextHidden(w, revealed, id) == if c < |Children(w, id)| then Some(Children(w, id)[c]) else None
  {
    var kids, c := Children(w, id), CursorOf(cursor, id);
    FirstHiddenFacts(kids, revealed);
    ChildrenFacts(w, id);
    assert forall i :: 0 <= i < |kids| ==> (kids[i] in revealed <==> i < c);
  }

  type Chooser = NodeId -> Option<Candidate>

  ghost function CandidateOn(e: Engine, w: World, cursor: Cursors): Chooser {
    (id: NodeId) => var r := CandidateFor(e, w, id, cursor); if r.Ok? then r.value else None
  }

  /** The candidates are those of the ids that have one, in the order of the ids. */
  ghost predicate Filters(choose: Chooser, ids: seq<NodeId>, candidates: seq<Candidate>) {
    && (forall j, k :: 0 <= j < k < |candidates| ==> candidates[j].nodeId < candidates[k].nodeId)
    && (forall k :: 0 <= k < |candidates| ==>
          candidates[k].nodeId in ids && choose(candidates[k].nodeId) == Some(candidates[k]))
    && (forall i :: 0 <= i < |ids| && choose(ids[i]).Some? ==> IsOffered(candidates, ids[i]))
  }

  lemma FiltersOneMore(choose: Chooser, front: seq<NodeId>, before: seq<Candidate>, last: NodeId)
    requires Filters(choose, front, before) && forall i :: 0 <= i < |front| ==> front[i] < last
    requires choose(last).Some? ==> choose(last).value.nodeId == last
    ensures Filters(choose, front + [last], if choose(last).Some? then before + [choose(last).value] else before)
  {
    var ids, after := front + [last], if choose(last).Some? then before + [choose(last).value] else before;
    assert ids[|front|] == last;
    forall i | 0 <= i < |ids| && choose(ids[i]).Some?
      ensures IsOffered(after, ids[i])
    {
      if i < |front| {
        assert ids[i] == front[i];
        var k :| 0 <= k < |before| && before[k].nodeId == front[i];
        assert after[k].nodeId == ids[i];
      } else {
        assert after[|before|].nodeId == last;
      }
    }
  }

  lemma CandidatesOneMore(e: Engine, w: World, cursor: Cursors, ids: seq<NodeId>)
    requires ids != [] && CandidatesOf(e, w, ids, cursor).Ok?
    ensures var front, c := CandidatesOf(e, w, ids[..|ids| - 1], cursor), CandidateOn(e, w, cursor)(ids[|ids| - 1]);
            && front.Ok? && (c.Some? ==> c.value.nodeId == ids[|ids| - 1])
            && CandidatesOf(e, w, ids, cursor).value == if c.Some? then front.value + [c.value] else front.value
  {
  }

  lemma {:induction false} CandidatesFilter(e: Engine, w: World, cursor: Cursors, choose: Chooser, ids: seq<NodeId>)
    requires choose == CandidateOn(e, w, cursor)
    requires CandidatesOf(e, w, ids, cursor).Ok? && forall i, j :: 0 <= i < j < |ids| ==> ids[i] < ids[j]
    ensures Filters(choose, ids, CandidatesOf(e, w, ids, cursor).value)
  {
    if ids != [] {
      var front, last := ids[..|ids| - 1], ids[|ids| - 1];
      CandidatesOneMore(e, w, cursor, ids);
      CandidatesFilter(e, w, cursor, choose, front);
      FiltersOneMore(choose, front, CandidatesOf(e, w, front, cursor).value, last);
      assert front + [last] == ids;
    }
  }

  lemma CandidatesAreOffers(e: Engine, w: World, p: Progress)
    requires IsTree(w) && Explored(e, w, p)
    ensures PolicyCandidates(e, w, p).Ok? && Offers(e, w, p.revealed, PolicyCandidates(e, w, p).value)
  {
    var ids := Sorted(p.revealed, IdLeq);
    PolicyCandidatesFacts(e, w, p);
    SortedFacts(p.revealed, IdLeq);
    CandidatesFilter(e, w, p.cursor, CandidateOn(e, w, p.cursor), ids);
    var candidates := PolicyCandidates(e, w, p).value;
    forall k | 0 <= k < |candidates|
      ensures IsCandidate(e, w, p.revealed, candidates[k])
    {
      CandidateIsRecorded(e, w, p, candidates[k]);
    }
    forall id | id in p.revealed && NextHidden(w, p.revealed, id).Some?
      ensures IsOffered(candidates, id)
    {
      var i := RankOf(p.revealed, IdLeq, id);
      CursorsShowHidden(w, p.revealed, p.cursor, id);
      CandidateForFacts(e, w, p, id);
    }
  }

  lemma CandidateIsRecorded(e: Engine, w: World, p: Progress, c: Candidate)
    requires IsTree(w) && Explored(e, w, p) && c.nodeId in p.revealed
    requires CandidateFor(e, w, c.nodeId, p.cursor) == Ok(Some(c))
    ensures IsCandidate(e, w, p.revealed, c)
  {
    CursorsShowHidden(w, p.revealed, p.cursor, c.nodeId);
    var k := EveryNodeIsRooted(w, c.nodeId);
    DepthIsGeneration(w, c.nodeId, k);
  }

  // ---------------------------------------------------------------- one round

  lemma CostOfOneMore(w: World, revealed: set<NodeId>, child: NodeId)
    requires revealed <= w.nodes.Keys && child in w.nodes && child !in revealed
    ensures CostOf(w, revealed + {child}) == SaturatingAdd64(CostOf(w, revealed), w.nodes[child].outcome.costUnits)
  {
    TotalCostAdd(w, revealed, child);
  }

  /** One parent, read off the tree instead of the cursor. */
  lemma ExpandOneIsNextHidden(e: Engine, w: World, y: Expansion, parentId: NodeId)
    requires Explored(e, w, y.p) && !y.budgetHit && ExpandOne(e, w, y, parentId).Ok?
    ensures var x, next := ExpandOne(e, w, y, parentId).value, NextHidden(w, y.p.revealed, parentId);
            if next.None? then x.newly == y.newly && x.p.revealed == y.p.revealed && !x.budgetHit
            else
              && next.value in w.nodes && next.value !in y.p.revealed
              && (x.budgetHit <==> CostOf(w, y.p.revealed + {next.value}) > e.config.maxCostUnits)
              && (if x.budgetHit then x.newly == y.newly && x.p.revealed == y.p.revealed
                  else x.newly == y.newly + [next.value] && x.p.revealed == y.p.revealed + {next.value})
  {
    CursorsShowHidden(w, y.p.revealed, y.p.cursor, parentId);
    NextHiddenIsOldest(w, y.p.revealed, parentId);
    var next := NextHidden(w, y.p.revealed, parentId);
    if next.Some? {
      CostOfOneMore(w, y.p.revealed, next.value);
    }
  }

  lemma ListedOneMore(ids: seq<NodeId>, id: NodeId)
    ensures Listed(ids + [id]) == Listed(ids) + {id}
  {
    assert (ids + [id])[..|ids|] == ids;
  }

  lemma RevealStep(w: World, max: u64, revealed: set<NodeId>, parents: seq<NodeId>, newly: seq<NodeId>)
    requires revealed <= w.nodes.Keys && parents != []
    requires Reveal(w, max, revealed, parents[..|parents| - 1]) == (newly, false)
    ensures var now := revealed + Listed(newly);
            var next := NextHidden(w, now, parents[|parents| - 1]);
            && now <= w.nodes.Keys && (next.Some? ==> next.value in w.nodes)
            && Reveal(w, max, revealed, parents)
               == if next.None? then (newly, false)
                  else if CostOf(w, now + {next.value}) > max then (newly, true)
                  else (newly + [next.value], false)
  {
    NextHiddenIsOldest(w, revealed + Listed(newly), parents[|parents| - 1]);
  }

  lemma RevealOneMore(e: Engine, w: World, revealed: set<NodeId>, parents: seq<NodeId>, y: Expansion)
    requires revealed <= w.nodes.Keys && parents != [] && Explored(e, w, y.p) && ExpandOne(e, w, y, parents[|parents| - 1]).Ok?
    requires Reveal(w, e.config.maxCostUnits, revealed, parents[..|parents| - 1]) == (y.newly, y.budgetHit)
    requires y.p.revealed == revealed + Listed(y.newly)
    ensures var x := ExpandOne(e, w, y, parents[|parents| - 1]).value;
            && Reveal(w, e.config.maxCostUnits, revealed, parents) == (x.newly, x.budgetHit)
            && x.p.revealed == revealed + Listed(x.newly)
  {
    var last := parents[|parents| - 1];
    if y.budgetHit {
      assert Reveal(w, e.config.maxCostUnits, revealed, parents) == (y.newly, true);
    } else {
      RevealStep(w, e.config.maxCostUnits, revealed, parents, y.newly);
      ExpandOneIsNextHidden(e, w, y, last);
      RevealedOneMore(y, ExpandOne(e, w, y, last).value, revealed, NextHidden(w, y.p.revealed, last));
    }
  }

  lemma RevealedOneMore(y: Expansion, x: Expansion, revealed: set<NodeId>, next: Option<NodeId>)
    requires y.p.revealed == revealed + Listed(y.newly)
    requires || (x.newly == y.newly && x.p.revealed == y.p.revealed)
             || (next.Some? && x.newly == y.newly + [next.value] && x.p.revealed == y.p.revealed + {next.value})
    ensures x.p.revealed == revealed + Listed(x.newly)
  {
    if next.Some? { ListedOneMore(y.newly, next.value); }
  }

  lemma {:induction false} ExpandAllIsReveal(e: Engine, w: World, x: Expansion, parents: seq<NodeId>)
    requires Expanding(e, w, x) && x.newly == [] && !x.budgetHit && ExpandAll(e, w, x, parents).Ok?
    requires forall i :: 0 <= i < |parents| ==> parents[i] in x.p.revealed
    ensures var x' := ExpandAll(e, w, x, parents).value;
            && Reveal(w, e.config.maxCostUnits, x.p.revealed, parents) == (x'.newly, x'.budgetHit)
            && x'.p.revealed == x.p.revealed + Listed(x'.newly)
  {
    if parents != [] {
      var front := parents[..|parents| - 1];
      ExpandAllIsReveal(e, w, x, front);
      ExpandAllKeepsExpanding(e, w, x, front);
      RevealOneMore(e, w, x.p.revealed, parents, ExpandAll(e, w, x, front).value);
    }
  }

  lemma FirstBestOneMore(e: Engine, w: World, order: seq<NodeId>, best: NodeId, score: NodeScore, child: NodeId, more: NodeScore)
    requires FirstBest(e, w, order, best, score) && child in w.nodes
    requires Score(e.evaluator, w.nodes[child].outcome) == Ok(more)
    ensures if IsBetter(more, score) then FirstBest(e, w, order + [child], child, more)
            else FirstBest(e, w, order + [child], best, score)
  {
    var k: nat :| IsFirstBest(e, w, order, k) && order[k] == best;
    var after := order + [child];
    assert forall i :: 0 <= i < |order| ==> after[i] == order[i];
    if IsBetter(more, score) {
      forall i | 0 <= i < |order|
        ensures IsBetter(more, Score(e.evaluator, w.nodes[after[i]].outcome).value)
        ensures !IsBetter(Score(e.evaluator, w.nodes[after[i]].outcome).value, more)
      {
        var other := Score(e.evaluator, w.nodes[order[i]].outcome).value;
        BetterIsAWeakOrder(more, score, other);
        BetterIsAWeakOrder(more, other, score);
      }
      assert IsFirstBest(e, w, after, |order|);
    } else {
      assert IsFirstBest(e, w, after, k);
    }
  }

  lemma {:induction false} ExpandAllKeepsFirstBest(e: Engine, w: World, x: Expansion, parents: seq<NodeId>, order: seq<NodeId>)
    requires Expanding(e, w, x) && ExpandAll(e, w, x, parents).Ok?
    requires forall i :: 0 <= i < |parents| ==> parents[i] in x.p.revealed
    requires FirstBest(e, w, order + x.newly, x.p.best, x.p.bestScore)
    ensures var x' := ExpandAll(e, w, x, parents).value;
            FirstBest(e, w, order + x'.newly, x'.p.best, x'.p.bestScore)
  {
    if parents != [] {
      var front, last := parents[..|parents| - 1], parents[|parents| - 1];
      ExpandAllKeepsFirstBest(e, w, x, front, order);
      ExpandAllKeepsExpanding(e, w, x, front);
      ExpandOneKeepsFirstBest(e, w, ExpandAll(e, w, x, front).value, last, order);
    }
  }

  lemma ExpandOneKeepsFirstBest(e: Engine, w: World, y: Expansion, parentId: NodeId, order: seq<NodeId>)
    requires Explored(e, w, y.p) && parentId in y.p.revealed && ExpandOne(e, w, y, parentId).Ok?
    requires FirstBest(e, w, order + y.newly, y.p.best, y.p.bestScore)
    ensures var x := ExpandOne(e, w, y, parentId).value;
            FirstBest(e, w, order + x.newly, x.p.best, x.p.bestScore)
  {
    var x := ExpandOne(e, w, y, parentId).value;
    if !y.budgetHit && CursorOf(y.p.cursor, parentId) < |Children(w, parentId)| && !x.budgetHit {
      ExpandOneReveals(e, w, y, parentId);
      var child := Children(w, parentId)[CursorOf(y.p.cursor, parentId)];
      FirstBestOneMore(e, w, order + y.newly, y.p.best, y.p.bestScore, child, Score(e.evaluator, w.nodes[child].outcome).value);
      assert order + x.newly == order + y.newly + [child];
    } else {
      assert x.newly == y.newly && x.p.best == y.p.best && x.p.bestScore == y.p.bestScore;
    }
  }

  // ---------------------------------------------------------------- the whole replay

  /** The last round was not cut short by the budget. */
  ghost predicate Unblocked(e: Engine, w: World, trace: Trace) {
    trace != [] ==>
      var revealed := RevealedBy(w.rootId, trace[..|trace| - 1]);
      revealed <= w.nodes.Keys && !Reveal(w, e.config.maxCostUnits, revealed, trace[|trace| - 1].selectedParents).1
  }

  /** The loop variables say what the trace says. */
  ghost predicate Told(e: Engine, w: World, policy: Policy, p: Progress) {
    && Settled(e, w, p)
    && Followed(e, w, policy, p.trace)
    && p.best == BestAfter(w.rootId, p.trace) && p.stagnation == Stagnation(w.rootId, p.trace)
    && FirstBest(e, w, Order(w.rootId, p.trace), p.best, p.bestScore)
  }

  lemma NoLongerLast(e: Engine, w: World, policy: Policy, before: Trace, step: ReplayStep)
    requires RoundFollows(e, w, policy, before, step, true)
    requires !Reveal(w, e.config.maxCostUnits, RevealedBy(w.rootId, before), step.selectedParents).1
    ensures RoundFollows(e, w, policy, before, step, false)
  {
  }

  lemma FollowedOneMore(e: Engine, w: World, policy: Policy, trace: Trace, step: ReplayStep)
    requires Followed(e, w, policy, trace) && Unblocked(e, w, trace)
    requires |trace| < U32_MAX && RoundFollows(e, w, policy, trace, step, true)
    ensures Followed(e, w, policy, trace + [step])
  {
    var more, n := trace + [step], |trace|;
    if n > 0 { NoLongerLast(e, w, policy, trace[..n - 1], trace[n - 1]); }
    forall i | 0 <= i < |more|
      ensures RoundFollows(e, w, policy, more[..i], more[i], i + 1 == |more|)
    {
      if i < n {
        assert RoundFollows(e, w, policy, trace[..i], trace[i], i + 1 == n);
        PrefixKept(trace, step, i);
      } else {
        assert more[..n] == trace;
      }
    }
  }

  lemma PrefixKept<T>(s: seq<T>, x: T, i: nat)
    requires i < |s|
    ensures (s + [x])[..i] == s[..i] && (s + [x])[i] == s[i]
  {
  }

  lemma TraceOneMore(rootId: NodeId, trace: Trace, step: ReplayStep)
    ensures RevealedBy(rootId, trace + [step]) == RevealedBy(rootId, trace) + Listed(step.revealedNodes)
    ensures Order(rootId, trace + [step]) == Order(rootId, trace) + step.revealedNodes
    ensures BestAfter(rootId, trace + [step]) == step.bestNodeId
    ensures Stagnation(rootId, trace + [step])
         == if step.bestNodeId == BestAfter(rootId, trace) then SaturatingInc32(Stagnation(rootId, trace)) else 0
  {
    assert (trace + [step])[..|trace|] == trace;
  }

  /** The loop shows the policy what the trace says, and its candidates are the offers. */
  lemma ShownAsTold(e: Engine, w: World, policy: Policy, p: Progress)
    requires IsTree(w) && Told(e, w, policy, p)
    ensures PolicyCandidates(e, w, p).Ok?
    ensures var candidates := PolicyCandidates(e, w, p).value;
            Offers(e, w, p.revealed, candidates) && ViewOf(e, p, candidates) == ViewAfter(e, w, p.trace, candidates)
  {
    CandidatesAreOffers(e, w, p);
  }

  lemma AnsweredAsTold(e: Engine, w: World, policy: Policy, p: Progress, expand: seq<NodeId>)
    requires IsTree(w) && Told(e, w, policy, p) && PolicyCandidates(e, w, p).Ok?
    requires policy(ViewOf(e, p, PolicyCandidates(e, w, p).value)) == PolicyAction(expand, false)
    requires FirstIneligible(PolicyCandidates(e, w, p).value, expand).None?
    ensures Answers(e, w, policy, p.trace, expand)
  {
    ShownAsTold(e, w, policy, p);
    EligibleAreOffered(PolicyCandidates(e, w, p).value, expand);
  }

  /** A step with these contents extends the trace. */
  lemma NextRoundFollows(e: Engine, w: World, policy: Policy, trace: Trace, step: ReplayStep, score: NodeScore)
    requires RevealedBy(w.rootId, trace) <= w.nodes.Keys && |trace| < e.config.maxRounds
    requires CostOf(w, RevealedBy(w.rootId, trace)) < e.config.maxCostUnits
    requires step.selectedParents != [] && Answers(e, w, policy, trace, step.selectedParents)
    requires step.revealedNodes == Reveal(w, e.config.maxCostUnits, RevealedBy(w.rootId, trace), step.selectedParents).0
    requires step.round == |trace| + 1
    requires step.costUnits == CostOf(w, RevealedBy(w.rootId, trace) + Listed(step.revealedNodes))
    requires FirstBest(e, w, Order(w.rootId, trace) + step.revealedNodes, step.bestNodeId, score)
    requires step.bestUtility == score.utility
    ensures RoundFollows(e, w, policy, trace, step, true)
  {
    TraceOneMore(w.rootId, trace, step);
  }

  /** A blocked list of parents names one whose next child no longer fits. */
  lemma {:induction false} BlockedByOne(e: Engine, w: World, revealed: set<NodeId>, parents: seq<NodeId>)
    requires revealed <= w.nodes.Keys && Reveal(w, e.config.maxCostUnits, revealed, parents).1
    ensures exists id :: id in parents
                         && TooExpensive(e, w, revealed + Listed(Reveal(w, e.config.maxCostUnits, revealed, parents).0), id)
  {
    var front, last := parents[..|parents| - 1], parents[|parents| - 1];
    if Reveal(w, e.config.maxCostUnits, revealed, front).1 {
      BlockedByOne(e, w, revealed, front);
      var now := revealed + Listed(Reveal(w, e.config.maxCostUnits, revealed, front).0);
      var id :| id in front && TooExpensive(e, w, now, id);
      assert id in parents;
    } else {
      assert last in parents;
    }
  }

  /** The loop is about to run a round in which the policy expands these nodes. */
  ghost predicate Due(e: Engine, w: World, policy: Policy, p: Progress, expand: seq<NodeId>) {
    && IsTree(w) && Told(e, w, policy, p) && |p.revealed| > p.round
    && p.round < e.config.maxRounds && p.cost < e.config.maxCostUnits
    && PolicyCandidates(e, w, p).Ok? && expand != []
    && policy(ViewOf(e, p, PolicyCandidates(e, w, p).value)) == PolicyAction(expand, false)
    && FirstIneligible(PolicyCandidates(e, w, p).value, expand).None?
    && ExpandAll(e, w, OpenRound(p), expand).Ok?
  }

  lemma DueRoundExpands(e: Engine, w: World, policy: Policy, p: Progress, expand: seq<NodeId>)
    requires Due(e, w, policy, p, expand)
    ensures Expanding(e, w, OpenRound(p)) && forall i :: 0 <= i < |expand| ==> expand[i] in p.revealed
  {
    SelectedAreExpandable(e, w, p, expand);
  }

  lemma RoundReveals(e: Engine, w: World, policy: Policy, p: Progress, expand: seq<NodeId>)
    requires Due(e, w, policy, p, expand)
    ensures var x := ExpandAll(e, w, OpenRound(p), expand).value;
            && Reveal(w, e.config.maxCostUnits, p.revealed, expand) == (x.newly, x.budgetHit)
            && x.p.revealed == p.revealed + Listed(x.newly)
            && x.p.round == p.round + 1 && x.p.trace == p.trace && x.p.stagnation == p.stagnation
  {
    DueRoundExpands(e, w, policy, p, expand);
    ExpandAllKeepsRound(e, w, OpenRound(p), expand);
    ExpandAllIsReveal(e, w, OpenRound(p), expand);
  }

  lemma OpenRoundIsFirstBest(e: Engine, w: World, policy: Policy, p: Progress)
    requires Told(e, w, policy, p)
    ensures var x := OpenRound(p);
            FirstBest(e, w, Order(w.rootId, p.trace) + x.newly, x.p.best, x.p.bestScore)
  {
    assert Order(w.rootId, p.trace) + [] == Order(w.rootId, p.trace);
  }

  lemma RoundKeepsFirstBest(e: Engine, w: World, policy: Policy, p: Progress, expand: seq<NodeId>)
    requires Due(e, w, policy, p, expand)
    ensures var x := ExpandAll(e, w, OpenRound(p), expand).value;
            FirstBest(e, w, Order(w.rootId, p.trace) + x.newly, x.p.best, x.p.bestScore)
  {
    DueRoundExpands(e, w, policy, p, expand);
    OpenRoundIsFirstBest(e, w, policy, p);
    ExpandAllKeepsFirstBest(e, w, OpenRound(p), expand, Order(w.rootId, p.trace));
  }

  function StepOf(x: Expansion, expand: seq<NodeId>): ReplayStep {
    ReplayStep(x.p.round, expand, x.newly, x.p.best, x.p.bestScore.utility, x.p.cost)
  }

  lemma RoundExtends(e: Engine, w: World, policy: Policy, p: Progress, expand: seq<NodeId>)
    requires Due(e, w, policy, p, expand) && Unblocked(e, w, p.trace)
    ensures Followed(e, w, policy, p.trace + [StepOf(ExpandAll(e, w, OpenRound(p), expand).value, expand)])
  {
    var x := ExpandAll(e, w, OpenRound(p), expand).value;
    RoundReveals(e, w, policy, p, expand);
    RoundKeepsFirstBest(e, w, policy, p, expand);
    RoundKeepsSettled(e, w, p, expand);
    AnsweredAsTold(e, w, policy, p, expand);
    NextRoundFollows(e, w, policy, p.trace, StepOf(x, expand), x.p.bestScore);
    FollowedOneMore(e, w, policy, p.trace, StepOf(x, expand));
  }

  /** A round of the loop is the next round of the trace. */
  lemma RoundIsTold(e: Engine, w: World, policy: Policy, p: Progress, expand: seq<NodeId>)
    requires Due(e, w, policy, p, expand) && Unblocked(e, w, p.trace)
    ensures var x := ExpandAll(e, w, OpenRound(p), expand).value;
            var next := CloseRound(p.best, x, expand);
            && Told(e, w, policy, next)
            && (!x.budgetHit ==> Unblocked(e, w, next.trace) && |next.revealed| > next.round)
            && (x.budgetHit ==> BudgetBlocks(e, w, next.trace))
  {
    var x := ExpandAll(e, w, OpenRound(p), expand).value;
    var step := StepOf(x, expand);
    RoundReveals(e, w, policy, p, expand);
    RoundKeepsFirstBest(e, w, policy, p, expand);
    RoundKeepsSettled(e, w, p, expand);
    RoundExtends(e, w, policy, p, expand);
    TraceOneMore(w.rootId, p.trace, step);
    assert (p.trace + [step])[..|p.trace|] == p.trace;
    if x.budgetHit { BlockedByOne(e, w, p.revealed, expand); }
  }

  /** The loop does not start another round. */
  ghost predicate AtRest(e: Engine, w: World, policy: Policy, p: Progress) {
    || p.round >= e.config.maxRounds || p.cost >= e.config.maxCostUnits
    || (PolicyCandidates(e, w, p).Ok?
        && (PolicyCandidates(e, w, p).value == [] || Stops(policy(ViewOf(e, p, PolicyCandidates(e, w, p).value)))))
  }

  lemma RestIsTold(e: Engine, w: World, policy: Policy, p: Progress)
    requires IsTree(w) && Told(e, w, policy, p) && AtRest(e, w, policy, p)
    ensures MayEnd(e, w, policy, p.trace)
  {
    ShownAsTold(e, w, policy, p);
    ExhaustedMeansAllRevealed(e, w, p);
  }

  ghost function ActionOn(e: Engine, w: World, policy: Policy, p: Progress): PolicyAction
    requires PolicyCandidates(e, w, p).Ok?
  {
    policy(ViewOf(e, p, PolicyCandidates(e, w, p).value))
  }

  /** The loop's next round, when it starts one and ends well. */
  lemma RunUnfolds(e: Engine, w: World, policy: Policy, p: Progress)
    requires PolicyCandidates(e, w, p).Ok?
    requires IsTree(w) && Told(e, w, policy, p) && |p.revealed| > p.round && RunFrom(e, w, policy, p).Ok?
    ensures AtRest(e, w, policy, p) ==> RunFrom(e, w, policy, p) == Ok(p)
    ensures !AtRest(e, w, policy, p) ==>
              var expand := ActionOn(e, w, policy, p).expand;
              && Due(e, w, policy, p, expand)
              && var x := ExpandAll(e, w, OpenRound(p), expand).value;
                 var next := CloseRound(p.best, x, expand);
                 next.round > p.round && RunFrom(e, w, policy, p) == if x.budgetHit then Ok(next) else RunFrom(e, w, policy, next)
  {
    if !AtRest(e, w, policy, p) {
      ExpandAllKeepsRound(e, w, OpenRound(p), ActionOn(e, w, policy, p).expand);
    }
  }

  lemma {:induction false} RunIsTold(e: Engine, w: World, policy: Policy, p: Progress)
    requires IsTree(w) && Told(e, w, policy, p) && Unblocked(e, w, p.trace) && |p.revealed| > p.round
    requires RunFrom(e, w, policy, p).Ok?
    ensures Told(e, w, policy, RunFrom(e, w, policy, p).value) && MayEnd(e, w, policy, RunFrom(e, w, policy, p).value.trace)
    decreases e.config.maxRounds - p.round
  {
    ShownAsTold(e, w, policy, p);
    RunUnfolds(e, w, policy, p);
    if AtRest(e, w, policy, p) {
      RestIsTold(e, w, policy, p);
    } else {
      var expand := ActionOn(e, w, policy, p).expand;
      var x := ExpandAll(e, w, OpenRound(p), expand).value;
      RoundIsTold(e, w, policy, p, expand);
      if !x.budgetHit {
        RunIsTold(e, w, policy, CloseRound(p.best, x, expand));
      }
    }
  }

  lemma StartIsTold(e: Engine, w: World, policy: Policy, score: NodeScore)
    requires IsTree(w) && Score(e.evaluator, w.nodes[w.rootId].outcome) == Ok(score)
    ensures Told(e, w, policy, Start(w, score)) && |Start(w, score).revealed| > 0
  {
    StartIsSettled(e, w, score);
    assert IsFirstBest(e, w, [w.rootId], 0);
  }

  /** Main result: the trace of any finished replay, under any policy whatsoever, is the
      policy's own. Round after round it was shown exactly the revealed nodes with a hidden
      child and the cost, round and stagnation the trace implies; what it chose to expand is
      what was revealed, oldest hidden child first; and the replay ended at the round or cost
      limit, with the whole tree revealed, because the policy stopped, or because the last
      round met a child that no longer fits into the budget. The reported node is the first
      best one in the order of revelation. */
  lemma ReplayFollowsThePolicy(e: Engine, w: World, policy: Policy)
    requires Replayed(e, w, policy).Ok?
    ensures IsTree(w)
    ensures var r := Replayed(e, w, policy).value;
            && Followed(e, w, policy, r.trace)
            && RevealedBy(w.rootId, r.trace) <= w.nodes.Keys && MayEnd(e, w, policy, r.trace)
            && FirstBest(e, w, Order(w.rootId, r.trace), r.bestNodeId, r.bestScore)
  {
    ValidateAcceptsTrees(w);
    var score := Score(e.evaluator, w.nodes[w.rootId].outcome).value;
    StartIsTold(e, w, policy, score);
    RunIsTold(e, w, policy, Start(w, score));
  }

  /** The objective over the report's own fields: utility, less the charge for the cost spent,
      plus the bonus for revealed attempts per round, less the penalty if infeasible. */
  ghost predicate HasObjective(c: ReplayConfig, r: ReplayResult) {
    var charged := r.objective + c.discoveryCostPenalty * r.costUnits as real
                   + (if r.bestScore.feasible then 0.0 else c.infeasiblePenalty);
    if r.decisionRounds == 0 then charged == r.bestScore.utility
    else (charged - r.bestScore.utility) * r.decisionRounds as real == c.parallelismBonus * (r.revealedNodes - 1) as real
  }

  lemma ReportHasObjective(e: Engine, p: Progress, exhausted: bool)
    ensures HasObjective(e.config, Report(e, p, exhausted))
  {
    if p.round != 0 {
      PerRound(e.config.parallelismBonus, (|p.revealed| - 1) as real, p.round as real);
    }
  }

  lemma PerRound(bonus: real, attempts: real, rounds: real)
    requires rounds > 0.0
    ensures bonus * (attempts / rounds) * rounds == bonus * attempts
  {
    assert attempts / rounds * rounds == attempts;
    assert bonus * (attempts / rounds) * rounds == bonus * (attempts / rounds * rounds);
  }

  lemma ReplayHasObjective(e: Engine, w: World, policy: Policy)
    requires Replayed(e, w, policy).Ok?
    ensures HasObjective(e.config, Replayed(e, w, policy).value)
  {
    var score := Score(e.evaluator, w.nodes[w.rootId].outcome).value;
    var p := RunFrom(e, w, policy, Start(w, score)).value;
    ReportHasObjective(e, p, PolicyCandidates(e, w, p).value == []);
  }
}
