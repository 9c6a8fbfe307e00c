/** What every replay guarantees about the nodes it revealed, for any exploration policy. */
module ReplayProperties {
  import opened Common
  import opened OrderedSet
  import opened DiscoveryWorld
  import opened Exploration
  import opened Replay

  // ---------------------------------------------------------------- cost of a set of nodes

  ghost function TotalCost(w: World, s: set<NodeId>): nat
    requires s <= w.nodes.Keys
  {
    if s == {} then 0
    else w.nodes[Least(s, IdLeq)].outcome.costUnits + TotalCost(w, s - {Least(s, IdLeq)})
  }

  lemma {:induction false} TotalCostAdd(w: World, s: set<NodeId>, x: NodeId)
    requires s + {x} <= w.nodes.Keys && x !in s
    ensures TotalCost(w, s + {x}) == TotalCost(w, s) + w.nodes[x].outcome.costUnits
    decreases |s|
  {
    var t := s + {x};
    var m := Least(t, IdLeq);
    if m == x {
      assert t - {m} == s;
    } else {
      assert m == Least(s, IdLeq);
      assert t - {m} == (s - {m}) + {x};
      TotalCostAdd(w, s - {m}, x);
    }
  }

  // ---------------------------------------------------------------- the invariant

  /** Each node's revealed children are exactly the first `cursor` of its sorted children,
      and only revealed nodes have a cursor. */
  ghost predicate CursorsAreExact(w: World, revealed: set<NodeId>, cursor: Cursors) {
    && (forall q: NodeId, i {:trigger Children(w, q)[i]} ::
          0 <= i < |Children(w, q)| ==> (Children(w, q)[i] in revealed <==> i < CursorOf(cursor, q)))
    && (forall q: NodeId {:trigger CursorOf(cursor, q)} ::
          CursorOf(cursor, q) <= |Children(w, q)| && (CursorOf(cursor, q) > 0 ==> q in revealed))
  }

  ghost predicate IsBest(e: Engine, w: World, revealed: set<NodeId>, best: NodeId, bestScore: NodeScore)
    requires revealed <= w.nodes.Keys
  {
    && best in revealed
    && Score(e.evaluator, w.nodes[best].outcome) == Ok(bestScore)
    && forall q :: q in revealed ==>
         Score(e.evaluator, w.nodes[q].outcome).Ok? && !IsBetter(Score(e.evaluator, w.nodes[q].outcome).value, bestScore)
  }

  ghost predicate Explored(e: Engine, w: World, p: Progress) {
    && w.rootId in p.revealed && p.revealed <= w.nodes.Keys
    && CursorsAreExact(w, p.revealed, p.cursor)
    && p.cost == Min(U64_MAX, TotalCost(w, p.revealed))
    && (p.cost <= e.config.maxCostUnits || p.cost == w.nodes[w.rootId].outcome.costUnits)
    && IsBest(e, w, p.revealed, p.best, p.bestScore)
  }

  /** Revealing the next child keeps the cursors exact, and the child was not yet revealed. */
  lemma RevealKeepsCursors(w: World, revealed: set<NodeId>, cursor: Cursors, parentId: NodeId)
    requires CursorsAreExact(w, revealed, cursor) && parentId in revealed
    requires CursorOf(cursor, parentId) < |Children(w, parentId)|
    ensures var c := CursorOf(cursor, parentId);
            var child := Children(w, parentId)[c];
            && child !in revealed && child in w.nodes
            && CursorsAreExact(w, revealed + {child}, cursor[parentId := c + 1])
  {
    var c := CursorOf(cursor, parentId);
    var child := Children(w, parentId)[c];
    var revealed', cursor' := revealed + {child}, cursor[parentId := c + 1];
    ChildrenFacts(w, parentId);
    forall q: NodeId, i | 0 <= i < |Children(w, q)|
      ensures Children(w, q)[i] in revealed' <==> i < CursorOf(cursor', q)
    {
      ChildrenFacts(w, q);
      assert Children(w, q)[i] in revealed <==> i < CursorOf(cursor, q);
    }
    forall q: NodeId
      ensures CursorOf(cursor', q) <= |Children(w, q)| && (CursorOf(cursor', q) > 0 ==> q in revealed')
    {
      assert CursorOf(cursor, q) <= |Children(w, q)|;
    }
  }

  /** Creating a zero cursor entry, or rewriting the present one, changes nothing. */
  lemma TouchKeepsCursors(w: World, revealed: set<NodeId>, cursor: Cursors, parentId: NodeId)
    requires CursorsAreExact(w, revealed, cursor)
    ensures CursorsAreExact(w, revealed, cursor[parentId := CursorOf(cursor, parentId)])
  {
    var cursor' := cursor[parentId := CursorOf(cursor, parentId)];
    assert forall q: NodeId {:trigger CursorOf(cursor', q)} :: CursorOf(cursor', q) == CursorOf(cursor, q);
  }

  lemma RevealKeepsBest(e: Engine, w: World, revealed: set<NodeId>, best: NodeId, bestScore: NodeScore, child: NodeId)
    requires revealed <= w.nodes.Keys && child in w.nodes && IsBest(e, w, revealed, best, bestScore)
    requires Score(e.evaluator, w.nodes[child].outcome).Ok?
    ensures var score := Score(e.evaluator, w.nodes[child].outcome).value;
            var better := IsBetter(score, bestScore);
            IsBest(e, w, revealed + {child}, if better then child else best, if better then score else bestScore)
  {
    var score := Score(e.evaluator, w.nodes[child].outcome).value;
    forall q | q in revealed && IsBetter(score, bestScore)
      ensures !IsBetter(Score(e.evaluator, w.nodes[q].outcome).value, score)
    {
      BetterIsAWeakOrder(Score(e.evaluator, w.nodes[q].outcome).value, bestScore, score);
      BetterIsAWeakOrder(score, bestScore, Score(e.evaluator, w.nodes[q].outcome).value);
    }
  }

  ghost function Listed(ids: seq<NodeId>): set<NodeId> {
    if ids == [] then {} else Listed(ids[..|ids| - 1]) + {ids[|ids| - 1]}
  }

  /** Every node the trace reports as revealed, and the root. */
  ghost function RevealedBy(rootId: NodeId, trace: seq<ReplayStep>): set<NodeId> {
    if trace == [] then {rootId}
    else RevealedBy(rootId, trace[..|trace| - 1]) + Listed(trace[|trace| - 1].revealedNodes)
  }

  ghost predicate Expanding(e: Engine, w: World, x: Expansion) {
    Explored(e, w, x.p) && x.p.revealed == RevealedBy(w.rootId, x.p.trace) + Listed(x.newly)
  }

  /** `x'` is `x` after the next child of `parentId` was revealed and paid for. */
  ghost predicate Reveals(e: Engine, w: World, x: Expansion, parentId: NodeId, x': Expansion) {
    var c := CursorOf(x.p.cursor, parentId);
    && c < |Children(w, parentId)|
    && var child := Children(w, parentId)[c];
       && child in w.nodes && child !in x.p.revealed
       && Score(e.evaluator, w.nodes[child].outcome).Ok?
       && var score := Score(e.evaluator, w.nodes[child].outcome).value;
          var better := IsBetter(score, x.p.bestScore);
          && x'.p.revealed == x.p.revealed + {child}
          && x'.p.cursor == x.p.cursor[parentId := c + 1]
          && x'.p.cost == SaturatingAdd64(x.p.cost, w.nodes[child].outcome.costUnits) <= e.config.maxCostUnits
          && x'.p.best == (if better then child else x.p.best)
          && x'.p.bestScore == (if better then score else x.p.bestScore)
          && x'.p.trace == x.p.trace
          && x'.newly == x.newly + [child]
  }

  lemma ExpandOneReveals(e: Engine, w: World, x: Expansion, parentId: NodeId)
    requires Explored(e, w, x.p) && parentId in x.p.revealed && !x.budgetHit
    requires CursorOf(x.p.cursor, parentId) < |Children(w, parentId)|
    requires ExpandOne(e, w, x, parentId).Ok? && !ExpandOne(e, w, x, parentId).value.budgetHit
    ensures Reveals(e, w, x, parentId, ExpandOne(e, w, x, parentId).value)
  {
    RevealKeepsCursors(w, x.p.revealed, x.p.cursor, parentId);
  }

  lemma RevealKeepsExplored(e: Engine, w: World, x: Expansion, parentId: NodeId, x': Expansion)
    requires Explored(e, w, x.p) && parentId in x.p.revealed && Reveals(e, w, x, parentId, x')
    ensures Explored(e, w, x'.p)
  {
    var p := x.p;
    var child := Children(w, parentId)[CursorOf(p.cursor, parentId)];
    RevealKeepsCursors(w, p.revealed, p.cursor, parentId);
    TotalCostAdd(w, p.revealed, child);
    RevealKeepsBest(e, w, p.revealed, p.best, p.bestScore, child);
  }

  lemma RevealKeepsExpanding(e: Engine, w: World, x: Expansion, parentId: NodeId, x': Expansion)
    requires Expanding(e, w, x) && parentId in x.p.revealed && Reveals(e, w, x, parentId, x')
    ensures Expanding(e, w, x') && x.p.revealed <= x'.p.revealed && |x'.p.revealed| == |x.p.revealed| + 1
  {
    var child := Children(w, parentId)[CursorOf(x.p.cursor, parentId)];
    RevealKeepsExplored(e, w, x, parentId, x');
    assert x'.newly[..|x'.newly| - 1] == x.newly;
    assert Listed(x'.newly) == Listed(x.newly) + {child};
  }

  lemma ExpandOneKeepsExpanding(e: Engine, w: World, x: Expansion, parentId: NodeId)
    requires Expanding(e, w, x) && parentId in x.p.revealed && ExpandOne(e, w, x, parentId).Ok?
    ensures var x' := ExpandOne(e, w, x, parentId).value;
            && Expanding(e, w, x') && x.p.revealed <= x'.p.revealed
            && (!x'.budgetHit && CursorOf(x.p.cursor, parentId) < |Children(w, parentId)| ==>
                  |x'.p.revealed| == |x.p.revealed| + 1)
  {
    var x', c := ExpandOne(e, w, x, parentId).value, CursorOf(x.p.cursor, parentId);
    if !x.budgetHit {
      if c < |Children(w, parentId)| && !x'.budgetHit {
        ExpandOneReveals(e, w, x, parentId);
        RevealKeepsExpanding(e, w, x, parentId, x');
      } else {
        TouchKeepsCursors(w, x.p.revealed, x.p.cursor, parentId);
        assert x'.p == x.p.(cursor := x.p.cursor[parentId := c]) && x'.newly == x.newly;
      }
    }
  }

  lemma {:induction false} ExpandAllKeepsExpanding(e: Engine, w: World, x: Expansion, parents: seq<NodeId>)
    requires Expanding(e, w, x) && ExpandAll(e, w, x, parents).Ok?
    requires forall i :: 0 <= i < |parents| ==> parents[i] in x.p.revealed
    ensures var x' := ExpandAll(e, w, x, parents).value;
            && Expanding(e, w, x') && x.p.revealed <= x'.p.revealed
            && (!x'.budgetHit && parents != [] && CursorOf(x.p.cursor, parents[0]) < |Children(w, parents[0])| ==>
                  |x'.p.revealed| > |x.p.revealed|)
  {
    if parents != [] {
      var front, last := parents[..|parents| - 1], parents[|parents| - 1];
      ExpandAllKeepsExpanding(e, w, x, front);
      var y := ExpandAll(e, w, x, front).value;
      ExpandOneKeepsExpanding(e, w, y, last);
      SubsetSize(x.p.revealed, y.p.revealed);
      SubsetSize(y.p.revealed, ExpandAll(e, w, x, parents).value.p.revealed);
    }
  }

  // ---------------------------------------------------------------- candidates

  ghost predicate Expandable(w: World, revealed: set<NodeId>, cursor: Cursors, id: NodeId) {
    id in revealed && CursorOf(cursor, id) < |Children(w, id)|
  }

  lemma CandidateForFacts(e: Engine, w: World, p: Progress, id: NodeId)
    requires IsTree(w) && Explored(e, w, p) && id in p.revealed
    ensures var r := CandidateFor(e, w, id, p.cursor);
            && r.Ok?
            && (r.value.Some? <==> Expandable(w, p.revealed, p.cursor, id))
            && (r.value.Some? ==> r.value.value.nodeId == id)
  {
    var k := EveryNodeIsRooted(w, id);
    DepthIsGeneration(w, id, k);
    assert Score(e.evaluator, w.nodes[id].outcome).Ok?;
  }

  /** Over ids whose candidate never fails and exists exactly for the good ones, the candidates
      are good, and there are some if any id is good. */
  lemma {:induction false} CandidatesAreGood(e: Engine, w: World, cursor: Cursors, ids: seq<NodeId>, good: NodeId -> bool)
    requires forall i {:trigger ids[i]} :: 0 <= i < |ids| ==>
               var r := CandidateFor(e, w, ids[i], cursor);
               r.Ok? && (r.value.Some? <==> good(ids[i])) && (r.value.Some? ==> r.value.value.nodeId == ids[i])
    ensures var r := CandidatesOf(e, w, ids, cursor);
            && r.Ok?
            && (forall k :: 0 <= k < |r.value| ==> good(r.value[k].nodeId))
            && (forall i :: 0 <= i < |ids| && good(ids[i]) ==> r.value != [])
  {
    if ids != [] {
      var front := ids[..|ids| - 1];
      assert forall i {:trigger front[i]} :: 0 <= i < |front| ==> front[i] == ids[i];
      CandidatesAreGood(e, w, cursor, front, good);
      assert ids[|ids| - 1] == ids[|front|];
    }
  }

  /** In an explored tree the candidates never fail, and they are the revealed nodes with an
      unrevealed child. */
  lemma CandidatesAreExpandable(e: Engine, w: World, p: Progress, ids: seq<NodeId>)
    requires IsTree(w) && Explored(e, w, p)
    requires forall i :: 0 <= i < |ids| ==> ids[i] in p.revealed
    ensures var r := CandidatesOf(e, w, ids, p.cursor);
            && r.Ok?
            && (forall k :: 0 <= k < |r.value| ==> Expandable(w, p.revealed, p.cursor, r.value[k].nodeId))
            && (forall i :: 0 <= i < |ids| && Expandable(w, p.revealed, p.cursor, ids[i]) ==> r.value != [])
  {
    var good := (id: NodeId) => Expandable(w, p.revealed, p.cursor, id);
    forall i {:trigger ids[i]} | 0 <= i < |ids|
      ensures var r := CandidateFor(e, w, ids[i], p.cursor);
              r.Ok? && (r.value.Some? <==> good(ids[i])) && (r.value.Some? ==> r.value.value.nodeId == ids[i])
    {
      CandidateForFacts(e, w, p, ids[i]);
    }
    CandidatesAreGood(e, w, p.cursor, ids, good);
  }

  lemma PolicyCandidatesFacts(e: Engine, w: World, p: Progress)
    requires IsTree(w) && Explored(e, w, p)
    ensures var r := PolicyCandidates(e, w, p);
            && r.Ok?
            && (forall k :: 0 <= k < |r.value| ==> Expandable(w, p.revealed, p.cursor, r.value[k].nodeId))
            && (r.value == [] <==> forall q :: q in p.revealed ==> !Expandable(w, p.revealed, p.cursor, q))
  {
    SortedFacts(p.revealed, IdLeq);
    CandidatesAreExpandable(e, w, p, Sorted(p.revealed, IdLeq));
    forall q | q in p.revealed && Expandable(w, p.revealed, p.cursor, q)
      ensures PolicyCandidates(e, w, p).value != []
    {
      var i := RankOf(p.revealed, IdLeq, q);
    }
    if PolicyCandidates(e, w, p).value != [] {
      assert Expandable(w, p.revealed, p.cursor, PolicyCandidates(e, w, p).value[0].nodeId);
    }
  }

  /** With nothing left to expand, every node of the tree has been revealed. */
  lemma {:induction false} NothingLeftMeansAllRevealed(w: World, revealed: set<NodeId>, cursor: Cursors, id: NodeId, k: nat)
    requires IsTree(w) && w.rootId in revealed && CursorsAreExact(w, revealed, cursor)
    requires forall q :: q in revealed ==> !Expandable(w, revealed, cursor, q)
    requires RootedAt(w, id, k)
    ensures id in revealed
    decreases k
  {
    if id != w.rootId {
      DepthIsGeneration(w, id, k);
      var parentId := w.nodes[id].parentId.value;
      NothingLeftMeansAllRevealed(w, revealed, cursor, parentId, k - 1);
      var i := ChildPlace(w, id);
      assert !Expandable(w, revealed, cursor, parentId);
    }
  }

  lemma ExhaustedMeansAllRevealed(e: Engine, w: World, p: Progress)
    requires IsTree(w) && Explored(e, w, p)
    ensures PolicyCandidates(e, w, p).Ok?
    ensures PolicyCandidates(e, w, p).value == [] <==> p.revealed == w.nodes.Keys
  {
    PolicyCandidatesFacts(e, w, p);
    if PolicyCandidates(e, w, p).value == [] {
      forall id | id in w.nodes ensures id in p.revealed {
        var k := EveryNodeIsRooted(w, id);
        NothingLeftMeansAllRevealed(w, p.revealed, p.cursor, id, k);
      }
    }
    if p.revealed == w.nodes.Keys {
      forall q | q in p.revealed ensures !Expandable(w, p.revealed, p.cursor, q) {
        ChildrenFacts(w, q);
        var kids := Children(w, q);
        if kids != [] {
          assert kids[|kids| - 1] in p.revealed;
        }
      }
    }
  }

  // ---------------------------------------------------------------- whole replays

  /** What holds of the progress before every round, and (weaker on the round count) after
      a round that hit the budget. */
  ghost predicate Settled(e: Engine, w: World, p: Progress) {
    && Explored(e, w, p)
    && p.revealed == RevealedBy(w.rootId, p.trace)
    && |p.trace| == p.round <= e.config.maxRounds
    && p.round < |w.nodes|
  }

  lemma SelectedAreExpandable(e: Engine, w: World, p: Progress, expand: seq<NodeId>)
    requires IsTree(w) && Explored(e, w, p) && PolicyCandidates(e, w, p).Ok?
    requires FirstIneligible(PolicyCandidates(e, w, p).value, expand).None?
    ensures forall i :: 0 <= i < |expand| ==> Expandable(w, p.revealed, p.cursor, expand[i])
  {
    var candidates := PolicyCandidates(e, w, p).value;
    PolicyCandidatesFacts(e, w, p);
    EligibleAreOffered(candidates, expand);
    forall i | 0 <= i < |expand| ensures Expandable(w, p.revealed, p.cursor, expand[i]) {
      assert IsOffered(candidates, expand[i]);
      var k :| 0 <= k < |candidates| && candidates[k].nodeId == expand[i];
    }
  }

  /** An expandable node still hides a child, so the tree is larger than what is revealed. */
  lemma ExpandableMeansMore(w: World, revealed: set<NodeId>, cursor: Cursors, id: NodeId)
    requires revealed <= w.nodes.Keys && CursorsAreExact(w, revealed, cursor)
    requires Expandable(w, revealed, cursor, id)
    ensures |revealed| < |w.nodes|
  {
    ChildrenFacts(w, id);
    var child := Children(w, id)[CursorOf(cursor, id)];
    assert child in w.nodes.Keys && child !in revealed;
    SubsetSize(revealed, w.nodes.Keys);
  }

  /** Closing a round records it in the trace. */
  lemma ClosedIsSettled(e: Engine, w: World, p: Progress, x: Expansion, expand: seq<NodeId>)
    requires Settled(e, w, p) && Expanding(e, w, x) && p.round < e.config.maxRounds
    requires x.p.trace == p.trace && x.p.round == p.round + 1 && x.p.round < |w.nodes|
    ensures Settled(e, w, CloseRound(p.best, x, expand))
  {
    var next := CloseRound(p.best, x, expand);
    assert next.trace[..|next.trace| - 1] == p.trace;
  }

  lemma RoundKeepsSettled(e: Engine, w: World, p: Progress, expand: seq<NodeId>)
    requires IsTree(w) && Settled(e, w, p) && |p.revealed| > p.round && p.round < e.config.maxRounds
    requires PolicyCandidates(e, w, p).Ok? && expand != []
    requires FirstIneligible(PolicyCandidates(e, w, p).value, expand).None?
    requires ExpandAll(e, w, OpenRound(p), expand).Ok?
    ensures var x := ExpandAll(e, w, OpenRound(p), expand).value;
            var next := CloseRound(p.best, x, expand);
            Settled(e, w, next) && (!x.budgetHit ==> |next.revealed| > next.round)
  {
    SelectedAreExpandable(e, w, p, expand);
    ExpandableMeansMore(w, p.revealed, p.cursor, expand[0]);
    ExpandAllKeepsRound(e, w, OpenRound(p), expand);
    ExpandAllKeepsExpanding(e, w, OpenRound(p), expand);
    ClosedIsSettled(e, w, p, ExpandAll(e, w, OpenRound(p), expand).value, expand);
  }

  lemma {:induction false} EligibleAreOffered(candidates: seq<Candidate>, expand: seq<NodeId>)
    requires FirstIneligible(candidates, expand).None?
    ensures forall i :: 0 <= i < |expand| ==> IsOffered(candidates, expand[i])
  {
    if expand != [] {
      EligibleAreOffered(candidates, expand[1..]);
    }
  }

  lemma {:induction false} RunKeepsSettled(e: Engine, w: World, policy: Policy, p: Progress)
    requires IsTree(w) && Settled(e, w, p) && |p.revealed| > p.round
    ensures RunFrom(e, w, policy, p).Ok? ==> Settled(e, w, RunFrom(e, w, policy, p).value)
    decreases e.config.maxRounds - p.round
  {
    if p.round < e.config.maxRounds && p.cost < e.config.maxCostUnits {
      PolicyCandidatesFacts(e, w, p);
      var candidates := PolicyCandidates(e, w, p).value;
      if candidates != [] {
        var action := policy(ViewOf(e, p, candidates));
        if !action.stop && action.expand != [] && FirstIneligible(candidates, action.expand).None?
           && ExpandAll(e, w, OpenRound(p), action.expand).Ok? {
          RoundKeepsSettled(e, w, p, action.expand);
          ExpandAllKeepsRound(e, w, OpenRound(p), action.expand);
          var x := ExpandAll(e, w, OpenRound(p), action.expand).value;
          if !x.budgetHit {
            RunKeepsSettled(e, w, policy, CloseRound(p.best, x, action.expand));
          }
        }
      }
    }
  }

  ghost predicate ParentClosed(w: World, revealed: set<NodeId>) {
    forall id :: id in revealed && id in w.nodes && w.nodes[id].parentId.Some? ==> w.nodes[id].parentId.value in revealed
  }

  lemma CursorsGiveParents(w: World, revealed: set<NodeId>, cursor: Cursors)
    requires revealed <= w.nodes.Keys && CursorsAreExact(w, revealed, cursor)
    ensures ParentClosed(w, revealed)
  {
    forall id | id in revealed && w.nodes[id].parentId.Some? ensures w.nodes[id].parentId.value in revealed {
      var i := ChildPlace(w, id);
      assert CursorOf(cursor, w.nodes[id].parentId.value) > i;
    }
  }

  ghost predicate PrefixesRevealed(w: World, revealed: set<NodeId>) {
    exists cursor: Cursors :: CursorsAreExact(w, revealed, cursor)
  }

  /** Main result: any finished replay, under any policy whatsoever, has revealed a
      parent-closed set in which each node's revealed children are a prefix of its sorted
      children; it paid exactly their (saturated) cost, within the budget unless the root
      alone exceeded it; it took fewer rounds than the tree has nodes; no revealed node beats
      its best one; and it reports the history exhausted exactly when it revealed the tree. */
  lemma ReplayGuarantees(e: Engine, w: World, policy: Policy)
    requires Replayed(e, w, policy).Ok?
    ensures IsTree(w)
    ensures var r := Replayed(e, w, policy).value;
            var revealed := RevealedBy(w.rootId, r.trace);
            && w.rootId in revealed && revealed <= w.nodes.Keys
            && ParentClosed(w, revealed) && PrefixesRevealed(w, revealed)
            && r.revealedNodes == |revealed|
            && r.costUnits == Min(U64_MAX, TotalCost(w, revealed))
            && (r.costUnits <= e.config.maxCostUnits || r.costUnits == w.nodes[w.rootId].outcome.costUnits)
            && r.decisionRounds == |r.trace| <= e.config.maxRounds
            && r.decisionRounds < |w.nodes|
            && IsBest(e, w, revealed, r.bestNodeId, r.bestScore)
            && (r.historyExhausted <==> revealed == w.nodes.Keys)
  {
    ValidateAcceptsTrees(w);
    var score := Score(e.evaluator, w.nodes[w.rootId].outcome).value;
    var start := Start(w, score);
    StartIsSettled(e, w, score);
    RunKeepsSettled(e, w, policy, start);
    var p := RunFrom(e, w, policy, start).value;
    CursorsGiveParents(w, p.revealed, p.cursor);
    ExhaustedMeansAllRevealed(e, w, p);
  }

  lemma StartIsSettled(e: Engine, w: World, score: NodeScore)
    requires IsTree(w) && Score(e.evaluator, w.nodes[w.rootId].outcome) == Ok(score)
    ensures Settled(e, w, Start(w, score)) && |Start(w, score).revealed| > 0
  {
    var p := Start(w, score);
    forall q: NodeId, i | 0 <= i < |Children(w, q)| ensures Children(w, q)[i] in p.revealed <==> i < CursorOf(p.cursor, q) {
      ChildrenFacts(w, q);
    }
    assert {} + {w.rootId} == {w.rootId};
    TotalCostAdd(w, {}, w.rootId);
    SubsetSize({w.rootId}, w.nodes.Keys);
  }

  /** Some recorded experiment cannot be scored. */
  ghost predicate HasUnscored(e: Engine, w: World) {
    exists id :: id in w.nodes && Score(e.evaluator, w.nodes[id].outcome).Err?
  }

  /** The tree is invalid, an experiment in it cannot be scored, or the policy named a node that it
      was not offered. */
  ghost predicate HasCause(e: Engine, w: World, policy: Policy, error: ReplayError) {
    match error
    case WorldFailed(_) => !IsTree(w)
    case EvaluationFailed(_) => HasUnscored(e, w)
    case IneligibleAction(_) => !Obedient(policy)
  }

  lemma {:induction false} RunFailsForCause(e: Engine, w: World, policy: Policy, p: Progress)
    requires IsTree(w) && Settled(e, w, p) && |p.revealed| > p.round
    ensures RunFrom(e, w, policy, p).Err? ==> HasCause(e, w, policy, RunFrom(e, w, policy, p).error)
    decreases e.config.maxRounds - p.round
  {
    if p.round < e.config.maxRounds && p.cost < e.config.maxCostUnits {
      PolicyCandidatesFacts(e, w, p);
      var candidates := PolicyCandidates(e, w, p).value;
      if candidates != [] {
        var view := ViewOf(e, p, candidates);
        var action := policy(view);
        if !action.stop && action.expand != [] {
          if Obedient(policy) {
            ObedientIsEligible(candidates, action.expand, policy, view, 0);
          }
          if FirstIneligible(candidates, action.expand).None? {
            RoundFailsForCause(e, w, policy, p, action.expand);
          }
        }
      }
    }
  }

  lemma {:induction false} RoundFailsForCause(e: Engine, w: World, policy: Policy, p: Progress, expand: seq<NodeId>)
    requires IsTree(w) && Settled(e, w, p) && |p.revealed| > p.round && p.round < e.config.maxRounds
    requires PolicyCandidates(e, w, p).Ok? && expand != []
    requires FirstIneligible(PolicyCandidates(e, w, p).value, expand).None?
    ensures ExpandAll(e, w, OpenRound(p), expand).Err? ==>
              HasCause(e, w, policy, ExpandAll(e, w, OpenRound(p), expand).error)
    ensures ExpandAll(e, w, OpenRound(p), expand).Ok? && !ExpandAll(e, w, OpenRound(p), expand).value.budgetHit ==>
              var next := CloseRound(p.best, ExpandAll(e, w, OpenRound(p), expand).value, expand);
              RunFrom(e, w, policy, next).Err? ==> HasCause(e, w, policy, RunFrom(e, w, policy, next).error)
    decreases e.config.maxRounds - p.round, 0
  {
    var r := ExpandAll(e, w, OpenRound(p), expand);
    if r.Err? {
      ExpandAllErrors(e, w, OpenRound(p), expand);
    } else {
      RoundKeepsSettled(e, w, p, expand);
      ExpandAllKeepsRound(e, w, OpenRound(p), expand);
      if !r.value.budgetHit {
        RunFailsForCause(e, w, policy, CloseRound(p.best, r.value, expand));
      }
    }
  }

  lemma {:induction false} ObedientIsEligible(candidates: seq<Candidate>, expand: seq<NodeId>, policy: Policy,
                                                view: PolicyView, k: nat)
    requires Obedient(policy) && view.candidates == candidates
    requires k <= |policy(view).expand| && expand == policy(view).expand[k..]
    ensures FirstIneligible(candidates, expand).None?
    decreases |expand|
  {
    if expand != [] {
      assert Offered(view.candidates, policy(view).expand[k]);
      ObedientIsEligible(candidates, expand[1..], policy, view, k + 1);
    }
  }

  lemma {:induction false} ExpandAllErrors(e: Engine, w: World, x: Expansion, parents: seq<NodeId>)
    ensures ExpandAll(e, w, x, parents).Err? ==>
              ExpandAll(e, w, x, parents).error.EvaluationFailed? && HasUnscored(e, w)
  {
    if parents != [] {
      var front, last := parents[..|parents| - 1], parents[|parents| - 1];
      ExpandAllErrors(e, w, x, front);
      if ExpandAll(e, w, x, front).Ok? {
        ExpandOneErrors(e, w, ExpandAll(e, w, x, front).value, last);
      }
    }
  }

  lemma ExpandOneErrors(e: Engine, w: World, x: Expansion, parentId: NodeId)
    ensures ExpandOne(e, w, x, parentId).Err? ==>
              ExpandOne(e, w, x, parentId).error.EvaluationFailed? && HasUnscored(e, w)
  {
    var kids, c := Children(w, parentId), CursorOf(x.p.cursor, parentId);
    ChildrenFacts(w, parentId);
    if c < |kids| && Score(e.evaluator, w.nodes[kids[c]].outcome).Err? {
      assert HasUnscored(e, w);
    }
  }

  /** A replay fails only for cause, and with the world's error exactly on an invalid tree; so on
      a valid tree of scored experiments every policy that expands only what it was offered is
      replayed to the end. */
  lemma ReplayFailsForCause(e: Engine, w: World, policy: Policy)
    ensures Replayed(e, w, policy).Err? ==> HasCause(e, w, policy, Replayed(e, w, policy).error)
    ensures !IsTree(w) <==> Replayed(e, w, policy).Err? && Replayed(e, w, policy).error.WorldFailed?
    ensures IsTree(w) && !HasUnscored(e, w) && Obedient(policy) ==> Replayed(e, w, policy).Ok?
  {
    ValidateAcceptsTrees(w);
    if IsTree(w) {
      var rootScore := Score(e.evaluator, w.nodes[w.rootId].outcome);
      if rootScore.Err? {
        assert HasUnscored(e, w);
      } else {
        StartIsSettled(e, w, rootScore.value);
        RunFailsForCause(e, w, policy, Start(w, rootScore.value));
        RunKeepsSettled(e, w, policy, Start(w, rootScore.value));
        var end := RunFrom(e, w, policy, Start(w, rootScore.value));
        if end.Ok? {
          PolicyCandidatesFacts(e, w, end.value);
        }
      }
    }
  }

  /** With the linear policy the ineligible-action error never occurs. */
  lemma LinearReplayIsNeverIneligible(e: Engine, w: World, config: PolicyConfig, policy: Policy)
    requires forall view: PolicyView :: policy(view) == LinearAction(config, view)
    ensures Obedient(policy)
    ensures Replayed(e, w, policy).Err? ==> !Replayed(e, w, policy).error.IneligibleAction?
  {
    forall view: PolicyView, k | 0 <= k < |policy(view).expand|
      ensures Offered(view.candidates, policy(view).expand[k])
    {
      LinearActionIsObedient(config, view, k);
    }
    ReplayFailsForCause(e, w, policy);
  }
}
