/** The stored discovery tree: experiments linked to the node they were derived from.
    Node and variant ids (128-bit UUIDs) are naturals ordered as the UUIDs are. */
module DiscoveryWorld {
  import opened Common
  import opened OrderedSet

  type NodeId = nat

  datatype Variant = Variant(variantId: nat, parentVariantId: Option<nat>, generation: u32)

  datatype Metrics = Metrics(netReturnPct: real, sharpe: real, maxDrawdownPct: real, trades: nat,
                             turnover: real, executionCostBps: real)

  datatype Outcome = Outcome(success: bool, metrics: Metrics, costUnits: u64)

  datatype Node = Node(parentId: Option<NodeId>, variant: Variant, outcome: Outcome, createdSeq: nat)

  datatype WorldError =
    | MissingNode(id: NodeId)
    | VariantParentMismatch(parentNodeId: NodeId, expectedVariant: nat, actualVariant: Option<nat>)
    | GenerationMismatch(parentNodeId: NodeId, expected: u32, actual: u32)
    | Cycle(id: NodeId)
    | CorruptTree

  /** A tree as a value. */
  datatype World = World(rootId: NodeId, nodes: map<NodeId, Node>)

  predicate IdLeq(a: NodeId, b: NodeId) {
    a <= b
  }

  // ---------------------------------------------------------------- the source's queries

  function ValidateChild(w: World, parentId: NodeId, variant: Variant): Option<WorldError> {
    if parentId !in w.nodes then Some(MissingNode(parentId))
    else
      var parent := w.nodes[parentId].variant;
      if variant.parentVariantId != Some(parent.variantId) then
        Some(VariantParentMismatch(parentId, parent.variantId, variant.parentVariantId))
      else if variant.generation != SaturatingInc32(parent.generation) then
        Some(GenerationMismatch(parentId, SaturatingInc32(parent.generation), variant.generation))
      else None
  }

  /** The walk towards the root, refusing to visit a node twice. */
  ghost function Walk(w: World, current: NodeId, seen: set<NodeId>, depth: u32): Result<u32, WorldError>
    decreases w.nodes.Keys - seen
  {
    if current in seen then Err(Cycle(current))
    else if current !in w.nodes then Err(MissingNode(current))
    else
      match w.nodes[current].parentId
      case None => Ok(depth)
      case Some(p) => Walk(w, p, seen + {current}, SaturatingInc32(depth))
  }

  ghost function DepthOf(w: World, id: NodeId): Result<u32, WorldError> {
    Walk(w, id, {}, 0)
  }

  ghost function CheckNode(w: World, id: NodeId): Option<WorldError>
    requires id in w.nodes
  {
    if id == w.rootId then None
    else if w.nodes[id].parentId.None? then Some(CorruptTree)
    else
      var bad := ValidateChild(w, w.nodes[id].parentId.value, w.nodes[id].variant);
      if bad.Some? then bad
      else if DepthOf(w, id).Err? then Some(DepthOf(w, id).error)
      else None
  }

  ghost function CheckNodes(w: World, ids: seq<NodeId>): Option<WorldError>
    requires forall i :: 0 <= i < |ids| ==> ids[i] in w.nodes
  {
    if ids == [] then None
    else if CheckNode(w, ids[0]).Some? then CheckNode(w, ids[0])
    else CheckNodes(w, ids[1..])
  }

  function Ids(w: World): seq<NodeId> {
    Sorted(w.nodes.Keys, IdLeq)
  }

  ghost function Validation(w: World): Option<WorldError> {
    if w.nodes == map[] then Some(CorruptTree)
    else if w.rootId !in w.nodes then Some(MissingNode(w.rootId))
    else
      var root := w.nodes[w.rootId];
      if root.parentId.Some? || root.variant.parentVariantId.Some? || root.variant.generation != 0 then
        Some(CorruptTree)
      else
        SortedFacts(w.nodes.Keys, IdLeq);
        CheckNodes(w, Ids(w))
  }

  /** Children in the order they were recorded. */
  predicate RecordedBefore(w: World, a: NodeId, b: NodeId) {
    if a in w.nodes && b in w.nodes && w.nodes[a].createdSeq != w.nodes[b].createdSeq
    then w.nodes[a].createdSeq < w.nodes[b].createdSeq
    else a <= b
  }

  function ChildSet(w: World, parentId: NodeId): set<NodeId> {
    set id | id in w.nodes && w.nodes[id].parentId == Some(parentId)
  }

  function Children(w: World, parentId: NodeId): seq<NodeId> {
    Sorted(ChildSet(w, parentId), (a, b) => RecordedBefore(w, a, b))
  }

  function Added(w: World, parentId: NodeId, variant: Variant, outcome: Outcome, nodeId: NodeId): World {
    w.(nodes := w.nodes[nodeId := Node(Some(parentId), variant, outcome, |w.nodes|)])
  }

  // ---------------------------------------------------------------- the tree as an object

  class DiscoveryTree {
    const treeId: nat
    const rootId: NodeId
    var nodes: map<NodeId, Node>

    function Value(): World
      reads this
    {
      World(rootId, nodes)
    }

    /** The fresh root UUID is a parameter. */
    constructor WithId(treeId: nat, rootId: NodeId, rootVariant: Variant, rootOutcome: Outcome)
      ensures this.treeId == treeId
      ensures Value() == World(rootId, map[rootId := Node(None, rootVariant, rootOutcome, 0)])
    {
      this.treeId := treeId;
      this.rootId := rootId;
      nodes := map[rootId := Node(None, rootVariant, rootOutcome, 0)];
    }

    /** The fresh node UUID is a parameter. */
    method Append(parentId: NodeId, variant: Variant, outcome: Outcome, nodeId: NodeId)
      returns (r: Result<NodeId, WorldError>)
      modifies this
      ensures var bad := ValidateChild(old(Value()), parentId, variant);
              if bad.Some? then r == Err(bad.value) && Value() == old(Value())
              else r == Ok(nodeId) && Value() == Added(old(Value()), parentId, variant, outcome, nodeId)
    {
      var bad := ValidateChild(Value(), parentId, variant);
      if bad.Some? {
        return Err(bad.value);
      }
      nodes := nodes[nodeId := Node(Some(parentId), variant, outcome, |nodes|)];
      return Ok(nodeId);
    }

    method Depth(nodeId: NodeId) returns (r: Result<u32, WorldError>)
      ensures r == DepthOf(Value(), nodeId)
    {
      var depth: u32 := 0;
      var current := nodeId;
      var seen: set<NodeId> := {};
      while true
        invariant Walk(Value(), current, seen, depth) == DepthOf(Value(), nodeId)
        decreases nodes.Keys - seen
      {
        if current in seen {
          return Err(Cycle(current));
        }
        seen := seen + {current};
        if current !in nodes {
          return Err(MissingNode(current));
        }
        match nodes[current].parentId
        case Some(parentId) =>
          depth := SaturatingInc32(depth);
          current := parentId;
        case None => return Ok(depth);
      }
    }

    method Validate() returns (r: Option<WorldError>)
      ensures r == Validation(Value())
    {
      if nodes == map[] {
        return Some(CorruptTree);
      }
      if rootId !in nodes {
        return Some(MissingNode(rootId));
      }
      var root := nodes[rootId];
      if root.parentId.Some? || root.variant.parentVariantId.Some? || root.variant.generation != 0 {
        return Some(CorruptTree);
      }
      var ids := Ids(Value());
      SortedFacts(nodes.Keys, IdLeq);
      for i := 0 to |ids|
        invariant CheckNodes(Value(), ids[i..]) == CheckNodes(Value(), ids)
      {
        var node := nodes[ids[i]];
        if ids[i] == rootId {
          continue;
        }
        if node.parentId.None? {
          return Some(CorruptTree);
        }
        var bad := ValidateChild(Value(), node.parentId.value, node.variant);
        if bad.Some? {
          return bad;
        }
        var depth := Depth(ids[i]);
        if depth.Err? {
          return Some(depth.error);
        }
      }
      return None;
    }
  }

  // ---------------------------------------------------------------- what a depth means

  /** `id` is exactly `k` parent links away from a parentless node. */
  ghost predicate RootedAt(w: World, id: NodeId, k: nat)
    decreases k
  {
    id in w.nodes &&
    match w.nodes[id].parentId
    case None => k == 0
    case Some(p) => k > 0 && RootedAt(w, p, k - 1)
  }

  ghost predicate Rooted(w: World, id: NodeId) {
    exists k: nat :: RootedAt(w, id, k)
  }

  lemma {:induction false} RootedAtIsUnique(w: World, id: NodeId, j: nat, k: nat)
    requires RootedAt(w, id, j) && RootedAt(w, id, k)
    ensures j == k
    decreases j
  {
    if w.nodes[id].parentId.Some? {
      RootedAtIsUnique(w, w.nodes[id].parentId.value, j - 1, k - 1);
    }
  }

  lemma {:induction false} WalkOfRooted(w: World, current: NodeId, seen: set<NodeId>, depth: u32, k: nat)
    requires RootedAt(w, current, k)
    requires forall s, j: nat :: s in seen && j <= k ==> !RootedAt(w, s, j)
    ensures Walk(w, current, seen, depth) == Ok(Min(depth + k, U32_MAX))
    decreases k
  {
    if w.nodes[current].parentId.Some? {
      forall j: nat | j <= k - 1 ensures !RootedAt(w, current, j) {
        if RootedAt(w, current, j) { RootedAtIsUnique(w, current, j, k); }
      }
      WalkOfRooted(w, w.nodes[current].parentId.value, seen + {current}, SaturatingInc32(depth), k - 1);
    }
  }

  lemma {:induction false} RootedOfWalk(w: World, current: NodeId, seen: set<NodeId>, depth: u32) returns (k: nat)
    requires Walk(w, current, seen, depth).Ok?
    ensures RootedAt(w, current, k)
    decreases w.nodes.Keys - seen
  {
    match w.nodes[current].parentId
    case None => k := 0;
    case Some(p) =>
      k := RootedOfWalk(w, p, seen + {current}, SaturatingInc32(depth));
      k := k + 1;
  }

  /** `depth` answers `d` exactly when the node is some `k` links from a parentless node,
      and then `d` is `k` saturated at the u32 range; otherwise it reports an error. */
  lemma DepthMeansDistance(w: World, id: NodeId)
    ensures DepthOf(w, id).Ok? <==> Rooted(w, id)
    ensures forall k: nat :: RootedAt(w, id, k) ==> DepthOf(w, id) == Ok(Min(k, U32_MAX))
  {
    forall k: nat | RootedAt(w, id, k) ensures DepthOf(w, id) == Ok(Min(k, U32_MAX)) {
      WalkOfRooted(w, id, {}, 0, k);
    }
    if DepthOf(w, id).Ok? {
      var k := RootedOfWalk(w, id, {}, 0);
      assert RootedAt(w, id, k);
    }
  }

  // ---------------------------------------------------------------- what validate accepts

  ghost predicate LinkedToParent(w: World, id: NodeId)
    requires id in w.nodes
  {
    && w.nodes[id].parentId.Some?
    && w.nodes[id].parentId.value in w.nodes
    && var parent := w.nodes[w.nodes[id].parentId.value].variant;
       && w.nodes[id].variant.parentVariantId == Some(parent.variantId)
       && w.nodes[id].variant.generation == SaturatingInc32(parent.generation)
  }

  /** One parentless root of generation zero; every other node is linked to a parent in the
      tree and leads back to the root. */
  ghost predicate IsTree(w: World) {
    && w.rootId in w.nodes
    && w.nodes[w.rootId].parentId.None?
    && w.nodes[w.rootId].variant.parentVariantId.None?
    && w.nodes[w.rootId].variant.generation == 0
    && forall id :: id in w.nodes && id != w.rootId ==> LinkedToParent(w, id) && Rooted(w, id)
  }

  lemma CheckNodeMeaning(w: World, id: NodeId)
    requires id in w.nodes
    ensures CheckNode(w, id).None? <==> (id == w.rootId || (LinkedToParent(w, id) && Rooted(w, id)))
  {
    DepthMeansDistance(w, id);
  }

  lemma {:induction false} CheckNodesMeaning(w: World, ids: seq<NodeId>)
    requires forall i :: 0 <= i < |ids| ==> ids[i] in w.nodes
    ensures CheckNodes(w, ids).None? <==> forall i :: 0 <= i < |ids| ==> CheckNode(w, ids[i]).None?
  {
    if ids != [] {
      CheckNodesMeaning(w, ids[1..]);
      assert forall i :: 1 <= i < |ids| ==> ids[i] == ids[1..][i - 1];
    }
  }

  /** `validate` accepts exactly the trees. */
  lemma ValidateAcceptsTrees(w: World)
    ensures Validation(w).None? <==> IsTree(w)
  {
    SortedFacts(w.nodes.Keys, IdLeq);
    CheckNodesMeaning(w, Ids(w));
    forall id | id in w.nodes
      ensures CheckNode(w, id).None? <==> (id == w.rootId || (LinkedToParent(w, id) && Rooted(w, id)))
    {
      CheckNodeMeaning(w, id);
    }
    if w.nodes != map[] && w.rootId in w.nodes && CheckNodes(w, Ids(w)).None? {
      forall id | id in w.nodes ensures CheckNode(w, id).None? {
        var i := RankOf(w.nodes.Keys, IdLeq, id);
      }
    }
  }

  /** In a tree every node reaches the root in some number of links, and that number,
      saturated at the u32 range, is both its depth and its variant's generation. */
  lemma {:induction false} DepthIsGeneration(w: World, id: NodeId, k: nat)
    requires IsTree(w) && RootedAt(w, id, k)
    ensures DepthOf(w, id) == Ok(w.nodes[id].variant.generation)
    ensures w.nodes[id].variant.generation == Min(k, U32_MAX)
    ensures k == 0 <==> id == w.rootId
    decreases k
  {
    DepthMeansDistance(w, id);
    if id != w.rootId {
      assert LinkedToParent(w, id);
      DepthIsGeneration(w, w.nodes[id].parentId.value, k - 1);
    }
  }

  lemma EveryNodeIsRooted(w: World, id: NodeId) returns (k: nat)
    requires IsTree(w) && id in w.nodes
    ensures RootedAt(w, id, k)
  {
    if id == w.rootId {
      k := 0;
    } else {
      assert Rooted(w, id);
      k :| RootedAt(w, id, k);
    }
  }

  lemma {:induction false} RootedAtSurvives(w: World, w': World, id: NodeId, k: nat)
    requires RootedAt(w, id, k)
    requires forall n :: n in w.nodes ==> n in w'.nodes && w'.nodes[n] == w.nodes[n]
    ensures RootedAt(w', id, k)
    decreases k
  {
    if w.nodes[id].parentId.Some? {
      RootedAtSurvives(w, w', w.nodes[id].parentId.value, k - 1);
    }
  }

  /** Appending an accepted child under a fresh id gives a tree again. */
  lemma AppendKeepsTree(w: World, parentId: NodeId, variant: Variant, outcome: Outcome, nodeId: NodeId)
    requires IsTree(w) && nodeId !in w.nodes && ValidateChild(w, parentId, variant).None?
    ensures IsTree(Added(w, parentId, variant, outcome, nodeId))
  {
    var w' := Added(w, parentId, variant, outcome, nodeId);
    forall id | id in w'.nodes && id != w'.rootId ensures LinkedToParent(w', id) && Rooted(w', id) {
      if id == nodeId {
        var k := EveryNodeIsRooted(w, parentId);
        RootedAtSurvives(w, w', parentId, k);
        assert RootedAt(w', nodeId, k + 1);
      } else {
        assert LinkedToParent(w, id);
        var k := EveryNodeIsRooted(w, id);
        RootedAtSurvives(w, w', id, k);
      }
    }
  }

  /** Children are exactly the nodes naming this parent, each once, in recording order. */
  lemma ChildrenFacts(w: World, parentId: NodeId)
    ensures var kids := Children(w, parentId);
            && (forall i :: 0 <= i < |kids| ==> kids[i] in w.nodes && w.nodes[kids[i]].parentId == Some(parentId))
            && (forall i, j :: 0 <= i < j < |kids| ==> kids[i] != kids[j] && RecordedBefore(w, kids[i], kids[j]))
  {
    SortedFacts(ChildSet(w, parentId), (a, b) => RecordedBefore(w, a, b));
  }

  /** Which child is refused, and with which message. */
  lemma RefusedChild(w: World, parentId: NodeId, variant: Variant)
    ensures ValidateChild(w, parentId, variant) == Some(MissingNode(parentId)) <==> parentId !in w.nodes
    ensures parentId in w.nodes ==>
              var parent := w.nodes[parentId].variant;
              var generation := if parent.generation == U32_MAX then U32_MAX else parent.generation + 1;
              && (ValidateChild(w, parentId, variant).None?
                  <==> variant == Variant(variant.variantId, Some(parent.variantId), generation))
              && (variant.parentVariantId != Some(parent.variantId) ==>
                    ValidateChild(w, parentId, variant)
                    == Some(WorldError.VariantParentMismatch(
                              parentNodeId := parentId, expectedVariant := parent.variantId,
                              actualVariant := variant.parentVariantId)))
              && (variant.parentVariantId == Some(parent.variantId) && variant.generation != generation ==>
                    ValidateChild(w, parentId, variant)
                    == Some(WorldError.GenerationMismatch(
                              parentNodeId := parentId, expected := generation, actual := variant.generation)))
  {
  }

  /** Sequence numbers as `append` deals them out. */
  ghost predicate Numbered(w: World) {
    forall id :: id in w.nodes ==> w.nodes[id].createdSeq < |w.nodes|
  }

  /** An append records the child, with its variant and outcome, as the newest of its parent's
      children, and touches nothing else. */
  lemma AppendAddsTheNewestChild(w: World, parentId: NodeId, variant: Variant, outcome: Outcome, nodeId: NodeId)
    requires nodeId !in w.nodes && Numbered(w)
    ensures var w' := Added(w, parentId, variant, outcome, nodeId);
            && w'.rootId == w.rootId && w'.nodes.Keys == w.nodes.Keys + {nodeId} && Numbered(w')
            && (forall id :: id in w.nodes ==> w'.nodes[id] == w.nodes[id])
            && w'.nodes[nodeId].parentId == Some(parentId)
            && w'.nodes[nodeId].variant == variant && w'.nodes[nodeId].outcome == outcome
            && (forall q :: Children(w', q) == if q == parentId then Children(w, q) + [nodeId] else Children(w, q))
  {
    var w' := Added(w, parentId, variant, outcome, nodeId);
    assert w'.nodes.Keys == w.nodes.Keys + {nodeId};
    forall q ensures Children(w', q) == if q == parentId then Children(w, q) + [nodeId] else Children(w, q) {
      ChildrenAfterAppend(w, parentId, variant, outcome, nodeId, q);
    }
  }

  /** Exactly the children, in recording order. */
  ghost predicate ListsChildren(w: World, parentId: NodeId, listed: seq<NodeId>) {
    && (forall id :: id in listed <==> id in w.nodes && w.nodes[id].parentId == Some(parentId))
    && (forall i, j :: 0 <= i < j < |listed| ==> listed[i] != listed[j] && RecordedBefore(w, listed[i], listed[j]))
  }

  lemma ChildrenAreListed(w: World, parentId: NodeId)
    ensures ListsChildren(w, parentId, Children(w, parentId))
  {
    ChildrenFacts(w, parentId);
    forall id | id in w.nodes && w.nodes[id].parentId == Some(parentId) ensures id in Children(w, parentId) {
      var i := ChildPlace(w, id);
    }
  }

  lemma ListedAreChildren(w: World, parentId: NodeId, listed: seq<NodeId>)
    requires ListsChildren(w, parentId, listed)
    ensures Children(w, parentId) == listed
  {
    SortedIs(ChildSet(w, parentId), (a, b) => RecordedBefore(w, a, b), listed);
  }

  lemma NewestIsListed(w: World, parentId: NodeId, variant: Variant, outcome: Outcome, nodeId: NodeId, q: NodeId,
                       kids: seq<NodeId>)
    requires nodeId !in w.nodes && Numbered(w) && ListsChildren(w, q, kids)
    ensures ListsChildren(Added(w, parentId, variant, outcome, nodeId), q, if q == parentId then kids + [nodeId] else kids)
  {
    var w' := Added(w, parentId, variant, outcome, nodeId);
    forall i, j | 0 <= i < j < |kids| ensures RecordedBefore(w', kids[i], kids[j]) {
      assert kids[i] in kids && kids[j] in kids && RecordedBefore(w, kids[i], kids[j]);
    }
    forall i | 0 <= i < |kids| ensures kids[i] != nodeId && RecordedBefore(w', kids[i], nodeId) {
      assert kids[i] in kids;
    }
  }

  lemma ChildrenAfterAppend(w: World, parentId: NodeId, variant: Variant, outcome: Outcome, nodeId: NodeId, q: NodeId)
    requires nodeId !in w.nodes && Numbered(w)
    ensures Children(Added(w, parentId, variant, outcome, nodeId), q)
         == if q == parentId then Children(w, q) + [nodeId] else Children(w, q)
  {
    var kids := Children(w, q);
    ChildrenAreListed(w, q);
    NewestIsListed(w, parentId, variant, outcome, nodeId, q, kids);
    ListedAreChildren(Added(w, parentId, variant, outcome, nodeId), q, if q == parentId then kids + [nodeId] else kids);
  }

  lemma ChildPlace(w: World, id: NodeId) returns (i: nat)
    requires id in w.nodes && w.nodes[id].parentId.Some?
    ensures var kids := Children(w, w.nodes[id].parentId.value);
            i < |kids| && kids[i] == id
  {
    var p := w.nodes[id].parentId.value;
    i := RankOf(ChildSet(w, p), (a, b) => RecordedBefore(w, a, b), id);
  }
}
