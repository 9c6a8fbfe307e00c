/** Policy improvement: replay every revision of the incumbent over the stored worlds and
    select the best average objective. */
module Dream {
  import opened Common
  import opened DiscoveryWorld
  import opened Exploration
  import opened Replay

  datatype DreamError = EmptyWorldPool | InvalidPolicy | ReplayFailed(error: ReplayError)

  datatype CandidateScore = CandidateScore(policy: PolicyConfig, averageObjective: real, perTreeObjective: seq<real>)

  datatype DreamResult = DreamResult(incumbent: PolicyConfig, selected: PolicyConfig, baselineObjective: real,
                                     selectedObjective: real, candidates: seq<CandidateScore>)

  function LinearPolicy(config: PolicyConfig): Policy {
    view => LinearAction(config, view)
  }

  function Sum(values: seq<real>): real {
    if values == [] then 0.0 else Sum(values[..|values| - 1]) + values[|values| - 1]
  }

  /** Every world weighs the same: changing one objective changes the sum by as much. */
  lemma {:induction false} EachWorldCountsOnce(values: seq<real>, i: nat, v: real)
    requires i < |values|
    ensures Sum(values[i := v]) == Sum(values) + v - values[i]
  {
    var n := |values| - 1;
    if i < n {
      EachWorldCountsOnce(values[..n], i, v);
      assert values[i := v][..n] == values[..n][i := v];
    } else {
      assert values[i := v][..n] == values[..n];
    }
  }

  /** And the average of equal objectives is theirs. */
  lemma {:induction false} AverageOfEquals(values: seq<real>, v: real)
    requires values != [] && forall i :: 0 <= i < |values| ==> values[i] == v
    ensures Sum(values) == v * |values| as real && Sum(values) / |values| as real == v
  {
    var n := |values| - 1;
    if n > 0 {
      AverageOfEquals(values[..n], v);
      assert v * n as real + v == v * |values| as real;
    }
  }

  /** The objective of replaying one configuration over one world. */
  ghost function ObjectiveOn(e: Engine, w: World, config: PolicyConfig): Result<real, ReplayError> {
    var replay := Replayed(e, w, LinearPolicy(config));
    if replay.Err? then Err(replay.error) else Ok(replay.value.objective)
  }

  /** The objectives of one configuration over the worlds, replayed independently. */
  ghost predicate ScoresOn(e: Engine, worlds: seq<World>, config: PolicyConfig, objectives: seq<real>) {
    && |objectives| == |worlds|
    && forall i {:trigger ObjectiveOn(e, worlds[i], config)} ::
         0 <= i < |worlds| ==> ObjectiveOn(e, worlds[i], config) == Ok(objectives[i])
  }

  /** Some world's replay fails under the configuration. */
  ghost predicate FailsOn(e: Engine, worlds: seq<World>, config: PolicyConfig) {
    exists i {:trigger ObjectiveOn(e, worlds[i], config)} :: 0 <= i < |worlds| && ObjectiveOn(e, worlds[i], config).Err?
  }

  /** `k` is the first index of a greatest average. */
  ghost predicate FirstBest(candidates: seq<CandidateScore>, k: nat) {
    && k < |candidates|
    && (forall i :: 0 <= i < |candidates| ==> candidates[i].averageObjective <= candidates[k].averageObjective)
    && (forall i :: 0 <= i < k ==> candidates[i].averageObjective < candidates[k].averageObjective)
  }

  ghost function Values(trees: seq<DiscoveryTree>): (w: seq<World>)
    reads set i | 0 <= i < |trees| :: trees[i]
    ensures |w| == |trees| && forall i :: 0 <= i < |trees| ==> w[i] == trees[i].Value()
  {
    if trees == [] then [] else Values(trees[..|trees| - 1]) + [trees[|trees| - 1].Value()]
  }

  method ScoreWorld(e: Engine, tree: DiscoveryTree, config: PolicyConfig) returns (r: Result<real, ReplayError>)
    ensures r == ObjectiveOn(e, tree.Value(), config)
  {
    var replay := Run(e, tree, LinearPolicy(config));
    if replay.Err? {
      return Err(replay.error);
    }
    return Ok(replay.value.objective);
  }

  method ScoreOn(e: Engine, trees: seq<DiscoveryTree>, config: PolicyConfig) returns (r: Result<seq<real>, DreamError>)
    ensures r.Ok? ==> ScoresOn(e, Values(trees), config, r.value)
    ensures r.Err? ==> r.error.ReplayFailed? && FailsOn(e, Values(trees), config)
  {
    var objectives: seq<real> := [];
    ghost var worlds := Values(trees);
    for i := 0 to |trees|
      invariant ScoresOn(e, worlds[..i], config, objectives)
    {
      var objective := ScoreWorld(e, trees[i], config);
      if objective.Err? {
        FailsAt(e, worlds, config, i);
        return Err(ReplayFailed(objective.error));
      }
      OneMoreScore(e, worlds, config, objectives, i, objective.value);
      objectives := objectives + [objective.value];
    }
    assert worlds[..|worlds|] == worlds;
    return Ok(objectives);
  }

  lemma FailsAt(e: Engine, worlds: seq<World>, config: PolicyConfig, i: nat)
    requires i < |worlds| && ObjectiveOn(e, worlds[i], config).Err?
    ensures FailsOn(e, worlds, config)
  {
  }

  lemma OneMoreScore(e: Engine, worlds: seq<World>, config: PolicyConfig, objectives: seq<real>, i: nat, next: real)
    requires i < |worlds| && ScoresOn(e, worlds[..i], config, objectives) && ObjectiveOn(e, worlds[i], config) == Ok(next)
    ensures ScoresOn(e, worlds[..i + 1], config, objectives + [next])
  {
    assert worlds[..i + 1][i] == worlds[i];
    forall j {:trigger ObjectiveOn(e, worlds[..i + 1][j], config)} | 0 <= j < i
      ensures ObjectiveOn(e, worlds[..i + 1][j], config) == Ok((objectives + [next])[j])
    {
      assert worlds[..i + 1][j] == worlds[..i][j];
    }
  }

  /** One scored candidate per configuration, in order. */
  ghost predicate Scored(e: Engine, worlds: seq<World>, configs: seq<PolicyConfig>, candidates: seq<CandidateScore>)
    requires worlds != []
  {
    && |candidates| == |configs|
    && forall i {:trigger candidates[i]} :: 0 <= i < |candidates| ==> ScoredAs(e, worlds, configs[i], candidates[i])
  }

  ghost predicate ScoredAs(e: Engine, worlds: seq<World>, config: PolicyConfig, candidate: CandidateScore)
    requires worlds != []
  {
    && candidate.policy == config
    && ScoresOn(e, worlds, config, candidate.perTreeObjective)
    && candidate.averageObjective == Sum(candidate.perTreeObjective) / |worlds| as real
  }

  method ScoreAll(e: Engine, trees: seq<DiscoveryTree>, configs: seq<PolicyConfig>)
    returns (r: Result<seq<CandidateScore>, DreamError>)
    requires trees != []
    ensures r.Ok? ==> Scored(e, Values(trees), configs, r.value)
    ensures r.Err? ==> r.error.ReplayFailed? && exists i :: 0 <= i < |configs| && FailsOn(e, Values(trees), configs[i])
  {
    var candidates: seq<CandidateScore> := [];
    for i := 0 to |configs|
      invariant Scored(e, Values(trees), configs[..i], candidates)
    {
      var objectives := ScoreOn(e, trees, configs[i]);
      if objectives.Err? {
        return Err(objectives.error);
      }
      candidates := candidates + [CandidateScore(configs[i], Sum(objectives.value) / |trees| as real, objectives.value)];
    }
    assert configs[..|configs|] == configs;
    return Ok(candidates);
  }

  method SelectBest(candidates: seq<CandidateScore>) returns (selected: nat)
    requires candidates != []
    ensures FirstBest(candidates, selected)
  {
    selected := 0;
    for i := 1 to |candidates|
      invariant FirstBest(candidates[..i], selected)
    {
      if candidates[i].averageObjective > candidates[selected].averageObjective {
        selected := i;
      }
    }
    assert candidates[..|candidates|] == candidates;
  }

  ghost predicate Selects(r: DreamResult, k: nat) {
    && FirstBest(r.candidates, k)
    && r.selected == r.candidates[k].policy
    && r.selectedObjective == r.candidates[k].averageObjective
  }

  /** The incumbent and its valid revisions are scored on the same worlds, the first best is
      selected, and so the selection never falls below the incumbent. */
  method Improve(e: Engine, trees: seq<DiscoveryTree>, incumbent: PolicyConfig)
    returns (r: Result<DreamResult, DreamError>, ghost selected: nat)
    ensures trees == [] ==> r == Err(EmptyWorldPool)
    ensures trees != [] && !ValidConfig(incumbent) ==> r == Err(InvalidPolicy)
    ensures r.Err? && trees != [] && ValidConfig(incumbent) ==>
              exists i :: 0 <= i < |Revisions(incumbent)| && FailsOn(e, Values(trees), Revisions(incumbent)[i])
    ensures r.Ok? ==>
              && r.value.incumbent == incumbent
              && Scored(e, Values(trees), Revisions(incumbent), r.value.candidates)
              && Selects(r.value, selected)
              && r.value.candidates[0].policy == incumbent
              && r.value.baselineObjective == r.value.candidates[0].averageObjective <= r.value.selectedObjective
  {
    selected := 0;
    if trees == [] {
      return Err(EmptyWorldPool), 0;
    }
    if !ValidConfig(incumbent) {
      return Err(InvalidPolicy), 0;
    }
    RevisionsFacts(incumbent);
    var scored := ScoreAll(e, trees, Revisions(incumbent));
    if scored.Err? {
      return Err(scored.error), 0;
    }
    var candidates := scored.value;
    var best := SelectBest(candidates);
    return Ok(DreamResult(incumbent, candidates[best].policy, candidates[0].averageObjective,
                          candidates[best].averageObjective, candidates)), best;
  }
}
