/**
 * Per-blueprint aggregation: `insert_blueprint_report` (report.py lines
 * 86-91), which fills one blueprint's slot, and `_get_blueprints` (lines
 * 94-108), which allocates one slot per blueprint, runs one unit per slot
 * and sums the slots' agent counts.
 *
 * The source runs each unit on its own thread; every thread writes only
 * into the slot allocated for it before it starts, so running the units one
 * after the other in allocation order gives the same result. An exception in
 * a unit ends its thread and leaves its slot as far as it was filled.
 */
module Blueprints {
  import opened Wrappers
  import opened Cloudify
  import opened Sums
  import opened DeploymentStates
  import opened Topology
  import opened Slots

  /** One blueprint's slot; a field is `None` when the unit did not reach it. */
  datatype BlueprintReport = BlueprintReport(
    multiSecNodes: Option<bool>,
    deploymentsCount: Option<int>,
    deployments: Option<map<string, DeploymentReport>>,
    agentsCount: Option<int>)

  /** The `{}` a slot starts as. */
  const EmptySlot := BlueprintReport(None, None, None, None)

  /** `[dep for dep in deployments if dep.blueprint_id == blueprint_id]`. */
  function Matching(deployments: seq<Deployment>, blueprintId: string): seq<Deployment> {
    if deployments == [] then []
    else
      var n := |deployments| - 1;
      var d := deployments[n];
      Matching(deployments[..n], blueprintId) + (if d.blueprintId == blueprintId then [d] else [])
  }

  /** The filter keeps exactly the deployments of the blueprint. */
  lemma {:induction false} MatchingMembers(deployments: seq<Deployment>, blueprintId: string)
    ensures forall d :: d in Matching(deployments, blueprintId) <==> d in deployments && d.blueprintId == blueprintId
  {
    if deployments != [] {
      var n := |deployments| - 1;
      MatchingMembers(deployments[..n], blueprintId);
      assert forall e :: e in deployments <==> e in deployments[..n] || e == deployments[n];
    }
  }

  /** The indices of the deployments of a blueprint. */
  ghost function IndicesOf(deployments: seq<Deployment>, blueprintId: string): set<int> {
    set i | 0 <= i < |deployments| && deployments[i].blueprintId == blueprintId
  }

  /** The filter keeps one entry per deployment of the blueprint, in order. */
  lemma {:induction false} MatchingCount(deployments: seq<Deployment>, blueprintId: string)
    ensures |Matching(deployments, blueprintId)| == |IndicesOf(deployments, blueprintId)|
  {
    if deployments != [] {
      var n := |deployments| - 1;
      MatchingCount(deployments[..n], blueprintId);
      IndicesOfLast(deployments, blueprintId);
    }
  }

  lemma IndicesOfLast(deployments: seq<Deployment>, blueprintId: string)
    requires deployments != []
    ensures var n := |deployments| - 1;
      |IndicesOf(deployments, blueprintId)| ==
        |IndicesOf(deployments[..n], blueprintId)| + (if deployments[n].blueprintId == blueprintId then 1 else 0)
  {
    var n := |deployments| - 1;
    var front := IndicesOf(deployments[..n], blueprintId);
    IndicesOfSplit(deployments, blueprintId);
    assert n !in front;
  }

  lemma IndicesOfSplit(deployments: seq<Deployment>, blueprintId: string)
    requires deployments != []
    ensures var n := |deployments| - 1;
      IndicesOf(deployments, blueprintId) ==
        IndicesOf(deployments[..n], blueprintId) + (if deployments[n].blueprintId == blueprintId then {n} else {})
  {
    var n := |deployments| - 1;
    var front := deployments[..n];
    forall i | 0 <= i < n ensures front[i] == deployments[i] { }
  }

  /** The slot that `insert_blueprint_report` leaves for `blueprint`. */
  function BlueprintReportOf(blueprint: Blueprint, deployments: seq<Deployment>, deploymentStates: bool): BlueprintReport {
    match MultiSecNodesOf(blueprint.planNodes)
    case None => EmptySlot
    case Some(multi) =>
      var mine := Matching(deployments, blueprint.id);
      var filled := BlueprintReport(Some(multi), Some(|mine|), None, None);
      if !deploymentStates then filled
      else
        match DeploymentStatesOf(mine)
        case None => filled
        case Some(states) => filled.(deployments := Some(states.0), agentsCount := Some(states.1))
  }

  /**
   * What one blueprint's slot holds: the risk flag, when the check did not
   * raise (otherwise the slot stays empty), and then the number of
   * deployments of that blueprint.
   */
  lemma BlueprintReportCounts(blueprint: Blueprint, deployments: seq<Deployment>, deploymentStates: bool)
    ensures var r := BlueprintReportOf(blueprint, deployments, deploymentStates);
      && r.multiSecNodes == MultiSecNodesOf(blueprint.planNodes)
      && (r.multiSecNodes.None? ==> r == EmptySlot)
      && (r.multiSecNodes.Some? ==> r.deploymentsCount == Some(|IndicesOf(deployments, blueprint.id)|))
  {
    MatchingCount(deployments, blueprint.id);
  }

  /**
   * The slot holds deployment reports exactly when they were asked for, the
   * risk check did not raise and no listing of the blueprint's deployments
   * raised; they are then keyed by exactly the ids of those deployments.
   */
  lemma BlueprintReportDeployments(blueprint: Blueprint, deployments: seq<Deployment>, deploymentStates: bool)
    ensures var r := BlueprintReportOf(blueprint, deployments, deploymentStates);
      r.deployments.Some? <==>
        (MultiSecNodesOf(blueprint.planNodes).Some? && deploymentStates &&
         forall d :: d in deployments && d.blueprintId == blueprint.id ==> d.listing.Some?)
    ensures var r := BlueprintReportOf(blueprint, deployments, deploymentStates);
      r.deployments.Some? ==> (r.agentsCount.Some? &&
        forall id :: id in r.deployments.value <==>
          exists d :: d in deployments && d.blueprintId == blueprint.id && d.id == id)
  {
    var mine := Matching(deployments, blueprint.id);
    MatchingMembers(deployments, blueprint.id);
    DeploymentStatesDefined(mine);
    if MultiSecNodesOf(blueprint.planNodes).Some? && deploymentStates && DeploymentStatesOf(mine).Some? {
      ReportKeys(mine);
    }
  }

  /** `insert_blueprint_report`, filling the slot field by field as the source does. */
  method InsertBlueprintReport(blueprint: Blueprint, deployments: seq<Deployment>, config: Config)
    returns (res: BlueprintReport)
    ensures res == BlueprintReportOf(blueprint, deployments, config.deploymentStates)
  {
    res := EmptySlot;
    var multi := HasMultiSecNodes(blueprint.planNodes);
    if multi.None? {
      return;
    }
    res := res.(multiSecNodes := Some(multi.value));
    var mine := Matching(deployments, blueprint.id);
    res := res.(deploymentsCount := Some(|mine|));
    if config.deploymentStates {
      var states := GetDeploymentStates(mine);
      if states.Some? {
        res := res.(deployments := Some(states.value.0), agentsCount := Some(states.value.1));
      }
    }
  }

  // ---------------------------------------------------------------------
  // _get_blueprints

  /** The reports the units compute, one per blueprint, in order. */
  function Reports(blueprints: seq<Blueprint>, deployments: seq<Deployment>, deploymentStates: bool)
    : (reports: seq<BlueprintReport>)
    ensures |reports| == |blueprints|
  {
    seq(|blueprints|, i requires 0 <= i < |blueprints| => BlueprintReportOf(blueprints[i], deployments, deploymentStates))
  }

  function Ids(blueprints: seq<Blueprint>): (ids: seq<string>)
    ensures |ids| == |blueprints| && forall i :: 0 <= i < |ids| ==> ids[i] == blueprints[i].id
  {
    seq(|blueprints|, i requires 0 <= i < |blueprints| => blueprints[i].id)
  }

  /** The slots after every unit has run; a later blueprint with the same id takes the slot over. */
  function BlueprintSlots(blueprints: seq<Blueprint>, deployments: seq<Deployment>, deploymentStates: bool)
    : map<string, BlueprintReport>
  {
    Fill(Ids(blueprints), Reports(blueprints, deployments, deploymentStates))
  }

  /** `blueprint_res.get('agents_count', 0)` for every slot. */
  ghost function AgentCounts(slots: map<string, BlueprintReport>): map<string, int> {
    map id | id in slots :: slots[id].agentsCount.GetOr(0)
  }

  /**
   * There is a slot for every blueprint id and for no other key, and the
   * slot of a blueprint whose id does not come again later is that
   * blueprint's report.
   */
  lemma BlueprintSlotsSpec(blueprints: seq<Blueprint>, deployments: seq<Deployment>, deploymentStates: bool)
    ensures forall id :: id in BlueprintSlots(blueprints, deployments, deploymentStates) <==>
      exists i :: 0 <= i < |blueprints| && blueprints[i].id == id
    ensures forall i :: (0 <= i < |blueprints| &&
        (forall j :: i < j < |blueprints| ==> blueprints[j].id != blueprints[i].id)) ==>
      BlueprintSlots(blueprints, deployments, deploymentStates)[blueprints[i].id] ==
        BlueprintReportOf(blueprints[i], deployments, deploymentStates)
  {
    var ids := Ids(blueprints);
    var reports := Reports(blueprints, deployments, deploymentStates);
    SlotsKeys(ids, reports);
    SlotsValues(ids, reports);
    forall i | 0 <= i < |blueprints| &&
        (forall j :: i < j < |blueprints| ==> blueprints[j].id != blueprints[i].id)
      ensures Fill(ids, reports)[ids[i]] == reports[i]
    {
      assert LastWith(ids, ids[i], i);
    }
  }

  /** `_get_blueprints`: the slots and the sum of their agent counts, 0 where absent. */
  method GetBlueprints(blueprints: seq<Blueprint>, deployments: seq<Deployment>, config: Config)
    returns (res: map<string, BlueprintReport>, agentsCount: int)
    ensures res == BlueprintSlots(blueprints, deployments, config.deploymentStates)
    ensures agentsCount == SumOver(AgentCounts(res), res.Keys)
  {
    ghost var ids := Ids(blueprints);
    ghost var reports := Reports(blueprints, deployments, config.deploymentStates);
    res := map[];
    var i := 0;
    while i < |blueprints|
      invariant 0 <= i <= |blueprints|
      invariant res == Fill(ids[..i], reports[..i])
    {
      var blueprint := blueprints[i];
      ghost var before := res;
      res := res[blueprint.id := EmptySlot];
      var slot := InsertBlueprintReport(blueprint, deployments, config);
      res := res[blueprint.id := slot];
      assert res == before[ids[i] := reports[i]];
      SlotsExtend(ids, reports, i);
      i := i + 1;
    }
    assert ids[..i] == ids && reports[..i] == reports;
    agentsCount := SumAgents(res);
  }

  /** `sum(blueprint_res.get('agents_count', 0) for blueprint_res in res.values())`, in any order. */
  method SumAgents(res: map<string, BlueprintReport>) returns (agentsCount: int)
    ensures agentsCount == SumOver(AgentCounts(res), res.Keys)
  {
    agentsCount := 0;
    var left := res.Keys;
    while left != {}
      invariant left <= res.Keys
      invariant agentsCount == SumOver(AgentCounts(res), res.Keys - left)
      decreases left
    {
      var name :| name in left;
      SumOverAdd(AgentCounts(res), res.Keys - left, name);
      assert res.Keys - (left - {name}) == (res.Keys - left) + {name};
      agentsCount := agentsCount + res[name].agentsCount.GetOr(0);
      left := left - {name};
    }
    assert res.Keys - left == res.Keys;
  }
}
