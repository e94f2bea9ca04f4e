/**
 * The health rollup of deployments (`_get_deployment_states`, report.py
 * lines 36-67): the distinct node-instance states of each deployment, the
 * status and `ok` flag they give, and an agent record for every instance of
 * a compute node.
 */
module DeploymentStates {
  import opened Wrappers
  import opened Cloudify
  import opened Sums

  /** The record kept for the instance of a compute node. */
  datatype AgentInfo = AgentInfo(state: string, ip: Json, cloudifyAgent: Json, isWindows: bool)

  /**
   * The result for one deployment. `states` is the set of distinct states;
   * the source returns it as `list(dep_states)`, in Python's set order.
   */
  datatype DeploymentReport = DeploymentReport(
    status: string,
    agents: map<string, AgentInfo>,
    ok: bool,
    states: set<string>)

  /** An instance together with the node it was listed for. */
  datatype Visit = Visit(node: Node, instance: NodeInstance)

  // ---------------------------------------------------------------------
  // Status and ok flag

  lemma SingletonSet(s: set<string>, x: string)
    requires |s| == 1 && x in s
    ensures s == {x}
  {
    assert |s - {x}| == 0;
  }

  /** The one element of a set of size one (`next(iter(dep_states))`). */
  function OnlyElement(s: set<string>): (x: string)
    requires |s| == 1
    ensures s == {x}
  {
    assert forall y | y in s :: s == {y} by {
      forall y | y in s ensures s == {y} { SingletonSet(s, y); }
    }
    var x :| x in s; x
  }

  /** `empty` for no state, the state itself for one, `mixed` for more. */
  function Status(states: set<string>): (status: string)
    ensures states == {} ==> status == "empty"
    ensures |states| == 1 ==> states == {status}
    ensures |states| > 1 ==> status == "mixed"
  {
    if |states| > 1 then "mixed"
    else if |states| == 1 then OnlyElement(states)
    else "empty"
  }

  /** `status in ['empty', 'started']`. */
  predicate IsOk(status: string) {
    status == "empty" || status == "started"
  }

  /**
   * A deployment is ok exactly when it has no instance, or all its
   * instances share the state `started` (or a state literally named
   * `empty`); more than one distinct state is never ok.
   */
  lemma OkExactly(states: set<string>)
    ensures IsOk(Status(states)) <==> states == {} || states == {"started"} || states == {"empty"}
    ensures |states| > 1 ==> !IsOk(Status(states))
  {
    if |states| == 1 {
      var s := Status(states);
      assert states == {s};
      if states == {"started"} { assert "started" in states; }
      if states == {"empty"} { assert "empty" in states; }
    } else if states != {} {
      assert |states| > 1;
      assert |{"started"}| == 1 && |{"empty"}| == 1;
    }
  }

  // ---------------------------------------------------------------------
  // Agent records

  /** `runtime_properties.get('ip', node.properties.get('ip', ''))`. */
  function IpOf(node: Node, instance: NodeInstance): Json {
    if "ip" in instance.runtimeProperties then instance.runtimeProperties["ip"]
    else if "ip" in node.properties then node.properties["ip"]
    else Str("")
  }

  /** The agent record of an instance of a compute node (report.py lines 48-53). */
  function AgentOf(node: Node, instance: NodeInstance): AgentInfo {
    AgentInfo(
      instance.state,
      IpOf(node, instance),
      if "cloudify_agent" in node.properties then node.properties["cloudify_agent"] else Obj(map[]),
      WindowsType in node.typeHierarchy)
  }

  predicate IsCompute(node: Node) {
    ComputeType in node.typeHierarchy
  }

  // ---------------------------------------------------------------------
  // The order in which the nested loops visit instances

  function NodeVisits(l: NodeListing): (vs: seq<Visit>)
    ensures |vs| == |l.instances|
    ensures forall j :: 0 <= j < |vs| ==> vs[j] == Visit(l.node, l.instances[j])
  {
    seq(|l.instances|, j requires 0 <= j < |l.instances| => Visit(l.node, l.instances[j]))
  }

  /** Every (node, instance) pair, node by node and instance by instance. */
  function Visits(listing: seq<NodeListing>): seq<Visit> {
    if listing == [] then []
    else Visits(listing[..|listing| - 1]) + NodeVisits(listing[|listing| - 1])
  }

  /** The distinct states met so far (`dep_states`). */
  function StatesSeen(visits: seq<Visit>): set<string> {
    set v | v in visits :: v.instance.state
  }

  /** The agent map filled so far (`dep_agents`); a later instance id overwrites. */
  function AgentsSeen(visits: seq<Visit>): map<string, AgentInfo> {
    if visits == [] then map[]
    else
      var last := visits[|visits| - 1];
      var before := AgentsSeen(visits[..|visits| - 1]);
      if IsCompute(last.node) then before[last.instance.id := AgentOf(last.node, last.instance)]
      else before
  }

  /** The report of one deployment, from its listing. */
  function DeploymentReportOf(listing: seq<NodeListing>): DeploymentReport {
    var visits := Visits(listing);
    var states := StatesSeen(visits);
    var status := Status(states);
    DeploymentReport(status, AgentsSeen(visits), IsOk(status), states)
  }

  /**
   * The reports of a list of deployments, keyed by deployment id (a later
   * deployment with the same id overwrites), and the number of agents
   * counted, or `None` when the listing of one of them raises.
   */
  function DeploymentStatesOf(deployments: seq<Deployment>): Option<(map<string, DeploymentReport>, int)> {
    if deployments == [] then Some((map[], 0))
    else
      var d := deployments[|deployments| - 1];
      match DeploymentStatesOf(deployments[..|deployments| - 1])
      case None => None
      case Some(acc) =>
        match d.listing
        case None => None
        case Some(listing) =>
          var r := DeploymentReportOf(listing);
          Some((acc.0[d.id := r], acc.1 + |r.agents|))
  }

  // ---------------------------------------------------------------------
  // Properties of the rollup

  /** The visits are exactly the (node, instance) pairs of the listing. */
  lemma {:induction false} VisitsExact(listing: seq<NodeListing>)
    ensures forall v :: v in Visits(listing) <==>
      exists i, j :: 0 <= i < |listing| && 0 <= j < |listing[i].instances| &&
        v == Visit(listing[i].node, listing[i].instances[j])
  {
    if listing != [] {
      var n := |listing| - 1;
      var front := listing[..n];
      VisitsExact(front);
      assert Visits(listing) == Visits(front) + NodeVisits(listing[n]);
      forall v | v in Visits(listing)
        ensures exists i, j :: (0 <= i < |listing| && 0 <= j < |listing[i].instances| &&
          v == Visit(listing[i].node, listing[i].instances[j]))
      {
        if v in Visits(front) {
          var i, j :| 0 <= i < |front| && 0 <= j < |front[i].instances| &&
            v == Visit(front[i].node, front[i].instances[j]);
          assert front[i] == listing[i];
        } else {
          var j :| 0 <= j < |NodeVisits(listing[n])| && NodeVisits(listing[n])[j] == v;
          assert v == Visit(listing[n].node, listing[n].instances[j]);
        }
      }
      forall i, j | 0 <= i < |listing| && 0 <= j < |listing[i].instances|
        ensures Visit(listing[i].node, listing[i].instances[j]) in Visits(listing)
      {
        if i < n {
          assert front[i] == listing[i];
          assert Visit(front[i].node, front[i].instances[j]) in Visits(front);
        } else {
          assert NodeVisits(listing[n])[j] == Visit(listing[i].node, listing[i].instances[j]);
        }
      }
    }
  }

  /** `states` holds exactly the states of the deployment's instances. */
  lemma StatesExact(listing: seq<NodeListing>)
    ensures DeploymentReportOf(listing).states ==
      set i, j | 0 <= i < |listing| && 0 <= j < |listing[i].instances| :: listing[i].instances[j].state
  {
    VisitsExact(listing);
    var visits := Visits(listing);
    var lhs := StatesSeen(visits);
    var rhs := set i, j | 0 <= i < |listing| && 0 <= j < |listing[i].instances| :: listing[i].instances[j].state;
    forall s | s in lhs ensures s in rhs {
      var v :| v in visits && v.instance.state == s;
      var i, j :| 0 <= i < |listing| && 0 <= j < |listing[i].instances| &&
        v == Visit(listing[i].node, listing[i].instances[j]);
    }
    forall s | s in rhs ensures s in lhs {
      var i, j :| 0 <= i < |listing| && 0 <= j < |listing[i].instances| && listing[i].instances[j].state == s;
      assert Visit(listing[i].node, listing[i].instances[j]) in visits;
    }
  }

  /** An agent entry exists exactly for the ids of compute-node visits. */
  lemma {:induction false} AgentsSeenKeys(visits: seq<Visit>)
    ensures forall k :: k in AgentsSeen(visits) <==>
      exists i :: 0 <= i < |visits| && IsCompute(visits[i].node) && visits[i].instance.id == k
  {
    if visits != [] {
      var n := |visits| - 1;
      AgentsSeenKeys(visits[..n]);
      forall i | 0 <= i < n ensures visits[..n][i] == visits[i] { }
    }
  }

  /** Visit `i` is the last compute-node visit of instance id `k`. */
  ghost predicate LastComputeVisit(visits: seq<Visit>, k: string, i: int) {
    && 0 <= i < |visits|
    && IsCompute(visits[i].node)
    && visits[i].instance.id == k
    && forall j :: i < j < |visits| && IsCompute(visits[j].node) ==> visits[j].instance.id != k
  }

  /** Each agent entry is the record of the last compute-node visit of its id. */
  lemma {:induction false} AgentsSeenValues(visits: seq<Visit>, k: string)
    requires k in AgentsSeen(visits)
    ensures exists i :: (LastComputeVisit(visits, k, i) &&
      AgentsSeen(visits)[k] == AgentOf(visits[i].node, visits[i].instance))
  {
    var n := |visits| - 1;
    var last := visits[n];
    if IsCompute(last.node) && last.instance.id == k {
      assert LastComputeVisit(visits, k, n);
    } else {
      var front := visits[..n];
      assert AgentsSeen(visits) == if IsCompute(last.node) then AgentsSeen(front)[last.instance.id := AgentOf(last.node, last.instance)]
        else AgentsSeen(front);
      assert k in AgentsSeen(front) && AgentsSeen(visits)[k] == AgentsSeen(front)[k];
      AgentsSeenValues(front, k);
      var i :| LastComputeVisit(front, k, i) && AgentsSeen(front)[k] == AgentOf(front[i].node, front[i].instance);
      assert visits[i] == front[i];
      forall j | i < j < |visits| && IsCompute(visits[j].node) ensures visits[j].instance.id != k {
        if j < n { assert visits[j] == front[j]; }
      }
      assert LastComputeVisit(visits, k, i);
    }
  }

  /**
   * The agents of a deployment are keyed by exactly the ids of the
   * instances of its compute nodes.
   */
  lemma AgentsExact(listing: seq<NodeListing>)
    ensures forall k :: k in DeploymentReportOf(listing).agents <==>
      exists i, j :: 0 <= i < |listing| && 0 <= j < |listing[i].instances| &&
        IsCompute(listing[i].node) && listing[i].instances[j].id == k
  {
    var visits := Visits(listing);
    VisitsExact(listing);
    AgentsSeenKeys(visits);
    forall k | k in AgentsSeen(visits)
      ensures exists i, j :: (0 <= i < |listing| && 0 <= j < |listing[i].instances| &&
        IsCompute(listing[i].node) && listing[i].instances[j].id == k)
    {
      var m :| 0 <= m < |visits| && IsCompute(visits[m].node) && visits[m].instance.id == k;
      assert visits[m] in visits;
      var i, j :| 0 <= i < |listing| && 0 <= j < |listing[i].instances| &&
        visits[m] == Visit(listing[i].node, listing[i].instances[j]);
    }
    forall k, i, j | 0 <= i < |listing| && 0 <= j < |listing[i].instances| &&
        IsCompute(listing[i].node) && listing[i].instances[j].id == k
      ensures k in AgentsSeen(visits)
    {
      var v := Visit(listing[i].node, listing[i].instances[j]);
      assert v in visits;
      var m :| 0 <= m < |visits| && visits[m] == v;
    }
  }

  /** The number of agents of each report. */
  ghost function AgentSizes(reports: map<string, DeploymentReport>): map<string, int> {
    map id | id in reports :: |reports[id].agents|
  }

  /** The last deployment of a rollup that returns adds its report to the front's. */
  lemma StatesOfLast(deployments: seq<Deployment>)
    requires deployments != [] && DeploymentStatesOf(deployments).Some?
    ensures var n := |deployments| - 1;
      && DeploymentStatesOf(deployments[..n]).Some?
      && deployments[n].listing.Some?
      && DeploymentStatesOf(deployments).value.0 ==
        DeploymentStatesOf(deployments[..n]).value.0[deployments[n].id := DeploymentReportOf(deployments[n].listing.value)]
      && DeploymentStatesOf(deployments).value.1 ==
        DeploymentStatesOf(deployments[..n]).value.1 + |DeploymentReportOf(deployments[n].listing.value).agents|
  {
  }

  lemma StatesOfSomeLast(deployments: seq<Deployment>)
    requires deployments != []
    ensures var n := |deployments| - 1;
      DeploymentStatesOf(deployments).Some? <==> DeploymentStatesOf(deployments[..n]).Some? && deployments[n].listing.Some?
  {
  }

  /** The result has a report for the id of every deployment and no other. */
  lemma {:induction false} ReportKeys(deployments: seq<Deployment>)
    requires DeploymentStatesOf(deployments).Some?
    ensures DeploymentStatesOf(deployments).value.0.Keys == set d | d in deployments :: d.id
  {
    if deployments != [] {
      var n := |deployments| - 1;
      var front := deployments[..n];
      StatesOfLast(deployments);
      ReportKeys(front);
      IdsOfLast(deployments);
    }
  }

  /**
   * The report stored under a deployment's id is the rollup of that
   * deployment's listing, when no later deployment has the same id.
   */
  lemma {:induction false} ReportValues(deployments: seq<Deployment>, i: int)
    requires DeploymentStatesOf(deployments).Some?
    requires 0 <= i < |deployments|
    requires forall j :: i < j < |deployments| ==> deployments[j].id != deployments[i].id
    ensures deployments[i].listing.Some?
    ensures deployments[i].id in DeploymentStatesOf(deployments).value.0
    ensures DeploymentStatesOf(deployments).value.0[deployments[i].id] == DeploymentReportOf(deployments[i].listing.value)
  {
    var n := |deployments| - 1;
    var id := deployments[i].id;
    StatesOfLast(deployments);
    var front := deployments[..n];
    var last := DeploymentReportOf(deployments[n].listing.value);
    var whole := DeploymentStatesOf(deployments).value.0;
    assert whole == DeploymentStatesOf(front).value.0[deployments[n].id := last];
    if i < n {
      assert front[i] == deployments[i];
      forall j | i < j < n ensures front[j].id != front[i].id {
        assert front[j] == deployments[j];
      }
      ReportValues(front, i);
      assert deployments[n].id != id;
      assert whole[id] == DeploymentStatesOf(front).value.0[id];
    }
  }

  lemma IdsOfLast(deployments: seq<Deployment>)
    requires deployments != []
    ensures var n := |deployments| - 1;
      (set d | d in deployments :: d.id) == (set d | d in deployments[..n] :: d.id) + {deployments[n].id}
  {
    var n := |deployments| - 1;
    assert deployments == deployments[..n] + [deployments[n]];
  }

  /**
   * With distinct deployment ids, the agent count is the sum of the
   * reports' agent-map sizes.
   */
  lemma {:induction false} AgentsCountIsSum(deployments: seq<Deployment>)
    requires forall i, j :: 0 <= i < j < |deployments| ==> deployments[i].id != deployments[j].id
    requires DeploymentStatesOf(deployments).Some?
    ensures DeploymentStatesOf(deployments).value.1 ==
      SumOver(AgentSizes(DeploymentStatesOf(deployments).value.0), DeploymentStatesOf(deployments).value.0.Keys)
  {
    if deployments != [] {
      var n := |deployments| - 1;
      var front := deployments[..n];
      var d := deployments[n];
      StatesOfLast(deployments);
      DistinctFront(deployments);
      AgentsCountIsSum(front);
      ReportKeys(front);
      AddReport(DeploymentStatesOf(front).value.0, DeploymentStatesOf(front).value.1, d.id,
        DeploymentReportOf(d.listing.value));
    }
  }

  /** Without the last deployment the ids stay distinct, and none of them is the last one's. */
  lemma DistinctFront(deployments: seq<Deployment>)
    requires deployments != []
    requires forall i, j :: 0 <= i < j < |deployments| ==> deployments[i].id != deployments[j].id
    ensures var n := |deployments| - 1;
      && (forall i, j :: 0 <= i < j < n ==> deployments[..n][i].id != deployments[..n][j].id)
      && deployments[n].id !in (set e | e in deployments[..n] :: e.id)
  {
    var n := |deployments| - 1;
    var front := deployments[..n];
    forall e | e in front ensures e.id != deployments[n].id {
      var k :| 0 <= k < n && front[k] == e;
      assert front[k] == deployments[k];
    }
  }

  /** Adding a report under a new id adds its agents to the sum. */
  lemma AddReport(reports: map<string, DeploymentReport>, count: int, id: string, r: DeploymentReport)
    requires id !in reports
    requires count == SumOver(AgentSizes(reports), reports.Keys)
    ensures count + |r.agents| == SumOver(AgentSizes(reports[id := r]), reports[id := r].Keys)
  {
    var reports' := reports[id := r];
    assert reports'.Keys == reports.Keys + {id};
    SumOverAdd(AgentSizes(reports'), reports.Keys, id);
    SumOverCongruent(AgentSizes(reports'), AgentSizes(reports), reports.Keys);
  }

  // ---------------------------------------------------------------------
  // _get_deployment_states itself

  lemma StatesSeenAppend(visits: seq<Visit>, v: Visit)
    ensures StatesSeen(visits + [v]) == StatesSeen(visits) + {v.instance.state}
  {
    assert forall w :: w in visits + [v] <==> w in visits || w == v;
  }

  lemma AgentsSeenAppend(visits: seq<Visit>, v: Visit)
    ensures AgentsSeen(visits + [v]) ==
      if IsCompute(v.node) then AgentsSeen(visits)[v.instance.id := AgentOf(v.node, v.instance)]
      else AgentsSeen(visits)
  {
    assert (visits + [v])[..|visits|] == visits;
  }

  lemma PrefixStep(vs: seq<Visit>, m: nat)
    requires m < |vs|
    ensures vs[..m + 1] == vs[..m] + [vs[m]]
  {
  }

  lemma VisitsStep(nodes: seq<NodeListing>, n: nat)
    requires n < |nodes|
    ensures Visits(nodes[..n + 1]) == Visits(nodes[..n]) + NodeVisits(nodes[n])
  {
    assert nodes[..n + 1][..n] == nodes[..n];
  }

  /** The inner loop of `_get_deployment_states`: the instances of one node, added to what was met before. */
  method VisitInstances(listing: NodeListing, depStates: set<string>, depAgents: map<string, AgentInfo>,
                        ghost before: seq<Visit>)
    returns (states: set<string>, agents: map<string, AgentInfo>)
    requires depStates == StatesSeen(before) && depAgents == AgentsSeen(before)
    ensures states == StatesSeen(before + NodeVisits(listing)) && agents == AgentsSeen(before + NodeVisits(listing))
  {
    var node := listing.node;
    var instances := listing.instances;
    states, agents := depStates, depAgents;
    ghost var visited := before;
    var m := 0;
    while m < |instances|
      invariant 0 <= m <= |instances|
      invariant visited == before + NodeVisits(listing)[..m]
      invariant states == StatesSeen(visited) && agents == AgentsSeen(visited)
    {
      var instance := instances[m];
      StatesSeenAppend(visited, Visit(node, instance));
      AgentsSeenAppend(visited, Visit(node, instance));
      states := states + {instance.state};
      if ComputeType in node.typeHierarchy {
        agents := agents[instance.id := AgentOf(node, instance)];
      }
      PrefixStep(NodeVisits(listing), m);
      visited := visited + [Visit(node, instance)];
      m := m + 1;
    }
    assert NodeVisits(listing)[..m] == NodeVisits(listing);
  }

  /** The body of the outer loop of `_get_deployment_states`: one deployment. */
  method RollupDeployment(nodes: seq<NodeListing>) returns (report: DeploymentReport)
    ensures report == DeploymentReportOf(nodes)
  {
    var depStates: set<string> := {};
    var depAgents: map<string, AgentInfo> := map[];
    var n := 0;
    while n < |nodes|
      invariant 0 <= n <= |nodes|
      invariant depStates == StatesSeen(Visits(nodes[..n])) && depAgents == AgentsSeen(Visits(nodes[..n]))
    {
      depStates, depAgents := VisitInstances(nodes[n], depStates, depAgents, Visits(nodes[..n]));
      VisitsStep(nodes, n);
      n := n + 1;
    }
    assert nodes[..n] == nodes;
    var status := Status(depStates);
    report := DeploymentReport(status, depAgents, status == "empty" || status == "started", depStates);
  }

  /** One more deployment whose listing returns adds its report to the rollup. */
  lemma StatesOfStep(deployments: seq<Deployment>, i: nat, res: map<string, DeploymentReport>, count: int,
                     report: DeploymentReport, res': map<string, DeploymentReport>, count': int)
    requires i < |deployments| && DeploymentStatesOf(deployments[..i]) == Some((res, count))
    requires deployments[i].listing.Some? && report == DeploymentReportOf(deployments[i].listing.value)
    requires res' == res[deployments[i].id := report] && count' == count + |report.agents|
    ensures DeploymentStatesOf(deployments[..i + 1]) == Some((res', count'))
  {
    assert deployments[..i + 1][..i] == deployments[..i];
  }

  /** `_get_deployment_states`: `None` stands for an exception from a listing. */
  method GetDeploymentStates(deployments: seq<Deployment>)
    returns (result: Option<(map<string, DeploymentReport>, int)>)
    ensures result == DeploymentStatesOf(deployments)
    ensures result.Some? <==> forall d :: d in deployments ==> d.listing.Some?
  {
    DeploymentStatesDefined(deployments);
    var res: map<string, DeploymentReport> := map[];
    var agentsCount := 0;
    var i := 0;
    while i < |deployments|
      invariant 0 <= i <= |deployments|
      invariant DeploymentStatesOf(deployments[..i]) == Some((res, agentsCount))
    {
      var deployment := deployments[i];
      if deployment.listing.None? {
        assert deployments[..i + 1][..i] == deployments[..i];
        FailureSticks(deployments, i + 1);
        return None;
      }
      var report := RollupDeployment(deployment.listing.value);
      ghost var before := res;
      ghost var beforeCount := agentsCount;
      agentsCount := agentsCount + |report.agents|;
      res := res[deployment.id := report];
      StatesOfStep(deployments, i, before, beforeCount, report, res, agentsCount);
      i := i + 1;
    }
    assert deployments[..i] == deployments;
    result := Some((res, agentsCount));
  }

  /** The rollup of a list returns exactly when every listing does. */
  lemma {:induction false} DeploymentStatesDefined(deployments: seq<Deployment>)
    ensures DeploymentStatesOf(deployments).Some? <==> forall d :: d in deployments ==> d.listing.Some?
  {
    if deployments != [] {
      var n := |deployments| - 1;
      DeploymentStatesDefined(deployments[..n]);
      StatesOfSomeLast(deployments);
      assert deployments == deployments[..n] + [deployments[n]];
    }
  }

  /** Once one listing has raised, the whole rollup has. */
  lemma {:induction false} FailureSticks(deployments: seq<Deployment>, k: nat)
    requires k <= |deployments|
    requires DeploymentStatesOf(deployments[..k]) == None
    ensures DeploymentStatesOf(deployments) == None
    decreases |deployments| - k
  {
    if k < |deployments| {
      assert deployments[..k + 1][..k] == deployments[..k];
      FailureSticks(deployments, k + 1);
    } else {
      assert deployments[..k] == deployments;
    }
  }
}
