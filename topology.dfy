/**
 * The blueprint risk check (`_has_multi_sec_nodes`, report.py lines 70-84):
 * does some compute node of the plan have more than one relationship whose
 * target is a security group?
 *
 * The source appends every matching target to a list, so two relationships
 * to the same security group count twice; this model counts the same way.
 * A relationship target that is not the name of a plan node raises
 * `KeyError`, modelled as `None`.
 */
module Topology {
  import opened Wrappers
  import opened Cloudify

  predicate IsSecurityGroup(hierarchy: seq<string>) {
    SecurityGroupType in hierarchy
  }

  /** The `types` dict: plan node name to type hierarchy; a later duplicate name wins. */
  function TypesOf(nodes: seq<PlanNode>): (types: map<string, seq<string>>)
    ensures forall name :: name in types <==> exists i :: 0 <= i < |nodes| && nodes[i].name == name
  {
    if nodes == [] then map[]
    else
      var n := |nodes| - 1;
      var before := TypesOf(nodes[..n]);
      assert forall i :: 0 <= i < n ==> nodes[..n][i] == nodes[i];
      before[nodes[n].name := nodes[n].typeHierarchy]
  }

  /** Each name holds the type hierarchy of the last plan node with that name. */
  lemma {:induction false} TypesOfValues(nodes: seq<PlanNode>, i: int)
    requires 0 <= i < |nodes|
    requires forall j :: i < j < |nodes| ==> nodes[j].name != nodes[i].name
    ensures TypesOf(nodes)[nodes[i].name] == nodes[i].typeHierarchy
  {
    var n := |nodes| - 1;
    if i < n {
      var front := nodes[..n];
      assert front[i] == nodes[i];
      forall j | i < j < n ensures front[j].name != front[i].name {
        assert front[j] == nodes[j];
      }
      TypesOfValues(front, i);
    }
  }

  /**
   * `connected_sec_groups` after the loop over `relationships`, or `None`
   * when a target is not a key of `types`.
   */
  function SecTargets(relationships: seq<Relationship>, types: map<string, seq<string>>): Option<seq<string>> {
    if relationships == [] then Some([])
    else
      var n := |relationships| - 1;
      match SecTargets(relationships[..n], types)
      case None => None
      case Some(connected) =>
        var target := relationships[n].targetId;
        if target !in types then None
        else if IsSecurityGroup(types[target]) then Some(connected + [target])
        else Some(connected)
  }

  /** The scan of the plan nodes from index `k` on, stopping at the first compute node with two or more. */
  function MultiSecFrom(nodes: seq<PlanNode>, types: map<string, seq<string>>, k: nat): Option<bool>
    requires forall i :: 0 <= i < |nodes| ==> nodes[i].name in types
    decreases |nodes| - k
  {
    if k >= |nodes| then Some(false)
    else if ComputeType !in types[nodes[k].name] then MultiSecFrom(nodes, types, k + 1)
    else
      match SecTargets(nodes[k].relationships, types)
      case None => None
      case Some(connected) =>
        if |connected| > 1 then Some(true) else MultiSecFrom(nodes, types, k + 1)
  }

  /** What `_has_multi_sec_nodes` returns, or `None` when it raises. */
  function MultiSecNodesOf(nodes: seq<PlanNode>): Option<bool> {
    var types := TypesOf(nodes);
    assert forall i :: 0 <= i < |nodes| ==> nodes[i].name in types by {
      forall i | 0 <= i < |nodes| ensures nodes[i].name in types { }
    }
    MultiSecFrom(nodes, types, 0)
  }

  // ---------------------------------------------------------------------
  // Reference definitions and properties

  /** The indices of the relationships whose target is a declared security group. */
  ghost function SecRelIndices(relationships: seq<Relationship>, types: map<string, seq<string>>): set<int> {
    set j | 0 <= j < |relationships| && relationships[j].targetId in types &&
      IsSecurityGroup(types[relationships[j].targetId])
  }

  ghost predicate AllDeclared(relationships: seq<Relationship>, types: map<string, seq<string>>) {
    forall j :: 0 <= j < |relationships| ==> relationships[j].targetId in types
  }

  lemma SecRelIndicesStep(relationships: seq<Relationship>, types: map<string, seq<string>>)
    requires relationships != []
    ensures var n := |relationships| - 1;
      SecRelIndices(relationships, types) ==
        SecRelIndices(relationships[..n], types) +
        (if relationships[n].targetId in types && IsSecurityGroup(types[relationships[n].targetId]) then {n} else {})
  {
    var n := |relationships| - 1;
    assert forall j :: 0 <= j < n ==> relationships[..n][j] == relationships[j];
  }

  /**
   * The relationships loop raises exactly when some target is undeclared;
   * otherwise the list has one entry per relationship to a security group,
   * duplicates included, and holds only security-group targets.
   */
  lemma {:induction false} SecTargetsSpec(relationships: seq<Relationship>, types: map<string, seq<string>>)
    ensures SecTargets(relationships, types).None? <==> !AllDeclared(relationships, types)
    ensures SecTargets(relationships, types).Some? ==>
      && |SecTargets(relationships, types).value| == |SecRelIndices(relationships, types)|
      && forall t :: t in SecTargets(relationships, types).value ==> t in types && IsSecurityGroup(types[t])
  {
    if relationships != [] {
      var n := |relationships| - 1;
      var front := relationships[..n];
      SecTargetsSpec(front, types);
      SecRelIndicesStep(relationships, types);
      assert forall j :: 0 <= j < n ==> front[j] == relationships[j];
      if SecTargets(relationships, types).Some? {
        assert n !in SecRelIndices(front, types);
      }
    }
  }

  /** The scan from `k` on, with every target declared, against the reference count. */
  lemma {:induction false} MultiSecFromSpec(nodes: seq<PlanNode>, types: map<string, seq<string>>, k: nat)
    requires forall i :: 0 <= i < |nodes| ==> nodes[i].name in types
    requires forall i :: 0 <= i < |nodes| && ComputeType in types[nodes[i].name] ==> AllDeclared(nodes[i].relationships, types)
    ensures MultiSecFrom(nodes, types, k) == Some(exists i :: (k <= i < |nodes| &&
      ComputeType in types[nodes[i].name] && |SecRelIndices(nodes[i].relationships, types)| > 1))
    decreases |nodes| - k
  {
    if k < |nodes| {
      MultiSecFromSpec(nodes, types, k + 1);
      SecTargetsSpec(nodes[k].relationships, types);
    }
  }

  /**
   * When every relationship of a compute node targets a declared node,
   * `_has_multi_sec_nodes` returns, and returns true exactly when some
   * compute node has more than one relationship to a security group. The
   * relationships of other nodes are never read.
   */
  lemma MultiSecExact(nodes: seq<PlanNode>)
    requires forall i :: 0 <= i < |nodes| && ComputeType in TypesOf(nodes)[nodes[i].name] ==>
      AllDeclared(nodes[i].relationships, TypesOf(nodes))
    ensures MultiSecNodesOf(nodes) == Some(exists i :: (0 <= i < |nodes| &&
      ComputeType in TypesOf(nodes)[nodes[i].name] &&
      |SecRelIndices(nodes[i].relationships, TypesOf(nodes))| > 1))
  {
    var types := TypesOf(nodes);
    assert forall i :: 0 <= i < |nodes| ==> nodes[i].name in types by {
      forall i | 0 <= i < |nodes| ensures nodes[i].name in types { }
    }
    MultiSecFromSpec(nodes, types, 0);
  }

  /** The scan from `k` stops with true at compute node `i` when no compute node before it raises. */
  lemma {:induction false} MultiSecFromTrue(nodes: seq<PlanNode>, types: map<string, seq<string>>, k: nat, i: nat)
    requires forall j :: 0 <= j < |nodes| ==> nodes[j].name in types
    requires k <= i < |nodes| && ComputeType in types[nodes[i].name]
    requires AllDeclared(nodes[i].relationships, types) && |SecRelIndices(nodes[i].relationships, types)| > 1
    requires forall j :: k <= j < i && ComputeType in types[nodes[j].name] ==> AllDeclared(nodes[j].relationships, types)
    ensures MultiSecFrom(nodes, types, k) == Some(true)
    decreases i - k
  {
    SecTargetsSpec(nodes[k].relationships, types);
    if k < i {
      MultiSecFromTrue(nodes, types, k + 1, i);
    }
  }

  /**
   * A compute node with more than one relationship to a security group
   * makes `_has_multi_sec_nodes` return true, whatever the nodes after it
   * hold, once no compute node before it has an undeclared target.
   */
  lemma MultiSecFirstWins(nodes: seq<PlanNode>, i: nat)
    requires i < |nodes| && ComputeType in TypesOf(nodes)[nodes[i].name]
    requires AllDeclared(nodes[i].relationships, TypesOf(nodes))
    requires |SecRelIndices(nodes[i].relationships, TypesOf(nodes))| > 1
    requires forall j :: 0 <= j < i && ComputeType in TypesOf(nodes)[nodes[j].name] ==>
      AllDeclared(nodes[j].relationships, TypesOf(nodes))
    ensures MultiSecNodesOf(nodes) == Some(true)
  {
    var types := TypesOf(nodes);
    assert forall j :: 0 <= j < |nodes| ==> nodes[j].name in types by {
      forall j | 0 <= j < |nodes| ensures nodes[j].name in types { }
    }
    MultiSecFromTrue(nodes, types, 0, i);
  }

  /** The scan raises only at a compute node with an undeclared target. */
  lemma {:induction false} MultiSecFromRaises(nodes: seq<PlanNode>, types: map<string, seq<string>>, k: nat)
    requires forall i :: 0 <= i < |nodes| ==> nodes[i].name in types
    requires MultiSecFrom(nodes, types, k).None?
    ensures exists i :: (k <= i < |nodes| && ComputeType in types[nodes[i].name] &&
      !AllDeclared(nodes[i].relationships, types))
    decreases |nodes| - k
  {
    if ComputeType in types[nodes[k].name] && SecTargets(nodes[k].relationships, types).None? {
      SecTargetsSpec(nodes[k].relationships, types);
    } else {
      MultiSecFromRaises(nodes, types, k + 1);
    }
  }

  /** `_has_multi_sec_nodes` raises only when a compute node has an undeclared target. */
  lemma MultiSecRaises(nodes: seq<PlanNode>)
    requires MultiSecNodesOf(nodes).None?
    ensures exists i :: (0 <= i < |nodes| && ComputeType in TypesOf(nodes)[nodes[i].name] &&
      !AllDeclared(nodes[i].relationships, TypesOf(nodes)))
  {
    var types := TypesOf(nodes);
    assert forall i :: 0 <= i < |nodes| ==> nodes[i].name in types by {
      forall i | 0 <= i < |nodes| ensures nodes[i].name in types { }
    }
    MultiSecFromRaises(nodes, types, 0);
  }

  // ---------------------------------------------------------------------
  // _has_multi_sec_nodes itself

  /** Once an undeclared target is met, the relationships loop has raised. */
  lemma {:induction false} SecTargetsFailureSticks(relationships: seq<Relationship>, types: map<string, seq<string>>, k: nat)
    requires k <= |relationships|
    requires SecTargets(relationships[..k], types).None?
    ensures SecTargets(relationships, types).None?
    decreases |relationships| - k
  {
    if k < |relationships| {
      assert relationships[..k + 1][..k] == relationships[..k];
      SecTargetsFailureSticks(relationships, types, k + 1);
    } else {
      assert relationships[..k] == relationships;
    }
  }

  /** The loop over one compute node's relationships. */
  method ConnectedSecGroups(relationships: seq<Relationship>, types: map<string, seq<string>>)
    returns (connected: Option<seq<string>>)
    ensures connected == SecTargets(relationships, types)
  {
    var found: seq<string> := [];
    var j := 0;
    while j < |relationships|
      invariant 0 <= j <= |relationships|
      invariant SecTargets(relationships[..j], types) == Some(found)
    {
      var target := relationships[j].targetId;
      assert relationships[..j + 1][..j] == relationships[..j];
      if target !in types {
        SecTargetsFailureSticks(relationships, types, j + 1);
        return None;
      }
      if SecurityGroupType in types[target] {
        found := found + [target];
      }
      j := j + 1;
    }
    assert relationships[..j] == relationships;
    connected := Some(found);
  }

  /** `_has_multi_sec_nodes`: `None` stands for the `KeyError` of an undeclared target. */
  method HasMultiSecNodes(nodes: seq<PlanNode>) returns (result: Option<bool>)
    ensures result == MultiSecNodesOf(nodes)
  {
    var types: map<string, seq<string>> := map[];
    var i := 0;
    while i < |nodes|
      invariant 0 <= i <= |nodes|
      invariant types == TypesOf(nodes[..i])
    {
      assert nodes[..i + 1][..i] == nodes[..i];
      types := types[nodes[i].name := nodes[i].typeHierarchy];
      i := i + 1;
    }
    assert nodes[..i] == nodes;
    assert forall i :: 0 <= i < |nodes| ==> nodes[i].name in types;
    var k := 0;
    while k < |nodes|
      invariant 0 <= k <= |nodes|
      invariant MultiSecFrom(nodes, types, k) == MultiSecNodesOf(nodes)
    {
      var name := nodes[k].name;
      if ComputeType in types[name] {
        var connected := ConnectedSecGroups(nodes[k].relationships, types);
        if connected.None? {
          return None;
        }
        if |connected.value| > 1 {
          return Some(true);
        }
      }
      k := k + 1;
    }
    result := Some(false);
  }
}
