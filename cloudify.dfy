/**
 * The snapshot the report reads from a manager's REST service and from the
 * command line: nodes and node instances of deployments, blueprint plans,
 * and the options of the `generate` command.
 */
module Cloudify {
  import opened Wrappers

  /** A JSON value, as node properties and runtime properties hold them. */
  datatype Json =
    | Null
    | Bool(b: bool)
    | Int(i: int)
    | Str(s: string)
    | Arr(items: seq<Json>)
    | Obj(fields: map<string, Json>)

  /** The type names the report looks for in a type hierarchy. */
  const ComputeType := "cloudify.nodes.Compute"
  const SecurityGroupType := "cloudify.nodes.SecurityGroup"
  const WindowsType := "cloudify.openstack.nodes.WindowsServer"

  /** A node of a deployment, as `client.nodes.list` returns it. */
  datatype Node = Node(id: string, typeHierarchy: seq<string>, properties: map<string, Json>)

  /** A node instance, as `client.node_instances.list` returns it. */
  datatype NodeInstance = NodeInstance(id: string, state: string, runtimeProperties: map<string, Json>)

  /** One node of a deployment together with the instances listed for it. */
  datatype NodeListing = NodeListing(node: Node, instances: seq<NodeInstance>)

  /**
   * A deployment. `listing` is what the node and node-instance listings of
   * the deployment return, in order; `None` when one of those REST calls
   * raises.
   */
  datatype Deployment = Deployment(id: string, blueprintId: string, listing: Option<seq<NodeListing>>)

  /** A relationship of a blueprint plan node; only its target is read. */
  datatype Relationship = Relationship(targetId: string)

  /** A node of a blueprint's plan (`blueprint.plan['nodes']`). */
  datatype PlanNode = PlanNode(name: string, typeHierarchy: seq<string>, relationships: seq<Relationship>)

  datatype Blueprint = Blueprint(id: string, planNodes: seq<PlanNode>)

  /**
   * The options of the `generate` command that the report reads. A string
   * option is "" when it is not given (Python's None and "" are both false).
   */
  datatype Config = Config(
    manager: string,
    env: string,
    deploymentStates: bool,
    blueprintsStates: bool,
    blueprint: string,
    testManagerSsh: bool)
}
