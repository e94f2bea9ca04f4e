# A verified model of the cloudify-migration report generator

The `generate` command of the cloudify-migration tooling (`report.py`) builds a
JSON report about a fleet of Cloudify managers. For every environment of every
manager it:

- reads the manager's address;
- probes the manager with `wget`;
- asks the manager's REST service for its version;
- optionally runs an ssh self-test through a version-specific handler: 3.1
  runs commands directly, 3.2 runs them inside the `cfy` container;
- optionally rolls up every blueprint:
  - a security-group risk check over its plan;
  - its deployments, and for each the states of its node instances and an
    agent record for each instance of a compute node.

`perform` then totals three counters over all environments.

This project models that core in Dafny and proves what it promises.

| file | module | models |
|---|---|---|
| `cloudify.dfy` | `Cloudify` | the REST snapshot: nodes, instances, deployments, blueprint plans; the command options |
| `deployment_states.dfy` | `DeploymentStates` | `_get_deployment_states` |
| `topology.dfy` | `Topology` | `_has_multi_sec_nodes` |
| `blueprints.dfy` | `Blueprints` | `insert_blueprint_report` and `_get_blueprints` |
| `remote.dfy` | `Remote` | the handlers: which `scp`/`ssh` subprocesses each operation starts, with which argument lists, and how a failing subprocess raises |
| `remote_files.dfy` | `RemoteFiles` | a small file-system semantics for those traces: local files, the manager host's files, and the 3.2 container's files, which see the ssh user's home at `/tmp/home/` |
| `self_test.dfy` | `SelfTest` | the ssh self-test of `prepare_report`, including the `with` block of `RemoteFile` |
| `report.dfy` | `Report` | `prepare_report`, `insert_env_report` and `Generate.perform`: filtering, one slot per environment, totals |
| `py_text.dfy` | `PyText` | Python 2's `repr` of a byte string, the text of a `KeyError` |
| `sums.dfy`, `slots.dfy`, `wrappers.dfy` | `Sums`, `Slots`, `Wrappers` | sums over dictionaries in any order; dictionaries filled slot by slot; `Option`/`Result` |

## How the model follows the code

- **Loops become methods.** Each loop of the source is a method with a `while`
  loop, proved equal to a reference function. This covers the nested loops of
  `_get_deployment_states`, both loops of `_has_multi_sec_nodes`, the slot
  allocation and sum of `_get_blueprints`, and the `--env` filter, slot filling
  and totals of `perform`.
- **Dictionary order is free.** Loops over a dictionary pick their next key
  with `:|`, so they are proved correct for every iteration order.
- **Straight-line code becomes functions.** This covers the handlers, the
  argument lists, status and `ok`, and the self-test.
- **Exceptions are values.** An exception becomes an `Option`/`Result` error
  carrying the text `str(e)` would give; for a `KeyError` that is Python 2's
  `repr` of the key, quoting and escapes included. This includes the `KeyError` cases,
  such as `'config'`, `'MANAGER_IP_ADDRESS'`, `'environments'` and an unknown
  `--manager`.
- **Half-filled slots are kept.** An exception inside a blueprint's thread
  leaves that blueprint's slot half filled, and the model keeps that state.
- **Threads run one after the other.** The source starts one thread per
  blueprint and per environment. Each thread writes only into a slot allocated
  before it starts, so the model runs the units in turn.
- **Handler operations are traces.** Each operation is a sequence of
  `send_file`, `load_file` and `execute` steps. A step maps to exactly one
  argument list and one error text, and a trace stops at the first non-zero
  exit status. Exit statuses come from a parameter, so the same argument list
  gives the same status.

Three behaviours of the code are worth knowing before reading the model:

- **Relationships, not groups.** `_has_multi_sec_nodes` appends every
  security-group target, so two relationships from one compute node to the
  same group count twice. `Topology.SecTargetsSpec` counts relationships.
- **The result file is removed only after a successful fetch.** The self-test
  removes the result file on the manager only after `python_call` and
  `retrieve_file` succeed; `SelfTest.SelfTestFetchFails` proves the removal is
  never started otherwise. The injected script, by contrast, is always removed
  once injected (`SelfTest.SelfTestCleansUp`).
- **The 3.2 staging copy stays.** On 3.2, `retrieve_file` leaves its staging
  copy in the ssh user's home on the host (`RemoteFiles.RetrieveDelivers`).

## Model

| member | source | states |
|---|---|---|
| `DeploymentStates.Status` | report.py:55-60 | no state gives `empty`, more than one gives `mixed`, exactly one gives that state itself |
| `DeploymentStates.OkExactly` | report.py:62-66 | `ok` holds exactly for no states, `{started}` or `{empty}`; mixed states are never ok |
| `DeploymentStates.VisitsExact` | report.py:43-45 | the nested loops visit exactly the (node, instance) pairs of the listing |
| `DeploymentStates.StatesExact` | report.py:41-46 | `states` is exactly the set of states of the deployment's instances |
| `DeploymentStates.AgentsExact` | report.py:47-53 | an agent entry exists exactly for the instance ids of compute nodes |
| `DeploymentStates.AgentsSeenValues` | report.py:48-53 | each agent entry is the record of the last compute-node instance with that id: state, ip with fallback, agent config, Windows flag |
| `DeploymentStates.ReportKeys` | report.py:62 | the result has a report for the id of every deployment and no other key |
| `DeploymentStates.ReportValues` | report.py:62 | the report stored under a deployment's id is the rollup of that deployment's listing, when no later deployment has the same id |
| `DeploymentStates.AgentsCountIsSum` | report.py:61 | with distinct deployment ids, `agents_count` is the sum of the sizes of the agent maps |
| `DeploymentStates.VisitInstances` | report.py:44-53 | the loop over one node's instances adds exactly their states and their agent records to what was met before |
| `DeploymentStates.RollupDeployment` | report.py:41-66 | the loops compute the reference report of one deployment: states, agents, status, ok |
| `DeploymentStates.GetDeploymentStates` | report.py:36-67 | the loop over deployments is the reference rollup, and it returns exactly when every listing does |
| `DeploymentStates.FailureSticks` | report.py:43-44 | once one listing has raised, the whole rollup raises |
| `Topology.TypesOf` | report.py:71-73 | `types` has a key for exactly the names of the plan nodes |
| `Topology.TypesOfValues` | report.py:71-73 | each name holds the type hierarchy of the last plan node with that name |
| `Topology.SecTargetsSpec` | report.py:77-81 | the relationships loop raises exactly when a target is undeclared; otherwise it lists one entry per relationship to a security group, and only such targets |
| `Topology.MultiSecExact` | report.py:70-84 | if every target is declared, the check returns true exactly when some compute node has more than one relationship to a security group |
| `Topology.MultiSecRaises` | report.py:76-80 | the check raises only at a compute node with an undeclared target |
| `Topology.MultiSecFirstWins` | report.py:74-83 | a compute node with more than one security-group relationship makes the check return true, whatever later nodes hold, once no earlier compute node has an undeclared target |
| `Topology.ConnectedSecGroups` | report.py:77-81 | the relationships loop computes the reference list, or raises |
| `Topology.HasMultiSecNodes` | report.py:70-84 | both loops together compute the reference result |
| `Blueprints.MatchingMembers` | report.py:88 | the filter keeps exactly the deployments of the blueprint |
| `Blueprints.MatchingCount` | report.py:88-89 | the number of kept deployments equals the number of deployments of the blueprint |
| `Blueprints.BlueprintReportCounts` | report.py:86-89 | the slot's `multi_sec_nodes` is the risk check's result; a raising check leaves the slot empty; otherwise `deployments_count` counts the blueprint's deployments |
| `Blueprints.BlueprintReportDeployments` | report.py:90-91 | deployment reports are present exactly when asked for, the check returned and every listing returned; they are then keyed by exactly the blueprint's deployment ids, next to `agents_count` |
| `DeploymentStates.DeploymentStatesDefined` | report.py:43-44 | the rollup of a list returns exactly when every listing returns |
| `Blueprints.InsertBlueprintReport` | report.py:86-91 | filling the slot field by field gives the reference slot |
| `Blueprints.BlueprintSlotsSpec` | report.py:97-100 | there is a slot for every blueprint id and no other; a blueprint whose id does not come again owns its slot |
| `Blueprints.GetBlueprints` | report.py:94-108 | the loops give the reference slots, and their agent counts summed with 0 where absent |
| `Blueprints.SumAgents` | report.py:105-107 | the sum loop gives the agent counts of all slots, 0 where absent, in any order |
| `Slots.SlotsKeys` | report.py:97-98 | filling a dictionary slot by slot gives exactly the keys written |
| `Slots.SlotsValues` | report.py:97-100 | each key holds the value written last for it |
| `Sums.SumOverRemove` | report.py:106-107 | the sum over a dictionary's values can remove any key first, so the order is irrelevant |
| `Remote.Join` | report.py:21-22 | `os.path.join`: an absolute second part replaces the first; otherwise it is appended, with one `/` when needed |
| `Remote.ExpandUser` | report.py:134 | `os.path.expanduser` leaves a path that is not `~` or `~/...` as it is, and otherwise keeps the part after `~` at the end of a non-empty result |
| `Remote.ExpandUserIdempotent` | report.py:134 | with an absolute home directory, expanding an expanded path changes nothing |
| `Remote.AgentsResourcePath` | report.py:21-22 | a resource is looked up in `<directory>/agents/` |
| `Remote.NatToStringRoundTrip` | report.py:160 | `str` of a timeout is a non-empty digit string that reads back as the number |
| `Remote.ScpArgv` | report.py:127-138 | `scp` gets the key first, then the local and manager ends in the order the direction asks for |
| `Remote.ExecuteArgv` | report.py:155-163 | `ssh` ends with the command; a truthy timeout adds exactly the `timeout <n>` prefix, otherwise there is none |
| `Remote.GetHandler` | report.py:208-212 | the 3.1 handler is chosen exactly for versions that start with `3.1` |
| `Remote.NestedRoutesThroughContainer` | report.py:187-204 | every 3.2 command of `Remote.RemoveFile`, `Remote.PythonCall`, `Remote.InjectFile` and `Remote.RetrieveFile` runs through `sudo docker exec cfy`; the staged file's host name is the container's `/tmp/home/` name |
| `Remote.RunCallsSucceeds` | report.py:139-140 | a trace raises exactly when one of its subprocesses fails; if none fails, all are started in order |
| `Remote.RunCallsFails` | report.py:164-166 | a raising trace has started every subprocess up to the first failing one, and raises that one's error |
| `Remote.RunCallsAppend` | report.py:143-147 | running two traces in turn is running their concatenation |
| `Remote.WithRemoteFileFinally` | report.py:116-119 | `RemoteFile` as a `with` block: a failed `__enter__` runs nothing else; otherwise `__exit__` removes the file after the body whatever the body did, the block succeeds exactly when the body and the removal do, and a body that does not raise makes it plain sequencing |
| `RemoteFiles.InjectDelivers` | report.py:187-190 | `Remote.InjectFile`: after `inject_file`, the manager sees the local contents at the target; on 3.2 no staged copy is left |
| `RemoteFiles.RetrieveDelivers` | report.py:192-195 | `Remote.RetrieveFile`: after `retrieve_file`, the local target holds what the manager sees at the source; on 3.2 the staged copy stays |
| `RemoteFiles.RemoveDeletes` | report.py:200-201 | `Remote.RemoveFile` (`remove_file`) deletes the manager's file at that path and no other file the manager sees |
| `RemoteFiles.InjectRetrieveRoundTrip` | report.py:171-195 | a file injected and then retrieved comes back with the contents it was sent with |
| `RemoteFiles.PutResourceDelivers` | report.py:143-147 | `Remote.PutResource` (`put_resource`) leaves the local contents among the manager's resources |
| `SelfTest.SelfTestOutcome` | report.py:231-246 | the self-test passes exactly when every subprocess succeeds and the nonce reads back; it then starts all of them in order |
| `SelfTest.SelfTestCleansUp` | report.py:116-119 | once the script is injected, its removal is the last subprocess, whatever the body does |
| `SelfTest.SelfTestInjectFails` | report.py:116-117 | if the injection fails, the self-test fails and nothing after the injection runs |
| `SelfTest.SelfTestFetchFails` | report.py:237-240 | if running the script or fetching its result fails, the result file's removal is never started |
| `Report.ManagerIp` | report.py:218 | the address is read exactly when `config` and its key exist; otherwise the `KeyError` text |
| `PyText.ReprRoundTrip` | report.py:300-302 | the text of a `KeyError` is Python 2's `repr` of the key, which reads back as the key: no two keys give the same text |
| `PyText.ReprPlain` | report.py:218 | a key of printable characters without `'` or `\` is shown between single quotes as it is |
| `Report.FixedKeyErrors` | report.py:218 | for the keys `config`, `MANAGER_IP_ADDRESS` and `environments`, the `KeyError` text is the key between single quotes |
| `Report.RecordSsh` | report.py:247-250 | `manager_ssh` records whether the self-test passed; a failure records its error; nothing else changes |
| `Report.SelectedBlueprints` | report.py:253-256 | with `--blueprint`, the fetched blueprint alone, or the fetch's error; without it, the whole listing or its error |
| `Report.PrepareReport` | report.py:217-260 | the method computes the reference result and exception of `prepare_report` |
| `Report.InsertEnvReport` | report.py:263-267 | an exception of `prepare_report` becomes the `error` field, with the fixed prefix |
| `Report.MissingIpReport` | report.py:218 | without an address the result is empty apart from the error |
| `Report.InactiveReport` | report.py:219-222 | an inactive environment holds only its address and `inactive` |
| `Report.UnreachableReport` | report.py:223-226 | an unreachable manager's result holds only its address and the message |
| `Report.SelfTestIsolated` | report.py:229-250 | turning on the self-test changes only the two `manager_ssh` fields, which record its outcome |
| `Report.BlueprintStageFields` | report.py:251-259 | the blueprint stage sets only the four blueprint fields |
| `Report.PrepareLeavesErrorUnset` | report.py:217-260 | `prepare_report` never sets `error` |
| `Report.ErrorExactlyWhenRaised` | report.py:263-267 | `error` is set exactly when `prepare_report` raised, and the other fields are as `prepare_report` left them |
| `Report.StageCounts` | report.py:251-259 | the blueprint stage sets all four fields together, from the fetched deployments and blueprints, or sets none |
| `Report.ReportCounts` | report.py:257-259 | an environment with blueprints counts its deployments, its selected blueprints and their agents; one without contributes 0 to every total |
| `Report.SumKey` | report.py:332-337 | each total is the sum of that counter, 0 where absent, over all environments of all managers, in any order |
| `Report.FilterByEnv` | report.py:303-313 | the `--env` loop computes the reference filter, including its `KeyError` |
| `Report.FilterExactly` | report.py:303-313 | the filter keeps exactly the managers with that environment, each reduced to it; it fails exactly when a manager has no `environments` |
| `Report.SelectManagers` | report.py:299-313 | the `--manager` and `--env` filters compute the reference selection, including their `KeyError`s |
| `Report.ReportManager` | report.py:320-326 | one slot per environment of a manager, each filled by `insert_env_report` |
| `Report.ReportManagers` | report.py:317-327 | one slot per environment of every selected manager; it raises exactly when a selected manager has no `environments` |
| `Report.Perform` | report.py:295-337 | the method computes the reference output of `perform` or its exception |
| `Report.PerformOutcome` | report.py:299-337 | `perform` fails exactly on an unknown `--manager` or a considered manager without `environments`; otherwise the tree has exactly the chosen managers and environments, each slot is that environment's report, and the totals are sums over the tree |

## Left out

- Argument parsing is out of scope: `Command`, `Generate.prepare_args`, `prepare_parser`, `_parser`, `main` and `_COMMANDS`. The options are a `Config` value, and an option that is not given is `""`.
- Downloading and parsing the tenants file (`urllib.urlretrieve`, `json.loads`) is out of scope: the managers are a parameter.
- `_output`, `print` and `json.dumps` are I/O and are left out; `perform` returns its output value.
- Subprocesses (`call` of `wget`, `ssh`, `scp`) are modelled by their argument lists and an exit-status parameter. An `OSError` from starting a subprocess is not modelled.
- The `/tmp/index.html` file the probe writes is not modelled.
- `spawn.find_executable('scp')` is a parameter. It returning `None` is not modelled.
- `os.path.expanduser` handles only `~` and `~/...`, with the home directory as a parameter. `~user` forms and the `HOME` lookup are left out.
- The REST client (`get_rest_client`, versions, deployments, blueprints, nodes, node instances) is given as parameters. Listing failures are errors. A failure of `get_rest_client` itself is folded into the version's error.
- `uuid.uuid4`, `tempfile.mkstemp` and reading the local result file are parameters (`Nonces`, `readBack`).
- Threads are run one after another, since each writes only to a slot allocated before it starts. Interleavings and the Python interpreter lock are left out.
- An exception in a `perform` thread is not modelled beyond `insert_env_report`, which catches everything.
- Python dictionary iteration order is not modelled: every loop over a dictionary is proved for any order.
- `states` of a deployment report is modelled as a set, because `list(dep_states)` has no specified order.
- A manager address that is not a string is left out. `inactive` is modelled by its truth value.
- Timeouts other than integers are left out.
- File permissions, `sudo` semantics and the shell's parsing of command text are left out. Commands are modelled as structured values that render to the exact text the source formats.
- `software_replacement_workflow.py` and `retrieve_deployments.py` are not part of this model.
- `DeploymentStates.AgentsCountIsSum`: requires distinct deployment ids. With a repeated id, `agents_count` also counts the agents of reports that a later deployment overwrote.
- `Topology.MultiSecExact`: requires every relationship target of a compute node to be declared; the relationships of other nodes are never read. With an undeclared target the source raises `KeyError` only if it reaches that node before a compute node with two security-group relationships: `Topology.MultiSecRaises` states where a raise comes from and `Topology.MultiSecFirstWins` states the early return.
- `Report.KeyErrorText`: key names are byte strings, as in Python 2; a character above U+00FF has no Python 2 `str` counterpart, and its `\x` escape keeps only the low byte.
- `RemoteFiles.InjectDelivers`: requires the target to differ from the 3.2 staging path. Moving a file onto itself leaves it where it was.
