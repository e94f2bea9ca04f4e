/**
 * The report itself: `prepare_report` and `insert_env_report`
 * (report.py lines 217-267), which fill one environment's result, and the
 * filtering, slot allocation and totals of `Generate.perform`
 * (lines 295-338).
 *
 * Everything an environment's report learns from outside (subprocess exit
 * statuses, the REST client's answers, generated uuids, the contents read
 * back from the local result file) is an `EnvWorld` parameter. The source
 * runs one thread per environment, each writing only the result slot
 * allocated for it before it starts, so the environments are reported one
 * after the other here.
 */
module Report {
  import opened Wrappers
  import opened Cloudify
  import opened Sums
  import opened Remote
  import opened SelfTest
  import opened Blueprints
  import opened PyText

  /** An environment of the tenants file: its `config` dictionary, if present, and whether `inactive` is set to a true value. */
  datatype EnvEntry = EnvEntry(config: Option<map<string, string>>, inactive: bool)

  /** A manager of the tenants file: its `environments` dictionary, if present. */
  datatype Manager = Manager(environments: Option<map<string, EnvEntry>>)

  /** What the outside world answers while one environment is reported. */
  datatype EnvWorld = EnvWorld(
    exit: seq<string> -> int,               // exit status of each subprocess
    version: Result<string>,                // `client.manager.get_version()['version']`
    deployments: Result<seq<Deployment>>,   // `client.deployments.list()`
    blueprints: Result<seq<Blueprint>>,     // `client.blueprints.list()`
    blueprint: Result<Blueprint>,           // `client.blueprints.get(blueprint_id=config.blueprint)`
    nonces: Nonces,
    readBack: string)                       // what the self-test reads from its local result file

  /** The local facts the commands use: the script's directory, the `scp` executable and the home directory. */
  datatype Host = Host(directory: string, scpPath: string, home: string)

  /** One environment's result dictionary; a field is `None` when its key was never set. */
  datatype EnvReport = EnvReport(
    ip: Option<string>,
    inactive: Option<bool>,
    msg: Option<string>,
    version: Option<string>,
    managerSsh: Option<bool>,
    managerSshError: Option<string>,
    blueprints: Option<map<string, BlueprintReport>>,
    agentsCount: Option<int>,
    deploymentsCount: Option<int>,
    blueprintsCount: Option<int>,
    error: Option<string>)

  /** The `{}` a slot starts as. */
  const NewReport := EnvReport(None, None, None, None, None, None, None, None, None, None, None)

  const IpKey := "MANAGER_IP_ADDRESS"
  const UnreachableMessage := "Cant connect to manager"
  const ReportFailure := "Could not create report, cause: "

  /** `str(KeyError(key))`, which Python 2 writes as `repr(key)`. */
  function KeyErrorText(key: string): string {
    Repr(key)
  }

  /** The texts of the `KeyError`s for the fixed keys the program reads. */
  const ConfigKeyError := "'config'"
  const IpKeyError := "'" + IpKey + "'"
  const EnvironmentsKeyError := "'environments'"

  /** For the fixed keys, `repr` is the key between single quotes: the texts above are `str(KeyError(key))`. */
  lemma FixedKeyErrors(key: string)
    requires key == "config" || key == "MANAGER_IP_ADDRESS" || key == "environments"
    ensures KeyErrorText(key) == "'" + key + "'"
  {
    assert forall k :: 0 <= k < |key| ==> Plain(key[k]);
    ReprPlain(key);
  }

  /** The reachability probe. */
  function ProbeArgv(ip: string): seq<string> {
    ["timeout", "2", "wget", ip, "-o", "/tmp/index.html"]
  }

  /** `env['config']['MANAGER_IP_ADDRESS']`, or the text of the `KeyError` it raises. */
  function ManagerIp(env: EnvEntry): (r: Result<string>)
    ensures r.Ok? <==> env.config.Some? && IpKey in env.config.value
    ensures r.Ok? ==> r.value == env.config.value[IpKey]
    ensures env.config.None? ==> r == Err(ConfigKeyError)
    ensures env.config.Some? && IpKey !in env.config.value ==> r == Err(IpKeyError)
  {
    match env.config
    case None => Err(ConfigKeyError)
    case Some(config) => if IpKey in config then Ok(config[IpKey]) else Err(IpKeyError)
  }

  /** The handler's connection for a manager address. */
  function ConnOf(host: Host, ip: string): Conn {
    Conn(ip, host.scpPath, host.home)
  }

  /** The self-test as `prepare_report` runs it against a manager of the given version. */
  function SshCheck(host: Host, ip: string, version: string, w: EnvWorld): Run {
    SelfTestRun(GetHandler(version), ConnOf(host, ip), host.directory, w.nonces, w.readBack, w.exit)
  }

  /** The try block around the self-test: its outcome is recorded, never raised. */
  function RecordSsh(r: EnvReport, check: Run): (r': EnvReport)
    ensures r'.managerSsh == Some(check.error.None?)
    ensures check.error.Some? ==> r'.managerSshError == check.error
    ensures check.error.None? ==> r'.managerSshError == r.managerSshError
    ensures r'.(managerSsh := r.managerSsh, managerSshError := r.managerSshError) == r
  {
    if check.error.None? then r.(managerSsh := Some(true)) else r.(managerSsh := Some(false), managerSshError := check.error)
  }

  /** The blueprints `prepare_report` reports on: the one named in the options, or all of them. */
  function SelectedBlueprints(config: Config, w: EnvWorld): (r: Result<seq<Blueprint>>)
    ensures config.blueprint != "" ==> (r.Ok? <==> w.blueprint.Ok?)
    ensures config.blueprint != "" && r.Ok? ==> r.value == [w.blueprint.value]
    ensures config.blueprint != "" && r.Err? ==> r.error == w.blueprint.error
    ensures config.blueprint == "" ==> r == w.blueprints
  {
    if config.blueprint != "" then
      (match w.blueprint
        case Ok(b) => Ok([b])
        case Err(e) => Err(e))
    else w.blueprints
  }

  /** The blueprint part of `prepare_report`: the report so far, and the text of the exception raised, if any. */
  ghost function BlueprintStage(r: EnvReport, config: Config, w: EnvWorld): (EnvReport, Option<string>) {
    match w.deployments
    case Err(e) => (r, Some(e))
    case Ok(deployments) =>
      match SelectedBlueprints(config, w)
      case Err(e) => (r, Some(e))
      case Ok(blueprints) =>
        var slots := BlueprintSlots(blueprints, deployments, config.deploymentStates);
        (r.(blueprints := Some(slots), agentsCount := Some(SumOver(AgentCounts(slots), slots.Keys)),
            deploymentsCount := Some(|deployments|), blueprintsCount := Some(|blueprints|)),
         None)
  }

  /** `prepare_report` on an empty result: the result it leaves, and the text of the exception it raises, if any. */
  ghost function PrepareReportOf(env: EnvEntry, config: Config, host: Host, w: EnvWorld): (EnvReport, Option<string>) {
    match ManagerIp(env)
    case Err(e) => (NewReport, Some(e))
    case Ok(ip) =>
      var r0 := NewReport.(ip := Some(ip));
      if env.inactive then (r0.(inactive := Some(true)), None)
      else if w.exit(ProbeArgv(ip)) != 0 then (r0.(msg := Some(UnreachableMessage)), None)
      else
        match w.version
        case Err(e) => (r0, Some(e))
        case Ok(version) =>
          var r1 := r0.(version := Some(version));
          var r2 := if config.testManagerSsh then RecordSsh(r1, SshCheck(host, ip, version, w)) else r1;
          if config.blueprintsStates then BlueprintStage(r2, config, w) else (r2, None)
  }

  /** `prepare_report`. */
  method PrepareReport(env: EnvEntry, config: Config, host: Host, w: EnvWorld)
    returns (result: EnvReport, raised: Option<string>)
    ensures (result, raised) == PrepareReportOf(env, config, host, w)
  {
    result := NewReport;
    raised := None;
    var ipOrError := ManagerIp(env);
    if ipOrError.Err? {
      raised := Some(ipOrError.error);
      return;
    }
    var ip := ipOrError.value;
    result := result.(ip := Some(ip));
    if env.inactive {
      result := result.(inactive := Some(true));
      return;
    }
    var status := w.exit(ProbeArgv(ip));
    if status != 0 {
      result := result.(msg := Some(UnreachableMessage));
      return;
    }
    if w.version.Err? {
      raised := Some(w.version.error);
      return;
    }
    var version := w.version.value;
    result := result.(version := Some(version));
    if config.testManagerSsh {
      result := RecordSsh(result, SshCheck(host, ip, version, w));
    }
    if config.blueprintsStates {
      if w.deployments.Err? {
        raised := Some(w.deployments.error);
        return;
      }
      var deployments := w.deployments.value;
      var blueprints := SelectedBlueprints(config, w);
      if blueprints.Err? {
        raised := Some(blueprints.error);
        return;
      }
      var slots, agentsCount := GetBlueprints(blueprints.value, deployments, config);
      result := result.(blueprints := Some(slots), agentsCount := Some(agentsCount));
      result := result.(deploymentsCount := Some(|deployments|), blueprintsCount := Some(|blueprints.value|));
    }
  }

  /** `insert_env_report`: an exception of `prepare_report` becomes the `error` field. */
  ghost function InsertEnvReportOf(env: EnvEntry, config: Config, host: Host, w: EnvWorld): EnvReport {
    var (r, raised) := PrepareReportOf(env, config, host, w);
    if raised.Some? then r.(error := Some(ReportFailure + raised.value)) else r
  }

  method InsertEnvReport(env: EnvEntry, config: Config, host: Host, w: EnvWorld) returns (result: EnvReport)
    ensures result == InsertEnvReportOf(env, config, host, w)
  {
    var raised;
    result, raised := PrepareReport(env, config, host, w);
    if raised.Some? {
      result := result.(error := Some(ReportFailure + raised.value));
    }
  }

  /** An environment without a manager address raises the `KeyError` and sets nothing. */
  lemma MissingIpReport(env: EnvEntry, config: Config, host: Host, w: EnvWorld)
    requires ManagerIp(env).Err?
    ensures PrepareReportOf(env, config, host, w) == (NewReport, Some(ManagerIp(env).error))
    ensures env.config.None? ==>
      InsertEnvReportOf(env, config, host, w) == NewReport.(error := Some(ReportFailure + "'config'"))
  {
  }

  /** An inactive environment's result holds only its address and `inactive: true`. */
  lemma InactiveReport(env: EnvEntry, config: Config, host: Host, w: EnvWorld)
    requires ManagerIp(env).Ok? && env.inactive
    ensures InsertEnvReportOf(env, config, host, w) == NewReport.(ip := Some(ManagerIp(env).value), inactive := Some(true))
  {
  }

  /** An active environment whose manager does not answer the probe holds only its address and the message. */
  lemma UnreachableReport(env: EnvEntry, config: Config, host: Host, w: EnvWorld)
    requires ManagerIp(env).Ok? && !env.inactive && w.exit(ProbeArgv(ManagerIp(env).value)) != 0
    ensures InsertEnvReportOf(env, config, host, w) == NewReport.(ip := Some(ManagerIp(env).value), msg := Some(UnreachableMessage))
  {
  }

  /**
   * The self-test never aborts the report: turning it on changes nothing
   * but the two `manager_ssh` fields, and once the version is known they
   * record whether the self-test passed and its error.
   */
  lemma SelfTestIsolated(env: EnvEntry, config: Config, host: Host, w: EnvWorld)
    ensures var (with, raisedWith) := PrepareReportOf(env, config.(testManagerSsh := true), host, w);
      var (without, raisedWithout) := PrepareReportOf(env, config.(testManagerSsh := false), host, w);
      raisedWith == raisedWithout && with.(managerSsh := None, managerSshError := None) == without
    ensures var (with, _) := PrepareReportOf(env, config.(testManagerSsh := true), host, w);
      with.version.Some? ==>
        var check := SshCheck(host, with.ip.value, with.version.value, w);
        with.managerSsh == Some(check.error.None?) && with.managerSshError == check.error
  {
    match ManagerIp(env)
    case Err(_) =>
    case Ok(ip) =>
      if !env.inactive && w.exit(ProbeArgv(ip)) == 0 && w.version.Ok? {
        var version := w.version.value;
        var r1 := NewReport.(ip := Some(ip), version := Some(version));
        var r2 := RecordSsh(r1, SshCheck(host, ip, version, w));
        BlueprintStageFields(r2, config.(testManagerSsh := true), w);
        BlueprintStageFields(r1, config.(testManagerSsh := false), w);
      }
  }

  /** The blueprint stage sets only the four blueprint fields, and does not read the other options. */
  lemma BlueprintStageFields(r: EnvReport, config: Config, w: EnvWorld)
    ensures var (r', _) := BlueprintStage(r, config, w);
      r'.(blueprints := r.blueprints, agentsCount := r.agentsCount,
          deploymentsCount := r.deploymentsCount, blueprintsCount := r.blueprintsCount) == r
    ensures var (r', raised) := BlueprintStage(r, config, w);
      var (s', raised') := BlueprintStage(r.(managerSsh := None, managerSshError := None), config.(testManagerSsh := !config.testManagerSsh), w);
      raised == raised' && r'.(managerSsh := None, managerSshError := None) == s'
  {
  }

  /** `prepare_report` itself never sets `error`. */
  lemma PrepareLeavesErrorUnset(env: EnvEntry, config: Config, host: Host, w: EnvWorld)
    ensures PrepareReportOf(env, config, host, w).0.error == None
  {
    match ManagerIp(env)
    case Err(_) =>
    case Ok(ip) =>
      if !env.inactive && w.exit(ProbeArgv(ip)) == 0 && w.version.Ok? {
        var version := w.version.value;
        var r1 := NewReport.(ip := Some(ip), version := Some(version));
        var r2 := if config.testManagerSsh then RecordSsh(r1, SshCheck(host, ip, version, w)) else r1;
        BlueprintStageFields(r2, config, w);
      }
  }

  /**
   * `insert_env_report` sets `error` exactly when `prepare_report` raised,
   * to the fixed prefix and the exception's text, and keeps every field
   * `prepare_report` had set before it raised.
   */
  lemma ErrorExactlyWhenRaised(env: EnvEntry, config: Config, host: Host, w: EnvWorld)
    ensures var (r, raised) := PrepareReportOf(env, config, host, w);
      var result := InsertEnvReportOf(env, config, host, w);
      && (result.error.Some? <==> raised.Some?)
      && (raised.Some? ==> result.error == Some(ReportFailure + raised.value))
      && result.(error := None) == r
  {
    PrepareLeavesErrorUnset(env, config, host, w);
  }

  // ---------------------------------------------------------------------
  // Totals over the result tree

  /** The three counters `perform` totals. */
  datatype CountKey = AgentsCount | DeploymentsCount | BlueprintsCount

  /** `env.get(key, 0)`. */
  function CountOf(r: EnvReport, key: CountKey): int {
    match key
    case AgentsCount => r.agentsCount.GetOr(0)
    case DeploymentsCount => r.deploymentsCount.GetOr(0)
    case BlueprintsCount => r.blueprintsCount.GetOr(0)
  }

  ghost function EnvCounts(envs: map<string, EnvReport>, key: CountKey): map<string, int> {
    map e | e in envs :: CountOf(envs[e], key)
  }

  /** The sum of one counter over a manager's environments. */
  ghost function ManagerTotal(envs: map<string, EnvReport>, key: CountKey): int {
    SumOver(EnvCounts(envs, key), envs.Keys)
  }

  ghost function ManagerTotals(tree: map<string, map<string, EnvReport>>, key: CountKey): map<string, int> {
    map m | m in tree :: ManagerTotal(tree[m], key)
  }

  /** The sum of one counter over every environment of every manager. */
  ghost function Total(tree: map<string, map<string, EnvReport>>, key: CountKey): int {
    SumOver(ManagerTotals(tree, key), tree.Keys)
  }

  /** The loop that totals one counter, visiting managers and environments in any order. */
  method SumKey(tree: map<string, map<string, EnvReport>>, key: CountKey) returns (val: int)
    ensures val == Total(tree, key)
  {
    val := 0;
    var managers := tree.Keys;
    while managers != {}
      invariant managers <= tree.Keys
      invariant val == SumOver(ManagerTotals(tree, key), tree.Keys - managers)
      decreases managers
    {
      var name :| name in managers;
      var envs := tree[name];
      ghost var before := val;
      var left := envs.Keys;
      while left != {}
        invariant left <= envs.Keys
        invariant val == before + SumOver(EnvCounts(envs, key), envs.Keys - left)
        decreases left
      {
        var envName :| envName in left;
        SumOverAdd(EnvCounts(envs, key), envs.Keys - left, envName);
        assert envs.Keys - (left - {envName}) == (envs.Keys - left) + {envName};
        val := val + CountOf(envs[envName], key);
        left := left - {envName};
      }
      assert envs.Keys - left == envs.Keys;
      SumOverAdd(ManagerTotals(tree, key), tree.Keys - managers, name);
      assert tree.Keys - (managers - {name}) == (tree.Keys - managers) + {name};
      managers := managers - {name};
    }
    assert tree.Keys - managers == tree.Keys;
  }

  /**
   * What an environment adds to the totals: the blueprint and deployment
   * counts and the summed agent count when its blueprint stage completed,
   * and 0 to every total otherwise.
   */
  lemma ReportCounts(env: EnvEntry, config: Config, host: Host, w: EnvWorld)
    ensures var r := InsertEnvReportOf(env, config, host, w);
      r.blueprints.Some? ==>
        && w.deployments.Ok? && SelectedBlueprints(config, w).Ok?
        && CountOf(r, DeploymentsCount) == |w.deployments.value|
        && CountOf(r, BlueprintsCount) == |SelectedBlueprints(config, w).value|
        && CountOf(r, AgentsCount) == SumOver(AgentCounts(r.blueprints.value), r.blueprints.value.Keys)
        && r.blueprints.value == BlueprintSlots(SelectedBlueprints(config, w).value, w.deployments.value, config.deploymentStates)
    ensures var r := InsertEnvReportOf(env, config, host, w);
      r.blueprints.None? ==> forall key :: CountOf(r, key) == 0
  {
    ErrorExactlyWhenRaised(env, config, host, w);
    PrepareCounts(env, config, host, w);
    var result := InsertEnvReportOf(env, config, host, w);
    var r := PrepareReportOf(env, config, host, w).0;
    assert result.(error := None) == r;
    assert result.blueprints == r.blueprints && result.agentsCount == r.agentsCount;
    assert result.deploymentsCount == r.deploymentsCount && result.blueprintsCount == r.blueprintsCount;
  }

  /** The counts `prepare_report` leaves, before `insert_env_report` records its exception. */
  lemma PrepareCounts(env: EnvEntry, config: Config, host: Host, w: EnvWorld)
    ensures var r := PrepareReportOf(env, config, host, w).0;
      r.blueprints.Some? ==>
        && w.deployments.Ok? && SelectedBlueprints(config, w).Ok?
        && r.deploymentsCount == Some(|w.deployments.value|)
        && r.blueprintsCount == Some(|SelectedBlueprints(config, w).value|)
        && r.agentsCount == Some(SumOver(AgentCounts(r.blueprints.value), r.blueprints.value.Keys))
        && r.blueprints.value == BlueprintSlots(SelectedBlueprints(config, w).value, w.deployments.value, config.deploymentStates)
    ensures var r := PrepareReportOf(env, config, host, w).0;
      r.blueprints.None? ==> r.agentsCount.None? && r.deploymentsCount.None? && r.blueprintsCount.None?
  {
    match ManagerIp(env)
    case Err(_) =>
    case Ok(ip) =>
      if !env.inactive && w.exit(ProbeArgv(ip)) == 0 && w.version.Ok? {
        var version := w.version.value;
        var r1 := NewReport.(ip := Some(ip), version := Some(version));
        var r2 := if config.testManagerSsh then RecordSsh(r1, SshCheck(host, ip, version, w)) else r1;
        assert r2.blueprints.None? && r2.agentsCount.None? && r2.deploymentsCount.None? && r2.blueprintsCount.None?;
        if config.blueprintsStates {
          StageCounts(r2, config, w);
        }
      }
  }

  /** The blueprint stage sets its four fields together, from the deployments and blueprints it fetched, or none of them. */
  lemma StageCounts(r: EnvReport, config: Config, w: EnvWorld)
    requires r.blueprints.None? && r.agentsCount.None? && r.deploymentsCount.None? && r.blueprintsCount.None?
    ensures var r' := BlueprintStage(r, config, w).0;
      r'.blueprints.Some? ==>
        && w.deployments.Ok? && SelectedBlueprints(config, w).Ok?
        && r'.deploymentsCount == Some(|w.deployments.value|)
        && r'.blueprintsCount == Some(|SelectedBlueprints(config, w).value|)
        && r'.agentsCount == Some(SumOver(AgentCounts(r'.blueprints.value), r'.blueprints.value.Keys))
        && r'.blueprints.value == BlueprintSlots(SelectedBlueprints(config, w).value, w.deployments.value, config.deploymentStates)
    ensures var r' := BlueprintStage(r, config, w).0;
      r'.blueprints.None? ==> r' == r
  {
  }

  // ---------------------------------------------------------------------
  // Generate.perform

  /** A manager reduced to its environment named `env`. */
  function Reduced(environments: map<string, EnvEntry>, env: string): Manager
    requires env in environments
  {
    Manager(Some(map[env := environments[env]]))
  }

  predicate HasEnvironments(managers: map<string, Manager>) {
    forall name :: name in managers ==> managers[name].environments.Some?
  }

  /**
   * The `--env` filter: the managers that have an environment of that
   * name, each reduced to it; a manager without `environments` raises
   * `KeyError`.
   */
  ghost function FilteredOf(managers: map<string, Manager>, env: string): Result<map<string, Manager>> {
    if !HasEnvironments(managers) then Err(EnvironmentsKeyError)
    else Ok(map name | name in managers && env in managers[name].environments.value ::
      Reduced(managers[name].environments.value, env))
  }

  method FilterByEnv(managers: map<string, Manager>, env: string) returns (res: Result<map<string, Manager>>)
    ensures res == FilteredOf(managers, env)
  {
    var newManagers: map<string, Manager> := map[];
    var left := managers.Keys;
    while left != {}
      invariant left <= managers.Keys
      invariant forall name :: name in managers.Keys - left ==> managers[name].environments.Some?
      invariant forall name :: name in newManagers <==>
        (name in managers.Keys - left && env in managers[name].environments.value)
      invariant forall name :: name in newManagers ==> newManagers[name] == Reduced(managers[name].environments.value, env)
      decreases left
    {
      var name :| name in left;
      var manager := managers[name];
      if manager.environments.None? {
        return Err(EnvironmentsKeyError);
      }
      var environments := manager.environments.value;
      var envs: map<string, EnvEntry> := map[];
      var envLeft := environments.Keys;
      while envLeft != {}
        invariant envLeft <= environments.Keys
        invariant forall e :: e in envs <==> e in environments.Keys - envLeft && e == env
        invariant forall e :: e in envs ==> envs[e] == environments[e]
        decreases envLeft
      {
        var envName :| envName in envLeft;
        if envName == env {
          envs := envs[envName := environments[envName]];
        }
        envLeft := envLeft - {envName};
      }
      if envs != map[] {
        assert env in envs;
        assert envs == map[env := environments[env]];
        newManagers := newManagers[name := manager.(environments := Some(envs))];
      } else {
        assert env !in environments;
      }
      left := left - {name};
    }
    assert managers.Keys - left == managers.Keys;
    assert HasEnvironments(managers);
    var expected := map name | name in managers && env in managers[name].environments.value ::
      Reduced(managers[name].environments.value, env);
    assert newManagers.Keys == expected.Keys;
    assert newManagers == expected;
    return Ok(newManagers);
  }

  /** `Generate.perform`'s output: the result tree and the three totals. */
  datatype Output = Output(
    managers: map<string, map<string, EnvReport>>,
    agentsCount: int,
    deploymentsCount: int,
    blueprintsCount: int)

  /** The `--manager` and `--env` filters; an unknown `--manager` raises `KeyError`. */
  ghost function SelectedOf(managers: map<string, Manager>, config: Config): Result<map<string, Manager>> {
    if config.manager != "" && config.manager !in managers then Err(KeyErrorText(config.manager))
    else
      var byManager := if config.manager != "" then map[config.manager := managers[config.manager]] else managers;
      if config.env != "" then FilteredOf(byManager, config.env) else Ok(byManager)
  }

  /** One result slot per environment of a manager, each filled by `insert_env_report`. */
  ghost function ManagerSlots(name: string, environments: map<string, EnvEntry>, config: Config, host: Host,
                              worlds: (string, string) -> EnvWorld): map<string, EnvReport>
  {
    map envName | envName in environments :: InsertEnvReportOf(environments[envName], config, host, worlds(name, envName))
  }

  /** The slots of every selected manager. */
  ghost function TreeOf(selected: map<string, Manager>, config: Config, host: Host, worlds: (string, string) -> EnvWorld)
    : map<string, map<string, EnvReport>>
    requires HasEnvironments(selected)
  {
    map name | name in selected :: ManagerSlots(name, selected[name].environments.value, config, host, worlds)
  }

  /** `Generate.perform`, up to the output it writes, or the text of the exception that ends it. */
  ghost function PerformOf(managers: map<string, Manager>, config: Config, host: Host, worlds: (string, string) -> EnvWorld)
    : Result<Output>
  {
    match SelectedOf(managers, config)
    case Err(e) => Err(e)
    case Ok(selected) =>
      if !HasEnvironments(selected) then Err(EnvironmentsKeyError)
      else
        var tree := TreeOf(selected, config, host, worlds);
        Ok(Output(tree, Total(tree, AgentsCount), Total(tree, DeploymentsCount), Total(tree, BlueprintsCount)))
  }

  /** Fills the slots of one manager's environments. */
  method ReportManager(name: string, environments: map<string, EnvEntry>, config: Config, host: Host,
                       worlds: (string, string) -> EnvWorld)
    returns (mgrResult: map<string, EnvReport>)
    ensures mgrResult == ManagerSlots(name, environments, config, host, worlds)
  {
    mgrResult := map[];
    var left := environments.Keys;
    while left != {}
      invariant left <= environments.Keys
      invariant mgrResult == map envName | envName in environments.Keys - left ::
        InsertEnvReportOf(environments[envName], config, host, worlds(name, envName))
      decreases left
    {
      var envName :| envName in left;
      var envResult := InsertEnvReport(environments[envName], config, host, worlds(name, envName));
      mgrResult := mgrResult[envName := envResult];
      left := left - {envName};
    }
  }

  /** The `--manager` and `--env` filters of `perform`. */
  method SelectManagers(managers: map<string, Manager>, config: Config) returns (res: Result<map<string, Manager>>)
    ensures res == SelectedOf(managers, config)
  {
    var selected := managers;
    if config.manager != "" {
      if config.manager !in managers {
        return Err(KeyErrorText(config.manager));
      }
      selected := map[config.manager := managers[config.manager]];
    }
    if config.env != "" {
      res := FilterByEnv(selected, config.env);
    } else {
      res := Ok(selected);
    }
  }

  /** The loop that allocates and fills one slot per environment; a manager without `environments` raises `KeyError`. */
  method ReportManagers(selected: map<string, Manager>, config: Config, host: Host, worlds: (string, string) -> EnvWorld)
    returns (res: Result<map<string, map<string, EnvReport>>>)
    ensures !HasEnvironments(selected) ==> res == Err(EnvironmentsKeyError)
    ensures HasEnvironments(selected) ==> res == Ok(TreeOf(selected, config, host, worlds))
  {
    var result: map<string, map<string, EnvReport>> := map[];
    var left := selected.Keys;
    while left != {}
      invariant left <= selected.Keys
      invariant forall name :: name in selected.Keys - left ==> selected[name].environments.Some?
      invariant forall name :: name in result <==> name in selected.Keys - left
      invariant forall name :: name in result ==>
        result[name] == ManagerSlots(name, selected[name].environments.value, config, host, worlds)
      decreases left
    {
      var name :| name in left;
      if selected[name].environments.None? {
        return Err(EnvironmentsKeyError);
      }
      var mgrResult := ReportManager(name, selected[name].environments.value, config, host, worlds);
      result := result[name := mgrResult];
      left := left - {name};
    }
    assert HasEnvironments(selected);
    assert result == TreeOf(selected, config, host, worlds);
    return Ok(result);
  }

  method Perform(managers: map<string, Manager>, config: Config, host: Host, worlds: (string, string) -> EnvWorld)
    returns (res: Result<Output>)
    ensures res == PerformOf(managers, config, host, worlds)
  {
    var selected := SelectManagers(managers, config);
    if selected.Err? {
      return Err(selected.error);
    }
    var tree := ReportManagers(selected.value, config, host, worlds);
    if tree.Err? {
      return Err(tree.error);
    }
    var agents := SumKey(tree.value, AgentsCount);
    var deployments := SumKey(tree.value, DeploymentsCount);
    var blueprints := SumKey(tree.value, BlueprintsCount);
    return Ok(Output(tree.value, agents, deployments, blueprints));
  }

  /**
   * The `--env` filter keeps exactly the managers that have an environment
   * of that name, each reduced to that one environment, and fails exactly
   * when some manager has no `environments`.
   */
  lemma FilterExactly(managers: map<string, Manager>, env: string)
    ensures FilteredOf(managers, env).Ok? <==> HasEnvironments(managers)
    ensures FilteredOf(managers, env).Ok? ==>
      var kept := FilteredOf(managers, env).value;
      && (forall name :: name in kept <==> name in managers && env in managers[name].environments.value)
      && (forall name :: name in kept ==>
            kept[name].environments.Some? && kept[name].environments.value.Keys == {env} &&
            kept[name].environments.value[env] == managers[name].environments.value[env])
  {
  }

  /** A manager that `perform` reports on: named by `--manager` if given, and having the `--env` environment if given. */
  ghost predicate Chosen(managers: map<string, Manager>, config: Config, name: string) {
    && name in managers
    && (config.manager == "" || name == config.manager)
    && (config.env == "" || (managers[name].environments.Some? && config.env in managers[name].environments.value))
  }

  /**
   * `perform` fails exactly when `--manager` names an unknown manager or a
   * manager it considers has no `environments`. Otherwise its tree has a
   * manager for each chosen one, holding exactly its environments (just
   * the `--env` one when that is given), each environment's slot being
   * what `insert_env_report` makes of that environment alone; and each
   * total is the sum over that tree.
   */
  lemma PerformOutcome(managers: map<string, Manager>, config: Config, host: Host, worlds: (string, string) -> EnvWorld)
    ensures config.manager != "" && config.manager !in managers ==>
      PerformOf(managers, config, host, worlds) == Err(KeyErrorText(config.manager))
    ensures PerformOf(managers, config, host, worlds).Err? <==>
      || (config.manager != "" && config.manager !in managers)
      || (exists name :: (name in managers && (config.manager == "" || name == config.manager) &&
            managers[name].environments.None?))
    ensures PerformOf(managers, config, host, worlds).Ok? ==>
      var out := PerformOf(managers, config, host, worlds).value;
      && (forall name :: name in out.managers <==> Chosen(managers, config, name))
      && (forall name :: name in out.managers ==>
            managers[name].environments.Some? &&
            (forall envName :: envName in out.managers[name] <==>
              envName in managers[name].environments.value && (config.env == "" || envName == config.env)))
      && (forall name, envName :: name in out.managers && envName in out.managers[name] ==>
            out.managers[name][envName] ==
              InsertEnvReportOf(managers[name].environments.value[envName], config, host, worlds(name, envName)))
      && out.agentsCount == Total(out.managers, AgentsCount)
      && out.deploymentsCount == Total(out.managers, DeploymentsCount)
      && out.blueprintsCount == Total(out.managers, BlueprintsCount)
  {
    if !(config.manager != "" && config.manager !in managers) {
      var byManager := if config.manager != "" then map[config.manager := managers[config.manager]] else managers;
      FilterExactly(byManager, config.env);
      assert forall name :: name in byManager <==> name in managers && (config.manager == "" || name == config.manager);
      assert forall name :: name in byManager ==> byManager[name] == managers[name];
    }
  }
}
