/**
 * The remote handler (report.py lines 110-215): how each operation of the
 * 3.1 and 3.2 manager handlers becomes an ordered trace of `send_file`,
 * `load_file` and `execute` calls, how each of those becomes the argument
 * list of one `scp` or `ssh` subprocess, and what a trace does when a
 * subprocess exits with a non-zero status.
 *
 * Subprocess exit statuses are a parameter `exit` (the same argument list
 * gives the same status); locating the `scp` executable and the user's home
 * directory are parameters of `Conn`.
 */
module Remote {
  import opened Wrappers

  const User := "cloudify"
  const ManagerKey := "~/td/ga-cloudify-manager-kp.pem"

  /** What a handler's commands are built from: the manager's address and two facts about the local host. */
  datatype Conn = Conn(managerIp: string, scpPath: string, home: string)

  // ---------------------------------------------------------------------
  // Paths and numbers as the Python library renders them

  function StripTrailingSlashes(s: string): (r: string)
    ensures r <= s && (r == "" || r[|r| - 1] != '/')
  {
    if s != [] && s[|s| - 1] == '/' then StripTrailingSlashes(s[..|s| - 1]) else s
  }

  /** The paths `os.path.expanduser` expands with the user's own home directory. */
  predicate HomeRelative(path: string) {
    path == "~" || (|path| >= 2 && path[..2] == "~/")
  }

  /** `os.path.expanduser` for a path that starts with `~/` or is `~`; other paths are returned as they are. */
  function ExpandUser(home: string, path: string): (r: string)
    ensures !HomeRelative(path) ==> r == path
    ensures HomeRelative(path) ==> r != "" && |path| - 1 <= |r| && r[|r| - (|path| - 1)..] == path[1..]
  {
    if HomeRelative(path) then
      var expanded := StripTrailingSlashes(home) + path[1..];
      if expanded == "" then "/" else expanded
    else path
  }

  /** With an absolute home directory, expanding twice is expanding once: the result no longer starts with `~`. */
  lemma ExpandUserIdempotent(home: string, path: string)
    requires home == "" || home[0] == '/'
    ensures ExpandUser(home, ExpandUser(home, path)) == ExpandUser(home, path)
  {
    var r := ExpandUser(home, path);
    if HomeRelative(path) {
      var stripped := StripTrailingSlashes(home);
      if stripped != "" {
        assert stripped[0] == home[0];
        assert r[0] == '/';
      } else if path != "~" {
        assert path[1..][0] == path[1];
        assert r[0] == '/';
      }
      assert r[0] == '/';
    }
  }

  function KeyPath(conn: Conn): string {
    ExpandUser(conn.home, ManagerKey)
  }

  /** `os.path.join(a, b)`: an absolute `b` replaces `a`; otherwise `b` is appended to `a`, with a `/` between when `a` lacks one. */
  function Join(a: string, b: string): (r: string)
    ensures |b| <= |r| && r[|r| - |b|..] == b
    ensures |b| > 0 && b[0] == '/' ==> r == b
    ensures !(|b| > 0 && b[0] == '/') && (a == "" || a[|a| - 1] == '/') ==> r == a + b
    ensures !(|b| > 0 && b[0] == '/') && a != "" && a[|a| - 1] != '/' ==> r == a + "/" + b
  {
    if |b| > 0 && b[0] == '/' then b
    else if a == "" || a[|a| - 1] == '/' then a + b
    else a + "/" + b
  }

  /** `_get_agents_resource`: a file under the `agents` directory next to the script. */
  function AgentsResource(directory: string, resource: string): string {
    Join(Join(directory, "agents"), resource)
  }

  /** A resource name lands in the `agents` directory under the script's directory. */
  lemma AgentsResourcePath(directory: string, resource: string)
    requires directory != "" && directory[|directory| - 1] != '/'
    requires !(|resource| > 0 && resource[0] == '/')
    ensures AgentsResource(directory, resource) == directory + "/agents/" + resource
  {
    var agents := Join(directory, "agents");
    assert agents == directory + "/agents";
    assert agents[|agents| - 1] == 's';
  }

  /** `_random_tmp_path`, with the generated uuid as a parameter. */
  function RandomTmpPath(uuid: string): string {
    "/tmp/_tmp_migration_report_file" + uuid
  }

  function DigitChar(d: int): char
    requires 0 <= d < 10
  {
    "0123456789"[d]
  }

  function DigitValue(c: char): int {
    c as int - '0' as int
  }

  /** `str(n)` for a natural number. */
  function NatToString(n: nat): string
    decreases n
  {
    if n < 10 then [DigitChar(n)] else NatToString(n / 10) + [DigitChar(n % 10)]
  }

  /** `str(i)`. */
  function IntToString(i: int): string {
    if i < 0 then "-" + NatToString(-i) else NatToString(i)
  }

  /** The number a string of decimal digits denotes. */
  function DecimalValue(s: string): int {
    if s == [] then 0 else 10 * DecimalValue(s[..|s| - 1]) + DigitValue(s[|s| - 1])
  }

  /** `str(n)` is a non-empty string of digits that reads back as `n`. */
  lemma {:induction false} NatToStringRoundTrip(n: nat)
    ensures NatToString(n) != []
    ensures forall k :: 0 <= k < |NatToString(n)| ==> '0' <= NatToString(n)[k] <= '9'
    ensures DecimalValue(NatToString(n)) == n
  {
    var s := NatToString(n);
    if n >= 10 {
      NatToStringRoundTrip(n / 10);
      assert s[..|s| - 1] == NatToString(n / 10);
    }
  }

  // ---------------------------------------------------------------------
  // Remote commands

  /** The shell commands the handlers run on a manager, with their exact text. */
  datatype Command =
    | Rm(path: string)
    | Mv(source: string, target: string)
    | Cp(source: string, target: string)
    | Sudo(command: Command)
    | DockerExec(command: Command)
    | Shell(text: string)   // a command with no effect on files that this model follows

  function Render(c: Command): string {
    match c
    case Rm(p) => "rm " + p
    case Mv(s, t) => "mv " + s + " " + t
    case Cp(s, t) => "cp " + s + " " + t
    case Sudo(inner) => "sudo " + Render(inner)
    case DockerExec(inner) => "sudo docker exec cfy " + Render(inner)
    case Shell(text) => text
  }

  /** The three primitive calls of `ManagerHandler`. */
  datatype Step =
    | SendFile(source: string, target: string)
    | LoadFile(source: string, target: string)
    | Execute(command: Command, timeout: Option<int>)

  /** `'{0}@{1}:{2}'.format(_USER, manager_ip, path_on_manager)`. */
  function ManagementPath(conn: Conn, pathOnManager: string): string {
    User + "@" + conn.managerIp + ":" + pathOnManager
  }

  /** The argument list `scp` builds: key first, then the two ends, local one first when copying to the manager. */
  function ScpArgv(conn: Conn, localPath: string, pathOnManager: string, toManager: bool): (argv: seq<string>)
    ensures |argv| == 5 && argv[..3] == [conn.scpPath, "-i", KeyPath(conn)]
    ensures toManager ==> argv[3] == localPath && argv[4] == ManagementPath(conn, pathOnManager)
    ensures !toManager ==> argv[3] == ManagementPath(conn, pathOnManager) && argv[4] == localPath
  {
    var command := [conn.scpPath, "-i", KeyPath(conn)];
    if toManager then command + [localPath, ManagementPath(conn, pathOnManager)]
    else command + [ManagementPath(conn, pathOnManager), localPath]
  }

  /** The `ssh` invocation of `execute`, before any timeout prefix. */
  function SshArgv(conn: Conn, cmd: string): seq<string> {
    ["ssh", "-o", "StrictHostKeyChecking=no", "-i", KeyPath(conn), User + "@" + conn.managerIp, "-C", cmd]
  }

  /** Python's truth value of the `timeout` argument: given and not zero. */
  predicate Truthy(timeout: Option<int>) {
    timeout.Some? && timeout.value != 0
  }

  /** The argument list `execute` builds. */
  function ExecuteArgv(conn: Conn, cmd: string, timeout: Option<int>): (argv: seq<string>)
    ensures Truthy(timeout) ==> argv == ["timeout", IntToString(timeout.value)] + SshArgv(conn, cmd)
    ensures !Truthy(timeout) ==> argv == SshArgv(conn, cmd)
    ensures argv[|argv| - 1] == cmd
  {
    var sshCmd := SshArgv(conn, cmd);
    if Truthy(timeout) then ["timeout", IntToString(timeout.value)] + sshCmd else sshCmd
  }

  /** The subprocess one step runs: `send_file` is `scp(source, target, True)`, `load_file` is `scp(target, source, False)`. */
  function StepArgv(conn: Conn, step: Step): seq<string> {
    match step
    case SendFile(source, target) => ScpArgv(conn, source, target, true)
    case LoadFile(source, target) => ScpArgv(conn, target, source, false)
    case Execute(command, timeout) => ExecuteArgv(conn, Render(command), timeout)
  }

  /** The text of the `RuntimeError` a step raises when its subprocess fails. */
  function StepError(step: Step): string {
    match step
    case SendFile(_, _) => "Could not scp to/from manager"
    case LoadFile(_, _) => "Could not scp to/from manager"
    case Execute(command, _) => "Could not execute remote command \"" + Render(command) + "\""
  }

  // ---------------------------------------------------------------------
  // The two handler variants

  datatype Variant = Handler31 | Handler32

  /** `_get_handler`: the 3.1 handler for a version string that starts with `3.1`, else the 3.2 one. */
  function GetHandler(version: string): (v: Variant)
    ensures v == Handler31 <==> |version| >= 3 && version[..3] == "3.1"
  {
    if "3.1" <= version then Handler31 else Handler32
  }

  /** `ManagerHandler32.docker_execute`. */
  function DockerExecute(c: Command): Step {
    Execute(DockerExec(c), None)
  }

  /** The name 3.2 stages a file under, from a generated uuid. */
  function TmpName(uuid: string): string {
    "_tmp_file" + uuid
  }

  /** Where the container sees the home directory of the host's ssh user. */
  const MountDir := "/tmp/home/"

  function InjectFile(v: Variant, source: string, target: string, uuid: string): seq<Step> {
    match v
    case Handler31 => [SendFile(source, target)]
    case Handler32 =>
      [SendFile(source, "~/" + TmpName(uuid)), DockerExecute(Mv(MountDir + TmpName(uuid), target))]
  }

  function RetrieveFile(v: Variant, source: string, target: string, uuid: string): seq<Step> {
    match v
    case Handler31 => [LoadFile(source, target)]
    case Handler32 =>
      [DockerExecute(Cp(source, MountDir + TmpName(uuid))), LoadFile("~/" + TmpName(uuid), target)]
  }

  function RemoveFile(v: Variant, path: string): seq<Step> {
    match v
    case Handler31 => [Execute(Rm(path), None)]
    case Handler32 => [DockerExecute(Rm(path))]
  }

  function PythonCall(v: Variant, cmd: string): seq<Step> {
    match v
    case Handler31 => [Execute(Shell("/opt/celery/cloudify.management__worker/env/bin/python " + cmd), None)]
    case Handler32 => [DockerExecute(Shell("/etc/service/celeryd-cloudify-management/env/bin/python " + cmd))]
  }

  /** `put_resource`: stage under a fixed name, then copy into the manager's resources with sudo. */
  function PutResource(source: string, resource: string): seq<Step> {
    [SendFile(source, "/tmp/_resource_file"),
     Execute(Sudo(Cp("/tmp/_resource_file", "/opt/manager/resources/" + resource)), None)]
  }

  /**
   * On a 3.2 manager every command of `remove_file`, `python_call`,
   * `inject_file` and `retrieve_file` runs through `sudo docker exec cfy`,
   * and the staged copy is one file seen under two names: the host's
   * `~/<tmp>` that `scp` writes or reads is the container's
   * `/tmp/home/<tmp>` that `mv` or `cp` uses.
   */
  lemma NestedRoutesThroughContainer(source: string, target: string, path: string, cmd: string, uuid: string)
    ensures forall s :: (s in RemoveFile(Handler32, path) + PythonCall(Handler32, cmd) +
        InjectFile(Handler32, source, target, uuid) + RetrieveFile(Handler32, source, target, uuid) && s.Execute?) ==>
      "sudo docker exec cfy " <= Render(s.command)
    ensures var inject := InjectFile(Handler32, source, target, uuid);
      inject[0].SendFile? && inject[1].command.DockerExec? && inject[1].command.command.Mv? &&
      HostName(inject[1].command.command.source) == Some(inject[0].target)
    ensures var retrieve := RetrieveFile(Handler32, source, target, uuid);
      retrieve[1].LoadFile? && retrieve[0].command.DockerExec? && retrieve[0].command.command.Cp? &&
      HostName(retrieve[0].command.command.target) == Some(retrieve[1].source)
  {
    var all := RemoveFile(Handler32, path) + PythonCall(Handler32, cmd) +
      InjectFile(Handler32, source, target, uuid) + RetrieveFile(Handler32, source, target, uuid);
    forall s | s in all && s.Execute? ensures "sudo docker exec cfy " <= Render(s.command) {
      assert s.command.DockerExec?;
    }
    MountedName(TmpName(uuid));
  }

  /** The host path of a container path under the mount, if it is one. */
  function HostName(containerPath: string): Option<string> {
    if MountDir <= containerPath then Some("~/" + containerPath[|MountDir|..]) else None
  }

  lemma MountedName(name: string)
    ensures HostName(MountDir + name) == Some("~/" + name)
  {
    assert (MountDir + name)[..|MountDir|] == MountDir;
    assert (MountDir + name)[|MountDir|..] == name;
  }

  // ---------------------------------------------------------------------
  // Running a trace

  /** The subprocesses started so far and the exception raised, if any. */
  datatype Run = Run(issued: seq<seq<string>>, error: Option<string>)

  const Done := Run([], None)

  function Raise(message: string): Run {
    Run([], Some(message))
  }

  /** Runs `second` only if `first` did not raise. */
  function Then(first: Run, second: Run): Run {
    if first.error.Some? then first else Run(first.issued + second.issued, second.error)
  }

  /**
   * `with RemoteFile(...)`: `__enter__` injects; if that raises, nothing
   * else runs. Otherwise the body runs and `__exit__` removes the file
   * whatever the body did; an exception of `__exit__` replaces the body's,
   * and an exception of the body is raised again after the removal.
   */
  function WithRemoteFile(enter: Run, body: Run, leave: Run): Run {
    if enter.error.Some? then enter
    else Run(enter.issued + body.issued + leave.issued, if leave.error.Some? then leave.error else body.error)
  }

  /**
   * The `with` block is a `try`/`finally` around the body: a failed
   * `__enter__` runs nothing else; otherwise the removal runs after the
   * body whatever the body did, the block succeeds exactly when the body
   * and the removal do, and a body that does not raise makes the block
   * plain sequencing of inject, body and removal.
   */
  lemma WithRemoteFileFinally(enter: Run, body: Run, leave: Run)
    ensures enter.error.Some? ==> WithRemoteFile(enter, body, leave) == enter
    ensures enter.error.None? ==> WithRemoteFile(enter, body, leave).issued == enter.issued + body.issued + leave.issued
    ensures enter.error.None? ==>
      (WithRemoteFile(enter, body, leave).error.None? <==> body.error.None? && leave.error.None?)
    ensures enter.error.None? && leave.error.None? ==> WithRemoteFile(enter, body, leave).error == body.error
    ensures body.error.None? ==> WithRemoteFile(enter, body, leave) == Then(enter, Then(body, leave))
  {
    if enter.error.None? && body.error.None? {
      assert enter.issued + (body.issued + leave.issued) == enter.issued + body.issued + leave.issued;
    }
  }

  /** One subprocess of a trace: its argument list, and the text of the error raised when it fails. */
  datatype Call = Call(argv: seq<string>, error: string)

  function CallOf(conn: Conn, step: Step): Call {
    Call(StepArgv(conn, step), StepError(step))
  }

  function Calls(conn: Conn, steps: seq<Step>): (calls: seq<Call>)
    ensures |calls| == |steps| && forall k :: 0 <= k < |steps| ==> calls[k] == CallOf(conn, steps[k])
  {
    seq(|steps|, k requires 0 <= k < |steps| => CallOf(conn, steps[k]))
  }

  function ArgvsOf(calls: seq<Call>): (argvs: seq<seq<string>>)
    ensures |argvs| == |calls| && forall k :: 0 <= k < |calls| ==> argvs[k] == calls[k].argv
  {
    seq(|calls|, k requires 0 <= k < |calls| => calls[k].argv)
  }

  /** Starts the calls in order; the first with a non-zero status raises its error and ends the trace. */
  function RunCalls(calls: seq<Call>, exit: seq<string> -> int): Run {
    if calls == [] then Done
    else if exit(calls[0].argv) != 0 then Run([calls[0].argv], Some(calls[0].error))
    else
      var rest := RunCalls(calls[1..], exit);
      Run([calls[0].argv] + rest.issued, rest.error)
  }

  /** Runs a handler trace: what a sequence of `send_file`, `load_file` and `execute` calls does. */
  function RunSteps(conn: Conn, steps: seq<Step>, exit: seq<string> -> int): Run {
    RunCalls(Calls(conn, steps), exit)
  }

  ghost predicate AllSucceed(calls: seq<Call>, exit: seq<string> -> int) {
    forall k :: 0 <= k < |calls| ==> exit(calls[k].argv) == 0
  }

  /** Call `k` is the first whose subprocess fails. */
  ghost predicate FirstFailure(calls: seq<Call>, exit: seq<string> -> int, k: int) {
    && 0 <= k < |calls|
    && exit(calls[k].argv) != 0
    && forall j :: 0 <= j < k ==> exit(calls[j].argv) == 0
  }

  /**
   * A trace raises exactly when one of its subprocesses fails; when none
   * fails it has started all of them, in order.
   */
  lemma {:induction false} RunCallsSucceeds(calls: seq<Call>, exit: seq<string> -> int)
    ensures RunCalls(calls, exit).error.None? <==> AllSucceed(calls, exit)
    ensures RunCalls(calls, exit).error.None? ==> RunCalls(calls, exit).issued == ArgvsOf(calls)
  {
    if calls != [] {
      var tail := calls[1..];
      RunCallsSucceeds(tail, exit);
      AllSucceedCons(calls, exit);
      if RunCalls(calls, exit).error.None? {
        assert ArgvsOf(calls) == [calls[0].argv] + ArgvsOf(tail);
      }
    }
  }

  lemma AllSucceedCons(calls: seq<Call>, exit: seq<string> -> int)
    requires calls != []
    ensures AllSucceed(calls, exit) <==> exit(calls[0].argv) == 0 && AllSucceed(calls[1..], exit)
  {
    if exit(calls[0].argv) == 0 && AllSucceed(calls[1..], exit) {
      forall k | 0 <= k < |calls| ensures exit(calls[k].argv) == 0 {
        if k > 0 { assert calls[k] == calls[1..][k - 1]; }
      }
    }
    if AllSucceed(calls, exit) {
      forall k | 0 <= k < |calls[1..]| ensures exit(calls[1..][k].argv) == 0 {
        assert calls[1..][k] == calls[k + 1];
      }
    }
  }

  /**
   * A trace that raises has started every subprocess up to and including
   * the first failing one, and raises that call's error.
   */
  lemma {:induction false} RunCallsFails(calls: seq<Call>, exit: seq<string> -> int)
    ensures var r := RunCalls(calls, exit);
      r.error.Some? ==> (exists k :: (FirstFailure(calls, exit, k) &&
        r.issued == ArgvsOf(calls[..k + 1]) && r.error == Some(calls[k].error)))
  {
    var r := RunCalls(calls, exit);
    if calls != [] && r.error.Some? {
      if exit(calls[0].argv) != 0 {
        assert FirstFailure(calls, exit, 0);
        assert ArgvsOf(calls[..1]) == [calls[0].argv];
      } else {
        var tail := calls[1..];
        RunCallsFails(tail, exit);
        var rest := RunCalls(tail, exit);
        assert r == Run([calls[0].argv] + rest.issued, rest.error);
        var k :| FirstFailure(tail, exit, k) && rest.issued == ArgvsOf(tail[..k + 1]) && rest.error == Some(tail[k].error);
        FirstFailureCons(calls, exit, k);
        PrefixCons(calls, k);
      }
    }
  }

  lemma FirstFailureCons(calls: seq<Call>, exit: seq<string> -> int, k: int)
    requires calls != [] && exit(calls[0].argv) == 0 && FirstFailure(calls[1..], exit, k)
    ensures FirstFailure(calls, exit, k + 1) && calls[k + 1] == calls[1..][k]
  {
    forall j | 0 <= j < k + 1 ensures exit(calls[j].argv) == 0 {
      if j > 0 { assert calls[j] == calls[1..][j - 1]; }
    }
  }

  lemma PrefixCons(calls: seq<Call>, k: nat)
    requires k + 1 < |calls|
    ensures ArgvsOf(calls[..k + 2]) == [calls[0].argv] + ArgvsOf(calls[1..][..k + 1])
  {
    assert calls[..k + 2] == [calls[0]] + calls[1..][..k + 1];
    ArgvsOfAppend([calls[0]], calls[1..][..k + 1]);
    assert ArgvsOf([calls[0]]) == [calls[0].argv];
  }

  /** Running two traces one after the other is running their concatenation. */
  lemma {:induction false} RunCallsAppend(a: seq<Call>, b: seq<Call>, exit: seq<string> -> int)
    ensures RunCalls(a + b, exit) == Then(RunCalls(a, exit), RunCalls(b, exit))
  {
    var rb := RunCalls(b, exit);
    if a == [] {
      assert a + b == b;
      assert [] + rb.issued == rb.issued;
    } else {
      var c := a[0];
      assert (a + b)[0] == c;
      assert (a + b)[1..] == a[1..] + b;
      if exit(c.argv) == 0 {
        RunCallsAppend(a[1..], b, exit);
        var ra := RunCalls(a[1..], exit);
        assert RunCalls(a + b, exit) == Run([c.argv] + RunCalls(a[1..] + b, exit).issued, RunCalls(a[1..] + b, exit).error);
        assert RunCalls(a, exit) == Run([c.argv] + ra.issued, ra.error);
        if ra.error.None? {
          assert [c.argv] + (ra.issued + rb.issued) == ([c.argv] + ra.issued) + rb.issued;
        }
      }
    }
  }

  lemma CallsAppend(conn: Conn, a: seq<Step>, b: seq<Step>)
    ensures Calls(conn, a + b) == Calls(conn, a) + Calls(conn, b)
  {
    assert forall k :: 0 <= k < |a| ==> (a + b)[k] == a[k];
    assert forall k :: |a| <= k < |a| + |b| ==> (a + b)[k] == b[k - |a|];
  }

  lemma ArgvsOfAppend(a: seq<Call>, b: seq<Call>)
    ensures ArgvsOf(a + b) == ArgvsOf(a) + ArgvsOf(b)
  {
    assert forall k :: 0 <= k < |a| ==> (a + b)[k] == a[k];
    assert forall k :: |a| <= k < |a| + |b| ==> (a + b)[k] == b[k - |a|];
  }
}
