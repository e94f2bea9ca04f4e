/**
 * The manager ssh self-test of `prepare_report` (report.py lines 230-249):
 * probe the connection, inject the validation script, run it, fetch the
 * file it writes, and compare that file with the nonce it was given.
 *
 * The generated uuids, the local temporary path and the contents read back
 * from it are parameters.
 */
module SelfTest {
  import opened Wrappers
  import opened Remote

  /** The values `uuid.uuid4()` and `tempfile.mkstemp()` produce during one self-test, in the order they are drawn. */
  datatype Nonces = Nonces(
    tmpUuid: string,       // names the injected script on the manager
    resultUuid: string,    // names the file the script writes
    content: string,       // the nonce the script must echo back
    injectUuid: string,    // staging name of the 3.2 inject
    retrieveUuid: string,  // staging name of the 3.2 retrieve
    localPath: string)     // the local file the result is fetched into

  const Probe := Execute(Shell("echo test > /dev/null"), Some(4))

  function TmpFile(n: Nonces): string { RandomTmpPath(n.tmpUuid) }

  function ResultFile(n: Nonces): string { RandomTmpPath(n.resultUuid) }

  function ScriptPath(directory: string): string {
    AgentsResource(directory, "validate_manager_env.py")
  }

  /** `__enter__` of the `with` block. */
  function EnterSteps(v: Variant, directory: string, n: Nonces): seq<Step> {
    InjectFile(v, ScriptPath(directory), TmpFile(n), n.injectUuid)
  }

  /** The subprocesses of the `with` body: run the script, fetch its result, delete the result on the manager. */
  function BodySteps(v: Variant, n: Nonces): seq<Step> {
    PythonCall(v, TmpFile(n) + " " + ResultFile(n) + " " + n.content)
      + RetrieveFile(v, ResultFile(n), n.localPath, n.retrieveUuid)
      + RemoveFile(v, ResultFile(n))
  }

  /** `__exit__` of the `with` block. */
  function ExitSteps(v: Variant, n: Nonces): seq<Step> {
    RemoveFile(v, TmpFile(n))
  }

  /** Every subprocess of a self-test that goes all the way. */
  function SelfTestSteps(v: Variant, directory: string, n: Nonces): seq<Step> {
    [Probe] + EnterSteps(v, directory, n) + BodySteps(v, n) + ExitSteps(v, n)
  }

  function MismatchError(expected: string, got: string): string {
    "Invalid result retrieved, expected " + expected + ", got " + got
  }

  /** The self-test as written: `readBack` is what the local result file holds after the fetch. */
  function SelfTestRun(v: Variant, conn: Conn, directory: string, n: Nonces, readBack: string, exit: seq<string> -> int): Run {
    var check := if readBack != n.content then Raise(MismatchError(n.content, readBack)) else Done;
    Compose(RunSteps(conn, [Probe], exit), RunSteps(conn, EnterSteps(v, directory, n), exit),
      RunSteps(conn, BodySteps(v, n), exit), check, RunSteps(conn, ExitSteps(v, n), exit))
  }

  /** The control flow of the self-test: the probe, then the `with` block around the body and the check. */
  function Compose(probe: Run, enter: Run, body: Run, check: Run, leave: Run): Run {
    Then(probe, WithRemoteFile(enter, Then(body, check), leave))
  }

  lemma ComposeOutcome(probe: Run, enter: Run, body: Run, check: Run, leave: Run)
    ensures var r := Compose(probe, enter, body, check, leave);
      probe.error.None? && enter.error.None? && body.error.None? && leave.error.None? ==>
        r.issued == probe.issued + enter.issued + body.issued + check.issued + leave.issued && r.error == check.error
    ensures var r := Compose(probe, enter, body, check, leave);
      r.error.None? <==> probe.error.None? && enter.error.None? && body.error.None? && leave.error.None? && check.error.None?
    ensures var r := Compose(probe, enter, body, check, leave);
      probe.error.None? && enter.error.None? && body.error.Some? ==>
        r.error.Some? && r.issued == probe.issued + enter.issued + body.issued + leave.issued
    ensures var r := Compose(probe, enter, body, check, leave);
      probe.error.None? && enter.error.None? ==>
        r.issued == probe.issued + enter.issued + Then(body, check).issued + leave.issued
  {
  }

  lemma AllSucceedAppend(a: seq<Call>, b: seq<Call>, exit: seq<string> -> int)
    ensures AllSucceed(a + b, exit) <==> AllSucceed(a, exit) && AllSucceed(b, exit)
  {
    if AllSucceed(a + b, exit) {
      forall k | 0 <= k < |a| ensures exit(a[k].argv) == 0 {
        assert (a + b)[k] == a[k];
      }
      forall k | 0 <= k < |b| ensures exit(b[k].argv) == 0 {
        assert (a + b)[|a| + k] == b[k];
      }
    }
    if AllSucceed(a, exit) && AllSucceed(b, exit) {
      forall k | 0 <= k < |a + b| ensures exit((a + b)[k].argv) == 0 {
        if k < |a| {
          assert (a + b)[k] == a[k];
        } else {
          assert (a + b)[k] == b[k - |a|];
        }
      }
    }
  }

  /** A trace never starts a subprocess beyond its own calls. */
  lemma {:induction false} RunCallsPrefix(calls: seq<Call>, exit: seq<string> -> int)
    ensures RunCalls(calls, exit).issued <= ArgvsOf(calls)
  {
    if calls != [] {
      RunCallsPrefix(calls[1..], exit);
      assert ArgvsOf(calls) == [calls[0].argv] + ArgvsOf(calls[1..]);
    }
  }

  /** The calls of the whole self-test, cut into its four parts. */
  lemma SelfTestCalls(v: Variant, conn: Conn, directory: string, n: Nonces)
    ensures Calls(conn, SelfTestSteps(v, directory, n)) ==
      Calls(conn, [Probe]) + Calls(conn, EnterSteps(v, directory, n)) + Calls(conn, BodySteps(v, n)) + Calls(conn, ExitSteps(v, n))
  {
    var p, e, b, x := [Probe], EnterSteps(v, directory, n), BodySteps(v, n), ExitSteps(v, n);
    CallsAppend(conn, p + e + b, x);
    CallsAppend(conn, p + e, b);
    CallsAppend(conn, p, e);
  }

  /** Every call of four traces succeeds exactly when each of them runs through. */
  lemma AllOfFour(p: seq<Call>, e: seq<Call>, b: seq<Call>, x: seq<Call>, exit: seq<string> -> int)
    ensures AllSucceed(p + e + b + x, exit) <==>
      RunCalls(p, exit).error.None? && RunCalls(e, exit).error.None? &&
      RunCalls(b, exit).error.None? && RunCalls(x, exit).error.None?
  {
    RunCallsSucceeds(p, exit);
    RunCallsSucceeds(e, exit);
    RunCallsSucceeds(b, exit);
    RunCallsSucceeds(x, exit);
    AllSucceedAppend(p + e + b, x, exit);
    AllSucceedAppend(p + e, b, exit);
    AllSucceedAppend(p, e, exit);
  }

  /** Four traces that run through start all their calls, in order. */
  lemma IssuedOfFour(p: seq<Call>, e: seq<Call>, b: seq<Call>, x: seq<Call>, exit: seq<string> -> int)
    requires AllSucceed(p + e + b + x, exit)
    ensures RunCalls(p, exit).issued + RunCalls(e, exit).issued + RunCalls(b, exit).issued + RunCalls(x, exit).issued
      == ArgvsOf(p + e + b + x)
  {
    AllOfFour(p, e, b, x, exit);
    RunCallsSucceeds(p, exit);
    RunCallsSucceeds(e, exit);
    RunCallsSucceeds(b, exit);
    RunCallsSucceeds(x, exit);
    ArgvsOfAppend(p + e + b, x);
    ArgvsOfAppend(p + e, b);
    ArgvsOfAppend(p, e);
  }

  /** The control flow of the self-test, given what each of its four traces did. */
  lemma ComposeRuns(rp: Run, re: Run, rb: Run, rx: Run, check: Run, all: bool, argvs: seq<seq<string>>)
    requires all <==> rp.error.None? && re.error.None? && rb.error.None? && rx.error.None?
    requires all ==> rp.issued + re.issued + rb.issued + rx.issued == argvs
    requires check.issued == []
    ensures var r := Compose(rp, re, rb, check, rx);
      all ==> r.issued == argvs && r.error == check.error
    ensures var r := Compose(rp, re, rb, check, rx);
      r.error.None? <==> all && check.error.None?
  {
    ComposeOutcome(rp, re, rb, check, rx);
    if all {
      assert rp.issued + re.issued + rb.issued + check.issued + rx.issued == rp.issued + re.issued + rb.issued + rx.issued;
    }
  }

  /** The control flow of the self-test over any four traces and a check that starts no subprocess. */
  lemma ComposeCalls(p: seq<Call>, e: seq<Call>, b: seq<Call>, x: seq<Call>, check: Run, exit: seq<string> -> int)
    requires check.issued == []
    ensures var r := Compose(RunCalls(p, exit), RunCalls(e, exit), RunCalls(b, exit), check, RunCalls(x, exit));
      AllSucceed(p + e + b + x, exit) ==> r.issued == ArgvsOf(p + e + b + x) && r.error == check.error
    ensures var r := Compose(RunCalls(p, exit), RunCalls(e, exit), RunCalls(b, exit), check, RunCalls(x, exit));
      r.error.None? <==> AllSucceed(p + e + b + x, exit) && check.error.None?
  {
    var all := AllSucceed(p + e + b + x, exit);
    AllOfFour(p, e, b, x, exit);
    if all {
      IssuedOfFour(p, e, b, x, exit);
    }
    ComposeRuns(RunCalls(p, exit), RunCalls(e, exit), RunCalls(b, exit), RunCalls(x, exit), check, all, ArgvsOf(p + e + b + x));
  }

  /**
   * The self-test passes exactly when every one of its subprocesses exits
   * with status 0 and the file fetched back holds the nonce. When every
   * subprocess succeeds it has run all of them, and fails, if at all, with
   * the mismatch message.
   */
  lemma SelfTestOutcome(v: Variant, conn: Conn, directory: string, n: Nonces, readBack: string, exit: seq<string> -> int)
    ensures var r := SelfTestRun(v, conn, directory, n, readBack, exit);
      AllSucceed(Calls(conn, SelfTestSteps(v, directory, n)), exit) ==>
        r.issued == ArgvsOf(Calls(conn, SelfTestSteps(v, directory, n))) &&
        r.error == (if readBack == n.content then None else Some(MismatchError(n.content, readBack)))
    ensures var r := SelfTestRun(v, conn, directory, n, readBack, exit);
      r.error.None? <==> AllSucceed(Calls(conn, SelfTestSteps(v, directory, n)), exit) && readBack == n.content
  {
    var check := if readBack != n.content then Raise(MismatchError(n.content, readBack)) else Done;
    SelfTestCalls(v, conn, directory, n);
    ComposeCalls(Calls(conn, [Probe]), Calls(conn, EnterSteps(v, directory, n)), Calls(conn, BodySteps(v, n)),
      Calls(conn, ExitSteps(v, n)), check, exit);
  }

  /** The command `remove_file` runs. */
  function RemoveCommand(v: Variant, path: string): Command {
    if v == Handler31 then Rm(path) else DockerExec(Rm(path))
  }

  /**
   * Once the script is on the manager, its removal is the last subprocess
   * the self-test starts, whatever the body does.
   */
  lemma SelfTestCleansUp(v: Variant, conn: Conn, directory: string, n: Nonces, readBack: string, exit: seq<string> -> int)
    requires RunSteps(conn, [Probe], exit).error.None?
    requires RunSteps(conn, EnterSteps(v, directory, n), exit).error.None?
    ensures var r := SelfTestRun(v, conn, directory, n, readBack, exit);
      |r.issued| > 0 && r.issued[|r.issued| - 1] == StepArgv(conn, Execute(RemoveCommand(v, TmpFile(n)), None))
  {
    ExitRun(v, conn, n, exit);
    var check := if readBack != n.content then Raise(MismatchError(n.content, readBack)) else Done;
    ComposeEndsWithLeave(RunSteps(conn, [Probe], exit), RunSteps(conn, EnterSteps(v, directory, n), exit),
      RunSteps(conn, BodySteps(v, n), exit), check, RunSteps(conn, ExitSteps(v, n), exit));
  }

  /** `__exit__` starts exactly one subprocess, the removal of the script. */
  lemma ExitRun(v: Variant, conn: Conn, n: Nonces, exit: seq<string> -> int)
    ensures RunSteps(conn, ExitSteps(v, n), exit).issued == [StepArgv(conn, Execute(RemoveCommand(v, TmpFile(n)), None))]
  {
    var step := Execute(RemoveCommand(v, TmpFile(n)), None);
    assert ExitSteps(v, n) == [step];
    var call := CallOf(conn, step);
    assert Calls(conn, ExitSteps(v, n)) == [call];
    RunCallsSingle(call, exit);
  }

  /** Once probe and injection succeed, the last subprocess is the last one of `__exit__`. */
  lemma ComposeEndsWithLeave(probe: Run, enter: Run, body: Run, check: Run, leave: Run)
    requires probe.error.None? && enter.error.None? && leave.issued != []
    ensures var r := Compose(probe, enter, body, check, leave);
      |r.issued| > 0 && r.issued[|r.issued| - 1] == leave.issued[|leave.issued| - 1]
  {
    ComposeOutcome(probe, enter, body, check, leave);
    var front := probe.issued + enter.issued + Then(body, check).issued;
    assert (front + leave.issued)[|front + leave.issued| - 1] == leave.issued[|leave.issued| - 1];
  }

  lemma RunCallsSingle(call: Call, exit: seq<string> -> int)
    ensures RunCalls([call], exit).issued == [call.argv]
  {
    assert [call][1..] == [];
  }

  /** If the injection fails, nothing after it runs: neither the script nor any removal. */
  lemma SelfTestInjectFails(v: Variant, conn: Conn, directory: string, n: Nonces, readBack: string, exit: seq<string> -> int)
    requires RunSteps(conn, EnterSteps(v, directory, n), exit).error.Some?
    ensures var r := SelfTestRun(v, conn, directory, n, readBack, exit);
      r.error.Some? && r.issued <= ArgvsOf(Calls(conn, [Probe] + EnterSteps(v, directory, n)))
  {
    var p, e := Calls(conn, [Probe]), Calls(conn, EnterSteps(v, directory, n));
    RunCallsSucceeds(p, exit);
    RunCallsPrefix(p, exit);
    RunCallsPrefix(e, exit);
    CallsAppend(conn, [Probe], EnterSteps(v, directory, n));
    ArgvsOfAppend(p, e);
    var check := if readBack != n.content then Raise(MismatchError(n.content, readBack)) else Done;
    ComposeEnterFails(RunCalls(p, exit), RunCalls(e, exit), RunSteps(conn, BodySteps(v, n), exit), check,
      RunSteps(conn, ExitSteps(v, n), exit), ArgvsOf(p), ArgvsOf(e));
  }

  /** When `__enter__` raises, the self-test raises having started at most the probe's and the injection's calls. */
  lemma ComposeEnterFails(probe: Run, enter: Run, body: Run, check: Run, leave: Run, pa: seq<seq<string>>, ea: seq<seq<string>>)
    requires enter.error.Some?
    requires probe.issued <= pa && (probe.error.None? ==> probe.issued == pa) && enter.issued <= ea
    ensures var r := Compose(probe, enter, body, check, leave);
      r.error.Some? && r.issued <= pa + ea
  {
    var r := Compose(probe, enter, body, check, leave);
    if probe.error.Some? {
      assert r == probe;
      assert (pa + ea)[..|probe.issued|] == pa[..|probe.issued|];
    } else {
      assert r.issued == pa + enter.issued;
      assert (pa + ea)[..|pa| + |enter.issued|] == pa + ea[..|enter.issued|];
    }
  }

  /** The run-and-fetch part of the body, before the result file is removed. */
  function FetchSteps(v: Variant, n: Nonces): seq<Step> {
    PythonCall(v, TmpFile(n) + " " + ResultFile(n) + " " + n.content)
      + RetrieveFile(v, ResultFile(n), n.localPath, n.retrieveUuid)
  }

  /**
   * If running the script or fetching its result fails, the result file
   * on the manager is never removed: the body stops there, and only the
   * script's removal follows.
   */
  lemma SelfTestFetchFails(v: Variant, conn: Conn, directory: string, n: Nonces, readBack: string, exit: seq<string> -> int)
    requires RunSteps(conn, [Probe], exit).error.None?
    requires RunSteps(conn, EnterSteps(v, directory, n), exit).error.None?
    requires RunSteps(conn, FetchSteps(v, n), exit).error.Some?
    ensures var r := SelfTestRun(v, conn, directory, n, readBack, exit);
      && r.error.Some?
      && r.issued == ArgvsOf(Calls(conn, [Probe])) + ArgvsOf(Calls(conn, EnterSteps(v, directory, n))) +
           RunSteps(conn, FetchSteps(v, n), exit).issued + RunSteps(conn, ExitSteps(v, n), exit).issued
  {
    var fetch, rm := FetchSteps(v, n), RemoveFile(v, ResultFile(n));
    assert BodySteps(v, n) == fetch + rm;
    CallsAppend(conn, fetch, rm);
    RunCallsAppend(Calls(conn, fetch), Calls(conn, rm), exit);
    var body := RunSteps(conn, BodySteps(v, n), exit);
    assert body == RunSteps(conn, fetch, exit);
    RunCallsSucceeds(Calls(conn, [Probe]), exit);
    RunCallsSucceeds(Calls(conn, EnterSteps(v, directory, n)), exit);
    var check := if readBack != n.content then Raise(MismatchError(n.content, readBack)) else Done;
    ComposeOutcome(RunSteps(conn, [Probe], exit), RunSteps(conn, EnterSteps(v, directory, n), exit), body, check,
      RunSteps(conn, ExitSteps(v, n), exit));
  }
}
