/**
 * What a successful trace of the remote handler does to files: the local
 * host's, the manager host's, and (for a 3.2 manager) those of the `cfy`
 * container, which sees the home directory of the host's ssh user at
 * `/tmp/home/`. This is the meaning each handler operation
 * (report.py lines 171-204) is meant to have, independent of the command
 * strings that implement it.
 */
module RemoteFiles {
  import opened Wrappers
  import opened Remote

  /** File contents by path. A host path starting with `~/` is in the ssh user's home. */
  datatype Files = Files(local: map<string, string>, host: map<string, string>, container: map<string, string>)

  function Lookup(m: map<string, string>, p: string): Option<string> {
    if p in m then Some(m[p]) else None
  }

  /** A file as a command sees it, on the host or inside the container. */
  function Get(f: Files, inContainer: bool, p: string): Option<string> {
    if !inContainer then Lookup(f.host, p)
    else match HostName(p)
      case Some(h) => Lookup(f.host, h)
      case None => Lookup(f.container, p)
  }

  function Put(f: Files, inContainer: bool, p: string, x: string): Files {
    if !inContainer then f.(host := f.host[p := x])
    else match HostName(p)
      case Some(h) => f.(host := f.host[h := x])
      case None => f.(container := f.container[p := x])
  }

  function Delete(f: Files, inContainer: bool, p: string): Files {
    if !inContainer then f.(host := f.host - {p})
    else match HostName(p)
      case Some(h) => f.(host := f.host - {h})
      case None => f.(container := f.container - {p})
  }

  /** The effect of one remote command; a copy or move of a missing file changes nothing. */
  function ApplyCommand(f: Files, inContainer: bool, c: Command): Files
    decreases c
  {
    match c
    case Rm(p) => Delete(f, inContainer, p)
    case Mv(s, t) =>
      if s == t then f
      else (match Get(f, inContainer, s)
        case None => f
        case Some(x) => Delete(Put(f, inContainer, t, x), inContainer, s))
    case Cp(s, t) =>
      (match Get(f, inContainer, s)
        case None => f
        case Some(x) => Put(f, inContainer, t, x))
    case Sudo(inner) => ApplyCommand(f, inContainer, inner)
    case DockerExec(inner) => ApplyCommand(f, true, inner)
    case Shell(_) => f
  }

  /** `scp` to the manager writes a host file, `scp` from it writes a local one, `ssh` runs a command on the host. */
  function ApplyStep(f: Files, step: Step): Files {
    match step
    case SendFile(s, t) => if s in f.local then f.(host := f.host[t := f.local[s]]) else f
    case LoadFile(s, t) => if s in f.host then f.(local := f.local[t := f.host[s]]) else f
    case Execute(c, _) => ApplyCommand(f, false, c)
  }

  function ApplySteps(f: Files, steps: seq<Step>): Files
    decreases |steps|
  {
    if steps == [] then f else ApplySteps(ApplyStep(f, steps[0]), steps[1..])
  }

  /** A file as the manager's own processes see it: on the host for 3.1, in the container for 3.2. */
  function ManagerGet(v: Variant, f: Files, p: string): Option<string> {
    Get(f, v == Handler32, p)
  }

  lemma {:induction false} ApplyStepsAppend(f: Files, a: seq<Step>, b: seq<Step>)
    ensures ApplySteps(f, a + b) == ApplySteps(ApplySteps(f, a), b)
    decreases |a|
  {
    if a == [] {
      assert a + b == b;
    } else {
      assert (a + b)[0] == a[0];
      assert (a + b)[1..] == a[1..] + b;
      ApplyStepsAppend(ApplyStep(f, a[0]), a[1..], b);
    }
  }

  lemma ApplyOne(f: Files, a: Step)
    ensures ApplySteps(f, [a]) == ApplyStep(f, a)
  {
    assert [a][1..] == [];
  }

  lemma ApplyTwo(f: Files, a: Step, b: Step)
    ensures ApplySteps(f, [a, b]) == ApplyStep(ApplyStep(f, a), b)
  {
    assert [a, b][1..] == [b];
    ApplyOne(ApplyStep(f, a), b);
  }

  /** `docker_execute` runs its command inside the container. */
  lemma InContainer(f: Files, c: Command)
    ensures ApplyStep(f, DockerExecute(c)) == ApplyCommand(f, true, c)
  {
    assert ApplyCommand(f, false, DockerExec(c)) == ApplyCommand(f, true, c);
  }

  /** Two container paths that name the same host file are the same path. */
  lemma HostNameInjective(p: string, q: string)
    requires HostName(p).Some? && HostName(p) == HostName(q)
    ensures p == q
  {
    assert p == MountDir + p[|MountDir|..];
    assert q == MountDir + q[|MountDir|..];
    assert p[|MountDir|..] == HostName(p).value[2..];
    assert q[|MountDir|..] == HostName(q).value[2..];
  }

  /** Deleting a path leaves every other path of the same view as it was. */
  lemma DeleteOthers(f: Files, inContainer: bool, p: string, q: string)
    requires q != p
    ensures Get(Delete(f, inContainer, p), inContainer, q) == Get(f, inContainer, q)
    ensures Get(Delete(f, inContainer, p), inContainer, p) == None
  {
    if inContainer && HostName(p).Some? && HostName(q).Some? && HostName(p) == HostName(q) {
      HostNameInjective(p, q);
    }
  }

  /** Writing a path leaves every other path of the same view as it was. */
  lemma PutOthers(f: Files, inContainer: bool, p: string, x: string, q: string)
    ensures Get(Put(f, inContainer, p, x), inContainer, p) == Some(x)
    ensures q != p ==> Get(Put(f, inContainer, p, x), inContainer, q) == Get(f, inContainer, q)
  {
    if q != p && inContainer && HostName(p).Some? && HostName(q).Some? && HostName(p) == HostName(q) {
      HostNameInjective(p, q);
    }
  }

  /**
   * `inject_file` puts the local file's contents where the manager sees
   * `target`; on 3.2 the staged copy in the ssh user's home is moved away,
   * so none is left behind.
   */
  lemma InjectDelivers(v: Variant, f: Files, source: string, target: string, uuid: string)
    requires source in f.local
    requires target != MountDir + TmpName(uuid)
    ensures var after := ApplySteps(f, InjectFile(v, source, target, uuid));
      ManagerGet(v, after, target) == Some(f.local[source])
    ensures var after := ApplySteps(f, InjectFile(v, source, target, uuid));
      v == Handler32 ==> Lookup(after.host, "~/" + TmpName(uuid)) == None
  {
    var steps := InjectFile(v, source, target, uuid);
    if v == Handler32 {
      var staged := MountDir + TmpName(uuid);
      MountedName(TmpName(uuid));
      var f1 := ApplyStep(f, steps[0]);
      assert Get(f1, true, staged) == Some(f.local[source]);
      var f2 := Put(f1, true, target, f.local[source]);
      PutOthers(f1, true, target, f.local[source], staged);
      DeleteOthers(f2, true, staged, target);
      InContainer(f1, Mv(staged, target));
      assert steps == [steps[0], steps[1]];
      ApplyTwo(f, steps[0], steps[1]);
    } else {
      assert steps == [steps[0]];
      ApplyOne(f, steps[0]);
    }
  }

  /**
   * `retrieve_file` puts what the manager sees at `source` into the local
   * `target`. On 3.2 the copy staged in the ssh user's home stays there:
   * nothing removes it.
   */
  lemma RetrieveDelivers(v: Variant, f: Files, source: string, target: string, uuid: string)
    requires ManagerGet(v, f, source).Some?
    ensures var after := ApplySteps(f, RetrieveFile(v, source, target, uuid));
      Lookup(after.local, target) == ManagerGet(v, f, source)
    ensures var after := ApplySteps(f, RetrieveFile(v, source, target, uuid));
      v == Handler32 ==> Lookup(after.host, "~/" + TmpName(uuid)) == ManagerGet(v, f, source)
  {
    var steps := RetrieveFile(v, source, target, uuid);
    if v == Handler32 {
      MountedName(TmpName(uuid));
      InContainer(f, Cp(source, MountDir + TmpName(uuid)));
      assert steps == [steps[0], steps[1]];
      ApplyTwo(f, steps[0], steps[1]);
    } else {
      assert steps == [steps[0]];
      ApplyOne(f, steps[0]);
    }
  }

  /** `remove_file` deletes what the manager sees at `path` and no other file of the manager's view. */
  lemma RemoveDeletes(v: Variant, f: Files, path: string, other: string)
    requires other != path
    ensures ManagerGet(v, ApplySteps(f, RemoveFile(v, path)), path) == None
    ensures ManagerGet(v, ApplySteps(f, RemoveFile(v, path)), other) == ManagerGet(v, f, other)
  {
    var steps := RemoveFile(v, path);
    assert steps == [steps[0]];
    ApplyOne(f, steps[0]);
    if v == Handler32 {
      InContainer(f, Rm(path));
    }
    DeleteOthers(f, v == Handler32, path, other);
  }

  /** A file injected and then retrieved comes back with the contents it was sent with. */
  lemma InjectRetrieveRoundTrip(v: Variant, f: Files, source: string, remote: string, back: string, uuid1: string, uuid2: string)
    requires source in f.local
    requires remote != MountDir + TmpName(uuid1)
    ensures Lookup(ApplySteps(f, InjectFile(v, source, remote, uuid1) + RetrieveFile(v, remote, back, uuid2)).local, back)
      == Some(f.local[source])
  {
    ApplyStepsAppend(f, InjectFile(v, source, remote, uuid1), RetrieveFile(v, remote, back, uuid2));
    InjectDelivers(v, f, source, remote, uuid1);
    RetrieveDelivers(v, ApplySteps(f, InjectFile(v, source, remote, uuid1)), remote, back, uuid2);
  }

  /** `put_resource` leaves the local file's contents among the manager's resources on the host. */
  lemma PutResourceDelivers(f: Files, source: string, resource: string)
    requires source in f.local
    ensures Lookup(ApplySteps(f, PutResource(source, resource)).host, "/opt/manager/resources/" + resource) == Some(f.local[source])
  {
    var steps := PutResource(source, resource);
    assert steps == [steps[0], steps[1]];
    ApplyTwo(f, steps[0], steps[1]);
    var f1 := ApplyStep(f, steps[0]);
    assert ApplyStep(f1, steps[1]) == ApplyCommand(f1, false, Cp("/tmp/_resource_file", "/opt/manager/resources/" + resource));
  }
}
