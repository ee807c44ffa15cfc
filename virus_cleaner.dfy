/**
 * securityVirusCleaner/virus_cleaner.py: finding the traces of the
 * "vaccine" Maya script virus and deleting them one by one, recording
 * every failed deletion and carrying on with the rest.
 *
 * The host is a `State`: the scene's node names, the files on disk, the
 * running script jobs (as `scriptJob(listJobs=True)` lists them), the
 * script jobs killed so far, and the keys of `sys.modules` in insertion
 * order. Which deletions the host refuses, and with which exception, is
 * the oracle `refusals`, keyed by node name, file path or job text.
 */
module VirusCleaner {
  import opened Wrappers
  import opened Strings
  import opened Paths
  import opened SeqErrors

  /** The classes of `VIRUSOBJECTS`, in the order of that list. */
  datatype Kind =
    | BreedGeneNode | VaccineGeneNode
    | VaccineFilePy | VaccineFilePyc | UserSetupFilePy | UserSetupFilePyc
    | VirusScriptJobs | VirusModule

  const VirusObjects: seq<Kind> := [
    BreedGeneNode, VaccineGeneNode, VaccineFilePy, VaccineFilePyc,
    UserSetupFilePy, UserSetupFilePyc, VirusScriptJobs, VirusModule]

  predicate IsNodeKind(k: Kind) {
    k == BreedGeneNode || k == VaccineGeneNode
  }

  predicate IsFileKind(k: Kind) {
    k == VaccineFilePy || k == VaccineFilePyc || k == UserSetupFilePy || k == UserSetupFilePyc
  }

  predicate IsUserSetup(k: Kind) {
    k == UserSetupFilePy || k == UserSetupFilePyc
  }

  function ClassName(k: Kind): string {
    match k
    case BreedGeneNode => "BreedGeneNode"
    case VaccineGeneNode => "VaccineGeneNode"
    case VaccineFilePy => "VaccineFilePy"
    case VaccineFilePyc => "VaccineFilePyc"
    case UserSetupFilePy => "UserSetupFilePy"
    case UserSetupFilePyc => "UserSetupFilePyc"
    case VirusScriptJobs => "VirusScriptJobs"
    case VirusModule => "VirusModule"
  }

  function ObjectType(k: Kind): string {
    if IsNodeKind(k) then "maya node"
    else if IsFileKind(k) then "file on disk"
    else if k == VirusScriptJobs then "maya scriptJobs"
    else "loaded python module"
  }

  /** The node name a node class looks for. */
  function NodeName(k: Kind): string
    requires IsNodeKind(k)
  {
    if k == BreedGeneNode then "breed_gene" else "vaccine_gene"
  }

  /** The path a file class watches: `os.path.join(<user app dir>, "scripts", <file>)`. */
  function FilePath(k: Kind, appDir: string): string
    requires IsFileKind(k)
  {
    var file := match k
      case VaccineFilePy => "vaccine.py"
      case VaccineFilePyc => "vaccine.pyc"
      case UserSetupFilePy => "userSetup.py"
      case _ => "userSetup.pyc";
    OsJoin(OsJoin(appDir, "scripts"), file)
  }

  datatype State = State(
    nodes: set<string>,
    files: set<string>,
    jobs: seq<string>,
    killed: seq<int>,
    modules: seq<string>)

  /**
   * An instantiated virus object. A node object keeps the name it looks
   * for and the node found under it ("" when none was found).
   */
  datatype Virus =
    | NodeVirus(kind: Kind, identifier: string, node: string)
    | FileVirus(kind: Kind, path: string)
    | JobsVirus(jobs: seq<string>)
    | ModuleVirus(modules: seq<string>)

  function KindOf(v: Virus): Kind {
    match v
    case NodeVirus(k, _, _) => k
    case FileVirus(k, _) => k
    case JobsVirus(_) => VirusScriptJobs
    case ModuleVirus(_) => VirusModule
  }

  /** `filter(keep, xs)`: the elements that pass, in their order. */
  function Select<T>(xs: seq<T>, keep: T -> bool): (r: seq<T>)
    ensures |r| <= |xs|
  {
    if xs == [] then []
    else Select(xs[..|xs| - 1], keep) + (if keep(xs[|xs| - 1]) then [xs[|xs| - 1]] else [])
  }

  lemma {:induction false} SelectMembers<T>(xs: seq<T>, keep: T -> bool)
    ensures forall x :: x in Select(xs, keep) <==> x in xs && keep(x)
    decreases |xs|
  {
    if xs != [] {
      SelectMembers(xs[..|xs| - 1], keep);
      assert xs == xs[..|xs| - 1] + [xs[|xs| - 1]];
    }
  }

  /** `xs` without any occurrence of `x`. */
  function Without(xs: seq<string>, x: string): seq<string> {
    Select(xs, y => y != x)
  }

  predicate IsVirusJob(job: string) {
    Contains(job, "vaccine") || Contains(job, "leukocyte")
  }

  predicate IsVirusModule(name: string) {
    Contains(name, "vaccine")
  }

  /** `VirusScriptJobs()`: the running jobs that mention the virus. */
  function VirusJobs(s: State): seq<string> {
    Select(s.jobs, IsVirusJob)
  }

  /** `VirusModule()`: the loaded modules whose name mentions "vaccine". */
  function VirusModules(s: State): seq<string> {
    Select(s.modules, IsVirusModule)
  }

  /** The filters keep exactly the jobs and modules that mention the virus. */
  lemma FiltersKeepVirusNames(s: State)
    ensures forall j :: j in VirusJobs(s) <==> j in s.jobs && (Contains(j, "vaccine") || Contains(j, "leukocyte"))
    ensures forall m :: m in VirusModules(s) <==> m in s.modules && Contains(m, "vaccine")
  {
    SelectMembers(s.jobs, IsVirusJob);
    SelectMembers(s.modules, IsVirusModule);
  }

  /** `vo()`: instantiating one class of `VIRUSOBJECTS` against the host. */
  function Instantiate(k: Kind, appDir: string, s: State): (r: Virus)
    ensures KindOf(r) == k
  {
    if IsNodeKind(k) then NodeVirus(k, NodeName(k), if NodeName(k) in s.nodes then NodeName(k) else "")
    else if IsFileKind(k) then FileVirus(k, FilePath(k, appDir))
    else if k == VirusScriptJobs then JobsVirus(VirusJobs(s))
    else ModuleVirus(VirusModules(s))
  }

  /** The `exists` property, read against the host as it is now. */
  predicate Exists(v: Virus, s: State) {
    match v
    case NodeVirus(_, _, node) => node != ""
    case FileVirus(_, path) => path in s.files
    case JobsVirus(jobs) => jobs != []
    case ModuleVirus(modules) => modules != []
  }

  function Instances(appDir: string, s: State): (r: seq<Virus>)
    ensures |r| == |VirusObjects|
    ensures forall i :: 0 <= i < |r| ==> KindOf(r[i]) == VirusObjects[i]
  {
    seq(|VirusObjects|, i requires 0 <= i < |VirusObjects| => Instantiate(VirusObjects[i], appDir, s))
  }

  function Existing(appDir: string, s: State): seq<Virus> {
    Select(Instances(appDir, s), v => Exists(v, s))
  }

  predicate AllUserSetup(vs: seq<Virus>) {
    forall i :: 0 <= i < |vs| ==> IsUserSetup(KindOf(vs[i]))
  }

  /** `check_virus_exists` */
  function CheckVirusExists(appDir: string, s: State): seq<Virus> {
    var found := Existing(appDir, s);
    if AllUserSetup(found) then [] else found
  }

  /**
   * A UserSetup file alone is no infection: the check reports something
   * exactly when some object other than the UserSetup files exists, and
   * then it reports every existing object, the UserSetup files included.
   */
  lemma CheckVirusExistsIff(appDir: string, s: State)
    ensures CheckVirusExists(appDir, s) != [] <==>
      exists i :: 0 <= i < |VirusObjects| && !IsUserSetup(VirusObjects[i]) && Exists(Instances(appDir, s)[i], s)
    ensures CheckVirusExists(appDir, s) != [] ==>
      forall v :: v in CheckVirusExists(appDir, s) <==> v in Instances(appDir, s) && Exists(v, s)
  {
    var all := Instances(appDir, s);
    var keep := v => Exists(v, s);
    var found := Existing(appDir, s);
    SelectMembers(all, keep);
    if !AllUserSetup(found) {
      var j :| 0 <= j < |found| && !IsUserSetup(KindOf(found[j]));
      assert found[j] in all;
      var i :| 0 <= i < |all| && all[i] == found[j];
      assert !IsUserSetup(VirusObjects[i]) && Exists(all[i], s);
    } else {
      forall i | 0 <= i < |VirusObjects| && Exists(all[i], s)
        ensures IsUserSetup(VirusObjects[i])
      {
        assert all[i] in found;
      }
    }
  }

  /** The exception `int(text)` raises on a text that is not an integer. */
  function NotAnInt(text: string): Failure {
    Failure("ValueError", "invalid literal for int() with base 10: '" + text + "'")
  }

  /** What `del sys.modules[name]` raises when the key is gone. */
  function MissingKey(name: string): Failure {
    Failure("KeyError", "'" + name + "'")
  }

  /** The text before the first ":" of a job entry (`job.split(":")[0]`), its id. */
  function JobIdText(job: string): string {
    Split(job, ":")[0]
  }

  datatype Action = KillJob | RemoveModule

  /** One iteration of `VirusScriptJobs.delete` or of `VirusModule.delete`. */
  function ItemStep(s: State, a: Action, item: string, refusals: map<string, Failure>): (State, Option<Failure>) {
    if a == KillJob then
      var id := ParseInt(JobIdText(item));
      if id.Err? then (s, Some(NotAnInt(JobIdText(item))))
      else if item in refusals then (s, Some(refusals[item]))
      else (s.(killed := s.killed + [id.value]), None)
    else if item !in s.modules then (s, Some(MissingKey(item)))
    else (s.(modules := Without(s.modules, item)), None)
  }

  /** The loop over the items: the first exception leaves it. */
  function EachItem(s: State, a: Action, items: seq<string>, refusals: map<string, Failure>): (r: (State, Option<Failure>))
    ensures r.0.nodes == s.nodes && r.0.files == s.files
  {
    if items == [] then (s, None)
    else
      var prev := EachItem(s, a, items[..|items| - 1], refusals);
      if prev.1.Some? then prev else ItemStep(prev.0, a, items[|items| - 1], refusals)
  }

  /** After the first exception, later items change nothing. */
  lemma {:induction false} EachItemStops(s: State, a: Action, items: seq<string>, refusals: map<string, Failure>, i: nat)
    requires i <= |items| && EachItem(s, a, items[..i], refusals).1.Some?
    ensures EachItem(s, a, items, refusals) == EachItem(s, a, items[..i], refusals)
    decreases |items| - i
  {
    if i < |items| {
      assert items[..|items| - 1][..i] == items[..i];
      EachItemStops(s, a, items[..|items| - 1], refusals, i);
    } else {
      assert items[..i] == items;
    }
  }

  /** A job entry "<id>:<rest>" that the host accepts is killed under the id before the first ":". */
  lemma KillsIdBeforeColon(s: State, n: int, rest: string, refusals: map<string, Failure>)
    requires IntToString(n) + ":" + rest !in refusals
    ensures ItemStep(s, KillJob, IntToString(n) + ":" + rest, refusals) == (s.(killed := s.killed + [n]), None)
  {
    var idText := IntToString(n);
    var job := idText + ":" + rest;
    IntToStringFree(n, ':');
    assert job[|idText|..|idText| + 1] == ":";
    forall j | 0 <= j < |idText| ensures !OccursAt(job, ":", j) {
      assert job[j] == idText[j];
    }
    FirstOccurrenceFound(job, ":", |idText|);
    assert job[..|idText|] == idText;
    assert JobIdText(job) == idText;
    IntToStringParse(n);
  }

  /** `virus.delete()` */
  function DeleteStep(s: State, v: Virus, refusals: map<string, Failure>): (r: (State, Option<Failure>))
    ensures v.NodeVirus? && v.node == "" ==> r == (s, None)
    ensures v.FileVirus? && v.path !in s.files ==> r == (s, None)
    ensures v.NodeVirus? && v.node != "" && v.node !in refusals ==> r.0.nodes == s.nodes - {v.node} && r.1.None?
    ensures v.FileVirus? && v.path in s.files && v.path !in refusals ==> r.0.files == s.files - {v.path} && r.1.None?
    ensures r.0.nodes <= s.nodes && r.0.files <= s.files
  {
    match v
    case NodeVirus(_, _, node) =>
      if node == "" then (s, None)
      else if node in refusals then (s, Some(refusals[node]))
      else (s.(nodes := s.nodes - {node}), None)
    case FileVirus(_, path) =>
      if path !in s.files then (s, None)
      else if path in refusals then (s, Some(refusals[path]))
      else (s.(files := s.files - {path}), None)
    case JobsVirus(jobs) => EachItem(s, KillJob, jobs, refusals)
    case ModuleVirus(modules) => EachItem(s, RemoveModule, modules, refusals)
  }

  /** Python's `repr` of a list of strings. */
  function ListRepr(xs: seq<string>): string {
    "[" + Join(seq(|xs|, i requires 0 <= i < |xs| => "'" + xs[i] + "'"), ", ") + "]"
  }

  /** `str(virus)`, the source an error is recorded under. */
  function Describe(v: Virus): string {
    var k := KindOf(v);
    var identifier := match v
      case NodeVirus(_, identifier, _) => identifier
      case FileVirus(_, path) => path
      case JobsVirus(jobs) => ListRepr(jobs)
      case ModuleVirus(modules) => ListRepr(modules);
    "[" + LJust(ClassName(k), 18) + "] " + ObjectType(k) + " : <" + identifier + ">"
  }

  /** The loop of `delete_virus`: every object is deleted in turn and each failure recorded. */
  function Sweep(s: State, vs: seq<Virus>, refusals: map<string, Failure>): (State, seq<Entry>) {
    if vs == [] then (s, [])
    else
      var prev := Sweep(s, vs[..|vs| - 1], refusals);
      var v := vs[|vs| - 1];
      var step := DeleteStep(prev.0, v, refusals);
      (step.0, prev.1 + if step.1.Some? then [Entry(Describe(v), step.1.value)] else [])
  }

  lemma SweepStep(s: State, vs: seq<Virus>, i: nat, refusals: map<string, Failure>)
    requires i < |vs|
    ensures var prev := Sweep(s, vs[..i], refusals);
      var step := DeleteStep(prev.0, vs[i], refusals);
      Sweep(s, vs[..i + 1], refusals) == (step.0, prev.1 + if step.1.Some? then [Entry(Describe(vs[i]), step.1.value)] else [])
  {
    assert vs[..i + 1][..i] == vs[..i];
  }

  /**
   * A failure does not stop the sweep: every listed node or file that the
   * host does not refuse is gone at the end, whatever failed before or
   * after it.
   */
  lemma {:induction false} SweepRemovesAccepted(s: State, vs: seq<Virus>, refusals: map<string, Failure>)
    ensures forall i :: 0 <= i < |vs| && vs[i].NodeVirus? && vs[i].node != "" && vs[i].node !in refusals ==> vs[i].node !in Sweep(s, vs, refusals).0.nodes
    ensures forall i :: 0 <= i < |vs| && vs[i].FileVirus? && vs[i].path !in refusals ==> vs[i].path !in Sweep(s, vs, refusals).0.files
    ensures Sweep(s, vs, refusals).0.nodes <= s.nodes && Sweep(s, vs, refusals).0.files <= s.files
    decreases |vs|
  {
    if vs != [] {
      var init := vs[..|vs| - 1];
      SweepRemovesAccepted(s, init, refusals);
      var prev := Sweep(s, init, refusals);
      var v := vs[|vs| - 1];
      var after := DeleteStep(prev.0, v, refusals).0;
      assert Sweep(s, vs, refusals).0 == after;
      forall i | 0 <= i < |vs| - 1 && vs[i].NodeVirus? && vs[i].node != "" && vs[i].node !in refusals
        ensures vs[i].node !in after.nodes
      {
        assert vs[i] == init[i];
      }
      forall i | 0 <= i < |vs| - 1 && vs[i].FileVirus? && vs[i].path !in refusals
        ensures vs[i].path !in after.files
      {
        assert vs[i] == init[i];
      }
    }
  }

  /** At most one record per object, and each one is recorded under the `str` of a listed object. */
  lemma {:induction false} SweepRecordsListed(s: State, vs: seq<Virus>, refusals: map<string, Failure>)
    ensures |Sweep(s, vs, refusals).1| <= |vs|
    ensures forall k :: 0 <= k < |Sweep(s, vs, refusals).1| ==>
      exists i :: 0 <= i < |vs| && Sweep(s, vs, refusals).1[k].source == Describe(vs[i])
    decreases |vs|
  {
    if vs != [] {
      var init := vs[..|vs| - 1];
      SweepRecordsListed(s, init, refusals);
      var es := Sweep(s, vs, refusals).1;
      var prev := Sweep(s, init, refusals).1;
      forall k | 0 <= k < |es|
        ensures exists i :: 0 <= i < |vs| && es[k].source == Describe(vs[i])
      {
        if k < |prev| {
          assert es[k] == prev[k];
          var i :| 0 <= i < |init| && prev[k].source == Describe(init[i]);
          assert init[i] == vs[i];
        } else {
          assert es[k].source == Describe(vs[|vs| - 1]);
        }
      }
    }
  }

  /**
   * The machine the cleaner runs on: the host state as fields that the
   * deletions update, and the refusals oracle.
   */
  class Machine {
    const appDir: string
    const refusals: map<string, Failure>
    var nodes: set<string>
    var files: set<string>
    var jobs: seq<string>
    var killed: seq<int>
    var modules: seq<string>

    function Current(): State
      reads this
    {
      State(nodes, files, jobs, killed, modules)
    }

    constructor(appDir: string, s: State, refusals: map<string, Failure>)
      ensures this.appDir == appDir && this.refusals == refusals && Current() == s
    {
      this.appDir := appDir;
      this.refusals := refusals;
      nodes, files, jobs, killed, modules := s.nodes, s.files, s.jobs, s.killed, s.modules;
    }

    /** The loop of `VirusScriptJobs.delete` or of `VirusModule.delete`. */
    method DeleteEach(a: Action, items: seq<string>) returns (failure: Option<Failure>)
      modifies this
      ensures (Current(), failure) == EachItem(old(Current()), a, items, refusals)
    {
      ghost var s0 := Current();
      for i := 0 to |items|
        invariant (Current(), None) == EachItem(s0, a, items[..i], refusals)
      {
        var item := items[i];
        assert items[..i + 1][..i] == items[..i];
        assert EachItem(s0, a, items[..i + 1], refusals) == ItemStep(Current(), a, item, refusals);
        if a == KillJob {
          var idText := Split(item, ":")[0];
          var id := ParseInt(idText);
          if id.Err? {
            EachItemStops(s0, a, items, refusals, i + 1);
            return Some(NotAnInt(idText));
          }
          if item in refusals {
            EachItemStops(s0, a, items, refusals, i + 1);
            return Some(refusals[item]);
          }
          killed := killed + [id.value];
        } else {
          if item !in modules {
            EachItemStops(s0, a, items, refusals, i + 1);
            return Some(MissingKey(item));
          }
          modules := Without(modules, item);
        }
      }
      assert items[..|items|] == items;
      return None;
    }

    /** `virus.delete()`: a node or file that is gone is left alone. */
    method Delete(v: Virus) returns (failure: Option<Failure>)
      modifies this
      ensures (Current(), failure) == DeleteStep(old(Current()), v, refusals)
    {
      match v
      case NodeVirus(_, _, node) =>
        if node == "" {
          return None;
        }
        if node in refusals {
          return Some(refusals[node]);
        }
        nodes := nodes - {node};
        return None;
      case FileVirus(_, path) =>
        if path !in files {
          return None;
        }
        if path in refusals {
          return Some(refusals[path]);
        }
        files := files - {path};
        return None;
      case JobsVirus(jobs) =>
        failure := DeleteEach(KillJob, jobs);
      case ModuleVirus(modules) =>
        failure := DeleteEach(RemoveModule, modules);
    }

    /** The loop of `delete_virus`: each failure goes to `errorh`, and the loop carries on. */
    method DeleteAll(viruses: seq<Virus>, errorh: ErrorHandler) returns (failures: seq<Entry>)
      requires errorh.Valid() && errorh.added == []
      modifies this, errorh
      ensures errorh.Valid() && errorh.added == failures
      ensures (Current(), failures) == Sweep(old(Current()), viruses, refusals)
    {
      ghost var s0 := Current();
      failures := [];
      for i := 0 to |viruses|
        invariant errorh.Valid() && errorh.added == failures
        invariant Current() == Sweep(s0, viruses[..i], refusals).0 && failures == Sweep(s0, viruses[..i], refusals).1
      {
        SweepStep(s0, viruses, i, refusals);
        var v := viruses[i];
        var failure := Delete(v);
        if failure.Some? {
          errorh.Add(Describe(v), failure.value);
          failures := failures + [Entry(Describe(v), failure.value)];
        }
      }
      assert viruses[..|viruses|] == viruses;
    }

    /**
     * `delete_virus`: deletes every object the check reports, records each
     * failure under the object's `str`, and logs them under the context
     * "delete_virus".
     */
    method DeleteVirus() returns (failures: seq<Entry>, record: Option<Record>)
      modifies this
      ensures (Current(), failures) == Sweep(old(Current()), CheckVirusExists(appDir, old(Current())), refusals)
      ensures record.None? <==> failures == []
      ensures record.Some? ==> record.value == Record(Error, ContextReport(failures, "delete_virus"))
    {
      var errorh := new ErrorHandler("delete_virus");
      var viruses := CheckVirusExists(appDir, Current());
      failures := DeleteAll(viruses, errorh);
      record := errorh.LogWithContext("");
    }
  }
}
