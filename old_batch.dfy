/**
 * refrepath/refrepath_batch.py: the earlier batch driver. It walks a root
 * directory for Maya files (the same walk as refrepath/utils.py, modelled once
 * by RefUtils.GetChildFilesFromRoot), processes only the files named
 * "Final.ma", takes the root's own name as the denominator and the root as
 * the substitute, and starts one Maya batch process per file with an edited
 * copy of the environment. The clock, the inherited environment, the package
 * directory, `os.pathsep`, the dry-run switch and the file system are
 * parameters.
 */
module OldBatch {
  import opened Wrappers
  import opened Strings
  import opened Paths
  import opened RefUtils
  import opened Batch

  // ---------------------------------------------------------------------------
  // get_log_file

  const OldLogPrefix := "refrepath-"

  /** The stem of the log file: "refrepath-<file name>-<time>". */
  function OldLogStem(mayaFile: string, time: DateTime): string {
    OldLogPrefix + Name(mayaFile) + ("-" + PrettyTime(time))
  }

  /** `get_log_file`: "refrepath-<file name>-<time>.log" next to the scene file. */
  function OldLogPath(mayaFile: string, time: DateTime): string {
    Sibling(mayaFile, OldLogStem(mayaFile, time) + ".log")
  }

  /** The log file sits in the scene's directory, has the extension ".log" and its stem names the scene and the time. */
  lemma OldLogPathParts(mayaFile: string, time: DateTime)
    requires time.Valid()
    ensures var q := OldLogPath(mayaFile, time);
      && DirPrefix(q) == DirPrefix(mayaFile)
      && Suffix(q) == ".log"
      && Stem(q) == OldLogStem(mayaFile, time)
  {
    var stem := OldLogStem(mayaFile, time);
    var name := stem + ".log";
    OldLogStemFree(mayaFile, time);
    ConcatFree(stem, ".log", '/');
    UnderDir(mayaFile, name);
    SuffixAfterStem(stem, ".log");
    assert name[..|stem|] == stem && name[|stem|..] == ".log";
  }

  lemma OldLogStemFree(mayaFile: string, time: DateTime)
    requires time.Valid()
    ensures Free(OldLogStem(mayaFile, time), '/')
  {
    StampFree(time);
    assert Free(OldLogPrefix, '/');
    ConcatFree(OldLogPrefix, Name(mayaFile), '/');
    ConcatFree("-", PrettyTime(time), '/');
    ConcatFree(OldLogPrefix + Name(mayaFile), "-" + PrettyTime(time), '/');
  }

  /** The two revisions name the log file alike but for the prefix ("refrepath-" against "refrepath.batch-"). */
  lemma LogNamesDifferInPrefix(mayaFile: string, time: DateTime)
    ensures var tail := Name(mayaFile) + ("-" + PrettyTime(time)) + ".log";
      && OldLogPath(mayaFile, time) == DirPrefix(mayaFile) + (OldLogPrefix + tail)
      && LogPathOf(mayaFile, time) == DirPrefix(mayaFile) + (LogPrefix + tail)
  {
    var name := Name(mayaFile);
    var stamp := "-" + PrettyTime(time);
    Regroup3(OldLogPrefix, name, stamp, ".log");
    Regroup3(LogPrefix, name, stamp, ".log");
  }

  lemma Regroup3(p: string, a: string, b: string, c: string)
    ensures p + a + b + c == p + (a + b + c)
  {
  }

  // ---------------------------------------------------------------------------
  // process_file

  /**
   * What `process_file` hands the child, key by key: PYTHONPATH and the four
   * switches are set, VIRTUAL_ENV is gone, everything else (PATH and "_"
   * included) is inherited unchanged.
   */
  ghost predicate IsOldEnv(env: map<string, string>, environ: map<string, string>, package: string, pathSep: string) {
    && (forall k :: k in env <==> k == "PYTHONPATH" || k in DisabledServices || (k in environ && k != "VIRTUAL_ENV"))
    && "PYTHONPATH" in env && env["PYTHONPATH"] == ChildPythonPath(environ, package, pathSep)
    && (forall k :: k in DisabledServices ==> k in env && env[k] == "1")
    && (forall k :: k in env && k != "PYTHONPATH" && k !in DisabledServices ==> k in environ && env[k] == environ[k])
  }

  /** The environment `process_file` builds, step by step. */
  function OldProcessEnv(environ: map<string, string>, package: string, pathSep: string): map<string, string> {
    var pythonPath := (if "PYTHON_PATH" in environ then environ["PYTHON_PATH"] else "") + pathSep + package;
    var env := environ["PYTHONPATH" := pythonPath];
    var env := env["MAYA_DISABLE_CLIC_IPM" := "1"]["MAYA_DISABLE_CIP" := "1"]["MAYA_DISABLE_CER" := "1"]["MAYA_DISABLE_ADP" := "1"];
    if "VIRTUAL_ENV" in env then env - {"VIRTUAL_ENV"} else env
  }

  lemma OldEnvKeys(environ: map<string, string>, package: string, pathSep: string)
    ensures IsOldEnv(OldProcessEnv(environ, package, pathSep), environ, package, pathSep)
  {
  }

  /**
   * Outside the three arguments, PATH and "_", which only the current revision
   * sets or removes, both revisions give the child the same variables.
   */
  lemma OldEnvMatchesNew(environ: map<string, string>, mayaFile: string, denominator: string, root: string,
                         package: string, pathSep: string, k: string)
    requires k !in {ArgMayaFile, ArgDenominator, ArgRoot, "PATH", "_"}
    ensures var oldEnv := OldProcessEnv(environ, package, pathSep);
      var newEnv := BatchEnv(environ, mayaFile, denominator, root, package, pathSep);
      (k in oldEnv <==> k in newEnv) && (k in oldEnv ==> oldEnv[k] == newEnv[k])
  {
    OldEnvKeys(environ, package, pathSep);
    BatchEnvKeys(environ, mayaFile, denominator, root, package, pathSep);
  }

  /** One file handed to a child: the arguments of its Python call, its log file, and the environment it was started with (None on a dry run). */
  datatype OldJob = OldJob(file: string, denominator: string, root: string, logPath: string,
                           launchedEnv: Option<map<string, string>>)

  /** `Path(root_path.name)` for a root already in pathlib's normal form: its last component, "." for a root without a name. */
  function OldDenominator(root: string): (d: string)
    ensures d != ""
  {
    if Name(root) == "" then "." else Name(root)
  }

  /**
   * On the root as `Path(...)` normalises it, the denominator is the last
   * component that is neither empty nor ".", so a trailing "/" or "/." does
   * not change it; a root with no such component gives ".".
   */
  lemma OldDenominatorOfRoot(root: string)
    ensures OldDenominator(PurePath(root)) == if PurePathName(root) == "" then "." else PurePathName(root)
  {
    PurePathNameIsName(root);
  }

  /** The environment a child is started with: none on a dry run, else the same edited copy for every file. */
  function LaunchedEnv(environ: map<string, string>, package: string, pathSep: string, dryRun: bool): Option<map<string, string>> {
    if dryRun then None else Some(OldProcessEnv(environ, package, pathSep))
  }

  /** What `process_file` does for one file at time `time`, `launched` being the environment it starts the child with. */
  function OldJobOf(file: string, root: string, time: DateTime, launched: Option<map<string, string>>): OldJob {
    OldJob(file, OldDenominator(root), root, OldLogPath(file, time), launched)
  }

  /**
   * `process_file`: the environment is copied and edited in place; a dry run
   * returns before the child is started. A child that exits with an error is
   * only logged, so nothing of its result reaches the caller.
   */
  method OldProcessFile(file: string, denominator: string, root: string, logPath: string,
                        environ: map<string, string>, package: string, pathSep: string, dryRun: bool)
    returns (launchedEnv: Option<map<string, string>>)
    ensures launchedEnv == LaunchedEnv(environ, package, pathSep, dryRun)
  {
    var env := environ;
    var pythonPath := if "PYTHON_PATH" in env then env["PYTHON_PATH"] else "";
    pythonPath := pythonPath + pathSep + package;
    env := env["PYTHONPATH" := pythonPath];
    env := env["MAYA_DISABLE_CLIC_IPM" := "1"];
    env := env["MAYA_DISABLE_CIP" := "1"];
    env := env["MAYA_DISABLE_CER" := "1"];
    env := env["MAYA_DISABLE_ADP" := "1"];
    if "VIRTUAL_ENV" in env {
      env := env - {"VIRTUAL_ENV"};
    }
    if dryRun {
      return None;
    }
    return Some(env);
  }

  // ---------------------------------------------------------------------------
  // process_all_maya_files_from

  /** The file name the loop lets through; every other file is skipped. */
  const ProcessedName := "Final.ma"

  /** The jobs for `files`, the file at index `i` being processed at `clock(i)`; computed from the last file backwards. */
  function OldJobsOf(files: seq<string>, root: string, clock: nat -> DateTime, launched: Option<map<string, string>>): (r: seq<OldJob>)
    ensures |r| <= |files|
  {
    if files == [] then []
    else
      var i := |files| - 1;
      OldJobsOf(files[..i], root, clock, launched)
        + (if Name(files[i]) == ProcessedName then [OldJobOf(files[i], root, clock(i), launched)] else [])
  }

  /**
   * `process_all_maya_files_from`: the denominator is the root's name, the
   * root is the substitute, and the Maya files are visited in walk order,
   * skipping all but "Final.ma".
   */
  method OldProcessAllMayaFilesFrom(root: string, entries: seq<Entry>, clock: nat -> DateTime,
                                    environ: map<string, string>, package: string, pathSep: string, dryRun: bool)
    returns (jobs: seq<OldJob>)
    ensures jobs == OldJobsOf(FilterKept(ChildFiles(entries, true, []), MayaExtensions), root, clock, LaunchedEnv(environ, package, pathSep, dryRun))
  {
    var denominator := OldDenominator(root);
    var files := GetMayaFilesRecursively(entries);
    ghost var launched := LaunchedEnv(environ, package, pathSep, dryRun);
    jobs := [];
    for i := 0 to |files|
      invariant jobs == OldJobsOf(files[..i], root, clock, launched)
    {
      OldJobsStep(files, i, root, clock, launched);
      if Name(files[i]) != ProcessedName {
        continue;
      }
      var logPath := OldLogPath(files[i], clock(i));
      var launchedEnv := OldProcessFile(files[i], denominator, root, logPath, environ, package, pathSep, dryRun);
      jobs := jobs + [OldJob(files[i], denominator, root, logPath, launchedEnv)];
    }
    assert files[..|files|] == files;
  }

  lemma OldJobsStep(files: seq<string>, i: nat, root: string, clock: nat -> DateTime,
                    launched: Option<map<string, string>>)
    requires i < |files|
    ensures OldJobsOf(files[..i + 1], root, clock, launched)
         == OldJobsOf(files[..i], root, clock, launched)
          + (if Name(files[i]) == ProcessedName then [OldJobOf(files[i], root, clock(i), launched)] else [])
  {
    assert files[..i + 1][..i] == files[..i];
  }

  /** Every job is for a file named "Final.ma" among the files, with the root's name as denominator and the root as substitute. */
  lemma {:induction false} JobsOnlyForFinal(files: seq<string>, root: string, clock: nat -> DateTime,
                                            launched: Option<map<string, string>>)
    ensures forall j :: j in OldJobsOf(files, root, clock, launched) ==>
      j.file in files && Name(j.file) == ProcessedName && j.denominator == OldDenominator(root) && j.root == root
  {
    if files != [] {
      var i := |files| - 1;
      JobsOnlyForFinal(files[..i], root, clock, launched);
      assert forall x :: x in files[..i] ==> x in files;
    }
  }

  /** The files named "Final.ma", in order. */
  function FinalFiles(files: seq<string>): (r: seq<string>)
    ensures forall x :: x in r <==> x in files && Name(x) == ProcessedName
  {
    if files == [] then []
    else
      var i := |files| - 1;
      assert forall x :: x in files <==> x in files[..i] || x == files[i] by {
        assert files == files[..i] + [files[i]];
      }
      FinalFiles(files[..i]) + (if Name(files[i]) == ProcessedName then [files[i]] else [])
  }

  /** The file of each job, in job order. */
  function FilesOf(jobs: seq<OldJob>): seq<string> {
    if jobs == [] then [] else FilesOf(jobs[..|jobs| - 1]) + [jobs[|jobs| - 1].file]
  }

  lemma FilesOfSnoc(jobs: seq<OldJob>, job: OldJob)
    ensures FilesOf(jobs + [job]) == FilesOf(jobs) + [job.file]
  {
    assert (jobs + [job])[..|jobs|] == jobs;
  }

  /** The jobs are exactly one per "Final.ma" file, in the order the walk found them. */
  lemma {:induction false} JobsFollowFinalFiles(files: seq<string>, root: string, clock: nat -> DateTime,
                                                launched: Option<map<string, string>>)
    ensures FilesOf(OldJobsOf(files, root, clock, launched)) == FinalFiles(files)
  {
    if files != [] {
      var i := |files| - 1;
      JobsFollowFinalFiles(files[..i], root, clock, launched);
      var init := OldJobsOf(files[..i], root, clock, launched);
      if Name(files[i]) == ProcessedName {
        var job := OldJobOf(files[i], root, clock(i), launched);
        assert OldJobsOf(files, root, clock, launched) == init + [job];
        assert FinalFiles(files) == FinalFiles(files[..i]) + [files[i]];
        FilesOfSnoc(init, job);
      } else {
        assert OldJobsOf(files, root, clock, launched) == init + [];
        assert FinalFiles(files) == FinalFiles(files[..i]) + [];
        assert init + [] == init;
        assert FinalFiles(files[..i]) + [] == FinalFiles(files[..i]);
      }
    }
  }

  /** A dry run starts no child. */
  lemma {:induction false} DryRunLaunchesNothing(files: seq<string>, root: string, clock: nat -> DateTime)
    ensures forall j :: j in OldJobsOf(files, root, clock, None) ==> j.launchedEnv == None
  {
    if files != [] {
      DryRunLaunchesNothing(files[..|files| - 1], root, clock);
    }
  }

  // ---------------------------------------------------------------------------
  // cli

  /**
   * `cli`: the argument is normalised by `Path(...)`; a root that does not
   * exist is a FileNotFoundError; otherwise every Maya file under it is
   * considered, with the normalised root as substitute. `disk` holds paths in
   * normal form.
   */
  method OldCli(root: string, disk: set<string>, entries: seq<Entry>, clock: nat -> DateTime,
                environ: map<string, string>, package: string, pathSep: string, dryRun: bool)
    returns (r: Result<seq<OldJob>>)
    ensures PurePath(root) !in disk ==> r == Err(FileNotFoundError)
    ensures PurePath(root) in disk ==>
      r == Ok(OldJobsOf(FilterKept(ChildFiles(entries, true, []), MayaExtensions), PurePath(root), clock, LaunchedEnv(environ, package, pathSep, dryRun)))
  {
    var rootPath := PurePath(root);
    if rootPath !in disk {
      return Err(FileNotFoundError);
    }
    var jobs := OldProcessAllMayaFilesFrom(rootPath, entries, clock, environ, package, pathSep, dryRun);
    return Ok(jobs);
  }
}
