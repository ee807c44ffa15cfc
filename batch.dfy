/**
 * refrepath/batch.py: running one Maya batch process per scene file and
 * reading back what the child process printed.
 *
 * The parent side is the `FileBatcher` object: it names its log file and
 * builds the child's environment and command line once, keeping each in a
 * cache field. The clock, the inherited environment, the package directory,
 * `os.pathsep`, the dry-run switch and the child process itself are
 * parameters. The child side is `process_session`, which reads its three
 * arguments back from the environment, repaths the current scene and saves
 * it under a new name only if a reference changed.
 */
module Batch {
  import opened Wrappers
  import opened Strings
  import opened Paths
  import opened RefUtils
  import opened RefCore
  import opened MayaUtils
  import opened LogScrape

  // ---------------------------------------------------------------------------
  // Names derived from the construction time
  // ---------------------------------------------------------------------------

  /** `FileBatcher.Variables`: the names of the three arguments passed to the child. */
  const ArgMayaFile := "REFREPATH_ARG_MAYA_FILE"
  const ArgDenominator := "REFREPATH_ARG_DENOMINATOR"
  const ArgRoot := "REFREPATH_ARG_ROOT"

  /** A `datetime` as far as `strftime` reads it. */
  datatype DateTime = DateTime(year: nat, month: nat, day: nat, hour: nat, minute: nat, second: nat)
  {
    /** The ranges `datetime` enforces. */
    predicate Valid() {
      1 <= year <= 9999 && 1 <= month <= 12 && 1 <= day <= 31 && hour < 24 && minute < 60 && second < 60
    }
  }

  /** A field of `strftime`: the number in decimal, zero-padded to `width` digits. */
  function Pad(n: nat, width: nat): string {
    ZFill(NatToString(n), width)
  }

  /** `strftime("%Y%m%d-%H%M%S")` */
  function PrettyTime(t: DateTime): string {
    Pad(t.year, 4) + Pad(t.month, 2) + Pad(t.day, 2) + "-" + Pad(t.hour, 2) + Pad(t.minute, 2) + Pad(t.second, 2)
  }

  function Pow10(n: nat): nat {
    if n == 0 then 1 else 10 * Pow10(n - 1)
  }

  lemma {:induction false} NatToStringLength(n: nat, width: nat)
    requires 1 <= width && n < Pow10(width)
    ensures |NatToString(n)| <= width
    decreases width
  {
    if n >= 10 {
      assert width >= 2;
      assert (n / 10) * 10 <= n;
      NatToStringLength(n / 10, width - 1);
    }
  }

  /** A field below `10^width` fills exactly `width` digits, and they read back as the number. */
  lemma PadField(n: nat, width: nat)
    requires 1 <= width && n < Pow10(width)
    ensures |Pad(n, width)| == width && AllDigits(Pad(n, width)) && DigitsValue(Pad(n, width)) == n
  {
    NatToStringLength(n, width);
    ZFillNatValue(n, width);
  }

  /**
   * The time stamp is fifteen characters: eight digits of date, '-', six
   * digits of time, and each field reads back as the value it was made from.
   */
  lemma PrettyTimeShape(t: DateTime)
    requires t.Valid()
    ensures var p := PrettyTime(t);
      && |p| == 15 && p[8] == '-'
      && (forall k :: 0 <= k < 15 && k != 8 ==> IsDigit(p[k]))
      && DigitsValue(p[0..4]) == t.year && DigitsValue(p[4..6]) == t.month && DigitsValue(p[6..8]) == t.day
      && DigitsValue(p[9..11]) == t.hour && DigitsValue(p[11..13]) == t.minute && DigitsValue(p[13..15]) == t.second
  {
    assert Pow10(2) == 100 && Pow10(4) == 10000;
    PadField(t.year, 4);
    PadField(t.month, 2);
    PadField(t.day, 2);
    PadField(t.hour, 2);
    PadField(t.minute, 2);
    PadField(t.second, 2);
    StampLayout(Pad(t.year, 4), Pad(t.month, 2), Pad(t.day, 2), Pad(t.hour, 2), Pad(t.minute, 2), Pad(t.second, 2));
  }

  /** Where each field of the stamp sits. */
  lemma StampLayout(y: string, mo: string, d: string, h: string, mi: string, s: string)
    requires |y| == 4 && |mo| == 2 && |d| == 2 && |h| == 2 && |mi| == 2 && |s| == 2
    requires AllDigits(y) && AllDigits(mo) && AllDigits(d) && AllDigits(h) && AllDigits(mi) && AllDigits(s)
    ensures var p := y + mo + d + "-" + h + mi + s;
      && |p| == 15 && p[8] == '-'
      && (forall k :: 0 <= k < 15 && k != 8 ==> IsDigit(p[k]))
      && p[0..4] == y && p[4..6] == mo && p[6..8] == d && p[9..11] == h && p[11..13] == mi && p[13..15] == s
  {
    var date := y + mo + d;
    var clock := h + mi + s;
    assert date[0..4] == y && date[4..6] == mo && date[6..8] == d;
    assert clock[0..2] == h && clock[2..4] == mi && clock[4..6] == s;
    assert AllDigits(date) by {
      forall k | 0 <= k < 8 ensures IsDigit(date[k]) {
        if k < 4 {
          assert date[k] == y[k];
        } else if k < 6 {
          assert date[k] == mo[k - 4];
        } else {
          assert date[k] == d[k - 6];
        }
      }
    }
    assert AllDigits(clock) by {
      forall k | 0 <= k < 6 ensures IsDigit(clock[k]) {
        if k < 2 {
          assert clock[k] == h[k];
        } else if k < 4 {
          assert clock[k] == mi[k - 2];
        } else {
          assert clock[k] == s[k - 4];
        }
      }
    }
    var p := date + "-" + clock;
    assert p == y + mo + d + "-" + h + mi + s;
    assert p[0..8] == date && p[9..15] == clock;
    forall k | 0 <= k < 15 && k != 8 ensures IsDigit(p[k]) {
      if k < 8 {
        assert p[k] == date[k];
      } else {
        assert p[k] == clock[k - 9];
      }
    }
  }

  /** `identifier`: the file's stem and the construction time. */
  function Identifier(mayaFile: string, time: DateTime): string {
    Stem(mayaFile) + ("-" + PrettyTime(time))
  }

  /** The name of the log file: "refrepath.batch-<file name>-<time>.log". */
  function LogName(mayaFile: string, time: DateTime): string {
    LogStem(mayaFile, time) + ".log"
  }

  /** `log_path`: the log file sits next to the scene file. */
  function LogPathOf(mayaFile: string, time: DateTime): string {
    Sibling(mayaFile, LogName(mayaFile, time))
  }

  /**
   * The log file is in the scene's directory, has the extension ".log" and
   * its stem carries the scene's file name and the construction time, the
   * same time stamp that ends the identifier.
   */
  lemma LogPathParts(mayaFile: string, time: DateTime)
    requires time.Valid()
    ensures var q := LogPathOf(mayaFile, time);
      && DirPrefix(q) == DirPrefix(mayaFile)
      && Name(q) == LogName(mayaFile, time)
      && Suffix(q) == ".log"
      && Stem(q) == LogStem(mayaFile, time)
      && EndsWith(Stem(q), "-" + PrettyTime(time))
      && EndsWith(Identifier(mayaFile, time), "-" + PrettyTime(time))
  {
    LogPathPlace(mayaFile, time);
    LogPathExtension(mayaFile, time);
    SharedStamp(mayaFile, time);
  }

  lemma LogPathPlace(mayaFile: string, time: DateTime)
    requires time.Valid()
    ensures DirPrefix(LogPathOf(mayaFile, time)) == DirPrefix(mayaFile)
    ensures Name(LogPathOf(mayaFile, time)) == LogName(mayaFile, time)
  {
    var stem := LogStem(mayaFile, time);
    LogStemFree(mayaFile, time);
    ConcatFree(stem, ".log", '/');
    UnderDir(mayaFile, LogName(mayaFile, time));
  }

  lemma LogPathExtension(mayaFile: string, time: DateTime)
    requires time.Valid()
    ensures Suffix(LogPathOf(mayaFile, time)) == ".log"
    ensures Stem(LogPathOf(mayaFile, time)) == LogStem(mayaFile, time)
  {
    var stem := LogStem(mayaFile, time);
    var name := LogName(mayaFile, time);
    LogPathPlace(mayaFile, time);
    SuffixAfterStem(stem, ".log");
    assert name[..|stem|] == stem && name[|stem|..] == ".log";
  }

  lemma SharedStamp(mayaFile: string, time: DateTime)
    ensures EndsWith(LogStem(mayaFile, time), "-" + PrettyTime(time))
    ensures EndsWith(Identifier(mayaFile, time), "-" + PrettyTime(time))
  {
    EndsWithTail(LogPrefix + Name(mayaFile), "-" + PrettyTime(time));
    EndsWithTail(Stem(mayaFile), "-" + PrettyTime(time));
  }

  /** The stem of the log file: "refrepath.batch-<file name>-<time>". */
  function LogStem(mayaFile: string, time: DateTime): (r: string)
    ensures |r| > |LogPrefix|
  {
    LogPrefix + Name(mayaFile) + ("-" + PrettyTime(time))
  }

  const LogPrefix := "refrepath.batch-"

  lemma LogStemFree(mayaFile: string, time: DateTime)
    requires time.Valid()
    ensures Free(LogStem(mayaFile, time), '/')
  {
    StampFree(time);
    PrefixFree(LogPrefix);
    ConcatFree(LogPrefix, Name(mayaFile), '/');
    ConcatFree("-", PrettyTime(time), '/');
    ConcatFree(LogPrefix + Name(mayaFile), "-" + PrettyTime(time), '/');
  }

  lemma PrefixFree(pre: string)
    requires pre == "refrepath.batch-"
    ensures Free(pre, '/')
  {
  }

  /** The time stamp holds digits and '-' only, so no '/'. */
  lemma StampFree(time: DateTime)
    requires time.Valid()
    ensures Free(PrettyTime(time), '/')
  {
    PrettyTimeShape(time);
  }

  // ---------------------------------------------------------------------------
  // The child's environment
  // ---------------------------------------------------------------------------

  /** The four `MAYA_DISABLE_*` variables set to "1" to skip network services. */
  const DisabledServices: set<string> := {"MAYA_DISABLE_CLIC_IPM", "MAYA_DISABLE_CIP", "MAYA_DISABLE_CER", "MAYA_DISABLE_ADP"}

  /** The variables `env` assigns. */
  const AssignedVariables: set<string> := {ArgMayaFile, ArgDenominator, ArgRoot, "PYTHONPATH", "PATH"} + DisabledServices

  /** The variables `env` removes. */
  const RemovedVariables: set<string> := {"_", "VIRTUAL_ENV"}

  /** PYTHONPATH for the child: the inherited PYTHON_PATH (not PYTHONPATH), the separator, the package directory. */
  function ChildPythonPath(environ: map<string, string>, package: string, pathSep: string): string {
    (if "PYTHON_PATH" in environ then environ["PYTHON_PATH"] else "") + pathSep + package
  }

  /**
   * What `env` hands the child, key by key: the three arguments, PYTHONPATH,
   * an empty PATH and the four switches are set; "_" and VIRTUAL_ENV are
   * gone; every other inherited variable keeps its value.
   */
  ghost predicate IsBatchEnv(env: map<string, string>, environ: map<string, string>,
                             mayaFile: string, denominator: string, root: string, package: string, pathSep: string)
  {
    && (forall k :: k in env <==> k in AssignedVariables || (k in environ && k !in RemovedVariables))
    && ArgMayaFile in env && env[ArgMayaFile] == mayaFile
    && ArgDenominator in env && env[ArgDenominator] == denominator
    && ArgRoot in env && env[ArgRoot] == root
    && "PYTHONPATH" in env && env["PYTHONPATH"] == ChildPythonPath(environ, package, pathSep)
    && "PATH" in env && env["PATH"] == ""
    && (forall k :: k in DisabledServices ==> k in env && env[k] == "1")
    && (forall k :: k in env && k !in AssignedVariables ==> k in environ && env[k] == environ[k])
  }

  /** What `env` computes: a copy of the inherited environment, edited step by step. */
  function BatchEnv(environ: map<string, string>, mayaFile: string, denominator: string, root: string,
                    package: string, pathSep: string): map<string, string>
  {
    var env := environ[ArgMayaFile := mayaFile][ArgDenominator := denominator][ArgRoot := root];
    var pythonPath := (if "PYTHON_PATH" in env then env["PYTHON_PATH"] else "") + pathSep + package;
    var env := env["PYTHONPATH" := pythonPath]["PATH" := ""] - {"_"} - {"VIRTUAL_ENV"};
    env["MAYA_DISABLE_CLIC_IPM" := "1"]["MAYA_DISABLE_CIP" := "1"]["MAYA_DISABLE_CER" := "1"]["MAYA_DISABLE_ADP" := "1"]
  }

  /** The environment built for the child is the inherited one with exactly the documented edits. */
  lemma BatchEnvKeys(environ: map<string, string>, mayaFile: string, denominator: string, root: string,
                     package: string, pathSep: string)
    ensures IsBatchEnv(BatchEnv(environ, mayaFile, denominator, root, package, pathSep),
                       environ, mayaFile, denominator, root, package, pathSep)
  {
  }

  /** The key-by-key description leaves nothing open: two environments that both meet it are the same. */
  lemma BatchEnvDetermined(env1: map<string, string>, env2: map<string, string>, environ: map<string, string>,
                           mayaFile: string, denominator: string, root: string, package: string, pathSep: string)
    requires IsBatchEnv(env1, environ, mayaFile, denominator, root, package, pathSep)
    requires IsBatchEnv(env2, environ, mayaFile, denominator, root, package, pathSep)
    ensures env1 == env2
  {
    assert env1.Keys == env2.Keys;
    forall k | k in env1.Keys ensures env1[k] == env2[k] {
      if k in DisabledServices {
      } else if k !in AssignedVariables {
      }
    }
  }

  // ---------------------------------------------------------------------------
  // The command line
  // ---------------------------------------------------------------------------

  /** The statement the child's Python runs; its `repr` stripped of quotes is the statement itself. */
  const PythonStatement := "import refrepath.batch;refrepath.batch.process_session();"

  /** The `-command` argument: `"python(\"<statement>\")"`. */
  const PythonArgument := "\"python(\\\"" + PythonStatement + "\\\")\""

  /** `command`: the batch executable, "-command", the Python call, "-log" and the log path, joined by single spaces. */
  function CommandOf(mayaBatchPath: string, logPath: string): string {
    Join([mayaBatchPath, "-command", PythonArgument, "-log", logPath], " ")
  }

  /** The command line in full: the executable, the "-command" flag, the Python call, the "-log" flag and the log path. */
  lemma CommandShape(mayaBatchPath: string, logPath: string)
    ensures CommandOf(mayaBatchPath, logPath) == mayaBatchPath + " -command " + PythonArgument + " -log " + logPath
  {
    JoinFive(mayaBatchPath, "-command", PythonArgument, "-log", logPath, " ");
    Regroup(mayaBatchPath, " ", "-command", PythonArgument, "-log", logPath);
    Spaced("-command", " -command ");
    Spaced("-log", " -log ");
  }

  lemma Regroup(a: string, sep: string, f: string, p: string, g: string, e: string)
    ensures a + sep + f + sep + p + sep + g + sep + e == a + (sep + f + sep) + p + (sep + g + sep) + e
  {
  }

  lemma Spaced(flag: string, spaced: string)
    requires (flag == "-command" && spaced == " -command ") || (flag == "-log" && spaced == " -log ")
    ensures " " + flag + " " == spaced
  {
  }

  // ---------------------------------------------------------------------------
  // FileBatcher
  // ---------------------------------------------------------------------------

  /** A child process started by `execute`: its command line and its environment. */
  datatype Launch = Launch(command: string, env: map<string, string>)

  /** The child process as the parent sees it: its stdout when it exits with 0, None when `check=True` raises. */
  type ChildProcess = (string, map<string, string>) -> Option<string>

  class FileBatcher {
    const mayaFile: string
    const denominator: string
    const root: string
    const mayaBatchPath: string
    /** The time at which the batcher was made. */
    const time: DateTime
    const identifier: string

    var logPathCache: Option<string>
    var envCache: Option<map<string, string>>
    var commandCache: Option<string>

    /** A filled cache holds what its property computes. */
    predicate Valid()
      reads this
    {
      && (logPathCache.Some? ==> logPathCache.value == LogPathOf(mayaFile, time))
      && (commandCache.Some? ==> commandCache.value == CommandOf(mayaBatchPath, LogPathOf(mayaFile, time)))
    }

    constructor(mayaFile: string, denominator: string, root: string, mayaBatchPath: string, now: DateTime)
      ensures this.mayaFile == mayaFile && this.denominator == denominator && this.root == root
      ensures this.mayaBatchPath == mayaBatchPath && time == now
      ensures identifier == Identifier(mayaFile, now)
      ensures logPathCache == None && envCache == None && commandCache == None
      ensures Valid()
    {
      this.mayaFile := mayaFile;
      this.denominator := denominator;
      this.root := root;
      this.mayaBatchPath := mayaBatchPath;
      this.time := now;
      this.identifier := Stem(mayaFile) + "-" + PrettyTime(now);
      this.logPathCache := None;
      this.envCache := None;
      this.commandCache := None;
    }

    /** `log_path`: computed on the first call, then read from the cache. */
    method LogPath() returns (p: string)
      requires Valid()
      modifies this
      ensures Valid()
      ensures p == LogPathOf(mayaFile, time) && logPathCache == Some(p)
      ensures envCache == old(envCache) && commandCache == old(commandCache)
      ensures old(logPathCache).Some? ==> unchanged(this)
    {
      if logPathCache.Some? {
        return logPathCache.value;
      }
      p := Sibling(mayaFile, LogPrefix + Name(mayaFile) + ("-" + PrettyTime(time)) + ".log");
      logPathCache := Some(p);
    }

    /**
     * `env`: built from the environment of the first call, then read from the
     * cache whatever the environment has become since.
     */
    method Env(environ: map<string, string>, package: string, pathSep: string) returns (env: map<string, string>)
      requires Valid()
      modifies this
      ensures Valid()
      ensures old(envCache).Some? ==> env == old(envCache).value && unchanged(this)
      ensures old(envCache).None? ==> env == BatchEnv(environ, mayaFile, denominator, root, package, pathSep)
      ensures envCache == Some(env) && logPathCache == old(logPathCache) && commandCache == old(commandCache)
    {
      if envCache.Some? {
        return envCache.value;
      }
      env := environ;
      env := env[ArgMayaFile := mayaFile];
      env := env[ArgDenominator := denominator];
      env := env[ArgRoot := root];
      var pythonPath := if "PYTHON_PATH" in env then env["PYTHON_PATH"] else "";
      pythonPath := pythonPath + pathSep + package;
      env := env["PYTHONPATH" := pythonPath];
      env := env["PATH" := ""];
      env := env - {"_"};
      env := env - {"VIRTUAL_ENV"};
      env := env["MAYA_DISABLE_CLIC_IPM" := "1"];
      env := env["MAYA_DISABLE_CIP" := "1"];
      env := env["MAYA_DISABLE_CER" := "1"];
      env := env["MAYA_DISABLE_ADP" := "1"];
      envCache := Some(env);
    }

    /** `command`: computed on the first call (which also fills the log path), then read from the cache. */
    method Command() returns (command: string)
      requires Valid()
      modifies this
      ensures Valid()
      ensures command == CommandOf(mayaBatchPath, LogPathOf(mayaFile, time)) && commandCache == Some(command)
      ensures logPathCache == Some(LogPathOf(mayaFile, time)) || (old(commandCache).Some? && logPathCache == old(logPathCache))
      ensures envCache == old(envCache)
      ensures old(commandCache).Some? ==> unchanged(this)
    {
      if commandCache.Some? {
        return commandCache.value;
      }
      var logPath := LogPath();
      command := Join([mayaBatchPath, "-command", PythonArgument, "-log", logPath], " ");
      commandCache := Some(command);
    }

    /**
     * `execute`: the command and the environment are computed for the debug
     * log before the dry-run test, so a dry run fills both caches too; a dry
     * run then returns None without launching, and a launched child that
     * exits with an error also gives None.
     */
    method Execute(dryRun: bool, environ: map<string, string>, package: string, pathSep: string, child: ChildProcess)
      returns (result: Option<string>, launch: Option<Launch>)
      requires Valid()
      modifies this
      ensures Valid()
      ensures commandCache == Some(CommandOf(mayaBatchPath, LogPathOf(mayaFile, time))) && envCache.Some?
      ensures old(envCache).None? ==> envCache.value == BatchEnv(environ, mayaFile, denominator, root, package, pathSep)
      ensures old(envCache).Some? ==> envCache == old(envCache)
      ensures dryRun ==> result == None && launch == None
      ensures !dryRun ==> launch == Some(Launch(commandCache.value, envCache.value))
      ensures !dryRun ==> result == child(commandCache.value, envCache.value)
    {
      var command := Command();
      var env := Env(environ, package, pathSep);
      if dryRun {
        return None, None;
      }
      result := child(command, env);
      launch := Some(Launch(command, env));
    }

    /**
     * `log_result`: nothing for a missing result; otherwise stdout is cut at
     * "\r\r\n" and every line is checked in turn, the flag `loggedRefNum`
     * letting only the first count through.
     */
    method LogResult(result: Option<string>) returns (reports: seq<Report>)
      ensures reports == ResultReports(result)
    {
      reports := ScanResult(result);
    }
  }

  /** The loop of `log_result`. */
  method ScanResult(result: Option<string>) returns (reports: seq<Report>)
    ensures reports == ResultReports(result)
  {
    if result.None? {
      return [];
    }
    var lines := Split(result.value, LineBreak);
    ghost var ms := ClassifyAll(lines);
    var loggedRefNum := false;
    reports := [];
    for i := 0 to |lines|
      invariant reports == ScanReports(ms[..i])
      invariant loggedRefNum == AnyCount(ms[..i])
    {
      var out, logged := ScanLine(lines[i], loggedRefNum);
      ScanStep(ms, i, reports, loggedRefNum, out);
      reports := reports + out;
      loggedRefNum := logged;
    }
    assert ms[..|lines|] == ms;
    reports := reports + [Finished];
  }

  /** One more line scanned: its reports follow those of the lines before it. */
  lemma ScanStep(ms: seq<LineMatch>, i: nat, reports: seq<Report>, logged: bool, out: seq<Report>)
    requires i < |ms|
    requires reports == ScanReports(ms[..i]) && logged == AnyCount(ms[..i])
    requires out == LineReports(ms[i], logged)
    ensures reports + out == ScanReports(ms[..i + 1])
    ensures (logged || ms[i].count.Some?) == AnyCount(ms[..i + 1])
  {
    assert ms[..i + 1][..i] == ms[..i];
    AnyCountExtend(ms[..i + 1]);
  }

  /** One turn of the loop of `log_result`: the if/elif on the line, then the two patterns. */
  method ScanLine(line: string, loggedRefNum: bool) returns (out: seq<Report>, logged: bool)
    ensures out == LineReports(Classify(line), loggedRefNum)
    ensures logged == (loggedRefNum || Classify(line).count.Some?)
  {
    ghost var m := Classify(line);
    var first: seq<Report> := [];
    if StartsWith(line, ErrorPrefix) {
      first := [ErrorLine(line)];
    } else if Contains(line, NoReferencesText) {
      first := [NoReferences];
    }
    logged := loggedRefNum;
    var second: seq<Report> := [];
    var count := CountMatch(line);
    if count.Some? && !logged {
      logged := true;
      second := [Processed(count.value)];
    }
    var third: seq<Report> := [];
    var saved := SaveMatch(line);
    if saved.Some? {
      third := [SavedTo(saved.value)];
    }
    out := first + second + third;
    LineReportsParts(m, loggedRefNum, first, second, third);
  }

  lemma LineReportsParts(m: LineMatch, countLogged: bool, first: seq<Report>, second: seq<Report>, third: seq<Report>)
    requires first == if m.error then [ErrorLine(m.text)] else if m.noReferences then [NoReferences] else []
    requires second == if m.count.Some? && !countLogged then [Processed(m.count.value)] else []
    requires third == if m.saved.Some? then [SavedTo(m.saved.value)] else []
    ensures LineReports(m, countLogged) == first + second + third
  {
  }

  // ---------------------------------------------------------------------------
  // batch_directory
  // ---------------------------------------------------------------------------

  /** What the parent process takes from its host: environment, package directory, separator, dry-run switch, clock and child. */
  datatype Host = Host(environ: map<string, string>, package: string, pathSep: string, dryRun: bool,
                       clock: nat -> DateTime, child: ChildProcess)

  /** What processing one file amounts to: the batcher's identifier, the child launched (if any) and the reports read back. */
  datatype FileRun = FileRun(file: string, identifier: string, launch: Option<Launch>, reports: seq<Report>)

  /** The run of the file `file` by a batcher made at time `time`. */
  ghost predicate ProperRun(run: FileRun, file: string, time: DateTime, newRoot: string, denominator: string,
                            mayaBatchPath: string, host: Host)
  {
    && run.file == file
    && run.identifier == Identifier(file, time)
    && ProperLaunch(run.launch, run.reports, file, time, newRoot, denominator, mayaBatchPath, host)
  }

  /**
   * A dry run launches nothing and reports nothing; otherwise the child gets
   * the batcher's command and environment, and the reports are those of its
   * stdout.
   */
  ghost predicate ProperLaunch(launch: Option<Launch>, reports: seq<Report>, file: string, time: DateTime,
                               newRoot: string, denominator: string, mayaBatchPath: string, host: Host)
  {
    && (host.dryRun ==> launch == None && reports == [])
    && (!host.dryRun ==>
          && launch.Some?
          && launch.value.command == CommandOf(mayaBatchPath, LogPathOf(file, time))
          && launch.value.env == BatchEnv(host.environ, file, denominator, newRoot, host.package, host.pathSep)
          && reports == ResultReports(host.child(launch.value.command, launch.value.env)))
  }

  /**
   * `batch_directory`: every Maya file under the directory, in walk order,
   * gets its own batcher, made at the `i`-th reading of the clock, which is
   * executed and whose result is logged.
   */
  method BatchDirectory(entries: seq<Entry>, newRoot: string, denominator: string, mayaBatchPath: string, host: Host)
    returns (runs: seq<FileRun>)
    ensures var files := FilterKept(ChildFiles(entries, true, []), MayaExtensions);
      && |runs| == |files|
      && forall i :: 0 <= i < |files| ==> ProperRun(runs[i], files[i], host.clock(i), newRoot, denominator, mayaBatchPath, host)
  {
    var files := GetMayaFilesRecursively(entries);
    runs := RunFiles(files, newRoot, denominator, mayaBatchPath, host);
  }

  /** The loop of `batch_directory` over the files found. */
  method RunFiles(files: seq<string>, newRoot: string, denominator: string, mayaBatchPath: string, host: Host)
    returns (runs: seq<FileRun>)
    ensures |runs| == |files|
    ensures forall i :: 0 <= i < |files| ==> ProperRun(runs[i], files[i], host.clock(i), newRoot, denominator, mayaBatchPath, host)
  {
    runs := [];
    for i := 0 to |files|
      invariant |runs| == i
      invariant forall j :: 0 <= j < i ==> ProperRun(runs[j], files[j], host.clock(j), newRoot, denominator, mayaBatchPath, host)
    {
      var run := RunFile(files[i], host.clock(i), newRoot, denominator, mayaBatchPath, host);
      RunsExtend(runs, run, files, newRoot, denominator, mayaBatchPath, host);
      runs := runs + [run];
    }
  }

  /** One more proper run keeps every run proper. */
  lemma RunsExtend(runs: seq<FileRun>, run: FileRun, files: seq<string>, newRoot: string, denominator: string, mayaBatchPath: string, host: Host)
    requires |runs| < |files|
    requires forall j :: 0 <= j < |runs| ==> ProperRun(runs[j], files[j], host.clock(j), newRoot, denominator, mayaBatchPath, host)
    requires ProperRun(run, files[|runs|], host.clock(|runs|), newRoot, denominator, mayaBatchPath, host)
    ensures forall j :: 0 <= j <= |runs| ==> ProperRun((runs + [run])[j], files[j], host.clock(j), newRoot, denominator, mayaBatchPath, host)
  {
    forall j | 0 <= j <= |runs|
      ensures ProperRun((runs + [run])[j], files[j], host.clock(j), newRoot, denominator, mayaBatchPath, host)
    {
      if j < |runs| {
        assert (runs + [run])[j] == runs[j];
      }
    }
  }

  /** One turn of the loop of `batch_directory`: a new batcher, executed, its result logged. */
  method RunFile(file: string, time: DateTime, newRoot: string, denominator: string, mayaBatchPath: string, host: Host)
    returns (run: FileRun)
    ensures ProperRun(run, file, time, newRoot, denominator, mayaBatchPath, host)
  {
    var batcher := new FileBatcher(file, denominator, newRoot, mayaBatchPath, time);
    var result, launch := batcher.Execute(host.dryRun, host.environ, host.package, host.pathSep, host.child);
    var reports := batcher.LogResult(result);
    run := FileRun(file, batcher.identifier, launch, reports);
  }

  // ---------------------------------------------------------------------------
  // process_session
  // ---------------------------------------------------------------------------

  /** The three arguments as the child reads them. */
  datatype Arguments = Arguments(mayaFile: string, denominator: string, root: string)

  /** `os.getenv(name)` tested with `not`: a missing variable and an empty one both fail. */
  predicate Given(env: map<string, string>, name: string) {
    name in env && env[name] != ""
  }

  /** The start of `process_session`: EnvironmentError unless all three arguments are given. */
  function ReadArguments(env: map<string, string>): (r: Result<Arguments>)
    ensures r.Ok? <==> Given(env, ArgMayaFile) && Given(env, ArgDenominator) && Given(env, ArgRoot)
    ensures r.Err? ==> r.error == EnvironmentError
    ensures r.Ok? ==> r.value.mayaFile != "" && r.value.denominator != "" && r.value.root != ""
  {
    if !Given(env, ArgMayaFile) || !Given(env, ArgDenominator) || !Given(env, ArgRoot) then Err(EnvironmentError)
    else Ok(Arguments(env[ArgMayaFile], env[ArgDenominator], env[ArgRoot]))
  }

  /**
   * The child reads back exactly what the batcher passed: the environment
   * the batcher builds gives the child its three arguments, or
   * EnvironmentError when one of them is empty.
   */
  lemma ChildReadsArguments(env: map<string, string>, environ: map<string, string>, mayaFile: string,
                            denominator: string, root: string, package: string, pathSep: string)
    requires IsBatchEnv(env, environ, mayaFile, denominator, root, package, pathSep)
    ensures ReadArguments(env) ==
      if mayaFile != "" && denominator != "" && root != "" then Ok(Arguments(mayaFile, denominator, root))
      else Err(EnvironmentError)
  {
  }

  /** `any(r.was_updated() for r in records)` */
  predicate AnyUpdated(records: seq<RepathedReference>) {
    exists k :: 0 <= k < |records| && records[k].WasUpdated()
  }

  /** The session saves exactly when it changed at least one reference: every record it keeps is a change. */
  lemma SaveIffChanged(refs: seq<string>, denominator: string, root: string, queries: string -> PathQuery, disk: set<string>)
    requires denominator != ""
    requires RepathAll(refs, denominator, root, queries, disk).Ok?
    ensures AnyUpdated(RepathAll(refs, denominator, root, queries, disk).value) <==>
            RepathAll(refs, denominator, root, queries, disk).value != []
  {
    var records := RepathAll(refs, denominator, root, queries, disk).value;
    SessionRecordsUpdated(refs, denominator, root, queries, disk);
    if records != [] {
      assert records[0] in records;
    }
  }

  /** `save_scene_increment` uses its default of four digits. */
  const SessionZFill: nat := 4

  /**
   * `process_session`: read the arguments, open the scene and repath it, then
   * save it under the next free increment only if some reference changed.
   * Whether the host manages to open the file is `opens`; `hostRefs` is the
   * reference list the host gives afterwards and `queries` its path queries.
   */
  method ProcessSession(env: map<string, string>, opens: bool, hostRefs: seq<string>,
                        queries: string -> PathQuery, scene: MayaScene)
    returns (outcome: Outcome)
    modifies scene
    ensures ReadArguments(env).Err? ==> outcome == Fail(EnvironmentError) && unchanged(scene)
    ensures ReadArguments(env).Ok? ==>
      var args := ReadArguments(env).value;
      var current := if opens then args.mayaFile else old(scene.sceneName);
      var session := RepathAll(GetReferences(hostRefs), args.denominator, args.root, queries, old(scene.disk));
      SessionOutcome(session, current, old(scene.disk), old(scene.log), outcome, scene.sceneName, scene.disk, scene.log)
  {
    var args := ReadArguments(env);
    if args.Err? {
      return Fail(args.error);
    }
    var a := args.value;
    scene.Open(a.mayaFile, opens);
    var session := OpenAndRepathReferences(hostRefs, a.denominator, a.root, queries, scene.disk);
    if session.Err? {
      return Fail(session.error);
    }
    SaveIffChanged(GetReferences(hostRefs), a.denominator, a.root, queries, scene.disk);
    if AnyUpdated(session.value) {
      outcome := scene.SaveSceneIncrement(SessionZFill);
    } else {
      outcome := Pass;
    }
  }

  /**
   * How a session that got its arguments ends, given the scene name after
   * the open: a raised error stops it before any save; no change leaves the
   * scene as it is; a change saves it under the next free increment (or
   * raises ValueError for a scene without a name).
   */
  ghost predicate SessionOutcome(session: Result<seq<RepathedReference>>, current: string, disk: set<string>,
                                 log: seq<string>, outcome: Outcome,
                                 sceneName': string, disk': set<string>, log': seq<string>)
  {
    match session
    case Err(e) => outcome == Fail(e) && sceneName' == current && disk' == disk && log' == log
    case Ok(records) =>
      if records == [] || Name(current) == "" then
        outcome == (if records == [] then Pass else Fail(ValueError))
        && sceneName' == current && disk' == disk && log' == log
      else
        && outcome == Pass
        && sceneName' == IncrementTarget(current, disk, SessionZFill)
        && sceneName' !in disk
        && disk' == disk + {sceneName'}
        && log' == log + [SavingMessage(sceneName')]
  }
}
