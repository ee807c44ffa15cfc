/**
 * mash2pointcloud/core/alembicExporter.py: the settings of one Alembic
 * export and the versioned path it is written to. The path is
 * "<dir>/<basename>.<version>.abc"; the version is found once, from the
 * files already in the directory, and then kept.
 *
 * The host's file system is a map from each existing directory to the
 * names of its entries.
 */
module AlembicExporter {
  import opened Wrappers
  import opened Strings
  import opened Paths

  /** `increment_decimal_number` */
  const IncrementWidth := 4

  type FileSystem = map<string, seq<string>>

  /** Entry names never hold the path separator. */
  predicate WellFormed(fs: FileSystem) {
    forall d :: d in fs ==> forall k :: 0 <= k < |fs[d]| ==> Free(fs[d][k], '/')
  }

  /** The glob pattern "<basename>.*.abc" on one entry name (the star may match nothing). */
  predicate GlobMatch(basename: string, name: string) {
    |name| >= |basename| + 5 && StartsWith(name, basename + ".") && EndsWith(name, ".abc")
  }

  /** The entries matching the pattern, in listing order. */
  function Matches(basename: string, names: seq<string>): seq<string> {
    if names == [] then []
    else
      var init := Matches(basename, names[..|names| - 1]);
      var last := names[|names| - 1];
      if GlobMatch(basename, last) then init + [last] else init
  }

  lemma {:induction false} MatchesMembers(basename: string, names: seq<string>)
    ensures forall n :: n in Matches(basename, names) <==> n in names && GlobMatch(basename, n)
  {
    if names != [] {
      MatchesMembers(basename, names[..|names| - 1]);
      assert names == names[..|names| - 1] + [names[|names| - 1]];
    }
  }

  /** The paths `glob` returns for some entries of `d`. */
  function Under(d: string, names: seq<string>): (r: seq<string>)
    ensures |r| == |names|
  {
    seq(|names|, i requires 0 <= i < |names| => OsJoin(d, names[i]))
  }

  /** `glob.glob(os.path.join(d, "<basename>.*.abc"))` on an existing directory. */
  function Found(d: string, basename: string, fs: FileSystem): seq<string>
    requires d in fs
  {
    Under(d, Matches(basename, fs[d]))
  }

  predicate AllDots(s: string) {
    forall k :: 0 <= k < |s| ==> s[k] == '.'
  }

  /** `os.path.splitext(name)[0]`: the text before the last '.', unless only dots come before it. */
  function SplitExtRoot(name: string): string {
    match LastIndexOf(name, '.')
    case None => name
    case Some(i) => if AllDots(name[..i]) then name else name[..i]
  }

  /** `int(os.path.splitext(os.path.basename(path))[0].split(".")[-1])` */
  function VersionNumber(path: string): Result<nat> {
    ParseNat(AfterLast(SplitExtRoot(Name(path)), "."))
  }

  /** `"1".zfill(increment_decimal_number)` */
  const FirstVersion := ZFill("1", IncrementWidth)

  /** The first version is the zero-padded number 1. */
  lemma FirstVersionDigits()
    ensures FirstVersion != "" && AllDigits(FirstVersion) && DigitsValue(FirstVersion) == 1
  {
    assert NatToString(1) == "1";
    ZFillNatValue(1, IncrementWidth);
  }

  /** `str(n + 1).zfill(increment_decimal_number)`: the version after number `n`. */
  function VersionAfter(n: nat): (v: string)
    ensures v != "" && AllDigits(v) && DigitsValue(v) == n + 1
  {
    ZFillNatValue(n + 1, IncrementWidth);
    ZFill(NatToString(n + 1), IncrementWidth)
  }

  /**
   * `find_version`: "0001" when the directory is missing or holds no match;
   * otherwise one more than the number of the match that sorts last, zero
   * padded. A last match whose number is not decimal raises ValueError.
   */
  function NextVersion(d: string, basename: string, fs: FileSystem): (r: Result<string>)
    ensures r.Ok? ==> r.value != "" && AllDigits(r.value)
  {
    FirstVersionDigits();
    if d !in fs then Ok(FirstVersion)
    else
      var existing := Found(d, basename, fs);
      if existing == [] then Ok(FirstVersion)
      else
        match VersionNumber(LexMax(existing))
        case Err(e) => Err(e)
        case Ok(n) => Ok(VersionAfter(n))
  }

  /** The path and the version `target_filepath` ends with. */
  datatype Target = Target(path: string, version: string)

  /**
   * `target_filepath`: an empty directory or basename, or a basename that
   * already ends with ".abc", raises ValueError; a stored version is used
   * as it is, otherwise one is found.
   */
  function TargetOf(d: string, basename: string, version: string, fs: FileSystem): (r: Result<Target>)
    ensures r.Err? <==>
      d == "" || basename == "" || EndsWith(basename, ".abc") || (version == "" && NextVersion(d, basename, fs).Err?)
    ensures r.Ok? ==> r.value.version != "" && (version != "" ==> r.value.version == version)
    ensures r.Ok? ==> r.value.path == OsJoin(d, basename + "." + r.value.version + ".abc")
  {
    if d == "" || basename == "" || EndsWith(basename, ".abc") then Err(ValueError)
    else
      var v := if version != "" then Ok(version) else NextVersion(d, basename, fs);
      match v
      case Err(e) => Err(e)
      case Ok(found) =>
        assert found != "" by {
          if version == "" {
            FoundVersionNotEmpty(d, basename, fs);
          }
        }
        Ok(Target(OsJoin(d, basename + "." + found + ".abc"), found))
  }

  lemma FoundVersionNotEmpty(d: string, basename: string, fs: FileSystem)
    requires NextVersion(d, basename, fs).Ok?
    ensures NextVersion(d, basename, fs).value != ""
  {
  }

  /** Once a version is stored, the path no longer depends on the files on disk. */
  lemma StoredVersionIgnoresDisk(d: string, basename: string, version: string, fs1: FileSystem, fs2: FileSystem)
    requires version != ""
    ensures TargetOf(d, basename, version, fs1) == TargetOf(d, basename, version, fs2)
  {
  }

  /** Without a directory or without a match, numbering starts at "0001". */
  lemma FirstVersionWhenNothingMatches(d: string, basename: string, fs: FileSystem)
    requires d !in fs || Found(d, basename, fs) == []
    ensures NextVersion(d, basename, fs) == Ok("0001")
  {
    assert Repeat('0', 3) == "000";
    assert FirstVersion == Repeat('0', 3) + "1";
    assert FirstVersion == "0001";
    if d in fs {
      assert Found(d, basename, fs) == [];
    }
  }

  /**
   * The version found is the number of the match that sorts last, plus one:
   * no other match sorts after that one, and the new version reads back as
   * its number plus one.
   */
  lemma NextVersionFollowsLast(d: string, basename: string, fs: FileSystem)
    requires d in fs && Found(d, basename, fs) != [] && NextVersion(d, basename, fs).Ok?
    ensures var paths := Found(d, basename, fs);
      var last := LexMax(paths);
      last in paths && (forall p :: p in paths ==> !LexLess(last, p)) &&
      VersionNumber(last).Ok? && ParseNat(NextVersion(d, basename, fs).value) == Ok(VersionNumber(last).value + 1)
  {
    var paths := Found(d, basename, fs);
    LexMaxIsGreatest(paths);
  }

  /** The version text of an entry named "<basename>.<digits>.abc" is those digits. */
  lemma VersionOfEntry(d: string, basename: string, digits: string)
    requires Free(basename, '/') && digits != "" && AllDigits(digits)
    ensures VersionNumber(OsJoin(d, basename + "." + digits + ".abc")) == ParseNat(digits)
  {
    var root := basename + "." + digits;
    var name := root + ".abc";
    assert basename + "." + digits + ".abc" == name;
    forall k | 0 <= k < |name| ensures name[k] != '/' {
      if k < |basename| {
        assert name[k] == basename[k];
      } else if k > |basename| && k < |root| {
        assert name[k] == digits[k - |basename| - 1];
      } else if k >= |root| {
        assert name[k] == ".abc"[k - |root|];
      }
    }
    NameOfJoin(d, name);
    LastIndexOfIs(name, '.', |root|);
    assert name[..|root|] == root;
    assert root[|root| - 1] == digits[|digits| - 1];
    assert !AllDots(root);
    forall k | 0 <= k < |digits| ensures digits[k] != '.' {
      assert IsDigit(digits[k]);
    }
    AfterLastOfFree(basename, '.', digits);
  }

  /** An existing entry named like a candidate version file is one of the matches. */
  lemma EntryMatches(basename: string, digits: string, names: seq<string>)
    requires digits != "" && basename + "." + digits + ".abc" in names
    ensures basename + "." + digits + ".abc" in Matches(basename, names)
  {
    var name := basename + "." + digits + ".abc";
    assert name[..|basename| + 1] == basename + ".";
    assert name[|name| - 4..] == ".abc";
    MatchesMembers(basename, names);
  }

  // ---------------------------------------------------------------------------
  // The version after 9999

  /**
   * The file "f.10000.abc" written after "f.9999.abc" sorts before it, so
   * the next search finds "f.9999.abc" last and answers "10000" again: the
   * version returned names a file that already exists.
   */
  lemma VersionRepeatsAfter9999(d: string, basename: string, fs: FileSystem)
    requires d == "d" && basename == "f" && fs == map[d := ["f.9999.abc", "f.10000.abc"]]
    ensures NextVersion(d, basename, fs) == Ok("10000")
    ensures basename + "." + NextVersion(d, basename, fs).value + ".abc" in fs[d]
  {
    var names := fs[d];
    BothMatch(basename, names);
    var paths := Found(d, basename, fs);
    BothUnder(d, names, paths);
    NineThousandSortsLast(paths);
    var digits, next := NineThousands();
    EntryPath(d, basename, digits, paths[0]);
    VersionOfPath(d, basename, digits, paths[0]);
    VersionFromLast(d, basename, fs, paths[0], 9999);
    NewEntryListed(d, basename, next, fs);
  }

  /** `find_version` reads the number of the match that sorts last. */
  lemma VersionFromLast(d: string, basename: string, fs: FileSystem, last: string, n: nat)
    requires d in fs && Found(d, basename, fs) != []
    requires LexMax(Found(d, basename, fs)) == last && VersionNumber(last) == Ok(n)
    ensures NextVersion(d, basename, fs) == Ok(VersionAfter(n))
  {
  }

  lemma VersionOfPath(d: string, basename: string, digits: string, path: string)
    requires Free(basename, '/') && digits != "" && AllDigits(digits)
    requires path == OsJoin(d, basename + "." + digits + ".abc")
    ensures VersionNumber(path) == ParseNat(digits)
  {
    VersionOfEntry(d, basename, digits);
  }

  lemma EntryPath(d: string, basename: string, digits: string, path: string)
    requires d == "d" && basename == "f" && digits == "9999" && path == "d/f.9999.abc"
    ensures path == OsJoin(d, basename + "." + digits + ".abc")
    ensures Free(basename, '/') && AllDigits(digits)
  {
  }

  lemma NewEntryListed(d: string, basename: string, version: string, fs: FileSystem)
    requires d == "d" && basename == "f" && version == "10000" && fs == map[d := ["f.9999.abc", "f.10000.abc"]]
    ensures basename + "." + version + ".abc" in fs[d]
  {
    assert basename + "." + version + ".abc" == fs[d][1];
  }

  lemma BothMatch(basename: string, names: seq<string>)
    requires basename == "f" && names == ["f.9999.abc", "f.10000.abc"]
    ensures Matches(basename, names) == names
  {
    assert names[0] == basename + "." + "9999" + ".abc";
    assert names[1] == basename + "." + "10000" + ".abc";
    EntryMatches(basename, "9999", names);
    EntryMatches(basename, "10000", names);
    assert names[..1] == [names[0]];
    assert Matches(basename, names[..1]) == names[..1];
  }

  lemma BothUnder(d: string, names: seq<string>, paths: seq<string>)
    requires d == "d" && names == ["f.9999.abc", "f.10000.abc"] && paths == Under(d, names)
    ensures paths == ["d/f.9999.abc", "d/f.10000.abc"]
  {
    assert OsJoin(d, names[0]) == "d/f.9999.abc";
    assert OsJoin(d, names[1]) == "d/f.10000.abc";
  }

  lemma NineThousandSortsLast(paths: seq<string>)
    requires paths == ["d/f.9999.abc", "d/f.10000.abc"]
    ensures LexMax(paths) == paths[0]
  {
    assert paths[0] == "d/f." + "9999.abc";
    assert paths[1] == "d/f." + "10000.abc";
    PrefixThenDecides("d/f.", "9999.abc", "10000.abc");
    assert paths[..1] == [paths[0]];
  }

  /** "9999" reads as 9999, and the version after it is "10000", already five digits wide. */
  lemma NineThousands() returns (digits: string, next: string)
    ensures digits == "9999" && next == "10000"
    ensures digits != "" && ParseNat(digits) == Ok(9999)
    ensures VersionAfter(9999) == next
  {
    digits := "9999";
    next := "10000";
    assert DigitsValue("9") == 9;
    assert "99"[..1] == "9";
    assert "999"[..2] == "99";
    assert "9999"[..3] == "999";
    assert NatToString(1) == "1";
    assert NatToString(10) == "10";
    assert NatToString(100) == "100";
    assert NatToString(1000) == "1000";
    assert NatToString(10000) == "10000";
  }

  // ---------------------------------------------------------------------------
  // Numbering from the greatest version

  /** The numbers of all the paths, or the first parse error. */
  function Numbers(paths: seq<string>): (r: Result<seq<nat>>)
    ensures r.Ok? ==> |r.value| == |paths|
  {
    if paths == [] then Ok([])
    else
      match VersionNumber(paths[0])
      case Err(e) => Err(e)
      case Ok(n) =>
        match Numbers(paths[1..])
        case Err(e) => Err(e)
        case Ok(rest) => Ok([n] + rest)
  }

  /** Each number is the one read from the path at the same place; an error is the ValueError of `int`. */
  lemma {:induction false} NumbersAt(paths: seq<string>)
    ensures var r := Numbers(paths);
      (r.Ok? ==> forall i :: 0 <= i < |paths| ==> VersionNumber(paths[i]) == Ok(r.value[i])) &&
      (r.Err? ==> r.error == ValueError && exists i :: 0 <= i < |paths| && VersionNumber(paths[i]).Err?)
  {
    if paths != [] {
      NumbersAt(paths[1..]);
      var r := Numbers(paths);
      if r.Ok? {
        forall i | 0 <= i < |paths| ensures VersionNumber(paths[i]) == Ok(r.value[i]) {
          if i > 0 {
            assert paths[i] == paths[1..][i - 1];
          }
        }
      } else if VersionNumber(paths[0]).Ok? {
        var j :| 0 <= j < |paths[1..]| && VersionNumber(paths[1..][j]).Err?;
        assert paths[1..][j] == paths[j + 1];
      }
    }
  }

  function MaxOf(xs: seq<nat>): (m: nat)
    requires xs != []
    ensures forall i :: 0 <= i < |xs| ==> xs[i] <= m
  {
    if |xs| == 1 then xs[0]
    else
      var rest := MaxOf(xs[1..]);
      if rest < xs[0] then xs[0] else rest
  }

  /**
   * The version `find_version` evidently means: one more than the greatest
   * number among the matches, compared as numbers; any match without a
   * decimal number raises ValueError.
   */
  function GreatestNextVersion(d: string, basename: string, fs: FileSystem): Result<string> {
    if d !in fs then Ok(FirstVersion)
    else
      var existing := Found(d, basename, fs);
      if existing == [] then Ok(FirstVersion)
      else
        match Numbers(existing)
        case Err(e) => Err(e)
        case Ok(ns) => Ok(VersionAfter(MaxOf(ns)))
  }

  /** The version numbering from the greatest never names a file that is already in the directory. */
  lemma GreatestNextVersionIsFree(d: string, basename: string, fs: FileSystem)
    requires WellFormed(fs) && Free(basename, '/') && d in fs
    requires GreatestNextVersion(d, basename, fs).Ok?
    ensures basename + "." + GreatestNextVersion(d, basename, fs).value + ".abc" !in fs[d]
  {
    var v := GreatestNextVersion(d, basename, fs).value;
    var top := GreatestVersionValue(d, basename, fs);
    if basename + "." + v + ".abc" in fs[d] {
      EntryMatches(basename, v, fs[d]);
      ListedNumberBounded(d, basename, fs, v);
    }
  }

  /** The greatest-based version reads back as one more than the greatest number found (0 when none). */
  lemma GreatestVersionValue(d: string, basename: string, fs: FileSystem) returns (top: nat)
    requires d in fs && GreatestNextVersion(d, basename, fs).Ok?
    ensures Found(d, basename, fs) != [] ==> Numbers(Found(d, basename, fs)).Ok? && top == MaxOf(Numbers(Found(d, basename, fs)).value)
    ensures Found(d, basename, fs) == [] ==> top == 0
    ensures var v := GreatestNextVersion(d, basename, fs).value;
      v != "" && AllDigits(v) && DigitsValue(v) == top + 1
  {
    var paths := Found(d, basename, fs);
    top := if paths == [] then 0 else MaxOf(Numbers(paths).value);
    assert GreatestNextVersion(d, basename, fs).value == VersionAfter(top) by {
      if paths == [] {
        assert NatToString(1) == "1";
      }
    }
  }

  /** A listed "<basename>.<digits>.abc" is among the files found, so its number is at most the greatest. */
  lemma ListedNumberBounded(d: string, basename: string, fs: FileSystem, digits: string)
    requires WellFormed(fs) && Free(basename, '/') && d in fs
    requires digits != "" && AllDigits(digits)
    requires basename + "." + digits + ".abc" in Matches(basename, fs[d])
    requires Numbers(Found(d, basename, fs)).Ok?
    ensures Found(d, basename, fs) != []
    ensures DigitsValue(digits) <= MaxOf(Numbers(Found(d, basename, fs)).value)
  {
    var name := basename + "." + digits + ".abc";
    var found := Matches(basename, fs[d]);
    var paths := Found(d, basename, fs);
    var ns := Numbers(paths).value;
    var i :| 0 <= i < |found| && found[i] == name;
    assert paths[i] == OsJoin(d, name);
    VersionOfEntry(d, basename, digits);
    NumbersAt(paths);
    assert VersionNumber(paths[i]) == Ok(ns[i]);
  }

  /** The greatest-based version of a non-empty, all-numeric match list. */
  lemma GreatestFromMax(d: string, basename: string, fs: FileSystem, ns: seq<nat>)
    requires d in fs && Found(d, basename, fs) != [] && Numbers(Found(d, basename, fs)) == Ok(ns) && ns != []
    ensures GreatestNextVersion(d, basename, fs) == Ok(VersionAfter(MaxOf(ns)))
  {
  }

  /** The two numberings agree whenever the match that sorts last also has the greatest number. */
  lemma GreatestAgreesWhenLastIsGreatest(d: string, basename: string, fs: FileSystem, ns: seq<nat>)
    requires d in fs && Found(d, basename, fs) != [] && Numbers(Found(d, basename, fs)) == Ok(ns)
    requires ns != [] && VersionNumber(LexMax(Found(d, basename, fs))) == Ok(MaxOf(ns))
    ensures NextVersion(d, basename, fs) == GreatestNextVersion(d, basename, fs)
  {
    GreatestFromMax(d, basename, fs, ns);
    VersionFromLast(d, basename, fs, LexMax(Found(d, basename, fs)), MaxOf(ns));
  }

  // ---------------------------------------------------------------------------
  // AbcExportSettings

  /**
   * `AbcExportSettings`. `None` attributes are modelled as empty strings
   * (both are falsy to the checks). The objects and frame range are only
   * used by `export_abc` and are not part of this model.
   */
  class AbcExportSettings {
    var targetDir: string
    var targetBasename: string
    var version: string

    constructor()
      ensures targetDir == "" && targetBasename == "" && version == ""
    {
      targetDir := "";
      targetBasename := "";
      version := "";
    }

    /** `find_version`: the version found is stored, unless the search raised. */
    method FindVersion(fs: FileSystem) returns (r: Result<string>)
      modifies this
      ensures r == NextVersion(targetDir, targetBasename, fs)
      ensures version == (if r.Ok? then r.value else old(version))
      ensures targetDir == old(targetDir) && targetBasename == old(targetBasename)
    {
      if targetDir !in fs {
        version := FirstVersion;
        return Ok(version);
      }
      var existing := Found(targetDir, targetBasename, fs);
      if existing == [] {
        version := FirstVersion;
        return Ok(version);
      }
      var last := LexMax(existing);
      var number := VersionNumber(last);
      if number.Err? {
        return Err(number.error);
      }
      version := VersionAfter(number.value);
      return Ok(version);
    }

    /** `target_filepath`: the checks, then the version (found once and kept), then the path. */
    method TargetFilepath(fs: FileSystem) returns (r: Result<string>)
      modifies this
      ensures var t := TargetOf(old(targetDir), old(targetBasename), old(version), fs);
        r == (if t.Ok? then Ok(t.value.path) else Err(t.error)) &&
        version == (if t.Ok? then t.value.version else old(version))
      ensures targetDir == old(targetDir) && targetBasename == old(targetBasename)
    {
      if targetDir == "" || targetBasename == "" || EndsWith(targetBasename, ".abc") {
        return Err(ValueError);
      }
      if version == "" {
        var found := FindVersion(fs);
        if found.Err? {
          return Err(found.error);
        }
        FoundVersionNotEmpty(targetDir, targetBasename, fs);
      }
      return Ok(OsJoin(targetDir, targetBasename + "." + version + ".abc"));
    }
  }

  /** Asking twice for the path gives the same answer, even when the directory changed in between. */
  method AskTwice(d: string, basename: string, before: FileSystem, after: FileSystem)
    returns (first: Result<string>, second: Result<string>)
    ensures first.Ok? ==> second == first
  {
    var settings := new AbcExportSettings();
    settings.targetDir := d;
    settings.targetBasename := basename;
    first := settings.TargetFilepath(before);
    second := settings.TargetFilepath(after);
  }
}
