/**
 * refrepath/utils.py: listing the files under a directory, keeping the Maya
 * scenes, and finding the first free incremented name for a file.
 *
 * The directory as `os.scandir` would list it, recursively, is the value
 * `entries`; the file system as `Path.exists` would see it is the set `disk`.
 */
module RefUtils {
  import opened Wrappers
  import opened Strings
  import opened Paths

  /** One entry of a directory listing: a file (anything that is not a directory) or a directory with its own listing. */
  datatype Entry = File(path: string) | Dir(path: string, children: seq<Entry>)

  /** The extension rule: with a non-empty filter the suffix must be listed, with none every entry is kept. */
  predicate Keep(path: string, extensions: seq<string>) {
    (extensions != [] && Suffix(path) in extensions) || extensions == []
  }

  /** The paths of `paths` that pass the extension rule, in order. */
  function FilterKept(paths: seq<string>, extensions: seq<string>): (r: seq<string>)
    ensures forall x :: x in r <==> x in paths && Keep(x, extensions)
  {
    if paths == [] then []
    else if Keep(paths[0], extensions) then [paths[0]] + FilterKept(paths[1..], extensions)
    else FilterKept(paths[1..], extensions)
  }

  /** What `get_child_files_from_root` returns for a listing: entries in scan order, directories expanded in place when recursive. */
  function ChildFiles(entries: seq<Entry>, recursive: bool, extensions: seq<string>): seq<string>
    decreases entries
  {
    if entries == [] then []
    else EntryFiles(entries[0], recursive, extensions) + ChildFiles(entries[1..], recursive, extensions)
  }

  function EntryFiles(entry: Entry, recursive: bool, extensions: seq<string>): seq<string>
    decreases entry
  {
    if entry.Dir? && recursive then ChildFiles(entry.children, recursive, extensions)
    else if Keep(entry.path, extensions) then [entry.path]
    else []
  }

  lemma {:induction false} ChildFilesAppend(a: seq<Entry>, b: seq<Entry>, recursive: bool, extensions: seq<string>)
    ensures ChildFiles(a + b, recursive, extensions) == ChildFiles(a, recursive, extensions) + ChildFiles(b, recursive, extensions)
  {
    if a == [] {
      assert a + b == b;
    } else {
      assert (a + b)[0] == a[0];
      assert (a + b)[1..] == a[1..] + b;
      ChildFilesAppend(a[1..], b, recursive, extensions);
    }
  }

  /** `get_child_files_from_root`: the listing is walked in order, recursing into directories when asked. */
  method GetChildFilesFromRoot(entries: seq<Entry>, recursive: bool, extensions: seq<string>) returns (out: seq<string>)
    ensures out == ChildFiles(entries, recursive, extensions)
    decreases entries
  {
    out := [];
    for i := 0 to |entries|
      invariant out == ChildFiles(entries[..i], recursive, extensions)
    {
      var entry := entries[i];
      ChildFilesAppend(entries[..i], [entry], recursive, extensions);
      assert entries[..i + 1] == entries[..i] + [entry];
      if entry.Dir? && recursive {
        var sub := GetChildFilesFromRoot(entry.children, true, extensions);
        out := out + sub;
      } else {
        if extensions != [] && Suffix(entry.path) in extensions {
          out := out + [entry.path];
        } else if extensions == [] {
          out := out + [entry.path];
        }
      }
    }
    assert entries[..|entries|] == entries;
  }

  lemma {:induction false} FilterKeptAppend(a: seq<string>, b: seq<string>, extensions: seq<string>)
    ensures FilterKept(a + b, extensions) == FilterKept(a, extensions) + FilterKept(b, extensions)
  {
    if a == [] {
      assert a + b == b;
    } else {
      assert (a + b)[0] == a[0];
      assert (a + b)[1..] == a[1..] + b;
      FilterKeptAppend(a[1..], b, extensions);
    }
  }

  /**
   * A recursive walk with a filter is the unfiltered walk (every file, depth
   * first in scan order, no directory) with the extension rule applied.
   */
  lemma {:induction false} RecursiveWalkIsFilteredFiles(entries: seq<Entry>, extensions: seq<string>)
    ensures ChildFiles(entries, true, extensions) == FilterKept(ChildFiles(entries, true, []), extensions)
    decreases entries
  {
    if entries != [] {
      var e := entries[0];
      RecursiveWalkIsFilteredFiles(entries[1..], extensions);
      if e.Dir? {
        RecursiveWalkIsFilteredFiles(e.children, extensions);
      }
      FilterKeptAppend(EntryFiles(e, true, []), ChildFiles(entries[1..], true, []), extensions);
    }
  }

  /** The paths of the entries themselves, directories included. */
  function TopPaths(entries: seq<Entry>): seq<string> {
    if entries == [] then [] else [entries[0].path] + TopPaths(entries[1..])
  }

  /** Without recursion, directories go through the same extension rule as files. */
  lemma {:induction false} FlatWalkFiltersEveryEntry(entries: seq<Entry>, extensions: seq<string>)
    ensures ChildFiles(entries, false, extensions) == FilterKept(TopPaths(entries), extensions)
  {
    if entries != [] {
      FlatWalkFiltersEveryEntry(entries[1..], extensions);
    }
  }

  /** Every path of a walk names an entry that is not a directory. */
  predicate IsFileIn(path: string, entries: seq<Entry>)
    decreases entries
  {
    exists k :: 0 <= k < |entries| && IsFileUnder(path, entries[k])
  }

  predicate IsFileUnder(path: string, entry: Entry)
    decreases entry
  {
    match entry
    case File(p) => p == path
    case Dir(_, children) => exists k :: 0 <= k < |children| && IsFileUnder(path, children[k])
  }

  lemma {:induction false} RecursiveWalkOnlyFiles(entries: seq<Entry>, extensions: seq<string>)
    ensures forall x :: x in ChildFiles(entries, true, extensions) ==> IsFileIn(x, entries) && Keep(x, extensions)
    decreases entries
  {
    if entries != [] {
      var e := entries[0];
      RecursiveWalkOnlyFiles(entries[1..], extensions);
      forall x | x in ChildFiles(entries, true, extensions)
        ensures IsFileIn(x, entries) && Keep(x, extensions)
      {
        if x in EntryFiles(e, true, extensions) {
          if e.Dir? {
            RecursiveWalkOnlyFiles(e.children, extensions);
            assert IsFileIn(x, e.children);
            var k :| 0 <= k < |e.children| && IsFileUnder(x, e.children[k]);
            assert IsFileUnder(x, e);
          }
          assert IsFileUnder(x, entries[0]);
        } else {
          var k :| 0 <= k < |entries[1..]| && IsFileUnder(x, entries[1..][k]);
          assert IsFileUnder(x, entries[k + 1]);
        }
      }
    }
  }

  const MayaExtensions: seq<string> := [".mb", ".ma"]

  /** `get_maya_files_recursively`: the recursive walk keeping ".mb" and ".ma" files. */
  method GetMayaFilesRecursively(entries: seq<Entry>) returns (files: seq<string>)
    ensures forall x :: x in files <==> x in ChildFiles(entries, true, []) && (Suffix(x) == ".mb" || Suffix(x) == ".ma")
    ensures files == FilterKept(ChildFiles(entries, true, []), MayaExtensions)
  {
    files := GetChildFilesFromRoot(entries, true, MayaExtensions);
    RecursiveWalkIsFilteredFiles(entries, MayaExtensions);
  }

  // ---------------------------------------------------------------------------
  // increment_path

  /** The match of `\.\d{z}$` in a stem: a '.' followed by exactly the last `z` characters, all digits. */
  function IncrementMatch(stem: string, z: nat): (m: Option<string>)
    ensures m.Some? ==> |m.value| == z + 1 && m.value[0] == '.' && AllDigits(m.value[1..]) && EndsWith(stem, m.value)
    ensures m.None? ==> forall d :: |d| == z && AllDigits(d) ==> !EndsWith(stem, "." + d)
  {
    if |stem| >= z + 1 && stem[|stem| - z - 1] == '.' && AllDigits(stem[|stem| - z..]) then
      assert stem[|stem| - z - 1..][1..] == stem[|stem| - z..];
      Some(stem[|stem| - z - 1..])
    else
      assert forall d :: |d| == z && AllDigits(d) && EndsWith(stem, "." + d) ==>
        stem[|stem| - z - 1] == ("." + d)[0] && stem[|stem| - z..] == d;
      None
  }

  /** The stem with the matched increment text removed everywhere (`str.replace(match, "")`). */
  function Base(p: string, z: nat): string {
    var stem := Stem(p);
    match IncrementMatch(stem, z)
    case None => stem
    case Some(g) => ReplaceAll(stem, g, "")
  }

  /**
   * The names `increment_path` tries for one path: the path's directory, the
   * base stem, a '.', the number padded with zeros to `width` digits, and the
   * path's suffix. The stem and its match do not change between tries.
   */
  datatype Numbering = Numbering(dir: string, base: string, suffix: string, width: nat)
  {
    function PathOf(n: nat): string {
      dir + base + "." + ZFill(NatToString(n), width) + suffix
    }
  }

  function NumberingOf(p: string, z: nat): (num: Numbering)
    ensures Injective(num.PathOf)
  {
    var num := Numbering(DirPrefix(p), Base(p, z), Suffix(p), z);
    NumberingInjective(num);
    num
  }

  /** Try `n` is `current_path.with_stem(base + "." + str(n).zfill(z))`. */
  lemma PathOfIsWithStem(p: string, z: nat, n: nat)
    ensures NumberingOf(p, z).PathOf(n) == WithStem(p, Base(p, z) + "." + ZFill(NatToString(n), z))
  {
    Regroup(DirPrefix(p), Base(p, z), ZFill(NatToString(n), z), Suffix(p));
  }

  lemma Regroup(d: string, b: string, x: string, s: string)
    ensures d + b + "." + x + s == d + (b + "." + x) + s
  {
  }

  /** A digit run of another length than `z` is not an increment and stays in the base. */
  lemma OtherRunLengthKept(p: string, b: string, d: string, z: nat)
    requires Stem(p) == b + "." + d && AllDigits(d) && |d| != z
    ensures Base(p, z) == Stem(p)
  {
    NoMatchOnOtherRun(Stem(p), b, d, z);
  }

  lemma NoMatchOnOtherRun(stem: string, b: string, d: string, z: nat)
    requires stem == b + "." + d && AllDigits(d) && |d| != z
    ensures IncrementMatch(stem, z).None?
  {
    if |stem| >= z + 1 {
      if |d| < z {
        assert stem[|stem| - |d| - 1] == '.';
        assert stem[|stem| - z..][z - |d| - 1] == stem[|stem| - |d| - 1];
      } else {
        assert stem[|stem| - z - 1] == d[|d| - z - 1];
      }
    }
  }

  lemma CancelAround(a: string, x: string, y: string, c: string)
    requires a + x + c == a + y + c
    ensures x == y
  {
    assert |x| == |y|;
    assert x == (a + x + c)[|a|..|a| + |x|];
    assert y == (a + y + c)[|a|..|a| + |y|];
  }

  /** Distinct numbers give distinct paths. */
  lemma PathOfInjective(num: Numbering, a: nat, b: nat)
    requires num.PathOf(a) == num.PathOf(b)
    ensures a == b
  {
    var pre := num.dir + num.base + ".";
    CancelAround(pre, ZFill(NatToString(a), num.width), ZFill(NatToString(b), num.width), num.suffix);
    ZFillNatInjective(a, b, num.width);
  }

  /** A numbering never gives two numbers the same path. */
  ghost predicate Injective(f: nat -> string) {
    forall a: nat, b: nat :: f(a) == f(b) ==> a == b
  }

  lemma NumberingInjective(num: Numbering)
    ensures Injective(num.PathOf)
  {
    forall a: nat, b: nat | num.PathOf(a) == num.PathOf(b) ensures a == b {
      PathOfInjective(num, a, b);
    }
  }

  /** The tries numbered `k` or more that already exist. */
  ghost function Taken(f: nat -> string, disk: set<string>, k: nat): set<string> {
    set c | c in disk && exists m: nat :: k <= m && c == f(m)
  }

  lemma TakenShrinks(f: nat -> string, disk: set<string>, k: nat)
    requires Injective(f) && f(k) in disk
    ensures |Taken(f, disk, k + 1)| < |Taken(f, disk, k)|
  {
    var c := f(k);
    var big := Taken(f, disk, k);
    var small := Taken(f, disk, k + 1);
    assert c in big;
    forall x | x in small ensures x in big - {c} {
      var m: nat :| k + 1 <= m && x == f(m);
    }
    SubsetCard(small, big - {c});
  }

  lemma {:induction false} SubsetCard<T>(a: set<T>, b: set<T>)
    requires a <= b
    ensures |a| <= |b|
    decreases |b|
  {
    if a != {} {
      var x :| x in a;
      SubsetCard(a - {x}, b - {x});
    }
  }

  /** The first number from `k` on whose path does not exist; there is one because the disk is finite. */
  function FirstFree(f: nat -> string, disk: set<string>, k: nat): (n: nat)
    requires Injective(f)
    ensures k <= n && f(n) !in disk
    ensures forall m :: k <= m < n ==> f(m) in disk
    decreases |Taken(f, disk, k)|
  {
    if f(k) !in disk then k
    else
      TakenShrinks(f, disk, k);
      FirstFree(f, disk, k + 1)
  }

  /**
   * `increment_path`: the loop runs at least once, so the result always
   * carries an increment; it stops at the first try that does not exist.
   * `with_stem` raises ValueError on a path with an empty name.
   */
  method IncrementPath(currentPath: string, z: nat, disk: set<string>) returns (r: Result<string>)
    ensures Name(currentPath) == "" ==> r == Err(ValueError)
    ensures Name(currentPath) != "" ==>
      var num := NumberingOf(currentPath, z);
      r == Ok(num.PathOf(FirstFree(num.PathOf, disk, 1)))
  {
    var num := NumberingOf(currentPath, z);
    var tryPath := num.PathOf;
    var increment: nat := 1;
    var newPath := currentPath;
    ghost var stop := FirstFree(tryPath, disk, 1);
    while newPath in disk || increment == 1
      invariant 1 <= increment <= stop + 1
      invariant increment > 1 ==> newPath == tryPath(increment - 1) && Name(currentPath) != ""
      decreases stop + 1 - increment
    {
      if Name(currentPath) == "" {
        return Err(ValueError);
      }
      if increment > 1 {
        assert tryPath(increment - 1) in disk;
        assert increment - 1 < stop;
      }
      newPath := tryPath(increment);
      increment := increment + 1;
    }
    assert tryPath(increment - 1) !in disk;
    assert increment - 1 == stop;
    return Ok(newPath);
  }

  /** The base stem has no '/', like any stem. */
  lemma BaseFree(p: string, z: nat)
    ensures Free(Base(p, z), '/')
  {
    var stem := Stem(p);
    assert stem + Suffix(p) == Name(p);
    assert Free(stem, '/') by {
      forall k | 0 <= k < |stem| ensures stem[k] != '/' {
        assert stem[k] == Name(p)[k];
      }
    }
    match IncrementMatch(stem, z)
    case None =>
    case Some(g) =>
      ReplaceKeepsFree(stem, g, "", '/');
  }

  /**
   * Every try keeps the directory and the suffix of the current path, and its
   * stem is the base, a '.', and the padded number.
   */
  lemma IncrementKeepsDirAndSuffix(p: string, z: nat, n: nat)
    requires Suffix(p) != ""
    ensures var q := NumberingOf(p, z).PathOf(n);
      && DirPrefix(q) == DirPrefix(p)
      && Suffix(q) == Suffix(p)
      && Stem(q) == Base(p, z) + "." + ZFill(NatToString(n), z)
  {
    var digits := ZFill(NatToString(n), z);
    var stem := Base(p, z) + "." + digits;
    BaseFree(p, z);
    assert Free(stem, '/') by {
      forall k | 0 <= k < |stem| ensures stem[k] != '/' {
        if k > |Base(p, z)| {
          assert stem[k] == digits[k - |Base(p, z)| - 1];
          assert IsDigit(digits[k - |Base(p, z)| - 1]) by {
            ZFillNatValue(n, z);
          }
        } else if k < |Base(p, z)| {
          assert stem[k] == Base(p, z)[k];
        }
      }
    }
    PathOfIsWithStem(p, z, n);
    WithStemParts(p, stem);
  }

  lemma FirstFreeWhenFree(num: Numbering, disk: set<string>, k: nat, path: string)
    requires num.PathOf(k) == path && path !in disk
    ensures Injective(num.PathOf) && num.PathOf(FirstFree(num.PathOf, disk, k)) == path
  {
    NumberingInjective(num);
  }

  lemma DemoTryFour(num: Numbering)
    requires num == Numbering("C:/demo/", "file", ".abc", 4)
    ensures num.PathOf(1) == "C:/demo/file.0001.abc"
  {
    assert Repeat('0', 3) == "000";
    Padded(1, 4, "0001");
  }

  lemma DemoTryTwo(num: Numbering)
    requires num == Numbering("C:/demo/", "file", ".abc", 2)
    ensures num.PathOf(1) == "C:/demo/file.01.abc"
    ensures num.PathOf(2) == "C:/demo/file.02.abc"
  {
    Padded(1, 2, "01");
    Padded(2, 2, "02");
  }

  lemma Padded(n: nat, z: nat, text: string)
    requires 1 <= n <= 9 && (z == 2 || z == 4)
    requires text == Repeat('0', z - 1) + [DigitChar(n)]
    ensures ZFill(NatToString(n), z) == text
  {
    assert NatToString(n) == [DigitChar(n)];
  }

  lemma DemoNumbering(p: string, z: nat)
    requires p == "C:/demo/file.abc" && (z == 2 || z == 4)
    ensures NumberingOf(p, z) == Numbering("C:/demo/", "file", ".abc", z)
    ensures Stem(p) == "file"
  {
    LastIndexOfIs(p, '/', 7);
    assert DirPrefix(p) == p[..8] == "C:/demo/";
    assert Name(p) == p[8..] == "file.abc";
    var name := Name(p);
    LastIndexOfIs(name, '.', 4);
    assert Stem(p) == name[..4] == "file";
    assert Suffix(p) == name[4..] == ".abc";
    assert IncrementMatch("file", z) == None;
  }

  lemma DemoNumberingExisting(p: string)
    requires p == "C:/demo/file.01.abc"
    ensures NumberingOf(p, 2) == Numbering("C:/demo/", "file", ".abc", 2)
  {
    ExistingParts(p);
    ExistingBase(Stem(p));
  }

  lemma ExistingParts(p: string)
    requires p == "C:/demo/file.01.abc"
    ensures DirPrefix(p) == "C:/demo/" && Stem(p) == "file.01" && Suffix(p) == ".abc"
  {
    LastIndexOfIs(p, '/', 7);
    assert DirPrefix(p) == p[..8] == "C:/demo/";
    assert Name(p) == p[8..] == "file.01.abc";
    var name := Name(p);
    LastIndexOfIs(name, '.', 7);
    assert Stem(p) == name[..7] == "file.01";
    assert Suffix(p) == name[7..] == ".abc";
  }

  lemma ExistingBase(stem: string)
    requires stem == "file.01"
    ensures IncrementMatch(stem, 2) == Some(".01")
    ensures ReplaceAll(stem, ".01", "") == "file"
  {
    assert IncrementMatch(stem, 2) == Some(stem[4..]);
    assert stem[4..] == ".01";
    ExistingSplit(stem);
    assert Join(["file", ""], "") == "file";
  }

  lemma ExistingSplit(stem: string)
    requires stem == "file.01"
    ensures Split(stem, ".01") == ["file", ""]
  {
    assert OccursAt(stem, ".01", 4);
    forall j | 0 <= j < 4 ensures !OccursAt(stem, ".01", j) {
      assert stem[j] != '.';
      assert stem[j..j + 3][0] == stem[j];
    }
    assert FindFrom(stem, ".01", 0) == Some(4);
    assert stem[..4] == "file" && stem[7..] == "";
    assert Split("", ".01") == [""];
  }

  /** Documented example: "C:/demo/file.abc" becomes "C:/demo/file.0001.abc" when that does not exist. */
  lemma IncrementExampleFresh(p: string, disk: set<string>)
    requires p == "C:/demo/file.abc" && "C:/demo/file.0001.abc" !in disk
    ensures var num := NumberingOf(p, 4);
      num.PathOf(FirstFree(num.PathOf, disk, 1)) == "C:/demo/file.0001.abc"
  {
    DemoNumbering(p, 4);
    DemoTryFour(NumberingOf(p, 4));
    FirstFreeWhenFree(NumberingOf(p, 4), disk, 1, "C:/demo/file.0001.abc");
  }

  /** Documented example: with two digits, "C:/demo/file.abc" becomes "C:/demo/file.01.abc". */
  lemma IncrementExampleTwoDigits(p: string, disk: set<string>)
    requires p == "C:/demo/file.abc" && "C:/demo/file.01.abc" !in disk
    ensures var num := NumberingOf(p, 2);
      num.PathOf(FirstFree(num.PathOf, disk, 1)) == "C:/demo/file.01.abc"
  {
    DemoNumbering(p, 2);
    DemoTryTwo(NumberingOf(p, 2));
    FirstFreeWhenFree(NumberingOf(p, 2), disk, 1, "C:/demo/file.01.abc");
  }

  /** Documented example: "C:/demo/file.01.abc" with two digits, itself on disk, becomes "C:/demo/file.02.abc". */
  lemma IncrementExampleExisting(p: string, disk: set<string>)
    requires p == "C:/demo/file.01.abc" && p in disk && "C:/demo/file.02.abc" !in disk
    ensures var num := NumberingOf(p, 2);
      num.PathOf(FirstFree(num.PathOf, disk, 1)) == "C:/demo/file.02.abc"
  {
    var num := NumberingOf(p, 2);
    DemoNumberingExisting(p);
    DemoTryTwo(num);
    NumberingInjective(num);
    assert FirstFree(num.PathOf, disk, 1) != 1;
    FirstFreeWhenFree(num, disk, 2, "C:/demo/file.02.abc");
  }
}
