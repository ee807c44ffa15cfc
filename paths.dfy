/**
 * The parts of Python's `pathlib` and `os.path` the modelled code uses, on
 * POSIX-style paths held as strings: a file's name, stem and suffix, the
 * replacement of the stem (`with_stem`), a sibling in the same directory
 * (`p.parent / name`) and joining (`root / rel`, `os.path.join`).
 */
module Paths {
  import opened Wrappers
  import opened Strings

  /** Index of the last occurrence of character `c` in `s`. */
  function LastIndexOf(s: string, c: char): (r: Option<nat>)
    ensures r.Some? ==> r.value < |s| && s[r.value] == c && forall k :: r.value < k < |s| ==> s[k] != c
    ensures r.None? ==> forall k :: 0 <= k < |s| ==> s[k] != c
  {
    if s == [] then None
    else if s[|s| - 1] == c then Some(|s| - 1)
    else LastIndexOf(s[..|s| - 1], c)
  }

  /** Everything up to and including the last '/': the directory part of the path. */
  function DirPrefix(p: string): string {
    match LastIndexOf(p, '/')
    case None => ""
    case Some(i) => p[..i + 1]
  }

  /** `p.name`: the last path component. */
  function Name(p: string): (r: string)
    ensures DirPrefix(p) + r == p
    ensures forall k :: 0 <= k < |r| ==> r[k] != '/'
  {
    match LastIndexOf(p, '/')
    case None => p
    case Some(i) => p[i + 1..]
  }

  /** Start of the suffix inside a file name: the last '.' when it is neither the first nor the last character. */
  function SuffixStart(name: string): Option<nat> {
    match LastIndexOf(name, '.')
    case None => None
    case Some(i) => if 0 < i < |name| - 1 then Some(i) else None
  }

  /** `p.suffix` */
  function Suffix(p: string): string {
    var name := Name(p);
    match SuffixStart(name)
    case None => ""
    case Some(i) => name[i..]
  }

  /** `p.stem` */
  function Stem(p: string): (r: string)
    ensures r + Suffix(p) == Name(p)
  {
    var name := Name(p);
    match SuffixStart(name)
    case None =>
      assert Suffix(p) == "";
      name
    case Some(i) =>
      assert Suffix(p) == name[i..];
      assert name[..i] + name[i..] == name;
      name[..i]
  }

  /** `p.with_stem(stem)`: same directory, same suffix, new stem. */
  function WithStem(p: string, stem: string): string {
    DirPrefix(p) + stem + Suffix(p)
  }

  /** `p.parent / name`: a file called `name` next to `p`. */
  function Sibling(p: string, name: string): string {
    DirPrefix(p) + name
  }

  /** `root / rel` with pathlib: an absolute `rel` replaces `root`, an empty one leaves it. */
  function PathJoin(root: string, rel: string): string {
    if rel == "" then root
    else if rel[0] == '/' then rel
    else if root == "" then rel
    else if root[|root| - 1] == '/' then root + rel
    else root + "/" + rel
  }

  /** `os.path.join(a, b)` (POSIX). */
  function OsJoin(a: string, b: string): string {
    if b != "" && b[0] == '/' then b
    else if a == "" || a[|a| - 1] == '/' then a + b
    else a + "/" + b
  }

  lemma {:induction false} LastIndexOfAppend(a: string, b: string, c: char)
    ensures LastIndexOf(a + b, c) ==
      if LastIndexOf(b, c).Some? then Some(|a| + LastIndexOf(b, c).value) else LastIndexOf(a, c)
    decreases |b|
  {
    if b == [] {
      assert a + b == a;
    } else if b[|b| - 1] != c {
      assert (a + b)[..|a + b| - 1] == a + b[..|b| - 1];
      LastIndexOfAppend(a, b[..|b| - 1], c);
    }
  }

  lemma LastIndexOfIs(s: string, c: char, i: nat)
    requires i < |s| && s[i] == c && forall k :: i < k < |s| ==> s[k] != c
    ensures LastIndexOf(s, c) == Some(i)
  {
  }

  lemma LastIndexOfNone(s: string, c: char)
    requires forall k :: 0 <= k < |s| ==> s[k] != c
    ensures LastIndexOf(s, c) == None
  {
  }

  /** A name without '/' put under the directory of `p` is that name, in that directory. */
  lemma UnderDir(p: string, b: string)
    requires forall k :: 0 <= k < |b| ==> b[k] != '/'
    ensures DirPrefix(DirPrefix(p) + b) == DirPrefix(p)
    ensures Name(DirPrefix(p) + b) == b
  {
    var d := DirPrefix(p);
    var q := d + b;
    LastIndexOfNone(b, '/');
    LastIndexOfAppend(d, b, '/');
    match LastIndexOf(p, '/')
    case None =>
      assert q == b;
    case Some(i) =>
      assert LastIndexOf(d, '/') == Some(i);
      assert q[..i + 1] == d;
      assert q[i + 1..] == b;
  }

  /** A suffix is a '.' followed by at least one character, none of them '.' or '/'. */
  lemma SuffixShape(p: string)
    requires Suffix(p) != ""
    ensures var s := Suffix(p);
      && |s| >= 2 && s[0] == '.'
      && (forall k :: 1 <= k < |s| ==> s[k] != '.')
      && (forall k :: 0 <= k < |s| ==> s[k] != '/')
  {
    var name := Name(p);
    var j := SuffixStart(name).value;
    var s := Suffix(p);
    assert s == name[j..];
    forall k | 0 <= k < |s| ensures s[k] == name[j + k] {
    }
  }

  lemma SuffixAfterStem(stem: string, s: string)
    requires stem != "" && |s| >= 2 && s[0] == '.' && forall k :: 1 <= k < |s| ==> s[k] != '.'
    ensures SuffixStart(stem + s) == Some(|stem|)
  {
    assert forall k :: 0 <= k < |s[1..]| ==> s[1..][k] == s[k + 1];
    LastIndexOfNone(s[1..], '.');
    LastIndexOfAppend(s[..1], s[1..], '.');
    assert s[..1] + s[1..] == s;
    LastIndexOfAppend(stem, s, '.');
  }

  /**
   * `with_stem` keeps the directory and the suffix, and the new stem reads
   * back: for a path with a suffix and a non-empty stem without '/',
   * the stem of `p.with_stem(stem)` is `stem` again.
   */
  lemma WithStemParts(p: string, stem: string)
    requires stem != "" && forall k :: 0 <= k < |stem| ==> stem[k] != '/'
    requires Suffix(p) != ""
    ensures DirPrefix(WithStem(p, stem)) == DirPrefix(p)
    ensures Name(WithStem(p, stem)) == stem + Suffix(p)
    ensures Stem(WithStem(p, stem)) == stem
    ensures Suffix(WithStem(p, stem)) == Suffix(p)
  {
    var s := Suffix(p);
    var b := stem + s;
    SuffixShape(p);
    assert forall k :: 0 <= k < |b| ==> b[k] != '/' by {
      forall k | 0 <= k < |b| ensures b[k] != '/' {
        if k >= |stem| {
          assert b[k] == s[k - |stem|];
        }
      }
    }
    assert WithStem(p, stem) == DirPrefix(p) + b;
    UnderDir(p, b);
    SuffixAfterStem(stem, s);
    assert b[|stem|..] == s && b[..|stem|] == stem;
  }

  /** `os.path.basename(os.path.join(d, name))` is `name` for a plain entry name. */
  lemma NameOfJoin(d: string, name: string)
    requires name != "" && Free(name, '/')
    ensures Name(OsJoin(d, name)) == name
  {
    LastIndexOfNone(name, '/');
    var prefix := if d == "" || d[|d| - 1] == '/' then d else d + "/";
    assert OsJoin(d, name) == prefix + name;
    LastIndexOfAppend(prefix, name, '/');
    if prefix != "" {
      LastIndexOfIs(prefix, '/', |prefix| - 1);
      assert (prefix + name)[|prefix|..] == name;
    }
  }

  // ---------------------------------------------------------------------------
  // Path(s): pathlib's normal form of a POSIX path

  /** The components pathlib keeps from the pieces between slashes: the non-empty ones other than ".". */
  function Components(pieces: seq<string>): (r: seq<string>)
    ensures forall x :: x in r <==> x in pieces && x != "" && x != "."
  {
    if pieces == [] then []
    else
      var i := |pieces| - 1;
      assert forall x :: x in pieces <==> x in pieces[..i] || x == pieces[i] by {
        assert pieces == pieces[..i] + [pieces[i]];
      }
      Components(pieces[..i]) + (if pieces[i] != "" && pieces[i] != "." then [pieces[i]] else [])
  }

  /** The root pathlib keeps: exactly two leading slashes stay "//", one or three and more become "/". */
  function Anchor(s: string): (r: string)
    ensures r == "" || r == "/" || r == "//"
    ensures r != "" <==> StartsWith(s, "/")
  {
    if |s| >= 2 && s[0] == '/' && s[1] == '/' && (|s| == 2 || s[2] != '/') then "//"
    else if |s| >= 1 && s[0] == '/' then "/"
    else ""
  }

  /** `str(Path(s))`: the anchor, then the kept components joined by "/"; "." when nothing is left. */
  function PurePath(s: string): (r: string)
    ensures r != ""
  {
    var body := Join(Components(Split(s, "/")), "/");
    if Anchor(s) == "" && body == "" then "." else Anchor(s) + body
  }

  /** `Path(s).name`: the last kept component, or "" when there is none. */
  function PurePathName(s: string): string {
    var parts := Components(Split(s, "/"));
    if parts == [] then "" else Last(parts)
  }

  /** The name of a path after a directory prefix (empty or ending with '/') is the name of the rest. */
  lemma NameAfterDir(a: string, y: string)
    requires a == "" || a[|a| - 1] == '/'
    ensures Name(a + y) == Name(y)
  {
    if a == "" {
      assert a + y == y;
    } else {
      LastIndexOfAppend(a, y, '/');
      match LastIndexOf(y, '/')
      case Some(j) =>
        assert (a + y)[|a| + j + 1..] == y[j + 1..];
      case None =>
        LastIndexOfIs(a, '/', |a| - 1);
        assert (a + y)[|a|..] == y;
    }
  }

  /** Joining slash-free components: the name is the last component. */
  lemma {:induction false} NameOfJoined(parts: seq<string>)
    requires parts != [] && Free(Last(parts), '/')
    ensures Name(Join(parts, "/")) == Last(parts)
    decreases |parts|
  {
    if |parts| == 1 {
      LastIndexOfNone(parts[0], '/');
    } else {
      NameOfJoined(parts[1..]);
      assert Join(parts, "/") == (parts[0] + "/") + Join(parts[1..], "/");
      NameAfterDir(parts[0] + "/", Join(parts[1..], "/"));
    }
  }

  lemma NotContainsFree(x: string, c: char)
    requires !Contains(x, [c])
    ensures Free(x, c)
  {
    forall k | 0 <= k < |x| ensures x[k] != c {
      if x[k] == c {
        assert x[k..k + 1] == [c];
        ContainsAt(x, [c], k);
      }
    }
  }

  /**
   * The name of the normal form is pathlib's name: the last component that is
   * neither empty nor "."; with no such component the name is "" and the
   * normal form is only its anchor, or "." for a relative path.
   */
  lemma PurePathNameIsName(s: string)
    ensures PurePathName(s) != "" ==> Name(PurePath(s)) == PurePathName(s)
    ensures PurePathName(s) == "" <==> PurePath(s) in {".", "/", "//"}
  {
    var pieces := Split(s, "/");
    var parts := Components(pieces);
    var body := Join(parts, "/");
    if parts == [] {
      assert PurePath(s) == "." || PurePath(s) == Anchor(s);
    } else {
      SplitPiecesFree(s, "/");
      assert Last(parts) in parts;
      var k :| 0 <= k < |pieces| && pieces[k] == Last(parts);
      NotContainsFree(Last(parts), '/');
      NameOfJoined(parts);
      NameAfterDir(Anchor(s), body);
      assert Last(parts) != "" && Last(parts) != ".";
      assert PurePath(s) == Anchor(s) + body;
    }
  }
}
