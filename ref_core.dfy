/**
 * refrepath/core.py: discovering the references of the open scene, computing
 * the new path of one reference, and repathing every reference of a scene.
 *
 * The host (Maya) is reduced to what these functions ask of it:
 * - the raw list of reference nodes `cmds.ls(type="reference")` is an input;
 * - `cmds.referenceQuery(node, filename=True)` is the oracle `queries`;
 * - the file system is the finite set `disk` of existing paths;
 * - re-targeting a reference (`cmds.file(loadReference=...)`) happens exactly
 *   when a record is returned; its own failure is only logged by the source, so
 *   its outcome is not an input.
 */
module RefCore {
  import opened Wrappers
  import opened Strings
  import opened Paths

  /** The two kinds of pseudo-reference the host lists that are not file pointers. */
  datatype Sentinel = SharedReference | UnknownReference

  function SentinelMarker(k: Sentinel): string {
    match k
    case SharedReference => "sharedReferenceNode"
    case UnknownReference => "_UNKNOWN_REF_NODE_"
  }

  /** `is_ref_valid`: the name carries neither sentinel marker. */
  predicate IsRefValid(name: string) {
    !Contains(name, SentinelMarker(SharedReference)) && !Contains(name, SentinelMarker(UnknownReference))
  }

  /** `get_references`: the host's reference nodes without the sentinels, in host order. */
  function GetReferences(hostRefs: seq<string>): (refs: seq<string>)
    ensures forall x :: x in refs <==> x in hostRefs && IsRefValid(x)
    ensures |refs| <= |hostRefs|
  {
    if hostRefs == [] then []
    else if IsRefValid(hostRefs[0]) then [hostRefs[0]] + GetReferences(hostRefs[1..])
    else GetReferences(hostRefs[1..])
  }

  /** Filtering distributes over concatenation, so the host order is kept. */
  lemma {:induction false} GetReferencesAppend(a: seq<string>, b: seq<string>)
    ensures GetReferences(a + b) == GetReferences(a) + GetReferences(b)
  {
    if a == [] {
      assert a + b == b;
    } else {
      assert (a + b)[0] == a[0];
      assert (a + b)[1..] == a[1..] + b;
      GetReferencesAppend(a[1..], b);
    }
  }

  /** A sentinel never reaches the caller, whatever the host lists. */
  lemma SentinelsDropped(hostRefs: seq<string>, k: Sentinel)
    ensures forall x :: x in GetReferences(hostRefs) ==> !Contains(x, SentinelMarker(k))
  {
  }

  datatype RepathedReference = RepathedReference(nodeName: string, previousPath: string, newPath: string)
  {
    /** `was_updated`: the new path differs from the previous one. */
    predicate WasUpdated() {
      previousPath != newPath
    }
  }

  /** What `cmds.referenceQuery(node, filename=True)` does: raise, or give a path (`""` stands for an empty or missing one). */
  datatype PathQuery = QueryRaises | QueryReturns(path: string)

  /** `s[1::]`: the text without its first character. */
  function DropFirst(s: string): string {
    if s == [] then [] else s[1..]
  }

  /**
   * `root_substitute / str(current).split(str(denominator), 1)[-1][1::]`.
   * The denominator is the text of a `Path`, which is never empty.
   */
  function NewPath(current: string, denominator: string, root: string): (r: string)
    requires denominator != ""
    ensures Contains(current, denominator) ==>
      exists i: nat :: IsFirstOccurrence(current, denominator, i)
        && r == PathJoin(root, DropFirst(current[i + |denominator|..]))
    ensures !Contains(current, denominator) ==> r == PathJoin(root, DropFirst(current))
  {
    PathJoin(root, DropFirst(AfterFirst(current, denominator)))
  }

  /**
   * `repath_reference`: `Ok(None)` when the path query raised or the path is
   * already the computed one, `Ok(Some(record))` when a re-target is issued,
   * ValueError for an empty path, FileNotFoundError when the computed path is
   * not on disk (checked before the up-to-date test).
   */
  function RepathReference(node: string, denominator: string, root: string, query: PathQuery, disk: set<string>)
    : (r: Result<Option<RepathedReference>>)
    requires denominator != ""
    ensures query.QueryRaises? ==> r == Ok(None)
    ensures query == QueryReturns("") ==> r == Err(ValueError)
    ensures r == Err(FileNotFoundError) <==>
      query.QueryReturns? && query.path != "" && NewPath(query.path, denominator, root) !in disk
    ensures r.Ok? && r.value.Some? ==>
      && query == QueryReturns(r.value.value.previousPath)
      && r.value.value.nodeName == node
      && r.value.value.newPath == NewPath(query.path, denominator, root)
      && r.value.value.newPath in disk
      && r.value.value.WasUpdated()
    ensures query.QueryReturns? && query.path != "" && NewPath(query.path, denominator, root) in disk ==>
      r.Ok? && (r.value.Some? <==> NewPath(query.path, denominator, root) != query.path)
  {
    match query
    case QueryRaises => Ok(None)
    case QueryReturns(current) =>
      if current == "" then Err(ValueError)
      else
        var newPath := NewPath(current, denominator, root);
        if newPath !in disk then Err(FileNotFoundError)
        else
          var record := RepathedReference(node, current, newPath);
          if !record.WasUpdated() then Ok(None) else Ok(Some(record))
  }

  /** The root ends with the denominator and that is where the denominator first occurs in it. */
  predicate EndsWithFirstOccurrence(root: string, denominator: string) {
    |denominator| <= |root| && IsFirstOccurrence(root, denominator, |root| - |denominator|)
  }

  /**
   * Idempotence: once a reference points at the computed path, repathing it
   * again with the same parameters changes nothing, provided the denominator
   * first occurs at the very end of the root (the command line's default, where
   * the denominator is the root's own name) and the kept tail is relative.
   */
  lemma RepathIdempotent(node: string, current: string, denominator: string, root: string, disk: set<string>)
    requires denominator != "" && denominator[|denominator| - 1] != '/'
    requires EndsWithFirstOccurrence(root, denominator)
    requires var tail := DropFirst(AfterFirst(current, denominator)); tail == "" || tail[0] != '/'
    requires NewPath(current, denominator, root) in disk
    ensures RepathReference(node, denominator, root, QueryReturns(NewPath(current, denominator, root)), disk) == Ok(None)
  {
    var tail := DropFirst(AfterFirst(current, denominator));
    var p := NewPath(current, denominator, root);
    var at := |root| - |denominator|;
    assert root[|root| - 1] == denominator[|denominator| - 1] by {
      assert root[at..] == denominator;
    }
    if tail == "" {
      assert p == root;
      assert AfterFirst(root, denominator) == "" by {
        assert FindFrom(root, denominator, 0) == Some(at);
      }
    } else {
      assert p == root + "/" + tail;
      FirstOccurrenceKept(root, denominator, tail);
    }
  }

  /** Appending "/" and more to a root that ends with the first occurrence of the denominator keeps that occurrence first. */
  lemma FirstOccurrenceKept(root: string, denominator: string, tail: string)
    requires denominator != "" && EndsWithFirstOccurrence(root, denominator)
    ensures var p := root + "/" + tail;
      AfterFirst(p, denominator) == "/" + tail
  {
    var p := root + "/" + tail;
    var at := |root| - |denominator|;
    assert OccursAt(p, denominator, at) by {
      assert p[at..at + |denominator|] == root[at..];
    }
    forall j | 0 <= j < at ensures !OccursAt(p, denominator, j) {
      assert !OccursAt(root, denominator, j);
      assert p[j..j + |denominator|] == root[j..j + |denominator|];
    }
    assert FindFrom(p, denominator, 0) == Some(at);
    assert p[at + |denominator|..] == "/" + tail;
  }

  /** Worked example: "/proj/old/assets/chr/hero.ext" re-rooted at "/new/proj/assets" on "assets". */
  lemma NewPathExample(current: string, denominator: string, root: string)
    requires current == "/proj/old/assets/chr/hero.ext" && denominator == "assets" && root == "/new/proj/assets"
    ensures NewPath(current, denominator, root) == "/new/proj/assets/chr/hero.ext"
  {
    ExampleTail(current, denominator);
    ExampleJoin(root, "chr/hero.ext");
  }

  lemma ExampleTail(current: string, denominator: string)
    requires current == "/proj/old/assets/chr/hero.ext" && denominator == "assets"
    ensures DropFirst(AfterFirst(current, denominator)) == "chr/hero.ext"
  {
    FirstAssetsAt10(current);
    assert AfterFirst(current, denominator) == current[16..];
    assert current[17..] == "chr/hero.ext";
  }

  lemma ExampleJoin(root: string, rel: string)
    requires root == "/new/proj/assets" && rel == "chr/hero.ext"
    ensures PathJoin(root, rel) == "/new/proj/assets/chr/hero.ext"
  {
  }

  lemma FirstAssetsAt10(s: string)
    requires s == "/proj/old/assets/chr/hero.ext"
    ensures FindFrom(s, "assets", 0) == Some(10)
  {
    assert s[10..16] == "assets";
    assert OccursAt(s, "assets", 10);
    forall j | 0 <= j < 10 ensures !OccursAt(s, "assets", j) {
      assert s[j] != 'a';
      assert s[j..j + 6][0] == s[j];
    }
  }

  /** The records a repathing pass yields for `refs`, or the first error raised; computed from the last reference backwards. */
  function RepathAll(refs: seq<string>, denominator: string, root: string, queries: string -> PathQuery, disk: set<string>)
    : (r: Result<seq<RepathedReference>>)
    requires denominator != ""
    ensures r.Ok? ==> |r.value| <= |refs|
  {
    if refs == [] then Ok([])
    else
      match RepathAll(refs[..|refs| - 1], denominator, root, queries, disk)
      case Err(e) => Err(e)
      case Ok(records) => Extend(records, RepathReference(Last(refs), denominator, root, queries(Last(refs)), disk))
  }

  /** The records after one more reference: its error aborts, its record (if any) is appended. */
  function Extend(records: seq<RepathedReference>, outcome: Result<Option<RepathedReference>>): Result<seq<RepathedReference>> {
    match outcome
    case Err(e) => Err(e)
    case Ok(None) => Ok(records)
    case Ok(Some(record)) => Ok(records + [record])
  }

  /**
   * `open_and_repath_references`: a failed open is only logged (the host's
   * reference list is whatever is listed afterwards); no references gives `[]`;
   * otherwise every reference is repathed in order, only actual changes are
   * kept and the first raised error aborts the session.
   */
  method OpenAndRepathReferences(hostRefs: seq<string>, denominator: string, root: string,
                                 queries: string -> PathQuery, disk: set<string>)
    returns (r: Result<seq<RepathedReference>>)
    requires denominator != ""
    ensures r == RepathAll(GetReferences(hostRefs), denominator, root, queries, disk)
  {
    var refs := GetReferences(hostRefs);
    if |refs| == 0 {
      return Ok([]);
    }
    var records: seq<RepathedReference> := [];
    var i := 0;
    while i < |refs|
      invariant 0 <= i <= |refs|
      invariant RepathAll(refs[..i], denominator, root, queries, disk) == Ok(records)
    {
      var outcome := RepathReference(refs[i], denominator, root, queries(refs[i]), disk);
      assert RepathAll(refs[..i + 1], denominator, root, queries, disk) == Extend(records, outcome) by {
        assert refs[..i + 1][..i] == refs[..i];
        assert Last(refs[..i + 1]) == refs[i];
      }
      if outcome.Err? {
        ErrorPropagates(refs, i + 1, denominator, root, queries, disk);
        return Err(outcome.error);
      }
      if outcome.value.Some? {
        records := records + [outcome.value.value];
      }
      i := i + 1;
    }
    assert refs[..i] == refs;
    return Ok(records);
  }

  /** Once a prefix of the references has raised, the session raises the same error: the first error wins. */
  lemma {:induction false} ErrorPropagates(refs: seq<string>, k: nat, denominator: string, root: string,
                                           queries: string -> PathQuery, disk: set<string>)
    requires denominator != ""
    requires k <= |refs| && RepathAll(refs[..k], denominator, root, queries, disk).Err?
    ensures RepathAll(refs, denominator, root, queries, disk) == RepathAll(refs[..k], denominator, root, queries, disk)
    decreases |refs| - k
  {
    if k < |refs| {
      assert refs[..k + 1][..k] == refs[..k];
      ErrorPropagates(refs, k + 1, denominator, root, queries, disk);
    } else {
      assert refs[..k] == refs;
    }
  }

  /** Every record of a session is an actual change to a path that exists. */
  lemma {:induction false} SessionRecordsUpdated(refs: seq<string>, denominator: string, root: string,
                                                 queries: string -> PathQuery, disk: set<string>)
    requires denominator != ""
    requires RepathAll(refs, denominator, root, queries, disk).Ok?
    ensures forall rec :: rec in RepathAll(refs, denominator, root, queries, disk).value ==>
      rec.WasUpdated() && rec.newPath in disk && rec.nodeName in refs
  {
    if refs != [] {
      SessionRecordsUpdated(refs[..|refs| - 1], denominator, root, queries, disk);
    }
  }

  /** A reference the session must re-target: its path query gives a non-empty path whose computed replacement exists and differs. */
  predicate NeedsRepath(query: PathQuery, denominator: string, root: string, disk: set<string>)
    requires denominator != ""
  {
    query.QueryReturns? && query.path != ""
      && NewPath(query.path, denominator, root) in disk
      && NewPath(query.path, denominator, root) != query.path
  }

  /** Completeness: a session that succeeds records every reference that needed a re-target, with its computed path. */
  lemma {:induction false} SessionRecordsEveryChange(refs: seq<string>, denominator: string, root: string,
                                                     queries: string -> PathQuery, disk: set<string>, x: string)
    requires denominator != ""
    requires RepathAll(refs, denominator, root, queries, disk).Ok?
    requires x in refs && NeedsRepath(queries(x), denominator, root, disk)
    ensures RepathedReference(x, queries(x).path, NewPath(queries(x).path, denominator, root))
      in RepathAll(refs, denominator, root, queries, disk).value
  {
    var init := refs[..|refs| - 1];
    assert refs == init + [Last(refs)];
    var rec := RepathedReference(x, queries(x).path, NewPath(queries(x).path, denominator, root));
    var before := RepathAll(init, denominator, root, queries, disk);
    var outcome := RepathReference(Last(refs), denominator, root, queries(Last(refs)), disk);
    assert RepathAll(refs, denominator, root, queries, disk) == Extend(before.value, outcome);
    if x == Last(refs) {
      assert outcome == Ok(Some(rec));
    } else {
      assert x in init;
      SessionRecordsEveryChange(init, denominator, root, queries, disk, x);
    }
  }

  function NodeNames(records: seq<RepathedReference>): seq<string> {
    if records == [] then [] else NodeNames(records[..|records| - 1]) + [Last(records).nodeName]
  }

  /** `xs` is `ys` with some elements left out, order kept. */
  predicate IsSubsequence<T(==)>(xs: seq<T>, ys: seq<T>) {
    if xs == [] then true
    else if ys == [] then false
    else if Last(xs) == Last(ys) then IsSubsequence(xs[..|xs| - 1], ys[..|ys| - 1])
    else IsSubsequence(xs, ys[..|ys| - 1])
  }

  lemma {:induction false} SubsequenceExtend<T>(xs: seq<T>, ys: seq<T>, y: T)
    requires IsSubsequence(xs, ys)
    ensures IsSubsequence(xs, ys + [y])
    decreases |ys|, 1
  {
    assert (ys + [y])[..|ys|] == ys;
    if xs != [] && Last(xs) == y {
      SubsequenceDropLast(xs, ys);
    }
  }

  lemma {:induction false} SubsequenceDropLast<T>(xs: seq<T>, ys: seq<T>)
    requires xs != [] && IsSubsequence(xs, ys)
    ensures IsSubsequence(xs[..|xs| - 1], ys)
    decreases |ys|, 0
  {
    if Last(xs) == Last(ys) {
      SubsequenceExtend(xs[..|xs| - 1], ys[..|ys| - 1], Last(ys));
      assert ys[..|ys| - 1] + [Last(ys)] == ys;
    } else {
      SubsequenceDropLast(xs, ys[..|ys| - 1]);
      SubsequenceExtend(xs[..|xs| - 1], ys[..|ys| - 1], Last(ys));
      assert ys[..|ys| - 1] + [Last(ys)] == ys;
    }
  }

  /** One more reference leaves the records as they were or appends one record for that reference. */
  lemma SessionStep(refs: seq<string>, denominator: string, root: string, queries: string -> PathQuery, disk: set<string>)
    requires denominator != "" && refs != []
    requires RepathAll(refs, denominator, root, queries, disk).Ok?
    ensures var before := RepathAll(refs[..|refs| - 1], denominator, root, queries, disk);
      var after := RepathAll(refs, denominator, root, queries, disk).value;
      && before.Ok?
      && (after == before.value || (after == before.value + [Last(after)] && Last(after).nodeName == Last(refs)))
  {
  }

  lemma NodeNamesSnoc(records: seq<RepathedReference>, record: RepathedReference)
    ensures NodeNames(records + [record]) == NodeNames(records) + [record.nodeName]
  {
    assert (records + [record])[..|records|] == records;
  }

  /** The records come in reference order: their node names are a subsequence of the references. */
  lemma {:induction false} SessionKeepsOrder(refs: seq<string>, denominator: string, root: string,
                                             queries: string -> PathQuery, disk: set<string>)
    requires denominator != ""
    requires RepathAll(refs, denominator, root, queries, disk).Ok?
    ensures IsSubsequence(NodeNames(RepathAll(refs, denominator, root, queries, disk).value), refs)
  {
    if refs != [] {
      var init := refs[..|refs| - 1];
      SessionStep(refs, denominator, root, queries, disk);
      SessionKeepsOrder(init, denominator, root, queries, disk);
      var before := RepathAll(init, denominator, root, queries, disk).value;
      var after := RepathAll(refs, denominator, root, queries, disk).value;
      assert refs == init + [Last(refs)];
      if after == before {
        SubsequenceExtend(NodeNames(before), init, Last(refs));
      } else {
        NodeNamesSnoc(before, Last(after));
        assert NodeNames(after) == NodeNames(before) + [Last(refs)];
        assert Last(NodeNames(after)) == Last(refs);
        assert NodeNames(after)[..|NodeNames(after)| - 1] == NodeNames(before);
      }
    }
  }

  /** A reference that is already up to date: its path exists and repathing computes the same path. */
  predicate UpToDate(query: PathQuery, denominator: string, root: string, disk: set<string>)
    requires denominator != ""
  {
    query.QueryRaises? ||
    (query.path != "" && query.path in disk && NewPath(query.path, denominator, root) == query.path)
  }

  /** Re-running on a scene whose references are all up to date yields no record, hence no save. */
  lemma {:induction false} SessionOnRepairedScene(refs: seq<string>, denominator: string, root: string,
                                                  queries: string -> PathQuery, disk: set<string>)
    requires denominator != ""
    requires forall x :: x in refs ==> UpToDate(queries(x), denominator, root, disk)
    ensures RepathAll(refs, denominator, root, queries, disk) == Ok([])
  {
    if refs != [] {
      SessionOnRepairedScene(refs[..|refs| - 1], denominator, root, queries, disk);
    }
  }

  /** A reference whose computed path is missing aborts the whole session, unless an earlier one already did. */
  lemma {:induction false} MissingPathAborts(refs: seq<string>, denominator: string, root: string,
                                             queries: string -> PathQuery, disk: set<string>, k: nat)
    requires denominator != ""
    requires k < |refs| && RepathReference(refs[k], denominator, root, queries(refs[k]), disk).Err?
    ensures RepathAll(refs, denominator, root, queries, disk).Err?
  {
    if k < |refs| - 1 {
      assert refs[..|refs| - 1][k] == refs[k];
      MissingPathAborts(refs[..|refs| - 1], denominator, root, queries, disk, k);
    }
  }
}
