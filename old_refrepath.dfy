/**
 * refrepath/refrepath.py: the earlier revision of the repathing logic. Its
 * reference filtering is the same as in refrepath/core.py (RefCore.GetReferences);
 * what differs is modelled here:
 * - the new path keeps the text after the LAST occurrence of the denominator
 *   (`split(denominator)[-1]`), not the first;
 * - the path query is not guarded, so a raising query aborts the session;
 * - nothing is collected, and the scene is saved whether or not anything changed;
 * - `save_scene_increment` never advances its counter.
 */
module OldRefrepath {
  import opened Wrappers
  import opened Strings
  import opened Paths
  import opened RefCore
  import opened RefUtils

  // ---------------------------------------------------------------------------
  // repath_reference

  /** `root_substitute / str(current).split(str(denominator))[-1][1::]` */
  function OldNewPath(current: string, denominator: string, root: string): string
    requires denominator != ""
  {
    PathJoin(root, DropFirst(AfterLast(current, denominator)))
  }

  /** When the denominator does not occur again after its first occurrence, both revisions compute the same path. */
  lemma OldNewPathAgrees(current: string, denominator: string, root: string)
    requires denominator != "" && !Contains(AfterFirst(current, denominator), denominator)
    ensures OldNewPath(current, denominator, root) == NewPath(current, denominator, root)
  {
    match FindFrom(current, denominator, 0)
    case None =>
      assert AfterFirst(current, denominator) == current;
      assert Split(current, denominator) == [current];
    case Some(i) =>
      var rest := current[i + |denominator|..];
      assert AfterFirst(current, denominator) == rest;
      AfterLastStep(current, denominator, i);
      assert FindFrom(rest, denominator, 0) == None;
      assert Split(rest, denominator) == [rest];
  }

  /** Worked example: with the denominator occurring twice the revisions disagree. */
  lemma OldNewPathDiffers(current: string, denominator: string, root: string)
    requires current == "/lib/x/lib/y" && denominator == "lib" && root == "/new"
    ensures NewPath(current, denominator, root) == "/new/x/lib/y"
    ensures OldNewPath(current, denominator, root) == "/new/y"
  {
    LibFirstAt1(current);
    var rest := current[4..];
    assert rest == "/x/lib/y";
    AfterLastStep(current, denominator, 1);
    LibSecond(rest);
    DiffersJoin(root, DropFirst(rest), DropFirst("/y"));
  }

  lemma DiffersJoin(root: string, a: string, b: string)
    requires root == "/new" && a == "x/lib/y" && b == "y"
    ensures PathJoin(root, a) == "/new/x/lib/y" && PathJoin(root, b) == "/new/y"
  {
  }

  lemma LibFirstAt1(s: string)
    requires s == "/lib/x/lib/y"
    ensures FindFrom(s, "lib", 0) == Some(1)
    ensures AfterFirst(s, "lib") == s[4..]
  {
    assert !OccursAt(s, "lib", 0) by {
      assert s[0..3][0] == s[0];
    }
    assert s[1..4] == "lib";
    FirstOccurrenceFound(s, "lib", 1);
  }

  lemma LibSecond(s: string)
    requires s == "/x/lib/y"
    ensures AfterLast(s, "lib") == "/y"
  {
    forall j | 0 <= j < 3 ensures !OccursAt(s, "lib", j) {
      assert s[j] != 'l';
      assert s[j..j + 3][0] == s[j];
    }
    assert s[3..6] == "lib";
    FirstOccurrenceFound(s, "lib", 3);
    AfterLastStep(s, "lib", 3);
    LibNone(s[6..]);
  }

  lemma LibNone(t: string)
    requires t == "/y"
    ensures AfterLast(t, "lib") == "/y"
  {
    assert FindFrom(t, "lib", 0) == None;
    assert Split(t, "lib") == [t];
  }

  /**
   * The old `repath_reference`: a raising path query propagates (the host's
   * RuntimeError), an empty path is a ValueError, a missing computed path a
   * FileNotFoundError (tested before the up-to-date check). `Ok(Some(record))`
   * is a re-target issued, `Ok(None)` a path that is already right.
   */
  function OldRepathReference(node: string, denominator: string, root: string, query: PathQuery, disk: set<string>)
    : (r: Result<Option<RepathedReference>>)
    requires denominator != ""
    ensures query.QueryRaises? ==> r == Err(RuntimeError)
    ensures query == QueryReturns("") ==> r == Err(ValueError)
    ensures r == Err(FileNotFoundError) <==>
      query.QueryReturns? && query.path != "" && OldNewPath(query.path, denominator, root) !in disk
    ensures r == Ok(None) <==>
      query.QueryReturns? && query.path != "" && OldNewPath(query.path, denominator, root) == query.path && query.path in disk
    ensures r.Ok? && r.value.Some? ==>
      && query == QueryReturns(r.value.value.previousPath)
      && r.value.value.nodeName == node
      && r.value.value.newPath == OldNewPath(query.path, denominator, root)
      && r.value.value.newPath in disk
      && r.value.value.WasUpdated()
    ensures query.QueryReturns? && query.path != "" && OldNewPath(query.path, denominator, root) in disk ==>
      r.Ok? && (r.value.Some? <==> OldNewPath(query.path, denominator, root) != query.path)
  {
    match query
    case QueryRaises => Err(RuntimeError)
    case QueryReturns(current) =>
      if current == "" then Err(ValueError)
      else
        var newPath := OldNewPath(current, denominator, root);
        if newPath !in disk then Err(FileNotFoundError)
        else if current == newPath then Ok(None)
        else Ok(Some(RepathedReference(node, current, newPath)))
  }

  /** On a path where the denominator occurs at most once before its tail, the revisions behave alike. */
  lemma OldRepathMatchesNew(node: string, denominator: string, root: string, current: string, disk: set<string>)
    requires denominator != "" && !Contains(AfterFirst(current, denominator), denominator)
    ensures OldRepathReference(node, denominator, root, QueryReturns(current), disk)
         == RepathReference(node, denominator, root, QueryReturns(current), disk)
  {
    OldNewPathAgrees(current, denominator, root);
  }

  // ---------------------------------------------------------------------------
  // save_scene_increment

  /** The only candidate the old loop ever computes: the stem with ".0001" appended (`increment` stays 1). */
  function OldCandidate(scene: string): string {
    WithStem(scene, Stem(scene) + "." + ZFill(NatToString(1), 4))
  }

  /** What the old save does: save under the scene's own name, under the candidate, loop forever, or raise. */
  datatype SaveStep = NotSaved | SavedAs(path: string) | Hangs | SaveRaises(error: PyError)

  /**
   * `new_scene_path.exists()`: a path without a name (the untitled scene's
   * "", which `Path` reads as ".", or a root) always exists; any other path
   * exists when it is on disk.
   */
  predicate Exists(path: string, disk: set<string>) {
    Name(path) == "" || path in disk
  }

  function OldSaveStepOf(scene: string, disk: set<string>): SaveStep {
    if !Exists(scene, disk) then SavedAs(scene)
    else if Name(scene) == "" then SaveRaises(ValueError)
    else if OldCandidate(scene) in disk then Hangs
    else SavedAs(OldCandidate(scene))
  }

  /**
   * The old `save_scene_increment` loop: while the path exists, recompute the
   * candidate from the scene's stem with the counter still at 1 (`with_stem`
   * raises ValueError for a scene without a name). The loop is run until its
   * state repeats; a repeated state whose path still exists is a loop that
   * never ends.
   */
  method OldSaveSceneIncrement(scene: string, disk: set<string>) returns (step: SaveStep)
    ensures step == OldSaveStepOf(scene, disk)
  {
    var newPath := scene;
    var repeated := false;
    ghost var candidate := OldCandidate(scene);
    while Exists(newPath, disk) && !repeated
      invariant newPath == scene || newPath == candidate
      invariant newPath != scene ==> Exists(scene, disk) && Name(scene) != ""
      invariant repeated ==> newPath == candidate && Exists(scene, disk) && Name(scene) != "" && Exists(newPath, disk)
      decreases (if newPath == scene then 2 else 0) + (if repeated then 0 else 1)
    {
      if Name(scene) == "" {
        return SaveRaises(ValueError);
      }
      var next := OldCandidate(scene);
      repeated := next == newPath;
      newPath := next;
    }
    if repeated {
      CandidateNamed(scene);
      return Hangs;
    }
    return SavedAs(newPath);
  }

  /** The candidate always has a name, so it exists only when it is on disk. */
  lemma CandidateNamed(scene: string)
    ensures Name(OldCandidate(scene)) != ""
  {
    var stem := Stem(scene) + "." + ZFill(NatToString(1), 4);
    assert stem != "";
  }

  /** The old save never goes past the first increment, and cannot end once both names exist. */
  lemma OldSaveNeverAdvances(scene: string, disk: set<string>)
    ensures OldSaveStepOf(scene, disk).SavedAs? ==>
      OldSaveStepOf(scene, disk).path !in disk &&
      (OldSaveStepOf(scene, disk).path == scene || OldSaveStepOf(scene, disk).path == OldCandidate(scene))
    ensures OldSaveStepOf(scene, disk) == Hangs <==> Name(scene) != "" && scene in disk && OldCandidate(scene) in disk
    ensures OldSaveStepOf(scene, disk).SaveRaises? <==> Name(scene) == ""
  {
  }

  /** Without an increment already on the stem, the only candidate is the corrected loop's first try. */
  lemma OldCandidateIsFirstTry(scene: string)
    requires IncrementMatch(Stem(scene), 4).None?
    ensures OldCandidate(scene) == NumberingOf(scene, 4).PathOf(1)
  {
    PathOfIsWithStem(scene, 4, 1);
  }

  /**
   * The discrepancy on an input: with the scene and its ".0001" name both on
   * disk the old save never ends, where the corrected numbering saves as ".0002".
   */
  lemma OldSaveHangs(scene: string, disk: set<string>)
    requires scene == "C:/demo/file.abc" && disk == {"C:/demo/file.abc", "C:/demo/file.0001.abc"}
    ensures OldSaveStepOf(scene, disk) == Hangs
    ensures var num := NumberingOf(scene, 4);
      num.PathOf(FirstFree(num.PathOf, disk, 1)) == "C:/demo/file.0002.abc"
  {
    DemoOldCandidate(scene);
    CorrectedDemo(NumberingOf(scene, 4), disk);
  }

  lemma CorrectedDemo(num: Numbering, disk: set<string>)
    requires num == Numbering("C:/demo/", "file", ".abc", 4)
    requires disk == {"C:/demo/file.abc", "C:/demo/file.0001.abc"}
    ensures Injective(num.PathOf) && num.PathOf(FirstFree(num.PathOf, disk, 1)) == "C:/demo/file.0002.abc"
  {
    DemoTryFour(num);
    DemoSecondTry(num);
    FirstFreeWhenFree(num, disk, 2, "C:/demo/file.0002.abc");
  }

  lemma DemoOldCandidate(scene: string)
    requires scene == "C:/demo/file.abc"
    ensures OldCandidate(scene) == NumberingOf(scene, 4).PathOf(1) == "C:/demo/file.0001.abc"
    ensures NumberingOf(scene, 4) == Numbering("C:/demo/", "file", ".abc", 4)
  {
    DemoNumbering(scene, 4);
    DemoTryFour(NumberingOf(scene, 4));
    OldCandidateIsFirstTry(scene);
  }

  lemma DemoSecondTry(num: Numbering)
    requires num == Numbering("C:/demo/", "file", ".abc", 4)
    ensures num.PathOf(2) == "C:/demo/file.0002.abc"
  {
    assert Repeat('0', 3) == "000";
    Padded(2, 4, "0002");
  }

  // ---------------------------------------------------------------------------
  // open_and_repath_references

  /** The re-targets issued for `refs`, or the first error raised; computed from the last reference backwards. */
  function OldRepathAll(refs: seq<string>, denominator: string, root: string, queries: string -> PathQuery, disk: set<string>)
    : Result<seq<RepathedReference>>
    requires denominator != ""
  {
    if refs == [] then Ok([])
    else
      match OldRepathAll(refs[..|refs| - 1], denominator, root, queries, disk)
      case Err(e) => Err(e)
      case Ok(records) => Extend(records, OldRepathReference(Last(refs), denominator, root, queries(Last(refs)), disk))
  }

  /** A session: the re-targets issued and what the final save did. */
  datatype OldSession = OldSession(retargets: seq<RepathedReference>, save: SaveStep)

  function OldSessionOf(hostRefs: seq<string>, denominator: string, root: string, queries: string -> PathQuery,
                        disk: set<string>, saveScene: bool, scene: string): Result<OldSession>
    requires denominator != ""
  {
    match OldRepathAll(GetReferences(hostRefs), denominator, root, queries, disk)
    case Err(e) => Err(e)
    case Ok(records) => Ok(OldSession(records, if saveScene then OldSaveStepOf(scene, disk) else NotSaved))
  }

  /**
   * The old `open_and_repath_references`: the open's failure is only logged,
   * an empty reference list does not stop anything, every reference is
   * repathed in order (the first error propagates), then the scene is saved
   * when asked. `scene` is the scene open once the open was attempted.
   */
  method OldOpenAndRepathReferences(hostRefs: seq<string>, denominator: string, root: string,
                                    queries: string -> PathQuery, disk: set<string>, saveScene: bool, scene: string)
    returns (r: Result<OldSession>)
    requires denominator != ""
    ensures r == OldSessionOf(hostRefs, denominator, root, queries, disk, saveScene, scene)
  {
    var refs := GetReferences(hostRefs);
    var records: seq<RepathedReference> := [];
    var i := 0;
    while i < |refs|
      invariant 0 <= i <= |refs|
      invariant OldRepathAll(refs[..i], denominator, root, queries, disk) == Ok(records)
    {
      var outcome := OldRepathReference(refs[i], denominator, root, queries(refs[i]), disk);
      assert OldRepathAll(refs[..i + 1], denominator, root, queries, disk) == Extend(records, outcome) by {
        assert refs[..i + 1][..i] == refs[..i];
        assert Last(refs[..i + 1]) == refs[i];
      }
      if outcome.Err? {
        OldErrorPropagates(refs, i + 1, denominator, root, queries, disk);
        return Err(outcome.error);
      }
      if outcome.value.Some? {
        records := records + [outcome.value.value];
      }
      i := i + 1;
    }
    assert refs[..i] == refs;
    var step := NotSaved;
    if saveScene {
      step := OldSaveSceneIncrement(scene, disk);
    }
    return Ok(OldSession(records, step));
  }

  /** The first error of a prefix is the session's error. */
  lemma {:induction false} OldErrorPropagates(refs: seq<string>, k: nat, denominator: string, root: string,
                                              queries: string -> PathQuery, disk: set<string>)
    requires denominator != ""
    requires k <= |refs| && OldRepathAll(refs[..k], denominator, root, queries, disk).Err?
    ensures OldRepathAll(refs, denominator, root, queries, disk) == OldRepathAll(refs[..k], denominator, root, queries, disk)
    decreases |refs| - k
  {
    if k < |refs| {
      assert refs[..k + 1][..k] == refs[..k];
      OldErrorPropagates(refs, k + 1, denominator, root, queries, disk);
    } else {
      assert refs[..k] == refs;
    }
  }

  /** Unlike the current revision, a single raising path query aborts the whole session. */
  lemma {:induction false} RaisingQueryAborts(refs: seq<string>, denominator: string, root: string,
                                              queries: string -> PathQuery, disk: set<string>, k: nat)
    requires denominator != ""
    requires k < |refs| && queries(refs[k]).QueryRaises?
    ensures OldRepathAll(refs, denominator, root, queries, disk).Err?
  {
    if k < |refs| - 1 {
      assert refs[..|refs| - 1][k] == refs[k];
      RaisingQueryAborts(refs[..|refs| - 1], denominator, root, queries, disk, k);
    }
  }

  /** With `save_scene` the old session saves even when nothing was re-targeted, and even with no references at all. */
  lemma OldSessionAlwaysSaves(hostRefs: seq<string>, denominator: string, root: string,
                              queries: string -> PathQuery, disk: set<string>, scene: string)
    requires denominator != ""
    requires OldRepathAll(GetReferences(hostRefs), denominator, root, queries, disk).Ok?
    ensures OldSessionOf(hostRefs, denominator, root, queries, disk, true, scene).Ok?
    ensures OldSessionOf(hostRefs, denominator, root, queries, disk, true, scene).value.save != NotSaved
  {
  }

  /** Every re-target of an old session is an actual change to a path that exists. */
  lemma {:induction false} OldRetargetsUpdated(refs: seq<string>, denominator: string, root: string,
                                               queries: string -> PathQuery, disk: set<string>)
    requires denominator != ""
    requires OldRepathAll(refs, denominator, root, queries, disk).Ok?
    ensures forall rec :: rec in OldRepathAll(refs, denominator, root, queries, disk).value ==>
      rec.WasUpdated() && rec.newPath in disk && rec.nodeName in refs
  {
    if refs != [] {
      OldRetargetsUpdated(refs[..|refs| - 1], denominator, root, queries, disk);
    }
  }

  /** Completeness: a session that succeeds re-targets every reference whose computed path exists and differs. */
  lemma {:induction false} OldRetargetsEveryChange(refs: seq<string>, denominator: string, root: string,
                                                   queries: string -> PathQuery, disk: set<string>, x: string)
    requires denominator != ""
    requires OldRepathAll(refs, denominator, root, queries, disk).Ok?
    requires x in refs && queries(x).QueryReturns? && queries(x).path != ""
    requires OldNewPath(queries(x).path, denominator, root) in disk
    requires OldNewPath(queries(x).path, denominator, root) != queries(x).path
    ensures RepathedReference(x, queries(x).path, OldNewPath(queries(x).path, denominator, root))
      in OldRepathAll(refs, denominator, root, queries, disk).value
  {
    var init := refs[..|refs| - 1];
    assert refs == init + [Last(refs)];
    var rec := RepathedReference(x, queries(x).path, OldNewPath(queries(x).path, denominator, root));
    var before := OldRepathAll(init, denominator, root, queries, disk);
    var outcome := OldRepathReference(Last(refs), denominator, root, queries(Last(refs)), disk);
    assert OldRepathAll(refs, denominator, root, queries, disk) == Extend(before.value, outcome);
    if x == Last(refs) {
      assert outcome == Ok(Some(rec));
    } else {
      assert x in init;
      OldRetargetsEveryChange(init, denominator, root, queries, disk, x);
    }
  }
}
