/**
 * The two regular expressions `FileBatcher.log_result` runs over each line of
 * a batch child's standard output (refrepath/batch.py), written out as
 * searches, and the report sequence the scraping loop produces.
 *
 * Python's `re.search` tries start positions from the left; `.` matches any
 * character but '\n'; `.+` is greedy, so among the matches from one start the
 * one taking the most characters for the first `.+` wins.
 */
module LogScrape {
  import opened Wrappers
  import opened Strings

  /** `\w` restricted to ASCII: letters, digits and '_'. */
  predicate IsWordChar(c: char) {
    'a' <= c <= 'z' || 'A' <= c <= 'Z' || '0' <= c <= '9' || c == '_'
  }

  /** The end of the newline-free stretch of `line` that starts at `from`: the first '\n' at or after `from`, or the end. */
  function LineEnd(line: string, from: nat): (lim: nat)
    requires from <= |line|
    ensures from <= lim <= |line|
    ensures forall k :: from <= k < lim ==> line[k] != '\n'
    ensures lim < |line| ==> line[lim] == '\n'
    decreases |line| - from
  {
    if from == |line| then |line|
    else if line[from] == '\n' then from
    else LineEnd(line, from + 1)
  }

  /** The largest index in `[lo, hi]` that satisfies `good`. */
  function LastWhere(good: nat -> bool, lo: nat, hi: int): (r: Option<nat>)
    ensures r.Some? ==> lo <= r.value <= hi && good(r.value)
    ensures r.Some? ==> forall j: nat :: r.value < j <= hi ==> !good(j)
    ensures r.None? ==> forall j: nat :: lo <= j <= hi ==> !good(j)
    decreases hi - lo
  {
    if hi < lo then None
    else if good(hi) then Some(hi)
    else LastWhere(good, lo, hi - 1)
  }

  /** The longest run of ASCII digits starting at `from`. */
  function DigitRun(line: string, from: nat): (r: string)
    ensures AllDigits(r)
    ensures from <= |line| ==> OccursAt(line, r, from)
    ensures from + |r| < |line| ==> !IsDigit(line[from + |r|])
    decreases |line| - from
  {
    if from >= |line| || !IsDigit(line[from]) then ""
    else [line[from]] + DigitRun(line, from + 1)
  }

  /** The rest of a pattern, tried where the literal at its head ends. */
  predicate MatchesAt(line: string, tag: string, rest: nat -> Option<string>, i: nat) {
    OccursAt(line, tag, i) && rest(i + |tag|).Some?
  }

  /**
   * `re.search` for a pattern that starts with the literal `tag`: the leftmost
   * occurrence of `tag` at or after `k` from which the rest matches, and what
   * the rest yields there.
   */
  function SearchFrom(line: string, tag: string, rest: nat -> Option<string>, k: nat): (r: Option<string>)
    ensures r.Some? ==> exists i: nat ::
      && k <= i && MatchesAt(line, tag, rest, i) && rest(i + |tag|) == r
      && (forall i': nat :: k <= i' < i ==> !MatchesAt(line, tag, rest, i'))
    ensures r.None? ==> forall i: nat :: k <= i ==> !MatchesAt(line, tag, rest, i)
    decreases |line| - k
  {
    match FindFrom(line, tag, k)
    case None => None
    case Some(i) =>
      assert forall i': nat :: k <= i' < i ==> !MatchesAt(line, tag, rest, i');
      if rest(i + |tag|).Some? then
        assert MatchesAt(line, tag, rest, i);
        rest(i + |tag|)
      else
        SearchFrom(line, tag, rest, i + 1)
  }

  // ---------------------------------------------------------------------------
  // open_and_repath_references.+\w\d*/(\d*)
  // ---------------------------------------------------------------------------

  const CountTag := "open_and_repath_references"

  /** A '/' at `b` right after a word character. */
  predicate SlashAfterWord(line: string, b: nat) {
    1 <= b < |line| && line[b] == '/' && IsWordChar(line[b - 1])
  }

  /**
   * The match once the literal ends at `e`: the tail `\w`, digits, '/' ends on
   * a '/' preceded by a word character (digits are word characters too), and
   * the greedy `.+` before it picks the last such '/' that keeps at least one
   * character for `.+` and no '\n' in it. The group is the digit run after
   * that '/'.
   */
  function CountAfter(line: string, e: nat): (r: Option<string>)
    requires e <= |line|
    ensures r.Some? <==> exists b: nat :: e + 2 <= b <= LineEnd(line, e) && SlashAfterWord(line, b)
    ensures r.Some? ==> AllDigits(r.value)
  {
    var good := (b: nat) => SlashAfterWord(line, b);
    var slash := LastWhere(good, e + 2, LineEnd(line, e));
    assert forall b: nat :: good(b) == SlashAfterWord(line, b);
    match slash
    case None => None
    case Some(b) => Some(DigitRun(line, b + 1))
  }

  /** The count pattern after its literal head. */
  function CountRest(line: string): nat -> Option<string> {
    (e: nat) => if e <= |line| then CountAfter(line, e) else None
  }

  /** Group 1 of the count pattern when `re.search` finds it in `line`. */
  function CountMatch(line: string): (r: Option<string>)
    ensures r.Some? ==> AllDigits(r.value)
    ensures r.Some? <==> exists i: nat :: MatchesAt(line, CountTag, CountRest(line), i)
  {
    SearchFrom(line, CountTag, CountRest(line), 0)
  }

  // ---------------------------------------------------------------------------
  // `save_scene_increment.+Saving(.+)\.\.\.`
  // ---------------------------------------------------------------------------

  const SaveTag := "save_scene_increment"

  /**
   * The match once the literal ends at `e`: the greedy group ends at the last
   * "..." of the newline-free stretch, and the greedy `.+` before "Saving"
   * takes the last "Saving" that still leaves the group one character.
   */
  function SaveAfter(line: string, e: nat): (r: Option<string>)
    requires e <= |line|
    ensures r.Some? ==> exists j: nat, d: nat ::
      && e + 1 <= j && j + 7 <= d <= LineEnd(line, e)
      && OccursAt(line, "Saving", j) && OccursAt(line, "...", d)
      && r.value == line[j + 6..d]
    ensures r.Some? ==> |r.value| >= 1
  {
    var lim := LineEnd(line, e);
    match LastWhere((d: nat) => OccursAt(line, "...", d), 0, lim)
    case None => None
    case Some(d) =>
      match LastWhere((j: nat) => OccursAt(line, "Saving", j), e + 1, d - 7)
      case None => None
      case Some(j) => Some(line[j + 6..d])
  }

  /** The save pattern after its literal head. */
  function SaveRest(line: string): nat -> Option<string> {
    (e: nat) => if e <= |line| then SaveAfter(line, e) else None
  }

  /** Group 1 of the save pattern when `re.search` finds it in `line`. */
  function SaveMatch(line: string): (r: Option<string>)
    ensures r.Some? ==> |r.value| >= 1
    ensures r.Some? <==> exists i: nat :: MatchesAt(line, SaveTag, SaveRest(line), i)
  {
    SearchFrom(line, SaveTag, SaveRest(line), 0)
  }

  // ---------------------------------------------------------------------------
  // The reports of one scraping pass
  // ---------------------------------------------------------------------------

  /** What `log_result` logs under the batch's identifier. */
  datatype Report =
    | ErrorLine(line: string)     // the child's own "ERROR   | 2..." line, re-logged as an error
    | NoReferences                // "No references in scene."
    | Processed(count: string)    // "Processed <count> references."
    | SavedTo(path: string)       // "Saved to <path>"
    | Finished                    // "Finished."

  const ErrorPrefix := "ERROR   | 2"
  const NoReferencesText := "no references in scene"
  const LineBreak := "\r\r\n"

  /** What the checks of `log_result` find in one line. */
  datatype LineMatch = LineMatch(
    text: string,
    error: bool,             // starts with "ERROR   | 2"
    noReferences: bool,      // contains "no references in scene"
    count: Option<string>,   // group 1 of the count pattern
    saved: Option<string>)   // group 1 of the save pattern

  function Classify(line: string): (m: LineMatch)
    ensures m.text == line
    ensures m.count.Some? ==> AllDigits(m.count.value)
  {
    LineMatch(line, StartsWith(line, ErrorPrefix), Contains(line, NoReferencesText), CountMatch(line), SaveMatch(line))
  }

  function ClassifyAll(lines: seq<string>): (ms: seq<LineMatch>)
    ensures |ms| == |lines| && forall i :: 0 <= i < |lines| ==> ms[i] == Classify(lines[i])
  {
    if lines == [] then []
    else
      var init := ClassifyAll(lines[..|lines| - 1]);
      assert forall i :: 0 <= i < |lines| - 1 ==> lines[..|lines| - 1][i] == lines[i];
      init + [Classify(lines[|lines| - 1])]
  }

  /** The reports of one line, given whether a count was already reported: the error/no-reference check is an if/elif, the two patterns are checked independently. */
  function LineReports(m: LineMatch, countLogged: bool): seq<Report> {
    (if m.error then [ErrorLine(m.text)] else if m.noReferences then [NoReferences] else [])
    + (match m.count
       case Some(g) => if countLogged then [] else [Processed(g)]
       case None => [])
    + (match m.saved
       case Some(p) => [SavedTo(p)]
       case None => [])
  }

  /** Some line among `ms` matches the count pattern. */
  predicate AnyCount(ms: seq<LineMatch>) {
    exists k :: 0 <= k < |ms| && ms[k].count.Some?
  }

  /** The reports for the lines `ms`, scanned in order. */
  function ScanReports(ms: seq<LineMatch>): seq<Report> {
    if ms == [] then []
    else
      var init := ms[..|ms| - 1];
      ScanReports(init) + LineReports(ms[|ms| - 1], AnyCount(init))
  }

  /** The reports of a whole `log_result` call: nothing for a missing result, else every line then "Finished.". */
  function ResultReports(stdout: Option<string>): seq<Report> {
    match stdout
    case None => []
    case Some(text) => ScanReports(ClassifyAll(Split(text, LineBreak))) + [Finished]
  }

  // ---------------------------------------------------------------------------
  // Properties
  // ---------------------------------------------------------------------------

  /** The count of the earliest line that matches the count pattern. */
  function FirstCount(ms: seq<LineMatch>): (r: Option<string>)
    ensures r.None? <==> !AnyCount(ms)
    ensures r.Some? ==> exists k :: 0 <= k < |ms| && ms[k].count == r && forall j :: 0 <= j < k ==> ms[j].count.None?
  {
    if ms == [] then None
    else
      var init := ms[..|ms| - 1];
      AnyCountExtend(ms);
      if AnyCount(init) then
        var r := FirstCount(init);
        assert forall k :: 0 <= k < |init| ==> ms[k] == init[k];
        r
      else
        assert forall k :: 0 <= k < |init| ==> ms[k] == init[k] && ms[k].count.None?;
        ms[|ms| - 1].count
  }

  function Counts(reports: seq<Report>): seq<string> {
    if reports == [] then []
    else
      var last := reports[|reports| - 1];
      Counts(reports[..|reports| - 1]) + (if last.Processed? then [last.count] else [])
  }

  function Saves(reports: seq<Report>): seq<string> {
    if reports == [] then []
    else
      var last := reports[|reports| - 1];
      Saves(reports[..|reports| - 1]) + (if last.SavedTo? then [last.path] else [])
  }

  lemma {:induction false} CountsAppend(a: seq<Report>, b: seq<Report>)
    ensures Counts(a + b) == Counts(a) + Counts(b)
    decreases |b|
  {
    if b == [] {
      assert a + b == a;
    } else {
      assert (a + b)[..|a + b| - 1] == a + b[..|b| - 1];
      CountsAppend(a, b[..|b| - 1]);
    }
  }

  lemma {:induction false} SavesAppend(a: seq<Report>, b: seq<Report>)
    ensures Saves(a + b) == Saves(a) + Saves(b)
    decreases |b|
  {
    if b == [] {
      assert a + b == a;
    } else {
      assert (a + b)[..|a + b| - 1] == a + b[..|b| - 1];
      SavesAppend(a, b[..|b| - 1]);
    }
  }

  lemma OneReport(r: Report)
    ensures Counts([r]) == (if r.Processed? then [r.count] else [])
    ensures Saves([r]) == (if r.SavedTo? then [r.path] else [])
  {
    assert [r][..0] == [];
  }

  lemma LineCounts(m: LineMatch, countLogged: bool)
    ensures Counts(LineReports(m, countLogged)) == (if !countLogged && m.count.Some? then [m.count.value] else [])
  {
    var a: seq<Report> := if m.error then [ErrorLine(m.text)] else if m.noReferences then [NoReferences] else [];
    var b: seq<Report> := if !countLogged && m.count.Some? then [Processed(m.count.value)] else [];
    var c: seq<Report> := if m.saved.Some? then [SavedTo(m.saved.value)] else [];
    assert LineReports(m, countLogged) == a + b + c;
    if a != [] {
      OneReport(a[0]);
    }
    if b != [] {
      OneReport(b[0]);
    }
    if c != [] {
      OneReport(c[0]);
    }
    CountsAppend(a + b, c);
    CountsAppend(a, b);
  }

  lemma LineSaves(m: LineMatch, countLogged: bool)
    ensures Saves(LineReports(m, countLogged)) == (if m.saved.Some? then [m.saved.value] else [])
  {
    var a: seq<Report> := if m.error then [ErrorLine(m.text)] else if m.noReferences then [NoReferences] else [];
    var b: seq<Report> := if !countLogged && m.count.Some? then [Processed(m.count.value)] else [];
    var c: seq<Report> := if m.saved.Some? then [SavedTo(m.saved.value)] else [];
    assert LineReports(m, countLogged) == a + b + c;
    if a != [] {
      OneReport(a[0]);
    }
    if b != [] {
      OneReport(b[0]);
    }
    if c != [] {
      OneReport(c[0]);
    }
    SavesAppend(a + b, c);
    SavesAppend(a, b);
  }

  /** A count line among `ms` is one among all but the last, or the last. */
  lemma AnyCountExtend(ms: seq<LineMatch>)
    requires ms != []
    ensures AnyCount(ms) <==> AnyCount(ms[..|ms| - 1]) || ms[|ms| - 1].count.Some?
  {
    var init := ms[..|ms| - 1];
    assert forall k :: 0 <= k < |init| ==> init[k] == ms[k];
  }

  /**
   * First count line wins: one pass reports at most one count, the one of the
   * earliest line that matches the count pattern, however many lines match.
   */
  lemma {:induction false} FirstCountWins(ms: seq<LineMatch>)
    ensures Counts(ScanReports(ms)) == (match FirstCount(ms) case Some(g) => [g] case None => [])
    decreases |ms|
  {
    if ms != [] {
      var init := ms[..|ms| - 1];
      var last := ms[|ms| - 1];
      FirstCountWins(init);
      CountsAppend(ScanReports(init), LineReports(last, AnyCount(init)));
      LineCounts(last, AnyCount(init));
      AnyCountExtend(ms);
    }
  }

  /** Every line that matches the save pattern is reported, in line order. */
  function SaveMatches(ms: seq<LineMatch>): (r: seq<string>)
    ensures |r| <= |ms|
  {
    if ms == [] then []
    else
      var last := ms[|ms| - 1];
      SaveMatches(ms[..|ms| - 1]) + (if last.saved.Some? then [last.saved.value] else [])
  }

  lemma {:induction false} EverySaveReported(ms: seq<LineMatch>)
    ensures Saves(ScanReports(ms)) == SaveMatches(ms)
    decreases |ms|
  {
    if ms != [] {
      var init := ms[..|ms| - 1];
      EverySaveReported(init);
      SavesAppend(ScanReports(init), LineReports(ms[|ms| - 1], AnyCount(init)));
      LineSaves(ms[|ms| - 1], AnyCount(init));
    }
  }

  // ---------------------------------------------------------------------------
  // Worked lines
  // ---------------------------------------------------------------------------

  lemma {:induction false} LineEndAll(line: string, from: nat)
    requires from <= |line|
    requires forall k :: from <= k < |line| ==> line[k] != '\n'
    ensures LineEnd(line, from) == |line|
    decreases |line| - from
  {
    if from < |line| {
      LineEndAll(line, from + 1);
    }
  }

  lemma {:induction false} LastWhereAt(good: nat -> bool, lo: nat, hi: int, x: nat)
    requires lo <= x <= hi && good(x)
    requires forall j: nat :: x < j <= hi ==> !good(j)
    ensures LastWhere(good, lo, hi) == Some(x)
    decreases hi - x
  {
    if hi > x {
      LastWhereAt(good, lo, hi - 1, x);
    }
  }

  /** With no '\n' after `e`, the count group is the digit run after the last '/' preceded by a word character. */
  lemma CountAfterLastSlash(line: string, e: nat, b: nat)
    requires e + 2 <= b && SlashAfterWord(line, b)
    requires forall k :: e <= k < |line| ==> line[k] != '\n'
    requires forall j: nat :: b < j <= |line| ==> !SlashAfterWord(line, j)
    ensures CountAfter(line, e) == Some(DigitRun(line, b + 1))
  {
    LineEndAll(line, e);
    LastWhereAt((j: nat) => SlashAfterWord(line, j), e + 2, |line|, b);
  }

  /** With no '\n' after `e`, the save group runs from after the last "Saving" to the last "...". */
  lemma SaveAfterLast(line: string, e: nat, j: nat, d: nat)
    requires e + 1 <= j && j + 7 <= d && d + 3 == |line|
    requires OccursAt(line, "Saving", j) && OccursAt(line, "...", d)
    requires forall k :: e <= k < |line| ==> line[k] != '\n'
    requires forall i: nat :: j < i <= d - 7 ==> !OccursAt(line, "Saving", i)
    ensures SaveAfter(line, e) == Some(line[j + 6..d])
  {
    LineEndAll(line, e);
    LastDots(line, d);
    LastWhereAt((i: nat) => OccursAt(line, "Saving", i), e + 1, d - 7, j);
  }

  lemma LastDots(line: string, d: nat)
    requires d + 3 == |line| && OccursAt(line, "...", d)
    ensures LastWhere((i: nat) => OccursAt(line, "...", i), 0, |line|) == Some(d)
  {
    LastWhereAt((i: nat) => OccursAt(line, "...", i), 0, |line|, d);
  }

  lemma SaveExampleFind(line: string)
    requires line == "[" + SaveTag + "] Saving /d/s.0002.ma ..."
    ensures FindFrom(line, SaveTag, 0) == Some(1)
  {
    assert line[1..1 + |SaveTag|] == SaveTag;
    assert line[0..|SaveTag|][0] != SaveTag[0];
  }

  lemma SaveExampleTail(line: string, head: string, group: string)
    requires |head| == 23 && line == head + "Saving" + group + "..."
    requires group == " /d/s.0002.ma "
    ensures forall i: nat :: 23 < i <= |line| - 10 ==> !OccursAt(line, "Saving", i)
    ensures OccursAt(line, "Saving", 23) && OccursAt(line, "...", |line| - 3)
    ensures line[29..|line| - 3] == group
  {
    assert line[23..29] == "Saving";
    assert line[|line| - 3..] == "...";
    assert line[29..|line| - 3] == group;
    forall i: nat | 23 < i <= |line| - 10
      ensures !OccursAt(line, "Saving", i)
    {
      assert line[i..i + 6][0] == line[i];
      if i < 29 {
        assert line[i] == "Saving"[i - 23];
      } else {
        assert line[i] == group[i - 29];
      }
    }
  }

  lemma SaveExampleShape(line: string)
    requires line == "[" + SaveTag + "] Saving /d/s.0002.ma ..."
    ensures forall k :: 21 <= k < |line| ==> line[k] != '\n'
    ensures line == line[..23] + "Saving" + " /d/s.0002.ma " + "..."
  {
  }

  /** The line logged by `save_scene_increment` yields the saved path, with the spaces around it. */
  lemma SaveExample(line: string)
    requires line == "[" + SaveTag + "] Saving /d/s.0002.ma ..."
    ensures SaveMatch(line) == Some(" /d/s.0002.ma ")
  {
    SaveExampleFind(line);
    SaveExampleShape(line);
    SaveExampleTail(line, line[..23], " /d/s.0002.ma ");
    SaveAfterLast(line, 21, 23, |line| - 3);
  }

  lemma CountExampleFind(line: string)
    requires line == "[" + CountTag + "] 2/3 Repathing refRN ..."
    ensures FindFrom(line, CountTag, 0) == Some(1)
  {
    assert line[1..1 + |CountTag|] == CountTag;
    assert line[0..|CountTag|][0] != CountTag[0];
  }

  lemma CountExampleTail(line: string, tail: string)
    requires tail == "] 2/3 Repathing refRN ..."
    requires |line| == 27 + |tail| && line[27..] == tail
    ensures forall k :: 27 <= k < |line| ==> line[k] != '\n'
    ensures forall j: nat :: 30 < j <= |line| ==> !SlashAfterWord(line, j)
    ensures SlashAfterWord(line, 30) && line[31] == '3' && line[32] == ' '
  {
    assert forall k :: 27 <= k < |line| ==> line[k] == tail[k - 27];
  }

  lemma CountExampleGroup(line: string)
    requires |line| == 27 + |"] 2/3 Repathing refRN ..."| && line[27..] == "] 2/3 Repathing refRN ..."
    ensures CountAfter(line, 27) == Some("3")
  {
    CountExampleTail(line, line[27..]);
    CountAfterLastSlash(line, 27, 30);
    assert DigitRun(line, 32) == "";
    assert DigitRun(line, 31) == "3";
  }

  /** A "<index>/<total> Repathing ..." line yields the total. */
  lemma CountExample(line: string)
    requires line == "[" + CountTag + "] 2/3 Repathing refRN ..."
    ensures CountMatch(line) == Some("3")
  {
    CountExampleFind(line);
    CountExampleGroup(line);
  }

  lemma OpeningExampleFind(line: string)
    requires line == "[" + CountTag + "] Opening </d/s.ma> ..."
    ensures FindFrom(line, CountTag, 0) == Some(1)
  {
    assert line[1..1 + |CountTag|] == CountTag;
    assert line[0..|CountTag|][0] != CountTag[0];
  }

  lemma OpeningExampleTail(line: string, tail: string)
    requires tail == "] Opening </d/s.ma> ..."
    requires |line| == 27 + |tail| && line[27..] == tail
    ensures forall k :: 27 <= k < |line| ==> line[k] != '\n'
    ensures forall j: nat :: 40 < j <= |line| ==> !SlashAfterWord(line, j)
    ensures SlashAfterWord(line, 40) && line[41] == 's'
  {
    assert forall k :: 27 <= k < |line| ==> line[k] == tail[k - 27];
  }

  /**
   * The "Opening <path> ..." line that `open_and_repath_references` logs first
   * also matches the count pattern once the path holds a '/' after a word
   * character, and its count is empty.
   */
  lemma OpeningExample(line: string)
    requires line == "[" + CountTag + "] Opening </d/s.ma> ..."
    ensures CountMatch(line) == Some("")
  {
    OpeningExampleFind(line);
    OpeningExampleTail(line, line[27..]);
    CountAfterLastSlash(line, 27, 40);
    assert DigitRun(line, 41) == "";
  }
}
