# Maya pipeline tools: a verified model

This project models, in Dafny, the logic behind a set of Maya pipeline
tools, with the host application reduced to what the code asks of it.

**refrepath** re-targets the file references of Maya scenes to a new root
directory. It covers:
- `core.py`: finding the references, computing each new path, repathing a
  whole scene;
- `utils.py`: walking a directory for scenes, finding the first free
  incremented name;
- `maya_utils.py`: saving under that name;
- `batch.py`: one Maya batch process per scene, its log file, environment
  and command line, and the scraping of what the child printed back;
- the older `refrepath.py` and `refrepath_batch.py`, modelled separately
  where they behave differently.

**PyAbcExport** (`core/settings.py`) holds the arguments of the AbcExport
command as objects with validated setters (frame range, file path with
`$FSTART`/`$FSTOP`/`$STEP` tokens, attributes). Each argument flattens
itself to its part of the command line.

**mash2pointcloud** turns a MASH network into an nParticle point cloud and
exports it. The model covers the versioned Alembic path, the export command
line, the particle system's node classification, the scene build, and the
error accumulator with the uncaught-exception classification.

**securityVirusCleaner** finds the traces of the "vaccine" script virus and
deletes them one by one. It records each failure and carries on.

**shapeNameConform** (and its older copy `snippets/maya_rename_shape.py`)
renames every shape after its transform, over the selection or over the
selection and its whole hierarchy.

**referenceExporter** exports the selected referenced object with its
namespace removed for the time of the export.

**resetWindowPosition** finds a window by a case-insensitive name and moves
it to the top-left corner.

The host is modelled as follows:
- Maya queries are oracles: functions, maps or sets passed in;
- the file system is a set of existing paths, or a directory tree;
- the clock, the environment and the child process are parameters;
- raised exceptions are `Result`/`Outcome` values that carry the
  exception's class.

Each state the source updates in place is a class with those fields. This
covers `FileBatcher`'s caches, the scene being saved, the argument objects,
`AbcExportSettings`, `ParticleSystem`, `Scene`, both error handlers, the
machine the cleaner runs on, and the Maya session. Each method is proved
against a specification function, and the lemmas beside that function state
what the source promises; where the model promises less than the source,
"## Left out" names the member and the gap.

Shared modules:
- `Wrappers`: Option, Result, Outcome;
- `Strings`: the Python `str` operations used;
- `Paths`: the `pathlib`/`os.path` operations, on POSIX-style paths.

## Model

| member | source | states |
|---|---|---|
| RefCore.GetReferences | src/refrepath/refrepath/core.py:10-23 | a name is returned iff the host lists it and it contains neither "sharedReferenceNode" nor "_UNKNOWN_REF_NODE_"; never more names than listed |
| RefCore.GetReferencesAppend | src/refrepath/refrepath/core.py:21-23 | filtering distributes over concatenation, so the host order is kept |
| RefCore.SentinelsDropped | src/refrepath/refrepath/core.py:15-19 | no returned name contains either sentinel marker |
| RefCore.NewPath | src/refrepath/refrepath/core.py:78-80 | the new path is the root joined with the text after the FIRST occurrence of the denominator minus its first character; without an occurrence, the whole current path minus its first character |
| RefCore.RepathReference | src/refrepath/refrepath/core.py:39-105 | a raising path query gives no record; an empty path gives ValueError; FileNotFoundError exactly when the computed path is not on disk (checked before the up-to-date test); for a non-empty queried path whose new path exists, the call succeeds and returns a record exactly when the new path differs, with the previous path as queried |
| RefCore.RepathIdempotent | src/refrepath/refrepath/core.py:85-93 | once a reference points at the computed path, repathing again returns no record, when the denominator first occurs at the end of the root and the kept tail is relative |
| RefCore.NewPathExample | src/refrepath/refrepath/core.py:78-80 | "/proj/old/assets/chr/hero.ext" re-rooted at "/new/proj/assets" on "assets" gives "/new/proj/assets/chr/hero.ext" |
| RefCore.OpenAndRepathReferences | src/refrepath/refrepath/core.py:108-161 | the loop returns exactly the session function: no references gives [], records of changed references in order, the first raised error aborts; with SessionRecordsUpdated and SessionRecordsEveryChange the records are exactly the changes |
| RefCore.RepathAll | src/refrepath/refrepath/core.py:146-161 | a successful session yields at most one record per reference |
| RefCore.ErrorPropagates | src/refrepath/refrepath/core.py:147-158 | once a prefix of the references raised, the whole session raises that same error |
| RefCore.SessionRecordsUpdated | src/refrepath/refrepath/core.py:152-158 | every returned record is an actual change, to a path on disk, of a listed reference |
| RefCore.SessionStep | src/refrepath/refrepath/core.py:152-158 | one more reference either leaves the records unchanged or appends one record for that reference |
| RefCore.SessionRecordsEveryChange | src/refrepath/refrepath/core.py:152-158 | in a successful session, every listed reference whose queried path is non-empty and whose new path exists and differs has its record, with the previous and the new path |
| RefCore.SessionKeepsOrder | src/refrepath/refrepath/core.py:147-158 | the records' node names are a subsequence of the references, in reference order |
| RefCore.SessionOnRepairedScene | src/refrepath/refrepath/core.py:82-93 | when every reference is already up to date, the session yields no record |
| RefCore.MissingPathAborts | src/refrepath/refrepath/core.py:82-83 | a reference whose repath raises makes the whole session raise |
| RefUtils.FilterKept | src/refrepath/refrepath/utils.py:42-45 | a path is kept iff it passes the extension rule: with a non-empty filter its suffix is listed, with none every path is kept |
| RefUtils.ChildFilesAppend | src/refrepath/refrepath/utils.py:27-47 | walking two listings one after the other gives the two walks concatenated: scan order is kept |
| RefUtils.GetChildFilesFromRoot | src/refrepath/refrepath/utils.py:11-47 | the recursive loop returns exactly the specified walk: entries in scan order, directories expanded in place when recursive |
| RefUtils.FilterKeptAppend | src/refrepath/refrepath/utils.py:42-45 | filtering distributes over concatenation |
| RefUtils.RecursiveWalkIsFilteredFiles | src/refrepath/refrepath/utils.py:27-47 | a recursive filtered walk is the unfiltered depth-first walk of all files with the extension rule applied |
| RefUtils.FlatWalkFiltersEveryEntry | src/refrepath/refrepath/utils.py:31-45 | without recursion, directories go through the same extension rule as files |
| RefUtils.RecursiveWalkOnlyFiles | src/refrepath/refrepath/utils.py:31-45 | every path a recursive walk returns names a non-directory entry and passes the extension rule |
| RefUtils.GetMayaFilesRecursively | src/refrepath/refrepath/utils.py:50-62 | exactly the files of the recursive walk whose suffix is ".mb" or ".ma" |
| RefUtils.IncrementMatch | src/refrepath/refrepath/utils.py:92 | the match of `\.\d{z}$` is a "." and exactly the last z characters, all digits; no match means the stem ends in no such text |
| RefUtils.NumberingOf | src/refrepath/refrepath/utils.py:97-104 | distinct increments give distinct tried paths |
| RefUtils.PathOfIsWithStem | src/refrepath/refrepath/utils.py:97-104 | try n is the current path with its stem replaced by the base, ".", and n zero-filled to z digits |
| RefUtils.OtherRunLengthKept | src/refrepath/refrepath/utils.py:92-101 | a trailing digit run of another length than z is not stripped: the base is the whole stem |
| RefUtils.NoMatchOnOtherRun | src/refrepath/refrepath/utils.py:92 | a stem ending in "." and a digit run of another length than z does not match |
| RefUtils.PathOfInjective | src/refrepath/refrepath/utils.py:103-104 | two tries with the same path have the same number |
| RefUtils.FirstFree | src/refrepath/refrepath/utils.py:95 | the first number from k on whose path is not on disk: it is free and every earlier one exists |
| RefUtils.IncrementPath | src/refrepath/refrepath/utils.py:65-107 | the loop runs at least once and returns the try of the smallest n >= 1 that is not on disk; a path with an empty name raises ValueError |
| RefUtils.BaseFree | src/refrepath/refrepath/utils.py:97-101 | the base stem holds no "/" |
| RefUtils.IncrementKeepsDirAndSuffix | src/refrepath/refrepath/utils.py:103-104 | every try keeps the directory and suffix; its stem is base + "." + the zero-filled number |
| RefUtils.IncrementExampleFresh | src/refrepath/refrepath/utils.py:76-77 | "C:/demo/file.abc" gives "C:/demo/file.0001.abc" when that is free |
| RefUtils.IncrementExampleTwoDigits | src/refrepath/refrepath/utils.py:78-79 | with two digits, "C:/demo/file.abc" gives "C:/demo/file.01.abc" |
| RefUtils.IncrementExampleExisting | src/refrepath/refrepath/utils.py:80-81 | with two digits, an existing "C:/demo/file.01.abc" gives "C:/demo/file.02.abc" |
| RefUtils.NumberingInjective | src/refrepath/refrepath/utils.py:97-104 | no two tries of one numbering share a path |
| RefUtils.TakenShrinks | src/refrepath/refrepath/utils.py:95-107 | a try that exists leaves fewer existing tries ahead, which is why the search loop ends |
| RefUtils.FirstFreeWhenFree | src/refrepath/refrepath/utils.py:95-107 | when try k is free the search from k stops at it |
| MayaUtils.MayaScene.Open | src/refrepath/refrepath/core.py:127-138 | a successful open makes the file the current scene; a failed one leaves the scene as it was |
| MayaUtils.MayaScene.SaveSceneIncrement | src/refrepath/refrepath/maya_utils.py:23-55 | the scene is renamed to the first free incremented name, which was not on disk and now is, and "Saving <path> ..." is logged; a scene without a name raises ValueError and changes nothing |
| MayaUtils.SaveKeepsDirAndExtension | src/refrepath/refrepath/maya_utils.py:36-50 | the saved scene keeps the directory and extension, and its stem is base + "." + the zero-filled number n >= 1 |
| MayaUtils.MayaScene.constructor | src/refrepath/refrepath/maya_utils.py:34 | the scene starts under the given name, over the given files, with nothing logged |
| LogScrape.SearchFrom | src/refrepath/refrepath/batch.py:183-194 | `re.search` for a pattern headed by a literal: the leftmost occurrence of the literal from which the rest of the pattern matches, and the group the rest yields there |
| LogScrape.CountAfter | src/refrepath/refrepath/batch.py:183-185 | after the literal, the rest of `.+\w\d*/(\d*)` matches iff a "/" preceded by a word character lies within the line, at least two characters on; the group is all digits |
| LogScrape.CountMatch | src/refrepath/refrepath/batch.py:183-185 | group 1 of `open_and_repath_references.+\w\d*/(\d*)` is all digits, and exists iff the pattern matches at some position |
| LogScrape.SaveAfter | src/refrepath/refrepath/batch.py:192-194 | after the literal, `.+Saving(.+)\.\.\.` yields the text between the last fitting "Saving" and the last "..." of the line |
| LogScrape.SaveMatch | src/refrepath/refrepath/batch.py:192-194 | group 1 of `save_scene_increment.+Saving(.+)\.\.\.` is non-empty, and exists iff the pattern matches at some position |
| LogScrape.Classify | src/refrepath/refrepath/batch.py:175-196 | the checks of one line: the error prefix, the no-reference text, and the two patterns, with a count group that is all digits |
| LogScrape.ClassifyAll | src/refrepath/refrepath/batch.py:171-175 | one classification per line, in line order |
| LogScrape.FirstCount | src/refrepath/refrepath/batch.py:186-190 | the count of the earliest line matching the count pattern; none iff no line matches |
| LogScrape.LineCounts | src/refrepath/refrepath/batch.py:186-190 | one line reports its count only when no count was reported before and the line matches |
| LogScrape.LineSaves | src/refrepath/refrepath/batch.py:195-196 | one line reports its save whenever it matches the save pattern |
| LogScrape.FirstCountWins | src/refrepath/refrepath/batch.py:173-190 | a pass reports at most one count: that of the earliest matching line, however many lines match |
| LogScrape.EverySaveReported | src/refrepath/refrepath/batch.py:192-196 | every line matching the save pattern is reported, in line order |
| LogScrape.CountAfterLastSlash | src/refrepath/refrepath/batch.py:184 | on a line without newline, the count group is the digit run after the last "/" preceded by a word character |
| LogScrape.SaveAfterLast | src/refrepath/refrepath/batch.py:193 | on a line without newline, the save group runs from after the last "Saving" to the final "..." |
| LogScrape.SaveExample | src/refrepath/refrepath/maya_utils.py:53 | the "Saving <path> ..." line of the scene save yields the path with its surrounding spaces |
| LogScrape.CountExample | src/refrepath/refrepath/core.py:149-151 | a "2/3 Repathing refRN ..." line yields the total "3" |
| LogScrape.OpeningExample | src/refrepath/refrepath/core.py:127 | the earlier "Opening </d/s.ma> ..." line already matches the count pattern, with an empty count, so it is the one reported |
| Batch.PadField | src/refrepath/refrepath/batch.py:65 | a `strftime` field below 10^width fills exactly width digits, which read back as the value |
| Batch.PrettyTimeShape | src/refrepath/refrepath/batch.py:65 | the time stamp "%Y%m%d-%H%M%S" is 15 characters: 8 date digits, "-", 6 time digits, each field reading back as its value |
| Batch.LogPathParts | src/refrepath/refrepath/batch.py:56-68 | the log file sits in the scene's directory, has extension ".log", and its stem carries the scene's file name and the construction time stamp that also ends the identifier |
| Batch.LogPathPlace | src/refrepath/refrepath/batch.py:66-67 | the log path's directory is the scene's directory and its name is "refrepath.batch-<name>-<time>.log" |
| Batch.LogPathExtension | src/refrepath/refrepath/batch.py:66-67 | the log path's suffix is ".log" and its stem is "refrepath.batch-<name>-<time>" |
| Batch.SharedStamp | src/refrepath/refrepath/batch.py:50-66 | the log stem and the identifier both end with "-" and the same time stamp |
| Batch.LogStemFree | src/refrepath/refrepath/batch.py:66 | the log file name holds no "/", so it stays in the scene's directory |
| Batch.StampFree | src/refrepath/refrepath/batch.py:65 | the time stamp holds no "/" |
| Batch.BatchEnvKeys | src/refrepath/refrepath/batch.py:70-104 | the child environment is the inherited one with exactly the documented edits: the three arguments, PYTHONPATH from PYTHON_PATH, an empty PATH, "_" and VIRTUAL_ENV removed, the four MAYA_DISABLE_* switches set to "1" |
| Batch.BatchEnvDetermined | src/refrepath/refrepath/batch.py:79-101 | the key-by-key description determines the environment: two environments meeting it are equal |
| Batch.CommandShape | src/refrepath/refrepath/batch.py:106-132 | the command line is the executable, " -command ", the quoted python(...) call, " -log " and the log path |
| Batch.FileBatcher.constructor | src/refrepath/refrepath/batch.py:32-54 | the identifier is the scene's stem and the time stamp; the three caches start empty |
| Batch.FileBatcher.LogPath | src/refrepath/refrepath/batch.py:56-68 | the first call computes and caches the log path; later calls return the cache and change nothing |
| Batch.FileBatcher.Env | src/refrepath/refrepath/batch.py:70-104 | the first call builds the environment from the current one and caches it; later calls return the cache whatever the environment has become |
| Batch.FileBatcher.Command | src/refrepath/refrepath/batch.py:106-132 | the first call builds and caches the command, filling the log path too; later calls return the cache |
| Batch.FileBatcher.Execute | src/refrepath/refrepath/batch.py:134-163 | command and environment are computed before the dry-run test; a dry run launches nothing and returns None; otherwise the child gets the cached command and environment and its result is returned (None on error) |
| Batch.FileBatcher.LogResult | src/refrepath/refrepath/batch.py:165-199 | the reports are exactly those of the scraping specification: nothing for no result, else every line's reports then "Finished." |
| Batch.ScanResult | src/refrepath/refrepath/batch.py:170-198 | the loop with its `logged_ref_num` flag computes the specified reports |
| Batch.ScanLine | src/refrepath/refrepath/batch.py:177-196 | one loop turn: the if/elif on the line, then the two patterns; the flag becomes set once a count line is seen |
| Batch.BatchDirectory | src/refrepath/refrepath/batch.py:202-245 | one run per Maya file of the recursive walk, in walk order, each by its own batcher at its own clock reading, executed and its result scraped |
| Batch.RunFiles | src/refrepath/refrepath/batch.py:230-242 | one proper run per file, in file order |
| Batch.RunFile | src/refrepath/refrepath/batch.py:232-239 | a new batcher for the file, executed, its result logged |
| Batch.ReadArguments | src/refrepath/refrepath/batch.py:265-274 | the three arguments are read iff each is set and non-empty; otherwise EnvironmentError |
| Batch.ChildReadsArguments | src/refrepath/refrepath/batch.py:265-274 | the child reads back exactly the three values the batcher passed, or raises EnvironmentError when one is empty |
| Batch.SaveIffChanged | src/refrepath/refrepath/batch.py:282-287 | `any(was_updated())` holds iff the session returned at least one record |
| Batch.ProcessSession | src/refrepath/refrepath/batch.py:248-290 | missing arguments raise EnvironmentError and change nothing; otherwise the scene is opened and repathed, a raised error stops before any save, and the scene is saved under the next free 4-digit increment iff some reference changed |
| OldRefrepath.OldNewPathAgrees | src/refrepath/refrepath.py:65-67 | when the denominator does not occur again after its first occurrence, splitting at every occurrence and taking the last piece gives the same path as the current revision |
| OldRefrepath.OldNewPathDiffers | src/refrepath/refrepath.py:65-67 | with "lib" twice in "/lib/x/lib/y", the old revision gives "/new/y" where the current one gives "/new/x/lib/y" |
| OldRefrepath.OldRepathReference | src/refrepath/refrepath.py:46-84 | a raising path query propagates; an empty path raises ValueError; FileNotFoundError exactly when the computed path is missing; for a non-empty path whose computed path exists, the call succeeds and re-targets exactly when the path changes |
| OldRefrepath.OldRepathMatchesNew | src/refrepath/refrepath.py:46-84 | where the denominator occurs at most once before the tail, the old and current repath give the same outcome |
| OldRefrepath.OldSaveSceneIncrement | src/refrepath/refrepath.py:28-43 | the loop's outcome is the specified step: not saved, saved under a name, ValueError from `with_stem` for an untitled scene, or never ending |
| OldRefrepath.OldSaveNeverAdvances | src/refrepath/refrepath.py:28-38 | the old save only ever saves under the scene's own name or its ".0001" name, one not on disk; an untitled scene (which always exists) raises ValueError; it never ends iff a named scene and its ".0001" name both exist |
| OldRefrepath.OldCandidateIsFirstTry | src/refrepath/refrepath.py:37-38 | without an increment on the stem, the old candidate is the corrected loop's first try |
| OldRefrepath.OldSaveHangs | src/refrepath/refrepath.py:36-38 | with "C:/demo/file.abc" and "C:/demo/file.0001.abc" on disk the old loop never ends, where the corrected numbering saves as ".0002" |
| OldRefrepath.OldOpenAndRepathReferences | src/refrepath/refrepath.py:103-147 | the loop gives the specified session: every reference repathed in order, the first error propagates, and the scene is saved when asked, even with no references |
| OldRefrepath.OldErrorPropagates | src/refrepath/refrepath.py:133-142 | the first error of a prefix of the references is the session's error |
| OldRefrepath.RaisingQueryAborts | src/refrepath/refrepath.py:58 | a single raising path query aborts the whole old session |
| OldRefrepath.OldSessionAlwaysSaves | src/refrepath/refrepath.py:129-145 | with `save_scene` the old session saves even when nothing was re-targeted or there are no references |
| OldRefrepath.OldRetargetsUpdated | src/refrepath/refrepath.py:69-80 | every re-target is an actual change to an existing path of a listed reference |
| OldRefrepath.OldRetargetsEveryChange | src/refrepath/refrepath.py:133-142 | in a pass the old loop completes, every listed reference whose path is non-empty and whose computed path exists and differs is among the re-targets, with its previous and its new path |
| OldBatch.OldLogPathParts | src/refrepath/refrepath_batch.py:99-113 | the old log file sits in the scene's directory, has extension ".log", and its stem is "refrepath-<name>-<time>" |
| OldBatch.OldLogStemFree | src/refrepath/refrepath_batch.py:112 | the old log file name holds no "/" |
| OldBatch.LogNamesDifferInPrefix | src/refrepath/refrepath_batch.py:112 | the two revisions name the log file alike but for the prefix "refrepath-" against "refrepath.batch-" |
| OldBatch.OldEnvKeys | src/refrepath/refrepath_batch.py:151-162 | the old child environment sets PYTHONPATH and the four switches, removes VIRTUAL_ENV, and inherits everything else unchanged, PATH and "_" included |
| OldBatch.OldEnvMatchesNew | src/refrepath/refrepath_batch.py:151-162 | outside the three arguments, PATH and "_", both revisions give the child the same variables |
| OldBatch.OldDenominator | src/refrepath/refrepath_batch.py:199 | for a root in pathlib's normal form, the denominator is the root's last component, never empty |
| OldBatch.OldDenominatorOfRoot | src/refrepath/refrepath_batch.py:199 | for the root as typed, normalised as `Path` does, the denominator is the name of the normalised root ("." when it has none), so a trailing "/" is ignored |
| OldBatch.OldProcessFile | src/refrepath/refrepath_batch.py:116-186 | a dry run starts no child; otherwise the child gets the edited environment; a failing child is only logged |
| OldBatch.OldProcessAllMayaFilesFrom | src/refrepath/refrepath_batch.py:189-222 | the loop gives the specified jobs: Maya files in walk order, all but "Final.ma" skipped, with the root's name as denominator |
| OldBatch.JobsOnlyForFinal | src/refrepath/refrepath_batch.py:206-216 | every job is for a listed "Final.ma" file, with the root's name as denominator and the root as substitute |
| OldBatch.OldJobsOf | src/refrepath/refrepath_batch.py:206-216 | at most one job per listed file |
| OldBatch.FinalFiles | src/refrepath/refrepath_batch.py:206-208 | a file is kept iff it is listed and named "Final.ma" |
| OldBatch.JobsFollowFinalFiles | src/refrepath/refrepath_batch.py:204-219 | the jobs are exactly one per "Final.ma" file, in walk order |
| OldBatch.DryRunLaunchesNothing | src/refrepath/refrepath_batch.py:167-169 | a dry run starts no child for any file |
| OldBatch.OldCli | src/refrepath/refrepath_batch.py:256-296 | the root is normalised as `Path` does; a normalised root that does not exist raises FileNotFoundError; otherwise the jobs of every Maya file under the normalised root |
| Paths.PurePath | src/refrepath/refrepath_batch.py:290 | `Path(text)` is never empty: the anchor ("/" or "//") followed by the non-empty, non-"." components, or "." |
| Paths.PurePathNameIsName | src/refrepath/refrepath_batch.py:199 | `Path(text).name` is the last component of the normalised path, and empty exactly when that path is ".", "/" or "//" |
| AbcSettings.WithStart | src/MPyAbcExport/PyAbcExport/core/settings.py:115-132 | on a sub-range the start setter changes nothing; otherwise it stores the start with no check against the stop; stop, step and samples are kept |
| AbcSettings.WithStop | src/MPyAbcExport/PyAbcExport/core/settings.py:142-160 | the stop is stored iff it is not before the start; otherwise TypeError; nothing else changes |
| AbcSettings.WithFrs | src/MPyAbcExport/PyAbcExport/core/settings.py:84-105 | fewer than two samples raise IndexError; a first sample above the second raises TypeError; otherwise the samples are stored as given, with no upper bound on their number |
| AbcSettings.RangeRepr | src/MPyAbcExport/PyAbcExport/core/settings.py:172-192 | `arg_repr` fails with IndexError exactly when one or two samples are set, since it reads a third |
| AbcSettings.RangeWordsFree | src/MPyAbcExport/PyAbcExport/core/settings.py:175-190 | with space-free number texts, no word of the range argument holds a space |
| AbcSettings.RangeReprSplit | src/MPyAbcExport/PyAbcExport/core/settings.py:172-192 | split at spaces, the range argument is "-frameRange S E -step T", then three "-frameRelativeSample" pairs when samples are set |
| AbcSettings.RangeReprReadBack | src/MPyAbcExport/PyAbcExport/core/settings.py:172-192 | read back, the flags come in order, start and stop parse back to their values, and step and samples come back as formatted |
| AbcSettings.TwoSamplesBreakRepr | src/MPyAbcExport/PyAbcExport/core/settings.py:84-192 | the setter accepts two ordered samples, after which `arg_repr` raises IndexError |
| AbcSettings.AcceptedSamplesRepr | src/MPyAbcExport/PyAbcExport/core/settings.py:84-192 | after an accepted sample assignment, `arg_repr` succeeds iff at least three samples were given |
| AbcSettings.StopOrdersRange | src/MPyAbcExport/PyAbcExport/core/settings.py:122-160 | a range whose stop was just accepted is ordered, and the start setter can break that order |
| AbcSettings.FrameRangeArg.constructor | src/MPyAbcExport/PyAbcExport/core/settings.py:21-40 | start 1, stop 100, step 1.0, no samples, no parent or child; the parent argument is ignored |
| AbcSettings.FrameRangeArg.SetStart | src/MPyAbcExport/PyAbcExport/core/settings.py:115-132 | the data becomes the start-setter function's result; parent and child unchanged |
| AbcSettings.FrameRangeArg.SetStop | src/MPyAbcExport/PyAbcExport/core/settings.py:142-160 | raises TypeError and keeps the data on a stop before the start, else stores it |
| AbcSettings.FrameRangeArg.SetStep | src/MPyAbcExport/PyAbcExport/core/settings.py:166-170 | the step is stored whatever its value; nothing else changes |
| AbcSettings.FrameRangeArg.SetFrameRelativeSample | src/MPyAbcExport/PyAbcExport/core/settings.py:84-105 | raises as the sample rule says and keeps the data, or stores the samples |
| AbcSettings.FrameRangeArg.SetParent | src/MPyAbcExport/PyAbcExport/core/settings.py:46-63 | a frame range parent takes this range as its single child, this start becomes the parent's start + 1 through the start setter, and the parent is recorded last; other parents change only the parent field |
| AbcSettings.SubRangeScenario | src/MPyAbcExport/PyAbcExport/core/settings.py:46-132 | a fresh range parented to a fresh range starts at 2, is linked as the child, and keeps that start against a later start assignment |
| AbcSettings.SubstituteNoTokens | src/MPyAbcExport/PyAbcExport/core/settings.py:229-239 | a path without "$" is used as it is |
| AbcSettings.SubstituteFStart | src/MPyAbcExport/PyAbcExport/core/settings.py:236 | "$FSTART" reads as the range's current start |
| AbcSettings.SubstituteFStop | src/MPyAbcExport/PyAbcExport/core/settings.py:237 | "$FSTOP" reads as the range's current stop |
| AbcSettings.SubstituteStep | src/MPyAbcExport/PyAbcExport/core/settings.py:238 | "$STEP" reads as the range's current step |
| AbcSettings.SubstituteOne | src/MPyAbcExport/PyAbcExport/core/settings.py:229-239 | a path with one token and no other "$" reads with that token replaced by the range's value |
| AbcSettings.SubstituteTemplate | src/MPyAbcExport/PyAbcExport/core/settings.py:235-238 | any "$"-free text with any number of "$FSTART", "$FSTOP" and "$STEP" tokens reads with each token replaced by the start, the stop and the step text |
| AbcSettings.SubstituteStartStop | src/MPyAbcExport/PyAbcExport/core/settings.py:235-238 | "a$FSTARTb$FSTOPc" with "$"-free a, b and c reads as a, the start, b, the stop and c |
| AbcSettings.FilepathArg.constructor | src/MPyAbcExport/PyAbcExport/core/settings.py:197-223 | an empty or missing path leaves the value empty; otherwise it is stored as given |
| AbcSettings.FilepathArg.Value | src/MPyAbcExport/PyAbcExport/core/settings.py:229-239 | reading fails with AttributeError exactly without an owning settings object; a token-free path reads as stored; a path made of plain text and tokens reads with every token replaced by its range value |
| AbcSettings.FilepathArg.ArgRepr | src/MPyAbcExport/PyAbcExport/core/settings.py:225-227 | "-file " followed by the value, failing exactly when the value does |
| AbcSettings.FilepathArg.SetValue | src/MPyAbcExport/PyAbcExport/core/settings.py:241-257 | the path is stored unfilled; tokens are filled only when read |
| AbcSettings.Added | src/MPyAbcExport/PyAbcExport/core/settings.py:281-292 | a single name is appended, a list extends in order, None raises TypeError |
| AbcSettings.AttrWords | src/MPyAbcExport/PyAbcExport/core/settings.py:294-301 | two words per attribute |
| AbcSettings.AttrWordsAt | src/MPyAbcExport/PyAbcExport/core/settings.py:297-299 | word 2i is the option flag and word 2i+1 is attribute i |
| AbcSettings.FlagsJoin | src/MPyAbcExport/PyAbcExport/core/settings.py:297-301 | the "-flag name" pieces joined by spaces are the words joined by spaces |
| AbcSettings.AttrsReprWords | src/MPyAbcExport/PyAbcExport/core/settings.py:294-310 | split at spaces, the argument alternates the option flag ("-attr" or "-attrPrefix") and the attribute names, in order |
| AbcSettings.AttrsArg.constructor | src/MPyAbcExport/PyAbcExport/core/settings.py:264-279 | a falsy input adds nothing; otherwise the attributes are those `add` gives |
| AbcSettings.AttrsArg.Add | src/MPyAbcExport/PyAbcExport/core/settings.py:281-292 | None raises TypeError and changes nothing; otherwise the list grows as `add` says |
| AbcSettings.AttrsArg.ArgRepr | src/MPyAbcExport/PyAbcExport/core/settings.py:294-301 | the loop gives one "-flag name" piece per attribute joined by single spaces; no attributes give "" |
| AbcSettings.ExportSettings.constructor | src/MPyAbcExport/PyAbcExport/core/settings.py:315-330 | a new path argument owned by these settings, a default frame range and an empty attribute list |
| AbcSettings.ExportSettings.SetFilepath | src/MPyAbcExport/PyAbcExport/core/settings.py:351-370 | an argument object is used as is; a path is wrapped in a new argument owned by these settings |
| AbcSettings.ExportSettings.SetAttributes | src/MPyAbcExport/PyAbcExport/core/settings.py:336-341 | an argument object is used as is; raw names are wrapped in a new plain attribute argument |
| AbcSettings.PathFollowsRange | src/MPyAbcExport/PyAbcExport/core/settings.py:236-238 | a "$FSTOP" path read after a new stop shows that stop |
| AlembicExporter.MatchesMembers | src/mash2pointcloud/mash2pointcloud/core/alembicExporter.py:121-123 | an entry is matched exactly when it is listed and fits "<basename>.*.abc" |
| AlembicExporter.Under | src/mash2pointcloud/mash2pointcloud/core/alembicExporter.py:121-123 | one joined path per matched entry |
| AlembicExporter.VersionAfter | src/mash2pointcloud/mash2pointcloud/core/alembicExporter.py:135-136 | the version after n is a non-empty digit string that reads back as n + 1 |
| AlembicExporter.TargetOf | src/mash2pointcloud/mash2pointcloud/core/alembicExporter.py:82-105 | ValueError exactly for an empty directory, an empty basename, a basename ending ".abc", or a failed version search; otherwise "<dir>/<basename>.<version>.abc" |
| AlembicExporter.FoundVersionNotEmpty | src/mash2pointcloud/mash2pointcloud/core/alembicExporter.py:107-142 | a version found is never empty |
| AlembicExporter.StoredVersionIgnoresDisk | src/mash2pointcloud/mash2pointcloud/core/alembicExporter.py:95-96 | once a version is stored, the path does not depend on the files on disk |
| AlembicExporter.FirstVersionWhenNothingMatches | src/mash2pointcloud/mash2pointcloud/core/alembicExporter.py:114-129 | a missing directory or no match gives "0001" |
| AlembicExporter.NextVersionFollowsLast | src/mash2pointcloud/mash2pointcloud/core/alembicExporter.py:131-136 | the version is the number of the match that sorts last, plus one; no match sorts after it |
| AlembicExporter.NextVersion | src/mash2pointcloud/mash2pointcloud/core/alembicExporter.py:107-142 | a version found is a non-empty run of decimal digits |
| AlembicExporter.VersionOfEntry | src/mash2pointcloud/mash2pointcloud/core/alembicExporter.py:132-134 | the number read from "<dir>/<basename>.<digits>.abc" is the digits' value |
| AlembicExporter.EntryMatches | src/mash2pointcloud/mash2pointcloud/core/alembicExporter.py:121-123 | a listed "<basename>.<digits>.abc" entry is a match |
| AlembicExporter.VersionFromLast | src/mash2pointcloud/mash2pointcloud/core/alembicExporter.py:131-136 | with the last-sorting match numbered n, the version is the one after n |
| AlembicExporter.VersionRepeatsAfter9999 | src/mash2pointcloud/mash2pointcloud/core/alembicExporter.py:131-136 | with "f.9999.abc" and "f.10000.abc" listed, the version found is "10000", a file that already exists |
| AlembicExporter.NineThousands | src/mash2pointcloud/mash2pointcloud/core/alembicExporter.py:134-136 | "9999" reads as 9999 and the version after it is "10000" |
| AlembicExporter.NumbersAt | src/mash2pointcloud/mash2pointcloud/core/alembicExporter.py:132-134 | each number is the one read from the path at the same place; an error is the ValueError of `int` |
| AlembicExporter.MaxOf | src/mash2pointcloud/mash2pointcloud/core/alembicExporter.py:131-134 | the greatest number bounds every number |
| AlembicExporter.GreatestNextVersionIsFree | src/mash2pointcloud/mash2pointcloud/core/alembicExporter.py:107-142 | numbering from the greatest version never names a file already in the directory |
| AlembicExporter.GreatestVersionValue | src/mash2pointcloud/mash2pointcloud/core/alembicExporter.py:107-142 | the greatest-based version reads back as one more than the greatest number found, or 1 with no match |
| AlembicExporter.ListedNumberBounded | src/mash2pointcloud/mash2pointcloud/core/alembicExporter.py:121-134 | a listed version file's number is at most the greatest |
| AlembicExporter.GreatestFromMax | src/mash2pointcloud/mash2pointcloud/core/alembicExporter.py:131-136 | the greatest-based version of an all-numeric match list is the one after its maximum |
| AlembicExporter.GreatestAgreesWhenLastIsGreatest | src/mash2pointcloud/mash2pointcloud/core/alembicExporter.py:131-136 | the two numberings agree whenever the match sorting last has the greatest number |
| AlembicExporter.AbcExportSettings.constructor | src/mash2pointcloud/mash2pointcloud/core/alembicExporter.py:65-71 | no directory, basename or version |
| AlembicExporter.AbcExportSettings.FindVersion | src/mash2pointcloud/mash2pointcloud/core/alembicExporter.py:107-142 | returns the version `find_version` computes and stores it unless the search raised |
| AlembicExporter.AbcExportSettings.TargetFilepath | src/mash2pointcloud/mash2pointcloud/core/alembicExporter.py:73-105 | returns the path the checks and the version give; a found version is kept |
| AlembicExporter.AskTwice | src/mash2pointcloud/mash2pointcloud/core/alembicExporter.py:95-105 | a second request gives the same path as a successful first, even after the directory changed |
| M2p.MashNetwork | src/mash2pointcloud/m2p.py:252-267 | succeeds exactly when one node is selected and it is a "MASH_Waiter", returning it; otherwise ValueError |
| M2p.Pairs | src/mash2pointcloud/m2p.py:291-298 | two words per item |
| M2p.FrameRangeText | src/mash2pointcloud/m2p.py:300-301 | an absent range is "1 1"; a one-value range raises IndexError, and only that one fails |
| M2p.ExportAbc | src/mash2pointcloud/m2p.py:270-343 | a failing frame range raises IndexError before the command exists; otherwise the command is the fixed layout of range, attributes, fixed flags, roots and file, with the samples discarded, and the result is RuntimeError if the export raised or left no file, else the path |
| M2p.FlagsThen | src/mash2pointcloud/m2p.py:291-298 | a loop's "<flag> <x> " text followed by more words is the space-join of the pairs and those words |
| M2p.PairsFree | src/mash2pointcloud/m2p.py:291-298 | space-free flags and items give space-free words |
| M2p.FlagsReadBack | src/mash2pointcloud/m2p.py:291-298 | split at spaces, a loop's text gives back the flag and the item for every item, in input order |
| M2p.PairsAt | src/mash2pointcloud/m2p.py:291-298 | word 2i is the flag and word 2i+1 is item i |
| M2p.CommandLayout | src/mash2pointcloud/m2p.py:300-322 | the command starts with the frame range, then the attribute options (no samples) and the fixed flags, and ends with the roots and "-file <path>" |
| M2p.Halves | src/mash2pointcloud/m2p.py:308-322 | the format with an empty samples slot splits into the head up to the fixed flags and the tail from the roots |
| M2p.LastPlayingIs | src/mash2pointcloud/m2p.py:112-119 | later matches win: the last new node playing a role is the one kept |
| M2p.LastPlayingNone | src/mash2pointcloud/m2p.py:112-119 | without a node playing the role the field keeps its value |
| M2p.NewNodesMembers | src/mash2pointcloud/m2p.py:108-110 | a node is new exactly when it is in the later listing and not in the earlier one |
| M2p.ParticleSystem.constructor | src/mash2pointcloud/m2p.py:66-73 | the shape is the name + "Shape"; no nucleus or emitter yet |
| M2p.ParticleSystem.Build | src/mash2pointcloud/m2p.py:75-134 | the nucleus is the last new node holding "nucleus", the emitter the last other one holding "emitter" (else the created emitter); a missing one deletes the system and raises ValueError |
| M2p.NoNucleusFails | src/mash2pointcloud/m2p.py:114-123 | with no new node holding "nucleus" the nucleus stays unset, so the build fails |
| M2p.Names | src/mash2pointcloud/m2p.py:378-380 | the configured attribute names, in order |
| M2p.CreatedAppend | src/mash2pointcloud/m2p.py:378-386 | the attributes created and expressions added by two runs of calls add up |
| M2p.CallsCreateEveryAttr | src/mash2pointcloud/m2p.py:378-386 | every configured attribute is created, in order, and one expression is added per attribute naming a MASH attribute |
| M2p.Scene.constructor | src/mash2pointcloud/m2p.py:347-357 | no particle system, no network, the configuration stored |
| M2p.Scene.Build | src/mash2pointcloud/m2p.py:359-390 | a failed network lookup raises its ValueError and changes nothing; otherwise a new "<network>_pointcloud" system is built whose nucleus and emitter are the last new nodes playing those roles, the build passes exactly when both are found (else ValueError and the system is deleted), and on success exactly the configured attribute and expression calls are made |
| M2p.Scene.Export | src/mash2pointcloud/m2p.py:403-435 | a cancelled dialog (None) raises TypeError and an empty answer list IndexError at the `[0]`; then an empty first answer raises InterruptedError, a path not ending ".abc" ValueError, no built system AttributeError; otherwise the export of the system with the configured attributes and range, to the first answer |
| M2pErrors.ErrorLines | src/mash2pointcloud/mash2pointcloud/exceptions_m2p.py:105-106 | one line per error |
| M2pErrors.ErrorLinesFree | src/mash2pointcloud/mash2pointcloud/exceptions_m2p.py:105-106 | newline-free errors give newline-free lines |
| M2pErrors.DisplayLinesFree | src/mash2pointcloud/mash2pointcloud/exceptions_m2p.py:94-108 | newline-free sources and errors give newline-free display lines |
| M2pErrors.DisplayReadBack | src/mash2pointcloud/mash2pointcloud/exceptions_m2p.py:94-108 | split on newlines, the display gives "<source>:" per source in insertion order followed by its indented errors |
| M2pErrors.DisplayEmpty | src/mash2pointcloud/mash2pointcloud/exceptions_m2p.py:102-108 | no source, empty display |
| M2pErrors.SourceStep | src/mash2pointcloud/mash2pointcloud/exceptions_m2p.py:103-106 | one more source appends its header line and its error block |
| M2pErrors.ErrorBlock | src/mash2pointcloud/mash2pointcloud/exceptions_m2p.py:105-106 | the inner loop builds each error on its own indented, newline-ended line |
| M2pErrors.ErrorHandler.constructor | src/mash2pointcloud/mash2pointcloud/exceptions_m2p.py:76-82 | no errors, the exception type stored |
| M2pErrors.ErrorHandler.Add | src/mash2pointcloud/mash2pointcloud/exceptions_m2p.py:84-92 | the error is appended to its source's list, created after the others on first use; every other source keeps its errors |
| M2pErrors.ErrorHandler.Length | src/mash2pointcloud/mash2pointcloud/exceptions_m2p.py:134-140 | the number of sources, not of errors |
| M2pErrors.ErrorHandler.IsEmpty | src/mash2pointcloud/mash2pointcloud/exceptions_m2p.py:142-148 | true exactly when no error was added |
| M2pErrors.ErrorHandler.DisplayString | src/mash2pointcloud/mash2pointcloud/exceptions_m2p.py:94-108 | the nested loops build the display of the sources in insertion order |
| M2pErrors.ErrorHandler.RaiseError | src/mash2pointcloud/mash2pointcloud/exceptions_m2p.py:110-117 | raises the configured exception with the indent-4 display exactly when some error was added |
| M2pErrors.ErrorHandler.Log | src/mash2pointcloud/mash2pointcloud/exceptions_m2p.py:119-132 | nothing without errors; otherwise one record "[<title>] <display>" |
| M2pErrors.HookDialogKinds | src/mash2pointcloud/mash2pointcloud/exceptions_m2p.py:265-289 | only M2pBaseError itself and MayaDevError reach the dialog; foreign exceptions and every DisplayedError go to the default hook |
| SeqErrors.Numbered | src/securityVirusCleaner/virus_cleaner.py:90-96 | the keys after n additions are exactly 1..n |
| SeqErrors.NumberedAt | src/securityVirusCleaner/virus_cleaner.py:90-96 | the i-th added error is under key i |
| SeqErrors.NumberedAppend | src/shapeNameConform/shape_name_conform.py:86-87 | one more `add` stores the error under the count so far plus one |
| SeqErrors.Lines | src/securityVirusCleaner/virus_cleaner.py:104-113 | one report line per error |
| SeqErrors.LinesFree | src/securityVirusCleaner/virus_cleaner.py:104-113 | since messages lose their newlines, lines are newline-free when sources and class names are |
| SeqErrors.DisplayReadBack | src/securityVirusCleaner/virus_cleaner.py:104-113 | split on newlines, the report gives back one line per error, the i-th numbered i |
| SeqErrors.LinesAt | src/snippets/maya_rename_shape.py:71-82 | line i is the line of the i-th added error, numbered i + 1 |
| SeqErrors.ErrorHandler.constructor | src/securityVirusCleaner/virus_cleaner.py:86-88 | no errors, the context stored |
| SeqErrors.ErrorHandler.Add | src/securityVirusCleaner/virus_cleaner.py:90-96 | the error is stored under the number of errors so far plus one |
| SeqErrors.ErrorHandler.DisplayString | src/securityVirusCleaner/virus_cleaner.py:98-113 | the loop over keys 1..n builds one line per error in call order |
| SeqErrors.ErrorHandler.LogWithContext | src/securityVirusCleaner/virus_cleaner.py:115-126 | nothing without errors; otherwise one error record with the count, the context tag and the report |
| SeqErrors.ErrorHandler.Log | src/snippets/maya_rename_shape.py:84-92 | nothing without errors; otherwise one record at the script's level (info here, error in shape_name_conform.py) with the count and the report |
| VirusCleaner.Select | src/securityVirusCleaner/virus_cleaner.py:251-254 | `filter` keeps no more elements than it is given |
| VirusCleaner.SelectMembers | src/securityVirusCleaner/virus_cleaner.py:251-285 | an element is kept exactly when it is in the input and passes |
| VirusCleaner.FiltersKeepVirusNames | src/securityVirusCleaner/virus_cleaner.py:249-287 | the jobs kept are exactly the running ones mentioning "vaccine" or "leukocyte"; the modules kept are exactly the loaded ones mentioning "vaccine" |
| VirusCleaner.Instances | src/securityVirusCleaner/virus_cleaner.py:304-328 | one object per class of `VIRUSOBJECTS`, in that order |
| VirusCleaner.Instantiate | src/securityVirusCleaner/virus_cleaner.py:328 | instantiating a class gives an object of that class |
| VirusCleaner.CheckVirusExistsIff | src/securityVirusCleaner/virus_cleaner.py:320-341 | something is reported exactly when an object other than the UserSetup files exists, and then every existing object is reported |
| VirusCleaner.EachItem | src/securityVirusCleaner/virus_cleaner.py:261-301 | killing jobs or removing modules touches neither nodes nor files |
| VirusCleaner.EachItemStops | src/securityVirusCleaner/virus_cleaner.py:261-301 | after the first exception, later items change nothing |
| VirusCleaner.KillsIdBeforeColon | src/securityVirusCleaner/virus_cleaner.py:266-268 | an accepted job "<id>:<rest>" is killed under the integer before the first ":" |
| VirusCleaner.DeleteStep | src/securityVirusCleaner/virus_cleaner.py:170-209 | deleting a missing node or file changes nothing; an accepted delete removes exactly that node or file; a delete never adds anything |
| VirusCleaner.SweepStep | src/securityVirusCleaner/virus_cleaner.py:352-358 | one more object deletes it from the state left so far and appends its failure, if any |
| VirusCleaner.SweepRemovesAccepted | src/securityVirusCleaner/virus_cleaner.py:352-358 | a failure does not stop the sweep: every listed node or file the host accepts is gone at the end |
| VirusCleaner.SweepRecordsListed | src/securityVirusCleaner/virus_cleaner.py:352-358 | at most one record per object, each under the `str` of a listed object |
| VirusCleaner.Machine.constructor | src/securityVirusCleaner/virus_cleaner.py:304-313 | the machine holds the given host state and refusals |
| VirusCleaner.Machine.DeleteEach | src/securityVirusCleaner/virus_cleaner.py:261-301 | the loop of the job or module `delete` leaves the state and failure the item-by-item function gives |
| VirusCleaner.Machine.Delete | src/securityVirusCleaner/virus_cleaner.py:170-301 | `virus.delete()` changes the host as the delete step says |
| VirusCleaner.Machine.DeleteAll | src/securityVirusCleaner/virus_cleaner.py:352-358 | every failure goes to the error handler and the loop carries on, ending in the sweep's state |
| VirusCleaner.Machine.DeleteVirus | src/securityVirusCleaner/virus_cleaner.py:344-364 | deletes what the check reports, records each failure, and logs under "delete_virus" exactly when something failed |
| ShapeConform.KidsUnion | src/shapeNameConform/shape_name_conform.py:163 | the children of a union of nodes are the union of their children |
| ShapeConform.KidsMono | src/shapeNameConform/shape_name_conform.py:163 | more nodes, more children |
| ShapeConform.KidsInUniverse | src/shapeNameConform/shape_name_conform.py:159-163 | every child found is some node's child |
| ShapeConform.WithinGrows | src/shapeNameConform/shape_name_conform.py:160-163 | one level deeper reaches at least the same nodes |
| ShapeConform.WithinGrowsTo | src/shapeNameConform/shape_name_conform.py:160-163 | any deeper level reaches at least the same nodes |
| ShapeConform.WithinStable | src/shapeNameConform/shape_name_conform.py:160-163 | once a level adds nothing new no deeper level does, which is why the loop ends |
| ShapeConform.FrontierStep | src/shapeNameConform/shape_name_conform.py:160-163 | one round of the `while children` loop adds the next level and leaves exactly the level after it as the new frontier |
| ShapeConform.DescendantsClosed | src/shapeNameConform/shape_name_conform.py:158-168 | the descendants hold the children and are closed under taking children |
| ShapeConform.DescendantsLeast | src/shapeNameConform/shape_name_conform.py:158-168 | the descendants are the least such set |
| ShapeConform.WithinInside | src/shapeNameConform/shape_name_conform.py:158-168 | every level lies inside any children-closed set that holds the children |
| ShapeConform.ListOf | src/shapeNameConform/shape_name_conform.py:168 | `list(a_set)` lists each element once and nothing else |
| ShapeConform.ChildrenHierarchy | src/shapeNameConform/shape_name_conform.py:148-168 | every transitive descendant, each exactly once |
| ShapeConform.AppendNewFacts | src/shapeNameConform/shape_name_conform.py:131-138 | appending the new non-shapes keeps the old list as prefix, repeats nothing, and adds exactly the listed non-shapes |
| ShapeConform.AddChildren | src/shapeNameConform/shape_name_conform.py:131-135 | the inner loop appends each child not yet listed and not a shape |
| ShapeConform.Hierarchy | src/shapeNameConform/shape_name_conform.py:128-145 | each selected node and each descendant that is not a shape is listed exactly once, and a selected node new at its turn comes after all of its non-shape descendants |
| ShapeConform.TurnKeeps | src/shapeNameConform/shape_name_conform.py:129-138 | one turn of the outer loop keeps no-repeats, the members and the ordering |
| ShapeConform.PrecedesKept | src/shapeNameConform/shape_name_conform.py:129-138 | appending keeps the ordering already reached |
| ShapeConform.UuidsOnePerNode | src/shapeNameConform/shape_name_conform.py:171-183 | with one identifier per node, the i-th identifier is that of the i-th node |
| ShapeConform.NodesToUuid | src/shapeNameConform/shape_name_conform.py:171-183 | the loop concatenates every node's identifiers in order |
| ShapeConform.NodesFromSelection | src/shapeNameConform/shape_name_conform.py:110-145 | None exactly for an empty selection; the identifiers of the selection without hierarchy; otherwise a hierarchy: the selection and its descendants without shapes, once each, where a selected node new at its turn comes after all of its non-shape descendants |
| ShapeConform.NewNameOfPath | src/shapeNameConform/shape_name_conform.py:220 | under a long name whose last pipe-separated segment is <name>, the shape becomes "<name>Shape" |
| ShapeConform.NewNameIsName | src/snippets/maya_rename_shape.py:196 | the new name ends with "Shape" and holds no pipe |
| ShapeConform.RenameShape | src/shapeNameConform/shape_name_conform.py:186-238 | a node without a long name raises IndexError, one without shapes or with an empty long name raises RuntimeError; otherwise the first shape is renamed to the new name, a success exactly when the host accepts that rename, and a refusal raises RuntimeError with the host's message |
| ShapeConform.NoShapeRaises | src/snippets/maya_rename_shape.py:179-187 | a node with no shape raises RuntimeError with the script's "no shape" message |
| ShapeConform.FailuresStep | src/shapeNameConform/shape_name_conform.py:248-252 | one more node appends its failure, if any |
| ShapeConform.FailuresIff | src/snippets/maya_rename_shape.py:221-225 | a failure is recorded under a node exactly when renaming that node raises; the loop goes on past it |
| ShapeConform.Failures | src/snippets/maya_rename_shape.py:221-225 | at most one record per node |
| ShapeConform.Run | src/shapeNameConform/shape_name_conform.py:241-256 | a None node list raises TypeError with nothing logged; otherwise every failure is recorded and logged at the script's level exactly when there is one |
| ShapeConform.RunScript | src/shapeNameConform/shape_name_conform.py:245-248 | as written, an empty selection ends in TypeError |
| ShapeConform.GuardedRunScript | src/shapeNameConform/shape_name_conform.py:241-256 | with the intended stop, an empty selection raises nothing and logs no report; with the hierarchy, the nodes form a hierarchy of the selection and the logged report is their failures, empty exactly when every non-shape node of it is renamed; without it, the failures are reported as in `Run` |
| ReferenceExport.NamespaceShape | src/referenceExporter/referenceBakedExport.py:34-45 | the namespace holds no ":", does not start with pipe, and is the stretch after the leading pipe characters up to the first ":" or the end |
| ReferenceExport.NamespaceOfPath | src/referenceExporter/referenceBakedExport.py:38-45 | "<pipes><ns>:<rest>" gives back ns |
| ReferenceExport.LStripPrefix | src/referenceExporter/referenceBakedExport.py:44 | stripping leading pipe from "<pipes><ns>" gives ns |
| ReferenceExport.NamespaceExample | src/referenceExporter/referenceBakedExport.py:38-45 | the documented example path, one pipe then "assetName:bouteilleBiere01", gives "assetName" |
| ReferenceExport.NamespaceWithoutColon | src/referenceExporter/referenceBakedExport.py:43-44 | without ":", the whole path less its leading pipe |
| ReferenceExport.PlanExportIff | src/referenceExporter/referenceBakedExport.py:69-118 | an export happens exactly when there is a selection, its first node is referenced, the user did not cancel, the dialog gave a path and that path does not exist; ValueError and TypeError otherwise as the guards say |
| ReferenceExport.Session.constructor | src/referenceExporter/referenceBakedExport.py:12-31 | the session holds the given namespaces, current namespace, mode and files |
| ReferenceExport.Session.ExportWithoutNamespace | src/referenceExporter/referenceBakedExport.py:12-31 | a missing namespace raises with the root namespace current; otherwise the root namespace and absolute names are restored whether or not the export raises, and the file is written only when it does not |
| ReferenceExport.Session.ExportReferenceAsBaked | src/referenceExporter/referenceBakedExport.py:69-131 | errors and stops change nothing, the relative-names mode included; an export writes the dialog's path under the node's namespace, leaves the root namespace current and, once the namespace was set, absolute names restored |
| ResetWindow.PanelWindow | src/resetWindowPosition/reset_window_position.py:39-58 | a window found for a panel is a window |
| ResetWindow.PanelWindowIff | src/resetWindowPosition/reset_window_position.py:49-58 | no window for a missing panel; otherwise the control path up to the first pipe, exactly when that is a window |
| ResetWindow.SearchKeyShape | src/resetWindowPosition/reset_window_position.py:70 | the search key holds no space and no upper-case letter |
| ResetWindow.FoundFromFirst | src/resetWindowPosition/reset_window_position.py:72-78 | the search stops at the first entry that matches and is a window or a panel |
| ResetWindow.FoundFromNone | src/resetWindowPosition/reset_window_position.py:72-80 | with no stopping entry the search finds nothing |
| ResetWindow.FoundIsFirst | src/resetWindowPosition/reset_window_position.py:72-78 | the answer is that of the first matching window or panel: the window itself, or the panel's window |
| ResetWindow.FoundNothing | src/resetWindowPosition/reset_window_position.py:80 | no matching window or panel, no window |
| ResetWindow.FoundIsWindow | src/resetWindowPosition/reset_window_position.py:61-80 | whatever is found is a window |
| ResetWindow.FindWindow | src/resetWindowPosition/reset_window_position.py:61-80 | the loop returns the answer of the first stopping entry, or none |
| ResetWindow.Session.constructor | src/resetWindowPosition/reset_window_position.py:83-98 | the session holds the user interface and the window corners |
| ResetWindow.Session.Run | src/resetWindowPosition/reset_window_position.py:83-98 | no window found: a warning and no change; otherwise only that window's top-left corner becomes (0, 0) |

## Left out

- Maya itself is not modelled: `cmds.*` and `pm.*` calls, re-targeting, opening and saving files, `AbcExport`, node creation and deletion. Their answers are parameters, and their effects are the fields or records the model keeps.
- The user interfaces are not modelled: the Qt window of refrepath, `RefRepathWindow`, the `MainWindow` of the virus cleaner, `ErrorDialog` and the Qt signal wiring of mash2pointcloud, and the confirm and file dialogs. A dialog's answer is a parameter.
- Logging configuration and formatting (`override_maya_logging`, `ColoredFormatter`, `setup_logging`, `configure_logging`) are not modelled, nor are timestamps, levels, handlers or `print`. Only the log lines that other code reads back or that state a result are kept.
- `subprocess.run`, `os.environ`, `datetime.now()`, `os.scandir`, `glob`, `os.path.exists` and `time` are parameters: an environment map, a date-time value, a directory tree, and sets of existing paths.
- Paths are strings with "/" as the separator. Windows drive and separator rules of `pathlib` are not modelled.
- `Strings.Lower` folds ASCII letters only. `Strings.ParseInt` accepts an optional "-" and ASCII digits; the surrounding whitespace, "+" and "_" that Python's `int()` also accepts are not modelled.
- Python floats (`FrameRangeArg.step`, the frame relative samples) are kept as values with their already-rendered text. Float formatting is not modelled.
- `ExportSettings.arg_repr` (src/MPyAbcExport/PyAbcExport/core/settings.py:380-391) is not modelled. It iterates the tuples of `data.items()` as if they were argument objects, so it cannot build its documented string.
- `alembicExporter.export_abc` is not modelled: it only joins its settings into a command and hands it to Maya. Its objects and frame range are therefore not fields of `AlembicExporter.AbcExportSettings`.
- `settings_tests.py` is not part of this model. It uses names that `settings.py` does not define.
- `get_child_files_from_root` and the Maya-file filter of `refrepath_batch.py` are the same walk as in `utils.py` and are modelled once, by `RefUtils.GetChildFilesFromRoot`. The reference filter of `refrepath.py` is modelled once, by `RefCore.GetReferences`.
- The order in which Python iterates a set (`list(result)` in `get_children_hierarchy`) is chosen freely by `ShapeConform.ListOf`. The contracts hold for every order.
- `ParticleSystem.delete`, `connect`, `set_playfromcache`, `create_attr`, `create_expression` and `Scene.clean` are thin wrappers around Maya calls. `create_attr` and `create_expression` are recorded as host calls; the others are not modelled beyond the `deleted` flag.
- The pizza-creator demos, the launchers, `userSetup.py`, `userPrefs.py`, the configuration and constant modules, `cli.py` and the UV-transfer and similar-poly-count snippets are not part of this model.
- ShapeConform.RenameShape: when the host has no answer for a rename, the model treats it as a refusal with an empty message.
- VirusCleaner.Describe: the identifier of a job or module object is shown with Python's list `repr` for plain strings; `repr`'s escaping of quotes inside names is not modelled.
- ResetWindow.Session.Run: the windows and panels are taken as fixed while the search runs.
- AlembicExporter.GlobMatch: the pattern "<basename>.*.abc" is matched with the basename and the directory taken literally. `glob.glob` (src/mash2pointcloud/mash2pointcloud/core/alembicExporter.py:121-123) receives them unescaped, so a "[", "*" or "?" in either acts as a wildcard there: for the basename "f[1]" with "f[1].0001.abc" on disk the source matches nothing and picks "0001" again, where the model gives "0002".
- ReferenceExport.Session.ExportReferenceAsBaked: the export command's own effect is a single file at the target path. Its options (selection only, baked, type) are not modelled.
- RefUtils.IncrementMatch: `\d` matches the ASCII digits only; Python 3's `\d` also matches the other Unicode decimal digits, so a stem ending in such digits is not recognised as an increment here.
- LogScrape.CountAfter: `\w` matches ASCII letters, digits and "_" only; Python 3's `\w` also matches non-ASCII letters and digits, so a progress line whose word before "/" is non-ASCII yields no count here.
- Batch.FileBatcher.Execute: the child's answer (return code and output) is a parameter, so the `OSError` that `subprocess.run` raises when the executable cannot be started (src/refrepath/refrepath/batch.py:148-156 catches only `CalledProcessError`) is not modelled.
- Batch.FileBatcher.LogResult: the output is taken as text; the `UnicodeDecodeError` that `stdout.decode("utf-8")` (src/refrepath/refrepath/batch.py:170) raises on bytes that are not UTF-8 is not modelled.
- Batch.BatchDirectory: since neither of the two errors above is modelled, every file is always run; in the source either error ends `batch_directory` before the remaining files.
- AlembicExporter.VersionNumber: the number is read with `Strings.ParseNat` (ASCII digits only). Python's `int()` also accepts a sign, surrounding whitespace and "_", so for "f.-5.abc" the source goes on with version "-004" where the model raises ValueError.
- AlembicExporter.NextVersion: follows `VersionNumber`, so a last match with a signed or spaced number raises ValueError here.
- AlembicExporter.NumbersAt: follows `VersionNumber` in the same way.
- RefCore.RepathReference: the queried path, the denominator and the root are compared and split as text. The source wraps them in `Path(...)`, and `was_updated` (src/refrepath/refrepath/core.py:32-36) compares `Path` objects, so two spellings that differ only by a trailing "/", a doubled "/" or a "/./" count as a change here and as equal in the source.
- OldRefrepath.OldRepathReference: the same text comparison as `RefCore.RepathReference`, for the old revision's `Path` comparison.
- OldBatch.OldDenominator: takes a root already in `pathlib`'s normal form; `OldBatch.OldCli` normalises the typed root with `Paths.PurePath` before calling it, but only for POSIX-style paths.

## Findings

| source | as written | input that shows it | evidently intended | confidence | as-written member | corrected member |
|---|---|---|---|---|---|---|
| src/refrepath/refrepath.py:34-38 | the increment is never advanced, so the candidate name never changes | the scene "C:/demo/file.abc" with "C:/demo/file.0001.abc" already on disk: the loop never ends | try ".0001", ".0002", … until a name is free, as `maya_utils.save_scene_increment` does | not executed | OldRefrepath.OldSaveHangs | MayaUtils.MayaScene.SaveSceneIncrement |
| src/mash2pointcloud/mash2pointcloud/core/alembicExporter.py:131-136 | the version is read from the match that sorts last as a string, so after "9999" the five-digit version sorts before it | "f.9999.abc" and "f.10000.abc" in the directory: the next version is "10000" again, a file that already exists | one more than the greatest version number, compared as numbers | not executed | AlembicExporter.VersionRepeatsAfter9999 | AlembicExporter.GreatestNextVersionIsFree |
| src/shapeNameConform/shape_name_conform.py:245-248 | an empty selection makes `get_nodes_from_selection` return None, and the loop `for node in None` raises TypeError | an empty selection | stop after reporting the empty selection | not executed | ShapeConform.RunScript | ShapeConform.GuardedRunScript |
