/**
 * refrepath/maya_utils.py: saving the open scene under the first free
 * incremented name.
 *
 * The host scene is an object: its current file name and the files on disk
 * are fields that renaming and saving update, and the log lines written are
 * kept in order so that the batch side can read them back.
 */
module MayaUtils {
  import opened Wrappers
  import opened Strings
  import opened Paths
  import opened RefUtils

  class MayaScene {
    /** `cmds.file(query=True, sceneName=True)` */
    var sceneName: string
    /** The paths that exist on disk. */
    var disk: set<string>
    /** The "Saving <path> ..." messages logged so far; the scene's other log lines are not modelled. */
    var log: seq<string>

    constructor(sceneName: string, disk: set<string>)
      ensures this.sceneName == sceneName && this.disk == disk && log == []
    {
      this.sceneName := sceneName;
      this.disk := disk;
      this.log := [];
    }

    /** The name the next `save_scene_increment(zfill)` picks. */
    function NextIncrement(zfill: nat): string
      reads this
    {
      IncrementTarget(sceneName, disk, zfill)
    }

    /**
     * `cmds.file(path, open=True, force=True, ...)`: the host either opens
     * the file, which becomes the current scene, or fails and leaves the
     * current scene as it was (the failure is only logged).
     */
    method Open(path: string, succeeds: bool)
      modifies this
      ensures sceneName == (if succeeds then path else old(sceneName))
      ensures disk == old(disk) && log == old(log)
    {
      if succeeds {
        sceneName := path;
      }
    }

    /**
     * `save_scene_increment`: its loop is the loop of `increment_path`
     * applied to the scene name, so the search is `IncrementPath`; then the
     * scene is renamed to the free name, "Saving <path> ..." is logged and
     * the scene is written there. A scene without a name makes `with_stem`
     * raise ValueError before anything changes.
     */
    method SaveSceneIncrement(zfill: nat) returns (outcome: Outcome)
      modifies this
      ensures Name(old(sceneName)) == "" ==> outcome == Fail(ValueError) && unchanged(this)
      ensures Name(old(sceneName)) != "" ==> outcome == Pass && sceneName == old(NextIncrement(zfill))
      ensures Name(old(sceneName)) != "" ==> sceneName !in old(disk) && disk == old(disk) + {sceneName}
      ensures Name(old(sceneName)) != "" ==> log == old(log) + [SavingMessage(sceneName)]
    {
      var target := IncrementPath(sceneName, zfill, disk);
      match target
      case Err(e) =>
        return Fail(e);
      case Ok(newPath) =>
        sceneName := newPath;
        log := log + [SavingMessage(newPath)];
        disk := disk + {newPath};
      return Pass;
    }
  }

  /** The first free incremented name for a scene called `sceneName` when `disk` holds the existing files. */
  function IncrementTarget(sceneName: string, disk: set<string>, zfill: nat): string {
    var num := NumberingOf(sceneName, zfill);
    num.PathOf(FirstFree(num.PathOf, disk, 1))
  }

  function SavingMessage(path: string): string {
    "Saving " + path + " ..."
  }

  /** The saved scene keeps the directory and the extension of the scene, and its stem is the base, '.', and the number. */
  lemma SaveKeepsDirAndExtension(sceneName: string, disk: set<string>, zfill: nat)
    requires Suffix(sceneName) != ""
    ensures var num := NumberingOf(sceneName, zfill);
      var n := FirstFree(num.PathOf, disk, 1);
      var target := num.PathOf(n);
      && n >= 1
      && DirPrefix(target) == DirPrefix(sceneName)
      && Suffix(target) == Suffix(sceneName)
      && Stem(target) == Base(sceneName, zfill) + "." + ZFill(NatToString(n), zfill)
  {
    var num := NumberingOf(sceneName, zfill);
    IncrementKeepsDirAndSuffix(sceneName, zfill, FirstFree(num.PathOf, disk, 1));
  }
}
