/**
 * resetWindowPosition/reset_window_position.py: finding an open Maya
 * window (or the window of a panel) by a case-insensitive name and moving
 * it back to the top-left corner of the screen.
 *
 * The Maya UI queries become a `Ui` value: the listed UI names in
 * `lsUI` order, the names that exist as windows and as panels, and the
 * control path of each panel.
 */
module ResetWindow {
  import opened Wrappers
  import opened Strings

  /** `WINDOW_TO_FIND_NAME` */
  const WindowToFindName: string := "hypershade"

  datatype Ui = Ui(listed: seq<string>, windows: set<string>, panels: set<string>, control: string -> string)

  /** `pannel_get_window` */
  function PanelWindow(ui: Ui, panel: string): (r: Option<string>)
    ensures r.Some? ==> r.value in ui.windows
  {
    if panel !in ui.panels then None
    else
      var window := Split(ui.control(panel), "|")[0];
      if window in ui.windows then Some(window) else None
  }

  /**
   * A panel's window is the part of its control path before the first "|",
   * and it is returned exactly when the panel exists and that part names a
   * window.
   */
  lemma PanelWindowIff(ui: Ui, panel: string)
    ensures PanelWindow(ui, panel).Some? <==>
      panel in ui.panels && Split(ui.control(panel), "|")[0] in ui.windows
    ensures PanelWindow(ui, panel).Some? ==>
      var w := PanelWindow(ui, panel).value;
      Free(w, '|') && ui.control(panel)[..|w|] == w && (|w| == |ui.control(panel)| || ui.control(panel)[|w|] == '|')
  {
    SplitFirstPiece(ui.control(panel), '|');
  }

  /** The search text: lowercased, spaces removed. */
  function SearchKey(name: string): string {
    RemoveChar(Lower(name), ' ')
  }

  /** The search text holds no space and no upper-case letter, whatever the name typed. */
  lemma SearchKeyShape(name: string)
    ensures Free(SearchKey(name), ' ')
    ensures forall k :: 0 <= k < |SearchKey(name)| ==> !('A' <= SearchKey(name)[k] <= 'Z')
  {
    RemoveCharFrom(Lower(name), ' ');
    var lower := Lower(name);
    forall k | 0 <= k < |SearchKey(name)| ensures !('A' <= SearchKey(name)[k] <= 'Z') {
      var j :| 0 <= j < |lower| && lower[j] == SearchKey(name)[k];
      assert lower[j] == LowerChar(name[j]);
    }
  }

  /** The UI name, lowercased, contains the search text. */
  predicate Matches(ui: Ui, key: string, i: nat)
    requires i < |ui.listed|
  {
    Contains(Lower(ui.listed[i]), key)
  }

  /** An entry the loop stops at: it matches and exists as a window or as a panel. */
  predicate Stops(ui: Ui, key: string, i: nat)
    requires i < |ui.listed|
  {
    Matches(ui, key, i) && (ui.listed[i] in ui.windows || ui.listed[i] in ui.panels)
  }

  /** What the entry the loop stops at returns: itself when it is a window, else its panel's window. */
  function Answer(ui: Ui, name: string): Option<string> {
    if name in ui.windows then Some(name) else PanelWindow(ui, name)
  }

  /** The search from entry `i` on. */
  function FoundFrom(ui: Ui, key: string, i: nat): Option<string>
    requires i <= |ui.listed|
    decreases |ui.listed| - i
  {
    if i == |ui.listed| then None
    else if Stops(ui, key, i) then Answer(ui, ui.listed[i])
    else FoundFrom(ui, key, i + 1)
  }

  /** `find_window(name)` */
  function Found(ui: Ui, name: string): Option<string> {
    FoundFrom(ui, SearchKey(name), 0)
  }

  /** The search from `i` returns the answer of the first entry at or after `i` the loop stops at. */
  lemma {:induction false} FoundFromFirst(ui: Ui, key: string, i: nat, first: nat)
    requires i <= first < |ui.listed| && Stops(ui, key, first)
    requires forall j :: i <= j < first ==> !Stops(ui, key, j)
    ensures FoundFrom(ui, key, i) == Answer(ui, ui.listed[first])
    decreases first - i
  {
    if i < first {
      FoundFromFirst(ui, key, i + 1, first);
    }
  }

  lemma {:induction false} FoundFromNone(ui: Ui, key: string, i: nat)
    requires i <= |ui.listed|
    requires forall j :: i <= j < |ui.listed| ==> !Stops(ui, key, j)
    ensures FoundFrom(ui, key, i) == None
    decreases |ui.listed| - i
  {
    if i < |ui.listed| {
      FoundFromNone(ui, key, i + 1);
    }
  }

  /**
   * `find_window` returns the first listed name that matches and is a
   * window; when the first matching existing entry is a panel instead, it
   * returns that panel's window, or nothing, without looking further; and
   * it returns nothing when no entry qualifies.
   */
  lemma FoundIsFirst(ui: Ui, name: string, first: nat)
    requires first < |ui.listed| && Stops(ui, SearchKey(name), first)
    requires forall j :: 0 <= j < first ==> !Stops(ui, SearchKey(name), j)
    ensures ui.listed[first] in ui.windows ==> Found(ui, name) == Some(ui.listed[first])
    ensures ui.listed[first] !in ui.windows ==> Found(ui, name) == PanelWindow(ui, ui.listed[first])
  {
    FoundFromFirst(ui, SearchKey(name), 0, first);
  }

  lemma FoundNothing(ui: Ui, name: string)
    requires forall j :: 0 <= j < |ui.listed| ==> !Stops(ui, SearchKey(name), j)
    ensures Found(ui, name) == None
  {
    FoundFromNone(ui, SearchKey(name), 0);
  }

  /** Whatever is found is an existing window. */
  lemma {:induction false} FoundIsWindow(ui: Ui, key: string, i: nat)
    requires i <= |ui.listed|
    ensures FoundFrom(ui, key, i).Some? ==> FoundFrom(ui, key, i).value in ui.windows
    decreases |ui.listed| - i
  {
    if i < |ui.listed| && !Stops(ui, key, i) {
      FoundIsWindow(ui, key, i + 1);
    }
  }

  /** `find_window`: the loop over `lsUI` with its two early returns. */
  method FindWindow(ui: Ui, name: string) returns (window: Option<string>)
    ensures window == Found(ui, name)
  {
    var key := RemoveChar(Lower(name), ' ');
    for i := 0 to |ui.listed|
      invariant FoundFrom(ui, key, 0) == FoundFrom(ui, key, i)
    {
      var uiName := ui.listed[i];
      var sanitized := Lower(uiName);
      if Contains(sanitized, key) && uiName in ui.windows {
        return Some(uiName);
      } else if Contains(sanitized, key) && uiName in ui.panels {
        window := PanelWindow(ui, uiName);
        return;
      }
    }
    return None;
  }

  /** The running Maya session: the UI it lists and where each window's top-left corner is. */
  class Session {
    const ui: Ui
    var corners: map<string, (int, int)>

    constructor(ui: Ui, corners: map<string, (int, int)>)
      ensures this.ui == ui && this.corners == corners
    {
      this.ui := ui;
      this.corners := corners;
    }

    /**
     * `run`: when no window (or an empty name) is found, a warning names
     * the searched text and no window moves; otherwise the found window
     * alone is moved to (0, 0).
     */
    method Run() returns (warning: Option<string>)
      modifies this
      ensures var found := Found(ui, WindowToFindName);
        if found.None? || found.value == "" then
          warning == Some("No window found with name <" + WindowToFindName + ">") && corners == old(corners)
        else
          warning.None? && corners == old(corners)[found.value := (0, 0)] && found.value in ui.windows
    {
      var window := FindWindow(ui, WindowToFindName);
      if window.None? || window.value == "" {
        return Some("No window found with name <" + WindowToFindName + ">");
      }
      FoundIsWindow(ui, SearchKey(WindowToFindName), 0);
      corners := corners[window.value := (0, 0)];
      warning := None;
    }
  }
}
