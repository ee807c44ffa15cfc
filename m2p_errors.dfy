/**
 * mash2pointcloud/exceptions_m2p.py: the error accumulator that groups
 * errors by their source, and the classification the uncaught-exception
 * hook applies.
 *
 * Errors are kept as their display text. The Python dictionary keeps its
 * keys in insertion order; the model keeps that order in `sources` beside
 * the map from each source to its errors.
 */
module M2pErrors {
  import opened Wrappers
  import opened Strings

  /** "<source>:" */
  function Header(source: string): string {
    "<" + source + ">:"
  }

  /** One error line: the indent, then the error. */
  function ErrorLine(error: string, indent: nat): string {
    Repeat(' ', indent) + error
  }

  function ErrorLines(errors: seq<string>, indent: nat): (r: seq<string>)
    ensures |r| == |errors|
  {
    if errors == [] then [] else ErrorLines(errors[..|errors| - 1], indent) + [ErrorLine(errors[|errors| - 1], indent)]
  }

  /** The display lines: per source, in insertion order, its header and then each of its errors. */
  function DisplayLines(sources: seq<string>, errors: map<string, seq<string>>, indent: nat): seq<string>
    requires forall k :: 0 <= k < |sources| ==> sources[k] in errors
  {
    if sources == [] then []
    else
      var last := sources[|sources| - 1];
      DisplayLines(sources[..|sources| - 1], errors, indent) + [Header(last)] + ErrorLines(errors[last], indent)
  }

  /** `get_display_string`: every display line followed by a newline. */
  function Display(sources: seq<string>, errors: map<string, seq<string>>, indent: nat): string
    requires forall k :: 0 <= k < |sources| ==> sources[k] in errors
  {
    Terminated(DisplayLines(sources, errors, indent), "\n")
  }

  lemma {:induction false} ErrorLinesFree(errors: seq<string>, indent: nat)
    requires forall k :: 0 <= k < |errors| ==> Free(errors[k], '\n')
    ensures forall k :: 0 <= k < |errors| ==> Free(ErrorLines(errors, indent)[k], '\n')
    decreases |errors|
  {
    if errors != [] {
      ErrorLinesFree(errors[..|errors| - 1], indent);
      ConcatFree(Repeat(' ', indent), errors[|errors| - 1], '\n');
    }
  }

  lemma {:induction false} DisplayLinesFree(sources: seq<string>, errors: map<string, seq<string>>, indent: nat)
    requires forall k :: 0 <= k < |sources| ==> sources[k] in errors
    requires forall k :: 0 <= k < |sources| ==> Free(sources[k], '\n')
    requires forall s :: s in errors ==> forall k :: 0 <= k < |errors[s]| ==> Free(errors[s][k], '\n')
    ensures forall k :: 0 <= k < |DisplayLines(sources, errors, indent)| ==> Free(DisplayLines(sources, errors, indent)[k], '\n')
    decreases |sources|
  {
    if sources != [] {
      var init := sources[..|sources| - 1];
      var last := sources[|sources| - 1];
      DisplayLinesFree(init, errors, indent);
      ErrorLinesFree(errors[last], indent);
      var a := DisplayLines(init, errors, indent);
      var b := ErrorLines(errors[last], indent);
      var lines := a + [Header(last)] + b;
      forall k | 0 <= k < |lines| ensures Free(lines[k], '\n') {
        if k < |a| {
          assert lines[k] == a[k];
        } else if k == |a| {
          assert lines[k] == "<" + last + ">:";
        } else {
          assert lines[k] == b[k - |a| - 1];
        }
      }
    }
  }

  /**
   * Reading the display back: when no source and no error holds a newline,
   * splitting the display string on newlines gives, for each source in
   * insertion order, "<source>:" and then its errors, indented.
   */
  lemma DisplayReadBack(sources: seq<string>, errors: map<string, seq<string>>, indent: nat)
    requires forall k :: 0 <= k < |sources| ==> sources[k] in errors
    requires forall k :: 0 <= k < |sources| ==> Free(sources[k], '\n')
    requires forall s :: s in errors ==> forall k :: 0 <= k < |errors[s]| ==> Free(errors[s][k], '\n')
    ensures Split(Display(sources, errors, indent), "\n") == DisplayLines(sources, errors, indent) + [""]
  {
    DisplayLinesFree(sources, errors, indent);
    TerminatedReadBack(DisplayLines(sources, errors, indent), '\n');
  }

  /** No source, no display. */
  lemma DisplayEmpty(errors: map<string, seq<string>>, indent: nat)
    ensures Display([], errors, indent) == ""
  {
  }

  lemma SourceStep(sources: seq<string>, errors: map<string, seq<string>>, indent: nat, i: nat)
    requires forall k :: 0 <= k < |sources| ==> sources[k] in errors
    requires i < |sources|
    ensures Display(sources[..i + 1], errors, indent) ==
      Display(sources[..i], errors, indent) + Header(sources[i]) + "\n" + Terminated(ErrorLines(errors[sources[i]], indent), "\n")
  {
    var head := DisplayLines(sources[..i], errors, indent) + [Header(sources[i])];
    assert head[..|head| - 1] == DisplayLines(sources[..i], errors, indent);
    assert sources[..i + 1][..i] == sources[..i];
    TerminatedAppend(head, ErrorLines(errors[sources[i]], indent), "\n");
  }

  /** The inner loop of `get_display_string`: each error of one source on its own indented line. */
  method ErrorBlock(list: seq<string>, indent: nat) returns (block: string)
    ensures block == Terminated(ErrorLines(list, indent), "\n")
  {
    block := "";
    for j := 0 to |list|
      invariant block == Terminated(ErrorLines(list[..j], indent), "\n")
    {
      assert list[..j + 1][..j] == list[..j];
      block := block + Repeat(' ', indent) + list[j] + "\n";
    }
    assert list[..|list|] == list;
  }

  /**
   * `ErrorHandler` of exceptions_m2p.py: `exception` is the error type
   * `raise_error` raises.
   */
  class ErrorHandler {
    const exception: PyError
    var sources: seq<string>
    var errors: map<string, seq<string>>

    /** The dictionary's keys are `sources`, each once, and every source has at least one error. */
    ghost predicate Valid()
      reads this
    {
      (forall i, j :: 0 <= i < j < |sources| ==> sources[i] != sources[j]) &&
      (forall s :: s in errors <==> s in sources) &&
      (forall s :: s in errors ==> errors[s] != []) &&
      |errors| == |sources|
    }

    constructor(exception: PyError)
      ensures Valid() && this.exception == exception && sources == [] && errors == map[]
    {
      this.exception := exception;
      sources := [];
      errors := map[];
    }

    /**
     * `add`: the error goes to the end of its source's list, which is
     * created (after the existing sources) on first use; every other
     * source keeps its errors.
     */
    method Add(source: string, error: string)
      requires Valid()
      modifies this
      ensures Valid()
      ensures source in old(errors) ==> errors == old(errors)[source := old(errors)[source] + [error]] && sources == old(sources)
      ensures source !in old(errors) ==> errors == old(errors)[source := [error]] && sources == old(sources) + [source]
      ensures forall s :: s in old(errors) && s != source ==> s in errors && errors[s] == old(errors)[s]
      ensures |errors| == old(|errors|) + (if source in old(errors) then 0 else 1)
    {
      if source in errors && errors[source] != [] {
        errors := errors[source := errors[source] + [error]];
      } else {
        errors := errors[source := [error]];
        sources := sources + [source];
      }
    }

    /** `length`: the number of sources, not of errors. */
    function Length(): (n: nat)
      reads this
      requires Valid()
      ensures n == |errors|
    {
      |sources|
    }

    /** `is_empty` */
    function IsEmpty(): (b: bool)
      reads this
      requires Valid()
      ensures b <==> errors == map[]
    {
      Length() == 0
    }

    /** `get_display_string`, built line by line as the source's nested loops do. */
    method DisplayString(indent: nat) returns (text: string)
      requires Valid()
      ensures text == Display(sources, errors, indent)
    {
      text := "";
      for i := 0 to |sources|
        invariant text == Display(sources[..i], errors, indent)
      {
        var source := sources[i];
        var block := ErrorBlock(errors[source], indent);
        SourceStep(sources, errors, indent, i);
        text := text + Header(source) + "\n" + block;
      }
      assert sources[..|sources|] == sources;
    }

    /**
     * `raise_error`: raises the configured error, with the display string
     * (indent 4), exactly when some error was added; otherwise nothing.
     */
    method RaiseError() returns (outcome: Outcome, message: string)
      requires Valid()
      ensures outcome.Fail? <==> errors != map[]
      ensures outcome.Fail? ==> outcome.error == exception && message == Display(sources, errors, 4)
      ensures outcome.Pass? ==> message == ""
    {
      if |sources| > 0 {
        message := DisplayString(4);
        return Fail(exception), message;
      }
      return Pass, "";
    }

    /** `log`: nothing without errors; otherwise one error record "[<title>] <display>". */
    method Log(title: string) returns (record: Option<string>)
      requires Valid()
      ensures record.None? <==> errors == map[]
      ensures record.Some? ==> record.value == "[" + title + "] " + Display(sources, errors, 4)
    {
      if |sources| == 0 {
        return None;
      }
      var display := DisplayString(4);
      return Some("[" + title + "] " + display);
    }
  }

  // ---------------------------------------------------------------------------
  // exception_hook

  /** The exception classes the hook tells apart; `Other` is any class outside M2pBaseError. */
  datatype ExceptionClass = M2pBaseError | DisplayedError | MayaDevError | UserError | Other

  /** `issubclass` over the declared hierarchy. */
  predicate IsSubclass(c: ExceptionClass, base: ExceptionClass) {
    c == base ||
    (base == M2pBaseError && c in {DisplayedError, MayaDevError, UserError}) ||
    (base == DisplayedError && c == UserError)
  }

  /** What the hook does: hand over to Python's default hook, or emit the dialog signal. */
  datatype HookAction = DefaultHook | ShowDialog

  /** `exception_hook` */
  function Hook(c: ExceptionClass): HookAction {
    if !IsSubclass(c, M2pBaseError) then DefaultHook
    else if IsSubclass(c, DisplayedError) then DefaultHook
    else ShowDialog
  }

  /**
   * Only the M2pBaseError kinds that do not show a dialog of their own reach
   * the dialog: M2pBaseError itself and MayaDevError. Foreign exceptions
   * and every DisplayedError go to the default hook.
   */
  lemma HookDialogKinds(c: ExceptionClass)
    ensures Hook(c) == ShowDialog <==> c == M2pBaseError || c == MayaDevError
    ensures c == Other || IsSubclass(c, DisplayedError) ==> Hook(c) == DefaultHook
  {
  }
}
