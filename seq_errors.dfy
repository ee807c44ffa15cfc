/**
 * The `ErrorHandler` that securityVirusCleaner/virus_cleaner.py,
 * shapeNameConform/shape_name_conform.py and snippets/maya_rename_shape.py
 * each define: errors are numbered 1, 2, 3, … in the order they are added,
 * and the report prints one line per error.
 *
 * An exception is kept as the two things the report prints of it: its
 * class name and `str()` of it.
 */
module SeqErrors {
  import opened Wrappers
  import opened Strings

  /** A caught exception: its class name and its message. */
  datatype Failure = Failure(kind: string, message: string)

  /** One recorded error: `(str(source), exception)`. */
  datatype Entry = Entry(source: string, failure: Failure)

  /** The logging level a report is emitted at. */
  datatype Level = Info | Error

  datatype Record = Record(level: Level, text: string)

  /** The dictionary that successive `add` calls build: each entry under the key `len(data) + 1`. */
  function Numbered(entries: seq<Entry>): (m: map<nat, Entry>)
    ensures forall k :: k in m <==> 1 <= k <= |entries|
    ensures |m| == |entries|
  {
    if entries == [] then map[]
    else
      var m := Numbered(entries[..|entries| - 1]);
      m[|m| + 1 := entries[|entries| - 1]]
  }

  /** The key of the i-th added error is i: keys follow the order of the calls. */
  lemma {:induction false} NumberedAt(entries: seq<Entry>)
    ensures forall k :: 1 <= k <= |entries| ==> Numbered(entries)[k] == entries[k - 1]
    decreases |entries|
  {
    if entries != [] {
      var init := entries[..|entries| - 1];
      NumberedAt(init);
      forall k | 1 <= k <= |entries|
        ensures Numbered(entries)[k] == entries[k - 1]
      {
        if k < |entries| {
          assert Numbered(init)[k] == init[k - 1];
        }
      }
    }
  }

  /** `add` once more: the next key is the number of errors so far plus one. */
  lemma NumberedAppend(entries: seq<Entry>, e: Entry)
    ensures Numbered(entries + [e]) == Numbered(entries)[|entries| + 1 := e]
  {
    assert (entries + [e])[..|entries|] == entries;
  }

  /**
   * One report line without its newline:
   * "<id> - <source padded to 85> <class> // <message without newlines> ".
   */
  function Line(id: nat, e: Entry): string {
    NatToString(id) + " - <" + LJust(e.source, 85) + "> " + e.failure.kind + " // " + RemoveChar(e.failure.message, '\n') + " "
  }

  /** The report lines, in key order. */
  function Lines(entries: seq<Entry>): (r: seq<string>)
    ensures |r| == |entries|
  {
    if entries == [] then []
    else Lines(entries[..|entries| - 1]) + [Line(|entries|, entries[|entries| - 1])]
  }

  /** `__str__` / `get_display_str`: every report line followed by a newline. */
  function Display(entries: seq<Entry>): string {
    Terminated(Lines(entries), "\n")
  }

  /** `log` of virus_cleaner.py: "[context]" when a context is known, nothing otherwise. */
  function ContextTag(context: string): string {
    if context == "" then "" else "[" + context + "]"
  }

  /** The summary line of virus_cleaner.py's `log`. */
  function ContextReport(entries: seq<Entry>, context: string): string {
    NatToString(|entries|) + " Errors occured during script " + ContextTag(context) + " :\n" + Display(entries)
  }

  /** The summary line of the shape-renaming scripts' `log`. */
  function PlainReport(entries: seq<Entry>): string {
    NatToString(|entries|) + " Errors occured during script : \n" + Display(entries)
  }

  lemma {:induction false} LinesFree(entries: seq<Entry>)
    requires forall k :: 0 <= k < |entries| ==> Free(entries[k].source, '\n') && Free(entries[k].failure.kind, '\n')
    ensures forall k :: 0 <= k < |entries| ==> Free(Lines(entries)[k], '\n')
    decreases |entries|
  {
    if entries != [] {
      var n := |entries|;
      var e := entries[n - 1];
      LinesFree(entries[..n - 1]);
      var id := NatToString(n);
      assert Free(id, '\n');
      ConcatFree(id, " - <", '\n');
      ConcatFree(id + " - <", LJust(e.source, 85), '\n');
      ConcatFree(id + " - <" + LJust(e.source, 85), "> ", '\n');
      ConcatFree(id + " - <" + LJust(e.source, 85) + "> ", e.failure.kind, '\n');
      ConcatFree(id + " - <" + LJust(e.source, 85) + "> " + e.failure.kind, " // ", '\n');
      ConcatFree(id + " - <" + LJust(e.source, 85) + "> " + e.failure.kind + " // ", RemoveChar(e.failure.message, '\n'), '\n');
      ConcatFree(id + " - <" + LJust(e.source, 85) + "> " + e.failure.kind + " // " + RemoveChar(e.failure.message, '\n'), " ", '\n');
      assert Lines(entries)[n - 1] == Line(n, e);
    }
  }

  /**
   * One error, one line: since messages lose their newlines, splitting the
   * report on newlines gives back exactly one line per error, numbered in
   * call order, whenever sources and class names hold no newline.
   */
  lemma DisplayReadBack(entries: seq<Entry>)
    requires forall k :: 0 <= k < |entries| ==> Free(entries[k].source, '\n') && Free(entries[k].failure.kind, '\n')
    ensures Split(Display(entries), "\n") == Lines(entries) + [""]
    ensures forall k :: 0 <= k < |entries| ==> Lines(entries)[k] == Line(k + 1, entries[k])
  {
    LinesFree(entries);
    TerminatedReadBack(Lines(entries), '\n');
    LinesAt(entries);
  }

  lemma {:induction false} LinesAt(entries: seq<Entry>)
    ensures forall k :: 0 <= k < |entries| ==> Lines(entries)[k] == Line(k + 1, entries[k])
    decreases |entries|
  {
    if entries != [] {
      var init := entries[..|entries| - 1];
      LinesAt(init);
      assert Lines(entries) == Lines(init) + [Line(|entries|, entries[|entries| - 1])];
      forall k | 0 <= k < |entries|
        ensures Lines(entries)[k] == Line(k + 1, entries[k])
      {
        if k < |init| {
          assert Lines(entries)[k] == Lines(init)[k];
        } else {
          assert Lines(entries)[k] == Line(|entries|, entries[k]);
        }
      }
    }
  }

  /**
   * `ErrorHandler`: `data` is the dictionary keyed by error number and
   * `context` the name given at construction ("" for None). The ghost
   * `added` lists the errors in the order `add` received them.
   */
  class ErrorHandler {
    const context: string
    var data: map<nat, Entry>
    ghost var added: seq<Entry>

    ghost predicate Valid()
      reads this
    {
      data == Numbered(added)
    }

    constructor(context: string)
      ensures Valid() && this.context == context && added == [] && data == map[]
    {
      this.context := context;
      data := map[];
      added := [];
    }

    /** `add`: the error is stored under the next number. */
    method Add(source: string, failure: Failure)
      requires Valid()
      modifies this
      ensures Valid() && added == old(added) + [Entry(source, failure)]
      ensures data == old(data)[|old(data)| + 1 := Entry(source, failure)]
    {
      NumberedAppend(added, Entry(source, failure));
      data := data[|data| + 1 := Entry(source, failure)];
      added := added + [Entry(source, failure)];
    }

    /** `__str__` / `get_display_str`, one line per dictionary item in key order. */
    method DisplayString() returns (text: string)
      requires Valid()
      ensures text == Display(added)
    {
      NumberedAt(added);
      text := "";
      for id := 1 to |data| + 1
        invariant text == Display(added[..id - 1])
      {
        var e := data[id];
        assert added[..id][..id - 1] == added[..id - 1];
        text := text + Line(id, e) + "\n";
      }
      assert added[..|added|] == added;
    }

    /**
     * `log` of virus_cleaner.py: nothing when no error was added; otherwise
     * one error-level record, under the context given to `log` or else the
     * one given at construction.
     */
    method LogWithContext(context: string) returns (record: Option<Record>)
      requires Valid()
      ensures record.None? <==> data == map[]
      ensures record.Some? ==> record.value == Record(Error, ContextReport(added, if context != "" then context else this.context))
    {
      if |data| == 0 {
        return None;
      }
      var display := DisplayString();
      var tag := if context != "" then context else this.context;
      return Some(Record(Error, NatToString(|data|) + " Errors occured during script " + ContextTag(tag) + " :\n" + display));
    }

    /**
     * `log` of the shape-renaming scripts: nothing when no error was added;
     * otherwise one record at the script's level (error in
     * shape_name_conform.py, info in maya_rename_shape.py).
     */
    method Log(level: Level) returns (record: Option<Record>)
      requires Valid()
      ensures record.None? <==> data == map[]
      ensures record.Some? ==> record.value == Record(level, PlainReport(added))
    {
      if |data| == 0 {
        return None;
      }
      var display := DisplayString();
      return Some(Record(level, NatToString(|data|) + " Errors occured during script : \n" + display));
    }
  }
}
