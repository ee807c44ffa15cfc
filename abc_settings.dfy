/**
 * PyAbcExport/core/settings.py: the arguments of Maya's AbcExport command
 * as objects with validated setters, each able to flatten itself to its
 * part of the command line (`arg_repr`).
 *
 * A Python number is kept as its value (for comparisons) together with the
 * text `str()` gives for it (for formatting); the model does not compute
 * that text.
 */
module AbcSettings {
  import opened Wrappers
  import opened Strings

  datatype Number = Number(value: real, text: string)

  /** The `data` dictionary of a `FrameRangeArg`. */
  datatype RangeData = RangeData(start: int, stop: int, step: Number, frs: seq<Number>)

  /** The defaults a new `FrameRangeArg` starts from. */
  const DefaultRange := RangeData(1, 100, Number(1.0, "1.0"), [])

  /** `start = value`: ignored (only logged) on a sub-range, otherwise stored with no check against `stop`. */
  function WithStart(d: RangeData, value: int, isSubRange: bool): (r: RangeData)
    ensures r.stop == d.stop && r.step == d.step && r.frs == d.frs
    ensures isSubRange ==> r == d
    ensures !isSubRange ==> r.start == value
  {
    if isSubRange then d else d.(start := value)
  }

  /** `stop = value`: a stop before the start raises TypeError. */
  function WithStop(d: RangeData, value: int): (r: Result<RangeData>)
    ensures r.Ok? <==> d.start <= value
    ensures r.Err? ==> r.error == TypeError
    ensures r.Ok? ==> r.value.stop == value && r.value.start == d.start && r.value.step == d.step && r.value.frs == d.frs
  {
    if value < d.start then Err(TypeError) else Ok(d.(stop := value))
  }

  /**
   * `frame_relative_sample = samples`: indexing the first two samples raises
   * IndexError on a shorter list; a first sample after the second raises
   * TypeError. Nothing bounds the length from above.
   */
  function WithFrs(d: RangeData, samples: seq<Number>): (r: Result<RangeData>)
    ensures r.Ok? <==> |samples| >= 2 && samples[0].value <= samples[1].value
    ensures |samples| < 2 ==> r == Err(IndexError)
    ensures |samples| >= 2 && samples[0].value > samples[1].value ==> r == Err(TypeError)
    ensures r.Ok? ==> r.value.frs == samples && r.value.start == d.start && r.value.stop == d.stop && r.value.step == d.step
  {
    if |samples| < 2 then Err(IndexError)
    else if samples[0].value > samples[1].value then Err(TypeError)
    else Ok(d.(frs := samples))
  }

  /** The data a setter leaves behind: the new data, or the old one when it raised. */
  function Applied(d: RangeData, r: Result<RangeData>): RangeData {
    if r.Ok? then r.value else d
  }

  function RangeHead(d: RangeData): seq<string> {
    ["-frameRange", IntToString(d.start), IntToString(d.stop), "-step", d.step.text]
  }

  function SampleWords(frs: seq<Number>): seq<string>
    requires |frs| >= 3
  {
    ["-frameRelativeSample", frs[0].text, "-frameRelativeSample", frs[1].text, "-frameRelativeSample", frs[2].text]
  }

  /**
   * `FrameRangeArg.arg_repr`: "-frameRange S E -step T", followed by three
   * "-frameRelativeSample" entries when samples are set; those read the
   * first three samples, so one or two samples raise IndexError.
   */
  function RangeRepr(d: RangeData): (r: Result<string>)
    ensures r.Err? <==> 0 < |d.frs| < 3
    ensures r.Err? ==> r.error == IndexError
  {
    var head := Join(RangeHead(d), " ");
    if d.frs == [] then Ok(head)
    else if |d.frs| < 3 then Err(IndexError)
    else Ok(head + " " + Join(SampleWords(d.frs), " "))
  }

  /** No number's text holds a space, so the words of the command line stay apart. */
  predicate SpaceFree(d: RangeData) {
    Free(d.step.text, ' ') && forall k :: 0 <= k < |d.frs| ==> Free(d.frs[k].text, ' ')
  }

  lemma RangeWordsFree(d: RangeData)
    requires SpaceFree(d)
    ensures forall k :: 0 <= k < |RangeHead(d)| ==> Free(RangeHead(d)[k], ' ')
    ensures |d.frs| >= 3 ==> forall k :: 0 <= k < |SampleWords(d.frs)| ==> Free(SampleWords(d.frs)[k], ' ')
  {
    IntToStringFree(d.start, ' ');
    IntToStringFree(d.stop, ' ');
    if |d.frs| >= 3 {
      assert Free(d.frs[0].text, ' ') && Free(d.frs[1].text, ' ') && Free(d.frs[2].text, ' ');
    }
  }

  /** The words of `arg_repr`, split at spaces. */
  lemma RangeReprSplit(d: RangeData)
    requires RangeRepr(d).Ok? && SpaceFree(d)
    ensures Split(RangeRepr(d).value, " ") == if d.frs == [] then RangeHead(d) else RangeHead(d) + SampleWords(d.frs)
  {
    RangeWordsFree(d);
    var head := RangeHead(d);
    if d.frs == [] {
      SplitJoinFree(head, ' ');
    } else {
      var samples := SampleWords(d.frs);
      JoinAppend(head, samples, " ");
      var words := head + samples;
      forall k | 0 <= k < |words| ensures Free(words[k], ' ') {
        if k >= |head| {
          assert words[k] == samples[k - |head|];
        }
      }
      SplitJoinFree(words, ' ');
    }
  }

  /**
   * Reading `arg_repr` back: split at spaces, it gives the flags in order,
   * the start and stop frames parse back to their values, and the step and
   * the three samples come back as they were formatted.
   */
  lemma RangeReprReadBack(d: RangeData)
    requires RangeRepr(d).Ok? && SpaceFree(d)
    ensures var w := Split(RangeRepr(d).value, " ");
      |w| == (if d.frs == [] then 5 else 11) &&
      w[0] == "-frameRange" && ParseInt(w[1]) == Ok(d.start) && ParseInt(w[2]) == Ok(d.stop) &&
      w[3] == "-step" && w[4] == d.step.text &&
      (d.frs != [] ==>
        w[5] == "-frameRelativeSample" && w[6] == d.frs[0].text &&
        w[7] == "-frameRelativeSample" && w[8] == d.frs[1].text &&
        w[9] == "-frameRelativeSample" && w[10] == d.frs[2].text)
  {
    RangeReprSplit(d);
    IntToStringParse(d.start);
    IntToStringParse(d.stop);
    var w := Split(RangeRepr(d).value, " ");
    if d.frs == [] {
      assert w == RangeHead(d);
    } else {
      assert w == RangeHead(d) + SampleWords(d.frs);
      assert w[5..] == SampleWords(d.frs);
    }
  }

  /**
   * The frs setter takes two samples, but the command line then cannot be
   * formed: `arg_repr` reads a third sample.
   */
  lemma TwoSamplesBreakRepr(d: RangeData, first: Number, second: Number)
    requires first.value <= second.value
    ensures WithFrs(d, [first, second]).Ok?
    ensures RangeRepr(Applied(d, WithFrs(d, [first, second]))) == Err(IndexError)
  {
  }

  /** After any accepted frs assignment, `arg_repr` succeeds exactly when at least three samples were given. */
  lemma AcceptedSamplesRepr(d: RangeData, samples: seq<Number>)
    requires WithFrs(d, samples).Ok?
    ensures RangeRepr(WithFrs(d, samples).value).Ok? <==> |samples| >= 3
  {
  }

  /** A range whose stop was just accepted is ordered, and the start setter can then break that order. */
  lemma StopOrdersRange(d: RangeData, stop: int, start: int)
    requires WithStop(d, stop).Ok?
    ensures WithStop(d, stop).value.start <= WithStop(d, stop).value.stop
    ensures start > stop ==> WithStart(WithStop(d, stop).value, start, false).start > WithStart(WithStop(d, stop).value, start, false).stop
  {
  }

  /** What a frame range is parented to; anything other than a frame range is `OtherParent`. */
  datatype Parent = NoParent | OtherParent | RangeParent(range: FrameRangeArg)

  class FrameRangeArg {
    var parent: Parent
    /** The single sub-range slot; a later `add_child` overwrites it. */
    var child: FrameRangeArg?
    var data: RangeData

    /** `FrameRangeArg(parent)`: the argument is ignored, the range is left unparented. */
    constructor()
      ensures parent == NoParent && child == null && data == DefaultRange
    {
      parent := NoParent;
      child := null;
      data := DefaultRange;
    }

    /** `is_subframerange` */
    predicate IsSubFrameRange()
      reads this
    {
      parent.RangeParent?
    }

    method SetStart(value: int)
      modifies this
      ensures data == WithStart(old(data), value, old(IsSubFrameRange()))
      ensures parent == old(parent) && child == old(child)
    {
      if IsSubFrameRange() {
        return;
      }
      data := data.(start := value);
    }

    method SetStop(value: int) returns (outcome: Outcome)
      modifies this
      ensures outcome == (if WithStop(old(data), value).Ok? then Pass else Fail(TypeError))
      ensures data == Applied(old(data), WithStop(old(data), value))
      ensures parent == old(parent) && child == old(child)
    {
      if value < data.start {
        return Fail(TypeError);
      }
      data := data.(stop := value);
      return Pass;
    }

    /** The step setter stores any value. */
    method SetStep(value: Number)
      modifies this
      ensures data == old(data).(step := value)
      ensures parent == old(parent) && child == old(child)
    {
      data := data.(step := value);
    }

    method SetFrameRelativeSample(samples: seq<Number>) returns (outcome: Outcome)
      modifies this
      ensures outcome == (match WithFrs(old(data), samples) case Ok(_) => Pass case Err(e) => Fail(e))
      ensures data == Applied(old(data), WithFrs(old(data), samples))
      ensures parent == old(parent) && child == old(child)
    {
      if |samples| < 2 {
        return Fail(IndexError);
      }
      if samples[0].value > samples[1].value {
        return Fail(TypeError);
      }
      data := data.(frs := samples);
      return Pass;
    }

    /**
     * The parent setter. A frame range parent takes this range as its child,
     * and this range's start becomes one after the parent's start; that start
     * assignment goes through the start setter, so it is dropped when this
     * range already was a sub-range. The parent is recorded last.
     */
    method SetParent(p: Parent)
      modifies if p.RangeParent? then {this, p.range} else {this}
      ensures parent == p
      ensures p.RangeParent? ==> p.range.child == this
      ensures p.RangeParent? ==> data == WithStart(old(data), old(p.range.data.start) + 1, old(IsSubFrameRange()))
      ensures !p.RangeParent? ==> data == old(data) && child == old(child)
      ensures p.RangeParent? && p.range != this ==> child == old(child)
      ensures p.RangeParent? && p.range != this ==> p.range.data == old(p.range.data) && p.range.parent == old(p.range.parent)
    {
      if p.RangeParent? {
        p.range.child := this;
        SetStart(p.range.data.start + 1);
      }
      parent := p;
    }

    function ArgRepr(): Result<string>
      reads this
    {
      RangeRepr(data)
    }
  }

  /** A fresh range parented to another fresh range starts one frame later and keeps that start against the start setter. */
  method SubRangeScenario(later: int) returns (parentStart: int, childStart: int, linked: bool)
    ensures parentStart == 1 && childStart == 2 && linked
  {
    var main := new FrameRangeArg();
    var sub := new FrameRangeArg();
    sub.SetParent(RangeParent(main));
    sub.SetStart(later);
    parentStart := main.data.start;
    childStart := sub.data.start;
    linked := main.child == sub && sub.IsSubFrameRange();
  }

  /** The tokens a file path can hold. */
  datatype Token = FStart | FStop | Step

  function TokenText(t: Token): string {
    match t
    case FStart => "$FSTART"
    case FStop => "$FSTOP"
    case Step => "$STEP"
  }

  /** What a token stands for in a frame range. */
  function TokenValue(t: Token, d: RangeData): string {
    match t
    case FStart => IntToString(d.start)
    case FStop => IntToString(d.stop)
    case Step => d.step.text
  }

  /** `FilepathArg.value`: the tokens replaced, in this order, by the range's current values. */
  function Substitute(raw: string, d: RangeData): string {
    var withStart := ReplaceAll(raw, TokenText(FStart), TokenValue(FStart, d));
    var withStop := ReplaceAll(withStart, TokenText(FStop), TokenValue(FStop, d));
    ReplaceAll(withStop, TokenText(Step), TokenValue(Step, d))
  }

  /** A path without '$' holds no token and is used as it is. */
  lemma SubstituteNoTokens(raw: string, d: RangeData)
    requires Free(raw, '$')
    ensures Substitute(raw, d) == raw
  {
    FreeNotContains(raw, "$FSTART");
    ReplaceAbsent(raw, "$FSTART", IntToString(d.start));
    FreeNotContains(raw, "$FSTOP");
    ReplaceAbsent(raw, "$FSTOP", IntToString(d.stop));
    FreeNotContains(raw, "$STEP");
    ReplaceAbsent(raw, "$STEP", d.step.text);
  }

  /** The path with a token filled holds no '$' when the step's text holds none. */
  lemma FilledFree(before: string, t: Token, after: string, d: RangeData)
    requires Free(before, '$') && Free(after, '$') && Free(d.step.text, '$')
    ensures Free(before + TokenValue(t, d) + after, '$')
  {
    IntToStringFree(d.start, '$');
    IntToStringFree(d.stop, '$');
    ConcatFree(before, TokenValue(t, d), '$');
    ConcatFree(before + TokenValue(t, d), after, '$');
  }

  lemma SubstituteFStart(before: string, after: string, d: RangeData)
    requires Free(before, '$') && Free(after, '$') && Free(d.step.text, '$')
    ensures Substitute(before + "$FSTART" + after, d) == before + IntToString(d.start) + after
  {
    var filled := before + IntToString(d.start) + after;
    ReplaceOnce(before, "$FSTART", after, IntToString(d.start));
    FilledFree(before, FStart, after, d);
    FreeNotContains(filled, "$FSTOP");
    ReplaceAbsent(filled, "$FSTOP", IntToString(d.stop));
    FreeNotContains(filled, "$STEP");
    ReplaceAbsent(filled, "$STEP", d.step.text);
  }

  lemma SubstituteFStop(before: string, after: string, d: RangeData)
    requires Free(before, '$') && Free(after, '$') && Free(d.step.text, '$')
    ensures Substitute(before + "$FSTOP" + after, d) == before + IntToString(d.stop) + after
  {
    var raw := before + "$FSTOP" + after;
    var filled := before + IntToString(d.stop) + after;
    assert Free("$FSTOP"[1..], '$');
    MarkedAbsent(before, "$FSTOP", after, "$FSTART", 4);
    ReplaceAbsent(raw, "$FSTART", IntToString(d.start));
    ReplaceOnce(before, "$FSTOP", after, IntToString(d.stop));
    FilledFree(before, FStop, after, d);
    FreeNotContains(filled, "$STEP");
    ReplaceAbsent(filled, "$STEP", d.step.text);
  }

  lemma SubstituteStep(before: string, after: string, d: RangeData)
    requires Free(before, '$') && Free(after, '$')
    ensures Substitute(before + "$STEP" + after, d) == before + d.step.text + after
  {
    var raw := before + "$STEP" + after;
    assert Free("$STEP"[1..], '$');
    MarkedAbsent(before, "$STEP", after, "$FSTART", 1);
    ReplaceAbsent(raw, "$FSTART", IntToString(d.start));
    MarkedAbsent(before, "$STEP", after, "$FSTOP", 1);
    ReplaceAbsent(raw, "$FSTOP", IntToString(d.stop));
    ReplaceOnce(before, "$STEP", after, d.step.text);
  }

  /** A path holding one token and no other '$' reads with that token replaced by the range's value. */
  lemma SubstituteOne(before: string, t: Token, after: string, d: RangeData)
    requires Free(before, '$') && Free(after, '$') && Free(d.step.text, '$')
    ensures Substitute(before + TokenText(t) + after, d) == before + TokenValue(t, d) + after
  {
    match t
    case FStart => SubstituteFStart(before, after, d);
    case FStop => SubstituteFStop(before, after, d);
    case Step => SubstituteStep(before, after, d);
  }

  /** A file path read as literal text and tokens. */
  datatype Piece = Text(text: string) | Tok(token: Token)

  /** The path the pieces spell, tokens written out. */
  function Template(ps: seq<Piece>): string {
    if ps == [] then ""
    else (match ps[0] case Text(t) => t case Tok(t) => TokenText(t)) + Template(ps[1..])
  }

  /** A piece with the tokens in `filled` replaced by their values in `d`. */
  function PieceText(p: Piece, filled: set<Token>, d: RangeData): string {
    match p
    case Text(t) => t
    case Tok(t) => if t in filled then TokenValue(t, d) else TokenText(t)
  }

  /** The pieces with the tokens in `filled` replaced by their values. */
  function Filled(ps: seq<Piece>, filled: set<Token>, d: RangeData): string {
    if ps == [] then "" else PieceText(ps[0], filled, d) + Filled(ps[1..], filled, d)
  }

  /** The literal text holds no '$', so every '$' of the path opens a token. */
  predicate PlainText(ps: seq<Piece>) {
    forall k :: 0 <= k < |ps| && ps[k].Text? ==> Free(ps[k].text, '$')
  }

  lemma {:induction false} TemplateIsUnfilled(ps: seq<Piece>, d: RangeData)
    ensures Template(ps) == Filled(ps, {}, d)
    decreases |ps|
  {
    if ps != [] {
      TemplateIsUnfilled(ps[1..], d);
    }
  }

  /** One token's text is never found at the head of another token's text. */
  lemma TokensDiffer(u: Token, t: Token, rest: string)
    requires u != t
    ensures !OccursAt(TokenText(u) + rest, TokenText(t), 0)
  {
    var s := TokenText(u) + rest;
    var p := TokenText(t);
    var k := if u == Step || t == Step then 1 else 4;
    assert s[k] == TokenText(u)[k] != p[k];
    if |p| <= |s| {
      assert s[0..|p|][k] != p[k];
    }
  }

  /** Inside a token's text only its first character is '$'. */
  lemma TokenTail(u: Token, rest: string, t: Token, j: nat)
    requires 0 < j < |TokenText(u)|
    ensures !OccursAt(TokenText(u) + rest, TokenText(t), j)
  {
    var s := TokenText(u) + rest;
    assert s[j] == TokenText(u)[j] != '$';
    if j + |TokenText(t)| <= |s| {
      assert s[j..j + |TokenText(t)|][0] == s[j];
    }
  }

  /** A text without '$' starts no token. */
  lemma FreeHead(x: string, rest: string, t: Token)
    requires Free(x, '$')
    ensures forall j :: 0 <= j < |x| ==> !OccursAt(x + rest, TokenText(t), j)
  {
    forall j | 0 <= j < |x| ensures !OccursAt(x + rest, TokenText(t), j) {
      assert (x + rest)[j] == x[j];
      if j + |TokenText(t)| <= |x + rest| {
        assert (x + rest)[j..j + |TokenText(t)|][0] == (x + rest)[j];
      }
    }
  }

  /** A value put in for a token holds no '$' when the step's text holds none. */
  lemma ValueFree(t: Token, d: RangeData)
    requires Free(d.step.text, '$')
    ensures Free(TokenValue(t, d), '$')
  {
    IntToStringFree(d.start, '$');
    IntToStringFree(d.stop, '$');
  }

  /** One `replace` pass fills token `t` wherever it stands and touches nothing else. */
  lemma {:induction false} ReplacePass(ps: seq<Piece>, filled: set<Token>, t: Token, d: RangeData)
    requires PlainText(ps) && Free(d.step.text, '$') && t !in filled
    ensures ReplaceAll(Filled(ps, filled, d), TokenText(t), TokenValue(t, d)) == Filled(ps, filled + {t}, d)
    decreases |ps|
  {
    var p := TokenText(t);
    var v := TokenValue(t, d);
    if ps == [] {
      ReplaceEmpty(p, v);
    } else {
      var head := PieceText(ps[0], filled, d);
      var rest := Filled(ps[1..], filled, d);
      assert PlainText(ps[1..]) by {
        forall k | 0 <= k < |ps[1..]| && ps[1..][k].Text? ensures Free(ps[1..][k].text, '$') {
          assert ps[1..][k] == ps[k + 1];
        }
      }
      ReplacePass(ps[1..], filled, t, d);
      match ps[0]
      case Text(x) =>
        assert Free(ps[0].text, '$');
        FreeHead(x, rest, t);
        ReplaceAfterPrefix(x, rest, p, v);
      case Tok(u) =>
        if u == t {
          ReplaceAtFront(p, rest, v);
        } else if u in filled {
          ValueFree(u, d);
          FreeHead(TokenValue(u, d), rest, t);
          ReplaceAfterPrefix(TokenValue(u, d), rest, p, v);
        } else {
          forall j | 0 <= j < |TokenText(u)| ensures !OccursAt(TokenText(u) + rest, p, j) {
            if j == 0 {
              TokensDiffer(u, t, rest);
            } else {
              TokenTail(u, rest, t, j);
            }
          }
          ReplaceAfterPrefix(TokenText(u), rest, p, v);
        }
    }
  }

  /**
   * Reading a path made of '$'-free text and any number of tokens, in any
   * order and repeated or not, gives the text with every token replaced by
   * the range's value, provided the step's text holds no '$'.
   */
  lemma SubstituteTemplate(ps: seq<Piece>, d: RangeData)
    requires PlainText(ps) && Free(d.step.text, '$')
    ensures Substitute(Template(ps), d) == Filled(ps, {FStart, FStop, Step}, d)
  {
    TemplateIsUnfilled(ps, d);
    ReplacePass(ps, {}, FStart, d);
    ReplacePass(ps, {FStart}, FStop, d);
    ReplacePass(ps, {FStart, FStop}, Step, d);
    assert {} + {FStart} == {FStart};
    assert {FStart} + {FStop} == {FStart, FStop};
    assert {FStart, FStop} + {Step} == {FStart, FStop, Step};
  }

  /** A piece in front of others contributes its own text to both readings. */
  lemma PiecesCons(p: Piece, ps: seq<Piece>, filled: set<Token>, d: RangeData)
    ensures Template([p] + ps) == PieceText(p, {}, d) + Template(ps)
    ensures Filled([p] + ps, filled, d) == PieceText(p, filled, d) + Filled(ps, filled, d)
  {
    assert ([p] + ps)[1..] == ps;
  }

  /** The pieces of "a$FSTARTb$FSTOPc", and what they read as unfilled and filled. */
  lemma StartStopPieces(a: string, b: string, c: string, d: RangeData) returns (ps: seq<Piece>)
    requires Free(a, '$') && Free(b, '$') && Free(c, '$')
    ensures PlainText(ps)
    ensures Template(ps) == a + "$FSTART" + b + "$FSTOP" + c
    ensures Filled(ps, {FStart, FStop, Step}, d) == a + IntToString(d.start) + b + IntToString(d.stop) + c
  {
    var all := {FStart, FStop, Step};
    var p4 := [Text(c)] + [];
    var p3 := [Tok(FStop)] + p4;
    var p2 := [Text(b)] + p3;
    var p1 := [Tok(FStart)] + p2;
    ps := [Text(a)] + p1;
    PiecesCons(Text(c), [], all, d);
    PiecesCons(Tok(FStop), p4, all, d);
    PiecesCons(Text(b), p3, all, d);
    PiecesCons(Tok(FStart), p2, all, d);
    PiecesCons(Text(a), p1, all, d);
    assert ps == [Text(a), Tok(FStart), Text(b), Tok(FStop), Text(c)];
  }

  /** Worked example: start and stop in one path. */
  lemma SubstituteStartStop(a: string, b: string, c: string, d: RangeData)
    requires Free(a, '$') && Free(b, '$') && Free(c, '$') && Free(d.step.text, '$')
    ensures Substitute(a + "$FSTART" + b + "$FSTOP" + c, d) == a + IntToString(d.start) + b + IntToString(d.stop) + c
  {
    var ps := StartStopPieces(a, b, c, d);
    SubstituteTemplate(ps, d);
  }

  /** The `-file` argument: a path whose tokens are filled from the owning settings' frame range when read. */
  class FilepathArg {
    /** The path as assigned, tokens included. */
    var raw: string
    /** The owning settings object; `null` stands for a parent without a frame range. */
    var settings: ExportSettings?

    /** `FilepathArg(parent, filepath)`: an empty or missing path leaves the value empty. */
    constructor(settings: ExportSettings?, filepath: Option<string>)
      ensures this.settings == settings
      ensures raw == (if filepath.Some? then filepath.value else "")
    {
      this.settings := settings;
      raw := "";
      if filepath.Some? && filepath.value != "" {
        raw := filepath.value;
      }
    }

    /** `value`: reading the frame range of a parent that has none raises AttributeError. */
    function Value(): (r: Result<string>)
      reads this, settings, if settings != null then {settings.framerange} else {}
      ensures r.Err? <==> settings == null
      ensures r.Ok? && Free(raw, '$') ==> r.value == raw
      ensures r.Ok? ==> forall ps :: Template(ps) == raw && PlainText(ps) && Free(settings.framerange.data.step.text, '$') ==>
        r.value == Filled(ps, {FStart, FStop, Step}, settings.framerange.data)
    {
      if settings == null then Err(AttributeError)
      else
        var d := settings.framerange.data;
        var v := Substitute(raw, d);
        assert Free(raw, '$') ==> v == raw by {
          if Free(raw, '$') {
            SubstituteNoTokens(raw, d);
          }
        }
        assert forall ps :: Template(ps) == raw && PlainText(ps) && Free(d.step.text, '$') ==> v == Filled(ps, {FStart, FStop, Step}, d) by {
          forall ps | Template(ps) == raw && PlainText(ps) && Free(d.step.text, '$')
            ensures v == Filled(ps, {FStart, FStop, Step}, d)
          {
            SubstituteTemplate(ps, d);
          }
        }
        Ok(v)
    }

    function ArgRepr(): (r: Result<string>)
      reads this, settings, if settings != null then {settings.framerange} else {}
      ensures r.Ok? <==> Value().Ok?
      ensures r.Ok? ==> r.value == "-file " + Value().value
    {
      match Value()
      case Ok(v) => Ok("-file " + v)
      case Err(e) => Err(e)
    }

    /** The `value` setter stores the path as given; tokens are filled only when it is read. */
    method SetValue(filepath: string)
      modifies this
      ensures raw == filepath && settings == old(settings)
    {
      raw := filepath;
    }
  }

  /** The two attribute options: `AttrsArg` and its subclass `AttrsPrefixArg`. */
  datatype AttrKind = Attr | AttrPrefix

  function KindFlag(kind: AttrKind): string {
    match kind
    case Attr => "-attr"
    case AttrPrefix => "-attrPrefix"
  }

  /** What `add` is given: `None`, a single name, or an iterable of names. */
  datatype AttrInput = NoAttrs | Single(name: string) | Many(names: seq<string>)

  /** Python truthiness of the input. */
  predicate Truthy(input: AttrInput) {
    match input
    case NoAttrs => false
    case Single(name) => name != ""
    case Many(names) => names != []
  }

  /** `add`: a string is appended, an iterable extends the list; extending with `None` raises TypeError. */
  function Added(attributes: seq<string>, input: AttrInput): (r: Result<seq<string>>)
    ensures r.Err? <==> input.NoAttrs?
    ensures input.Single? ==> r == Ok(attributes + [input.name])
    ensures input.Many? ==> r.Ok? && attributes <= r.value && r.value[|attributes|..] == input.names
  {
    match input
    case NoAttrs => Err(TypeError)
    case Single(name) => Ok(attributes + [name])
    case Many(names) => Ok(attributes + names)
  }

  /** The command words for a list of attributes: the flag, then the name, for each in order. */
  function AttrWords(kind: AttrKind, attributes: seq<string>): (w: seq<string>)
    ensures |w| == 2 * |attributes|
  {
    if attributes == [] then [] else [KindFlag(kind), attributes[0]] + AttrWords(kind, attributes[1..])
  }

  lemma {:induction false} AttrWordsAt(kind: AttrKind, attributes: seq<string>)
    ensures forall i :: 0 <= i < |attributes| ==>
      AttrWords(kind, attributes)[2 * i] == KindFlag(kind) && AttrWords(kind, attributes)[2 * i + 1] == attributes[i]
    decreases |attributes|
  {
    if attributes != [] {
      var rest := attributes[1..];
      AttrWordsAt(kind, rest);
      var w := AttrWords(kind, attributes);
      forall i | 1 <= i < |attributes|
        ensures w[2 * i] == KindFlag(kind) && w[2 * i + 1] == attributes[i]
      {
        assert w[2 * i] == AttrWords(kind, rest)[2 * (i - 1)];
        assert w[2 * i + 1] == AttrWords(kind, rest)[2 * (i - 1) + 1];
        assert attributes[i] == rest[i - 1];
      }
    }
  }

  /** "-flag name" pieces joined by spaces are the words joined by spaces. */
  lemma {:induction false} FlagsJoin(kind: AttrKind, attributes: seq<string>, flags: seq<string>)
    requires |flags| == |attributes|
    requires forall j :: 0 <= j < |flags| ==> flags[j] == KindFlag(kind) + " " + attributes[j]
    ensures Join(flags, " ") == Join(AttrWords(kind, attributes), " ")
    decreases |attributes|
  {
    if |attributes| == 1 {
      assert AttrWords(kind, attributes) == [KindFlag(kind), attributes[0]];
    } else if |attributes| > 1 {
      var rest := attributes[1..];
      FlagsJoin(kind, rest, flags[1..]);
      var words := AttrWords(kind, rest);
      assert AttrWords(kind, attributes) == [KindFlag(kind)] + ([attributes[0]] + words);
      JoinAppend([KindFlag(kind)], [attributes[0]] + words, " ");
      JoinAppend([attributes[0]], words, " ");
      assert Join(flags, " ") == flags[0] + " " + Join(flags[1..], " ");
      assert Join(AttrWords(kind, attributes), " ") == KindFlag(kind) + " " + (attributes[0] + " " + Join(words, " "));
    }
  }

  /**
   * Reading an attributes argument back: split at spaces, the words
   * alternate the option flag and the attribute names, in order.
   */
  lemma AttrsReprWords(kind: AttrKind, attributes: seq<string>)
    requires attributes != [] && forall k :: 0 <= k < |attributes| ==> Free(attributes[k], ' ')
    ensures var w := Split(Join(AttrWords(kind, attributes), " "), " ");
      |w| == 2 * |attributes| &&
      forall i :: 0 <= i < |attributes| ==> w[2 * i] == KindFlag(kind) && w[2 * i + 1] == attributes[i]
  {
    var w := AttrWords(kind, attributes);
    AttrWordsAt(kind, attributes);
    forall k | 0 <= k < |w| ensures Free(w[k], ' ') {
      if k % 2 == 0 {
        assert w[2 * (k / 2)] == KindFlag(kind);
      } else {
        assert w[2 * (k / 2) + 1] == attributes[k / 2];
      }
    }
    SplitJoinFree(w, ' ');
  }

  /** `AttrsArg` and `AttrsPrefixArg`: a list of attribute names exported under one option. */
  class AttrsArg {
    const kind: AttrKind
    var attributes: seq<string>

    /** `AttrsArg(parent, attributes)`: a falsy input (`None`, "", []) adds nothing. */
    constructor(kind: AttrKind, input: AttrInput)
      ensures this.kind == kind
      ensures attributes == (if Truthy(input) then Added([], input).value else [])
    {
      this.kind := kind;
      attributes := [];
      if Truthy(input) {
        match input
        case Single(name) => attributes := [name];
        case Many(names) => attributes := names;
      }
    }

    method Add(input: AttrInput) returns (outcome: Outcome)
      modifies this
      ensures outcome == (if input.NoAttrs? then Fail(TypeError) else Pass)
      ensures attributes == (if input.NoAttrs? then old(attributes) else Added(old(attributes), input).value)
    {
      outcome := Pass;
      match input
      case NoAttrs =>
        outcome := Fail(TypeError);
      case Single(name) =>
        attributes := attributes + [name];
      case Many(names) =>
        attributes := attributes + names;
    }

    /** `arg_repr`: one "-flag name" piece per attribute, joined by single spaces; no attributes give "". */
    method ArgRepr() returns (r: string)
      ensures r == Join(AttrWords(kind, attributes), " ")
      ensures attributes == [] ==> r == ""
    {
      var output: seq<string> := [];
      for i := 0 to |attributes|
        invariant |output| == i
        invariant forall j :: 0 <= j < i ==> output[j] == KindFlag(kind) + " " + attributes[j]
      {
        output := output + [KindFlag(kind) + " " + attributes[i]];
      }
      FlagsJoin(kind, attributes, output);
      r := Join(output, " ");
    }
  }

  /** What the `filepath` setter is given: a path (or `None`), or an existing argument object. */
  datatype FilepathInput = PathText(path: Option<string>) | PathObject(arg: FilepathArg)

  /** What the `attributes` setter is given: raw names, or an existing argument object. */
  datatype AttributesInput = AttrValues(input: AttrInput) | AttrsObject(arg: AttrsArg)

  /** All the arguments of one export. */
  class ExportSettings {
    var filepath: FilepathArg
    /** There is no setter for the frame range. */
    const framerange: FrameRangeArg
    var attributes: AttrsArg

    constructor()
      ensures fresh(filepath) && fresh(framerange) && fresh(attributes)
      ensures filepath.settings == this && filepath.raw == ""
      ensures framerange.parent == NoParent && framerange.child == null && framerange.data == DefaultRange
      ensures attributes.kind == Attr && attributes.attributes == []
    {
      filepath := new FilepathArg(null, None);
      framerange := new FrameRangeArg();
      attributes := new AttrsArg(Attr, NoAttrs);
      new;
      filepath.settings := this;
    }

    /** The `filepath` setter: a path is wrapped in a new argument owned by these settings. */
    method SetFilepath(value: FilepathInput)
      modifies this
      ensures value.PathObject? ==> filepath == value.arg
      ensures value.PathText? ==> fresh(filepath) && filepath.settings == this
      ensures value.PathText? ==> filepath.raw == (if value.path.Some? then value.path.value else "")
      ensures attributes == old(attributes)
    {
      match value
      case PathObject(arg) =>
        filepath := arg;
      case PathText(path) =>
        filepath := new FilepathArg(this, path);
    }

    /** The `attributes` setter: raw names are wrapped in a new `AttrsArg` (never an `AttrsPrefixArg`). */
    method SetAttributes(value: AttributesInput)
      modifies this
      ensures value.AttrsObject? ==> attributes == value.arg
      ensures value.AttrValues? ==> fresh(attributes) && attributes.kind == Attr
      ensures value.AttrValues? ==> attributes.attributes == (if Truthy(value.input) then Added([], value.input).value else [])
      ensures filepath == old(filepath)
    {
      match value
      case AttrsObject(arg) =>
        attributes := arg;
      case AttrValues(input) =>
        attributes := new AttrsArg(Attr, input);
    }
  }

  /** A token in the path follows the frame range as it changes: reading the path after a new stop shows that stop. */
  method PathFollowsRange(before: string, after: string, stop: int) returns (value: Result<string>)
    requires Free(before, '$') && Free(after, '$') && stop >= 1
    ensures value == Ok(before + IntToString(stop) + after)
  {
    var settings := new ExportSettings();
    settings.SetFilepath(PathText(Some(before + "$FSTOP" + after)));
    var outcome := settings.framerange.SetStop(stop);
    SubstituteOne(before, FStop, after, settings.framerange.data);
    value := settings.filepath.Value();
  }
}
