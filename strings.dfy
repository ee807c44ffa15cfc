/**
 * The Python `str` operations the modelled code relies on, written out over
 * `seq<char>`: substring search (`in`, `find`), `split`, `join`, `replace`,
 * `startswith`/`endswith`, `lstrip`, `ljust`, `zfill`, `str(int)` and
 * `int(str)` for plain decimal text, and ASCII `lower()`.
 */
module Strings {
  import opened Wrappers

  /** `p` occurs in `s` starting at index `i`. */
  predicate OccursAt(s: string, p: string, i: nat) {
    i + |p| <= |s| && s[i..i + |p|] == p
  }

  /** `s.startswith(p)` */
  predicate StartsWith(s: string, p: string) {
    p <= s
  }

  /** `s.endswith(p)` */
  predicate EndsWith(s: string, p: string) {
    |p| <= |s| && s[|s| - |p|..] == p
  }

  /** The first index `>= from` at which `p` occurs in `s` (`s.find(p, from)`). */
  function FindFrom(s: string, p: string, from: nat): (r: Option<nat>)
    ensures r.Some? ==> from <= r.value && OccursAt(s, p, r.value)
    ensures r.Some? ==> forall j :: from <= j < r.value ==> !OccursAt(s, p, j)
    ensures r.None? ==> forall j :: from <= j ==> !OccursAt(s, p, j)
    decreases |s| - from
  {
    if from + |p| > |s| then None
    else if OccursAt(s, p, from) then Some(from)
    else FindFrom(s, p, from + 1)
  }

  /** `p in s` */
  predicate Contains(s: string, p: string) {
    FindFrom(s, p, 0).Some?
  }

  lemma ContainsAt(s: string, p: string, i: nat)
    requires OccursAt(s, p, i)
    ensures Contains(s, p)
  {
  }

  lemma {:induction false} NotContainsPrefix(s: string, p: string, k: nat)
    requires !Contains(s, p) && k <= |s|
    ensures !Contains(s[..k], p)
  {
    var r := FindFrom(s[..k], p, 0);
    if r.Some? {
      assert s[..k][r.value..r.value + |p|] == s[r.value..r.value + |p|];
      assert OccursAt(s, p, r.value);
    }
  }

  /** `sep.join(parts)` */
  function Join(parts: seq<string>, sep: string): string {
    if |parts| == 0 then ""
    else if |parts| == 1 then parts[0]
    else parts[0] + sep + Join(parts[1..], sep)
  }

  /** `s.split(sep)` for a non-empty separator: scans left to right and cuts at every non-overlapping occurrence. */
  function Split(s: string, sep: string): (parts: seq<string>)
    requires sep != ""
    ensures |parts| >= 1
    decreases |s|
  {
    match FindFrom(s, sep, 0)
    case None => [s]
    case Some(i) => [s[..i]] + Split(s[i + |sep|..], sep)
  }

  lemma JoinCons(head: string, tail: seq<string>, sep: string)
    requires tail != []
    ensures Join([head] + tail, sep) == head + sep + Join(tail, sep)
  {
    assert ([head] + tail)[1..] == tail;
  }

  lemma JoinFive(a: string, b: string, c: string, d: string, e: string, sep: string)
    ensures Join([a, b, c, d, e], sep) == a + sep + b + sep + c + sep + d + sep + e
  {
    JoinCons(d, [e], sep);
    assert [d, e] == [d] + [e];
    JoinCons(c, [d, e], sep);
    assert [c, d, e] == [c] + [d, e];
    JoinCons(b, [c, d, e], sep);
    assert [b, c, d, e] == [b] + [c, d, e];
    JoinCons(a, [b, c, d, e], sep);
    assert [a, b, c, d, e] == [a] + [b, c, d, e];
  }

  /** Splitting and joining again with the same separator gives back the string. */
  lemma {:induction false} JoinSplit(s: string, sep: string)
    requires sep != ""
    ensures Join(Split(s, sep), sep) == s
    decreases |s|
  {
    match FindFrom(s, sep, 0)
    case None =>
    case Some(i) =>
      var rest := s[i + |sep|..];
      assert Split(s, sep) == [s[..i]] + Split(rest, sep);
      JoinSplit(rest, sep);
      JoinCons(s[..i], Split(rest, sep), sep);
      assert Join(Split(s, sep), sep) == s[..i] + sep + rest;
      assert s[i..i + |sep|] == sep;
      assert s == s[..i] + s[i..i + |sep|] + rest;
  }

  lemma EndsWithTail(head: string, tail: string)
    ensures EndsWith(head + tail, tail)
  {
    assert (head + tail)[|head|..] == tail;
  }

  /** No piece of a split contains the separator. */
  lemma {:induction false} SplitPiecesFree(s: string, sep: string)
    requires sep != ""
    ensures forall k :: 0 <= k < |Split(s, sep)| ==> !Contains(Split(s, sep)[k], sep)
    decreases |s|
  {
    match FindFrom(s, sep, 0)
    case None =>
    case Some(i) =>
      SplitPiecesFree(s[i + |sep|..], sep);
      var head := s[..i];
      if Contains(head, sep) {
        var j := FindFrom(head, sep, 0).value;
        assert head[j..j + |sep|] == s[j..j + |sep|];
        assert OccursAt(s, sep, j);
      }
  }

  /** `s.split(c)[0]`: the text before the first `c`, or all of `s` when there is none. */
  lemma SplitFirstPiece(s: string, c: char)
    ensures var head := Split(s, [c])[0];
      head == s[..|head|] && Free(head, c) && (|head| == |s| || s[|head|] == c)
  {
    var head := Split(s, [c])[0];
    match FindFrom(s, [c], 0)
    case None =>
      forall k | 0 <= k < |s| ensures s[k] != c {
        assert !OccursAt(s, [c], k);
        assert s[k..k + 1] == [s[k]];
      }
    case Some(i) =>
      assert head == s[..i];
      forall k | 0 <= k < i ensures s[k] != c {
        assert !OccursAt(s, [c], k);
        assert s[k..k + 1] == [s[k]];
      }
      assert s[i..i + 1] == [c];
  }

  /** `p` occurs at `i` and nowhere before. */
  predicate IsFirstOccurrence(s: string, p: string, i: nat) {
    OccursAt(s, p, i) && forall j :: 0 <= j < i ==> !OccursAt(s, p, j)
  }

  lemma FirstOccurrenceFound(s: string, p: string, i: nat)
    requires IsFirstOccurrence(s, p, i)
    ensures FindFrom(s, p, 0) == Some(i)
  {
  }

  /** The text after the first occurrence of `sep`, or all of `s` when there is none: `s.split(sep, 1)[-1]`. */
  function AfterFirst(s: string, sep: string): (r: string)
    requires sep != ""
    ensures Contains(s, sep) ==> exists i: nat :: IsFirstOccurrence(s, sep, i) && r == s[i + |sep|..]
    ensures !Contains(s, sep) ==> r == s
  {
    match FindFrom(s, sep, 0)
    case None => s
    case Some(i) =>
      assert IsFirstOccurrence(s, sep, i);
      s[i + |sep|..]
  }

  /** The last element of a non-empty sequence (`xs[-1]`). */
  function Last<T>(xs: seq<T>): T
    requires |xs| > 0
  {
    xs[|xs| - 1]
  }

  /** `s.replace(old, new)`, which Python defines as `new.join(s.split(old))`. */
  function ReplaceAll(s: string, pattern: string, replacement: string): string
    requires pattern != ""
  {
    Join(Split(s, pattern), replacement)
  }

  lemma ReplaceAbsent(s: string, pattern: string, replacement: string)
    requires pattern != "" && !Contains(s, pattern)
    ensures ReplaceAll(s, pattern, replacement) == s
  {
  }

  predicate Free(s: string, c: char) {
    forall k :: 0 <= k < |s| ==> s[k] != c
  }

  lemma {:induction false} SplitKeepsFree(s: string, sep: string, c: char)
    requires sep != "" && Free(s, c)
    ensures forall k :: 0 <= k < |Split(s, sep)| ==> Free(Split(s, sep)[k], c)
    decreases |s|
  {
    match FindFrom(s, sep, 0)
    case None =>
    case Some(i) =>
      SplitKeepsFree(s[i + |sep|..], sep, c);
      assert forall k :: 0 <= k < |s[..i]| ==> s[..i][k] == s[k];
  }

  lemma {:induction false} JoinKeepsFree(parts: seq<string>, sep: string, c: char)
    requires Free(sep, c) && forall k :: 0 <= k < |parts| ==> Free(parts[k], c)
    ensures Free(Join(parts, sep), c)
  {
    if |parts| > 1 {
      JoinKeepsFree(parts[1..], sep, c);
      var rest := Join(parts[1..], sep);
      var all := parts[0] + sep + rest;
      forall k | 0 <= k < |all| ensures all[k] != c {
        if k < |parts[0]| {
          assert all[k] == parts[0][k];
        } else if k < |parts[0]| + |sep| {
          assert all[k] == sep[k - |parts[0]|];
        } else {
          assert all[k] == rest[k - |parts[0]| - |sep|];
        }
      }
    }
  }

  lemma ConcatFree(a: string, b: string, c: char)
    requires Free(a, c) && Free(b, c)
    ensures Free(a + b, c)
  {
    forall k | 0 <= k < |a + b| ensures (a + b)[k] != c {
      if k >= |a| {
        assert (a + b)[k] == b[k - |a|];
      }
    }
  }

  /** Replacing never brings in a character that neither the text nor the replacement has. */
  lemma ReplaceKeepsFree(s: string, pattern: string, replacement: string, c: char)
    requires pattern != "" && Free(s, c) && Free(replacement, c)
    ensures Free(ReplaceAll(s, pattern, replacement), c)
  {
    SplitKeepsFree(s, pattern, c);
    JoinKeepsFree(Split(s, pattern), replacement, c);
  }

  /** `s.lstrip(c)` for a single character. */
  function LStrip(s: string, c: char): (r: string)
    ensures |r| <= |s| && r == s[|s| - |r|..]
    ensures r == [] || r[0] != c
    ensures forall k :: 0 <= k < |s| - |r| ==> s[k] == c
  {
    if s != [] && s[0] == c then
      var r := LStrip(s[1..], c);
      assert s[1..][|s| - 1 - |r|..] == s[|s| - |r|..];
      assert forall k :: 1 <= k < |s| - |r| ==> s[k] == s[1..][k - 1];
      r
    else s
  }

  function Repeat(c: char, n: nat): (r: string)
    ensures |r| == n && forall k :: 0 <= k < n ==> r[k] == c
  {
    if n == 0 then "" else [c] + Repeat(c, n - 1)
  }

  /** `s.ljust(width)`: padded on the right with spaces. */
  function LJust(s: string, width: nat): (r: string)
    ensures |r| == if |s| < width then width else |s|
    ensures s <= r
    ensures forall k :: |s| <= k < |r| ==> r[k] == ' '
  {
    if |s| < width then s + Repeat(' ', width - |s|) else s
  }

  predicate IsDigit(c: char) {
    '0' <= c <= '9'
  }

  predicate AllDigits(s: string) {
    forall k :: 0 <= k < |s| ==> IsDigit(s[k])
  }

  function DigitChar(d: nat): (c: char)
    requires d < 10
    ensures IsDigit(c)
  {
    ('0' as int + d) as char
  }

  /** `str(n)` for a natural number. */
  function NatToString(n: nat): (r: string)
    ensures |r| >= 1 && AllDigits(r)
  {
    if n < 10 then [DigitChar(n)] else NatToString(n / 10) + [DigitChar(n % 10)]
  }

  /** `str(i)` for an integer. */
  function IntToString(i: int): string {
    if i < 0 then "-" + NatToString(-i) else NatToString(i)
  }

  /** The value of a run of decimal digits, leading zeros allowed. */
  function DigitsValue(s: string): nat
    requires AllDigits(s)
  {
    if s == [] then 0 else DigitsValue(s[..|s| - 1]) * 10 + (s[|s| - 1] as int - '0' as int)
  }

  /** `int(s)` for text made of ASCII digits only; anything else raises ValueError. */
  function ParseNat(s: string): (r: Result<nat>)
    ensures r.Ok? <==> s != "" && AllDigits(s)
  {
    if s != "" && AllDigits(s) then Ok(DigitsValue(s)) else Err(ValueError)
  }

  /** `int(s)` for an optional '-' followed by ASCII digits; anything else raises ValueError. */
  function ParseInt(s: string): (r: Result<int>)
    ensures r.Ok? <==> (s != "" && AllDigits(s)) || (|s| >= 2 && s[0] == '-' && AllDigits(s[1..]))
  {
    if s != "" && s[0] == '-' then
      match ParseNat(s[1..])
      case Ok(n) => Ok(-(n as int))
      case Err(e) => Err(e)
    else
      match ParseNat(s)
      case Ok(n) => Ok(n as int)
      case Err(e) => Err(e)
  }

  lemma {:induction false} NatToStringValue(n: nat)
    ensures DigitsValue(NatToString(n)) == n
  {
    if n >= 10 {
      NatToStringValue(n / 10);
      var s := NatToString(n);
      assert s[..|s| - 1] == NatToString(n / 10);
    }
  }

  /** `str(n).zfill(width)` for a natural number: zeros on the left up to `width` characters. */
  function ZFill(s: string, width: nat): (r: string)
    ensures |r| == if |s| < width then width else |s|
    ensures EndsWith(r, s)
  {
    if |s| < width then Repeat('0', width - |s|) + s else s
  }

  lemma {:induction false} LeadingZerosValue(k: nat, s: string)
    requires AllDigits(s)
    ensures AllDigits(Repeat('0', k) + s)
    ensures DigitsValue(Repeat('0', k) + s) == DigitsValue(s)
    decreases |s|
  {
    var z := Repeat('0', k);
    if s == [] {
      assert z + s == z;
      ZerosValue(k);
    } else {
      LeadingZerosValue(k, s[..|s| - 1]);
      assert (z + s)[..|z + s| - 1] == z + s[..|s| - 1];
    }
  }

  lemma {:induction false} ZerosValue(k: nat)
    ensures AllDigits(Repeat('0', k)) && DigitsValue(Repeat('0', k)) == 0
  {
    if k > 0 {
      ZerosValue(k - 1);
      var z := Repeat('0', k);
      assert z[..k - 1] == Repeat('0', k - 1);
    }
  }

  /** Zero-padded decimal text reads back as the number it was made from. */
  lemma ZFillNatValue(n: nat, width: nat)
    ensures AllDigits(ZFill(NatToString(n), width))
    ensures DigitsValue(ZFill(NatToString(n), width)) == n
  {
    var s := NatToString(n);
    NatToStringValue(n);
    if |s| < width {
      LeadingZerosValue(width - |s|, s);
    }
  }

  /** Distinct numbers give distinct zero-padded texts. */
  lemma ZFillNatInjective(a: nat, b: nat, width: nat)
    requires ZFill(NatToString(a), width) == ZFill(NatToString(b), width)
    ensures a == b
  {
    ZFillNatValue(a, width);
    ZFillNatValue(b, width);
  }

  function LowerChar(c: char): char {
    if 'A' <= c <= 'Z' then (c as int + 32) as char else c
  }

  /** `s.lower()` on ASCII letters. */
  function Lower(s: string): (r: string)
    ensures |r| == |s| && forall k :: 0 <= k < |s| ==> r[k] == LowerChar(s[k])
  {
    if s == [] then [] else [LowerChar(s[0])] + Lower(s[1..])
  }

  /** `s.replace(c, "")` for one character: every `c` removed, order kept. */
  function RemoveChar(s: string, c: char): (r: string)
    ensures forall k :: 0 <= k < |r| ==> r[k] != c
    ensures |r| <= |s|
  {
    if s == [] then []
    else if s[0] == c then RemoveChar(s[1..], c)
    else [s[0]] + RemoveChar(s[1..], c)
  }

  /** Removing a character only drops characters: what is left comes from `s`. */
  lemma {:induction false} RemoveCharFrom(s: string, c: char)
    ensures forall k :: 0 <= k < |RemoveChar(s, c)| ==> RemoveChar(s, c)[k] in s
    decreases |s|
  {
    if s != [] {
      RemoveCharFrom(s[1..], c);
      var r := RemoveChar(s[1..], c);
      forall k | 0 <= k < |r| ensures r[k] in s {
        assert r[k] in s[1..];
      }
    }
  }
  /** A text without the first character of a pattern does not contain the pattern. */
  lemma FreeNotContains(s: string, p: string)
    requires p != "" && Free(s, p[0])
    ensures !Contains(s, p)
  {
  }

  /** Where the pattern's first character occurs only at the pattern, replacing cuts there and nowhere else. */
  lemma ReplaceOnce(a: string, p: string, b: string, replacement: string)
    requires p != "" && Free(a, p[0]) && Free(b, p[0])
    ensures ReplaceAll(a + p + b, p, replacement) == a + replacement + b
  {
    var s := a + p + b;
    assert s[|a|..|a| + |p|] == p;
    forall j | 0 <= j < |a| ensures !OccursAt(s, p, j) {
      assert s[j] == a[j];
    }
    FirstOccurrenceFound(s, p, |a|);
    assert s[|a| + |p|..] == b;
    FreeNotContains(b, p);
    assert Split(b, p) == [b];
    assert s[..|a|] == a;
    assert Split(s, p) == [a, b];
    assert Join([a, b], replacement) == a + replacement + Join([b], replacement);
  }

  /** Occurrences in `a + rest` from position `|a|` on are the occurrences in `rest`, shifted. */
  lemma OccursAfterPrefix(a: string, rest: string, p: string, k: nat)
    ensures OccursAt(a + rest, p, |a| + k) <==> OccursAt(rest, p, k)
  {
    if |a| + k + |p| <= |a + rest| {
      assert (a + rest)[|a| + k..|a| + k + |p|] == rest[k..k + |p|];
    }
  }

  /** Cutting `a + rest` after `a` and `i` more characters, or after `a` and `m` more characters. */
  lemma ConcatSlices(a: string, rest: string, i: nat, m: nat)
    requires i <= |rest| && m <= |rest|
    ensures (a + rest)[..|a| + i] == a + rest[..i]
    ensures (a + rest)[|a| + m..] == rest[m..]
  {
  }

  lemma FoundAfterPrefix(a: string, rest: string, p: string, i: nat)
    requires forall j :: 0 <= j < |a| ==> !OccursAt(a + rest, p, j)
    requires FindFrom(rest, p, 0) == Some(i)
    ensures FindFrom(a + rest, p, 0) == Some(|a| + i)
  {
    var s := a + rest;
    OccursAfterPrefix(a, rest, p, i);
    forall j | |a| <= j < |a| + i ensures !OccursAt(s, p, j) {
      OccursAfterPrefix(a, rest, p, j - |a|);
    }
    FirstOccurrenceFound(s, p, |a| + i);
  }

  lemma NoneAfterPrefix(a: string, rest: string, p: string)
    requires forall j :: 0 <= j < |a| ==> !OccursAt(a + rest, p, j)
    requires FindFrom(rest, p, 0) == None
    ensures FindFrom(a + rest, p, 0) == None
  {
    var s := a + rest;
    var r := FindFrom(s, p, 0);
    if r.Some? {
      OccursAfterPrefix(a, rest, p, r.value - |a|);
    }
  }

  /** Replacing in a text whose first `|a|` positions start no occurrence leaves that prefix alone. */
  lemma ReplaceAfterPrefix(a: string, rest: string, p: string, replacement: string)
    requires p != ""
    requires forall j :: 0 <= j < |a| ==> !OccursAt(a + rest, p, j)
    ensures ReplaceAll(a + rest, p, replacement) == a + ReplaceAll(rest, p, replacement)
  {
    match FindFrom(rest, p, 0)
    case None =>
      NoneAfterPrefix(a, rest, p);
      ReplaceNoneAfterPrefix(a, rest, p, replacement);
    case Some(i) =>
      FoundAfterPrefix(a, rest, p, i);
      ReplaceFoundAfterPrefix(a, rest, p, replacement, i);
  }

  lemma ReplaceNoneAfterPrefix(a: string, rest: string, p: string, replacement: string)
    requires p != "" && FindFrom(rest, p, 0) == None && FindFrom(a + rest, p, 0) == None
    ensures ReplaceAll(a + rest, p, replacement) == a + ReplaceAll(rest, p, replacement)
  {
    assert Split(a + rest, p) == [a + rest];
    assert Split(rest, p) == [rest];
  }

  lemma ReplaceFoundAfterPrefix(a: string, rest: string, p: string, replacement: string, i: nat)
    requires p != "" && FindFrom(rest, p, 0) == Some(i) && FindFrom(a + rest, p, 0) == Some(|a| + i)
    ensures ReplaceAll(a + rest, p, replacement) == a + ReplaceAll(rest, p, replacement)
  {
    var tail := Split(rest[i + |p|..], p);
    SplitAfterPrefix(a, rest, p, i);
    SplitUnfold(rest, p, i);
    JoinFront(a, rest[..i], tail, replacement);
  }

  /** Text in front of the first of several joined parts stays in front. */
  lemma JoinFront(a: string, head: string, tail: seq<string>, sep: string)
    requires tail != []
    ensures Join([a + head] + tail, sep) == a + Join([head] + tail, sep)
  {
    JoinCons(a + head, tail, sep);
    JoinCons(head, tail, sep);
    assert a + head + sep + Join(tail, sep) == a + (head + sep + Join(tail, sep));
  }

  /** The split at a known first occurrence. */
  lemma SplitUnfold(s: string, p: string, i: nat)
    requires p != "" && FindFrom(s, p, 0) == Some(i)
    ensures Split(s, p) == [s[..i]] + Split(s[i + |p|..], p)
  {
  }

  lemma SplitAfterPrefix(a: string, rest: string, p: string, i: nat)
    requires p != "" && FindFrom(rest, p, 0) == Some(i) && FindFrom(a + rest, p, 0) == Some(|a| + i)
    ensures Split(a + rest, p) == [a + rest[..i]] + Split(rest[i + |p|..], p)
  {
    ConcatSlices(a, rest, i, i + |p|);
    SplitUnfoldAt(a + rest, p, |a| + i, a + rest[..i], rest[i + |p|..]);
  }

  /** The split at a known first occurrence, with the text before and after it named. */
  lemma SplitUnfoldAt(s: string, p: string, k: nat, head: string, tail: string)
    requires p != "" && FindFrom(s, p, 0) == Some(k)
    requires s[..k] == head && s[k + |p|..] == tail
    ensures Split(s, p) == [head] + Split(tail, p)
  {
    SplitUnfold(s, p, k);
  }

  /** Replacing in a text that starts with the pattern: the replacement, then the rest replaced. */
  lemma ReplaceAtFront(p: string, rest: string, replacement: string)
    requires p != ""
    ensures ReplaceAll(p + rest, p, replacement) == replacement + ReplaceAll(rest, p, replacement)
  {
    var s := p + rest;
    assert s[..|p|] == p;
    FirstOccurrenceFound(s, p, 0);
    assert s[|p|..] == rest;
    assert Split(s, p) == [""] + Split(rest, p);
    JoinCons("", Split(rest, p), replacement);
  }

  /** Replacing in the empty text gives the empty text. */
  lemma ReplaceEmpty(p: string, replacement: string)
    requires p != ""
    ensures ReplaceAll("", p, replacement) == ""
  {
    assert FindFrom("", p, 0) == None;
  }

  /** Joining words that do not hold the separator character and splitting again gives the words back. */
  lemma {:induction false} SplitJoinFree(parts: seq<string>, c: char)
    requires |parts| >= 1 && forall k :: 0 <= k < |parts| ==> Free(parts[k], c)
    ensures Split(Join(parts, [c]), [c]) == parts
    decreases |parts|
  {
    if |parts| == 1 {
      FreeNotContains(parts[0], [c]);
    } else {
      var head := parts[0];
      var rest := Join(parts[1..], [c]);
      var s := head + [c] + rest;
      assert Join(parts, [c]) == s;
      assert s[|head|..|head| + 1] == [c];
      forall j | 0 <= j < |head| ensures !OccursAt(s, [c], j) {
        assert s[j] == head[j];
      }
      FirstOccurrenceFound(s, [c], |head|);
      assert s[|head| + 1..] == rest;
      SplitJoinFree(parts[1..], c);
      assert s[..|head|] == head;
      assert parts == [head] + parts[1..];
    }
  }

  /** Joining two non-empty runs of parts is joining each and putting the separator between them. */
  lemma {:induction false} JoinAppend(a: seq<string>, b: seq<string>, sep: string)
    requires a != [] && b != []
    ensures Join(a + b, sep) == Join(a, sep) + sep + Join(b, sep)
    decreases |a|
  {
    if |a| == 1 {
      assert (a + b)[1..] == b;
    } else {
      assert (a + b)[1..] == a[1..] + b;
      JoinAppend(a[1..], b, sep);
    }
  }

  /** Every line followed by the separator: what a loop of `text += line + sep` builds. */
  function Terminated(lines: seq<string>, sep: string): string {
    if lines == [] then "" else Terminated(lines[..|lines| - 1], sep) + lines[|lines| - 1] + sep
  }

  lemma {:induction false} TerminatedJoin(lines: seq<string>, sep: string)
    ensures Terminated(lines, sep) == Join(lines + [""], sep)
    decreases |lines|
  {
    if lines == [] {
      assert lines + [""] == [""];
    } else {
      var init := lines[..|lines| - 1];
      var last := lines[|lines| - 1];
      TerminatedJoin(init, sep);
      if init == [] {
        assert lines + [""] == [last, ""];
        assert Join([last, ""], sep) == last + sep + Join([""], sep);
      } else {
        JoinLastEmpty(init, last, sep);
        assert lines + [""] == init + [last, ""];
      }
    }
  }

  lemma {:induction false} TerminatedAppend(a: seq<string>, b: seq<string>, sep: string)
    ensures Terminated(a + b, sep) == Terminated(a, sep) + Terminated(b, sep)
    decreases |b|
  {
    if b == [] {
      assert a + b == a;
    } else {
      var init := b[..|b| - 1];
      var last := b[|b| - 1];
      TerminatedAppend(a, init, sep);
      assert (a + b)[..|a + b| - 1] == a + init;
      assert (a + b)[|a + b| - 1] == last;
      var t := Terminated(a, sep);
      var u := Terminated(init, sep);
      calc {
        Terminated(a + b, sep);
        Terminated(a + init, sep) + last + sep;
        t + u + last + sep;
        t + (u + last + sep);
        t + Terminated(b, sep);
      }
    }
  }

  lemma JoinLastEmpty(init: seq<string>, last: string, sep: string)
    requires init != []
    ensures Join(init + [last, ""], sep) == Join(init + [""], sep) + last + sep
  {
    var j := Join(init, sep);
    JoinAppend(init, [""], sep);
    assert Join(init + [""], sep) == j + sep;
    JoinAppend(init, [last, ""], sep);
    assert Join([last, ""], sep) == last + sep + Join([""], sep);
  }

  /** Splitting the text back gives the lines, and the empty text after the last separator, when no line holds the separator. */
  lemma TerminatedReadBack(lines: seq<string>, c: char)
    requires forall k :: 0 <= k < |lines| ==> Free(lines[k], c)
    ensures Split(Terminated(lines, [c]), [c]) == lines + [""]
  {
    TerminatedJoin(lines, [c]);
    AppendEmptyFree(lines, c);
    SplitJoinFree(lines + [""], c);
  }

  lemma AppendEmptyFree(lines: seq<string>, c: char)
    requires forall k :: 0 <= k < |lines| ==> Free(lines[k], c)
    ensures forall k :: 0 <= k < |lines + [""]| ==> Free((lines + [""])[k], c)
  {
    var w := lines + [""];
    forall k | 0 <= k < |w| ensures Free(w[k], c) {
      if k < |lines| {
        assert w[k] == lines[k];
      }
    }
  }

  /** `str(i)` holds only digits and '-'. */
  lemma IntToStringFree(i: int, c: char)
    requires !IsDigit(c) && c != '-'
    ensures Free(IntToString(i), c)
  {
    var s := IntToString(i);
    if i < 0 {
      forall k | 0 <= k < |s| ensures s[k] != c {
        if k > 0 {
          assert s[k] == NatToString(-i)[k - 1];
        }
      }
    }
  }

  /** `int(str(i)) == i` */
  lemma IntToStringParse(i: int)
    ensures ParseInt(IntToString(i)) == Ok(i)
  {
    var s := IntToString(i);
    if i < 0 {
      assert s[1..] == NatToString(-i);
      NatToStringValue(-i);
    } else {
      assert IsDigit(s[0]);
      NatToStringValue(i);
    }
  }

  /**
   * A text whose only `c` is the first character of `mark` does not hold a
   * pattern that starts with `c` but differs from `mark` at position `k`.
   */
  lemma MarkedAbsent(a: string, mark: string, b: string, p: string, k: nat)
    requires p != "" && mark != "" && mark[0] == p[0]
    requires Free(a, p[0]) && Free(mark[1..], p[0]) && Free(b, p[0])
    requires k < |p| && k < |mark| && p[k] != mark[k]
    ensures !Contains(a + mark + b, p)
  {
    var s := a + mark + b;
    forall j: nat | j + |p| <= |s| ensures !OccursAt(s, p, j) {
      assert s[j..j + |p|][0] == s[j];
      if j < |a| {
        assert s[j] == a[j];
      } else if j == |a| {
        assert s[j..j + |p|][k] == s[j + k] == mark[k];
      } else if j < |a| + |mark| {
        assert s[j] == mark[1..][j - |a| - 1];
      } else {
        assert s[j] == b[j - |a| - |mark|];
      }
    }
  }

  /** `s.split(sep)[-1]`: the last piece of a full split. */
  function AfterLast(s: string, sep: string): string
    requires sep != ""
  {
    Last(Split(s, sep))
  }

  /** The first piece of a split is dropped together with its separator. */
  lemma AfterLastStep(s: string, sep: string, i: nat)
    requires sep != "" && FindFrom(s, sep, 0) == Some(i)
    ensures AfterLast(s, sep) == AfterLast(s[i + |sep|..], sep)
  {
    var rest := Split(s[i + |sep|..], sep);
    assert Split(s, sep) == [s[..i]] + rest;
    assert ([s[..i]] + rest)[|rest|] == rest[|rest| - 1];
  }

  /**
   * The last piece is a tail of `s` free of the separator: the whole of `s`
   * when the separator does not occur, else the text right after an
   * occurrence of it.
   */
  lemma AfterLastShape(s: string, sep: string)
    requires sep != ""
    ensures EndsWith(s, AfterLast(s, sep)) && !Contains(AfterLast(s, sep), sep)
    ensures Contains(s, sep) ==>
      |AfterLast(s, sep)| + |sep| <= |s| && OccursAt(s, sep, |s| - |AfterLast(s, sep)| - |sep|)
    ensures !Contains(s, sep) ==> AfterLast(s, sep) == s
  {
    AfterLastTail(s, sep);
    SplitPiecesFree(s, sep);
    assert AfterLast(s, sep) == Split(s, sep)[|Split(s, sep)| - 1];
    if !Contains(s, sep) {
      assert Split(s, sep) == [s];
    }
  }

  lemma {:induction false} AfterLastTail(s: string, sep: string)
    requires sep != ""
    ensures EndsWith(s, AfterLast(s, sep))
    ensures Contains(s, sep) ==>
      |AfterLast(s, sep)| + |sep| <= |s| && OccursAt(s, sep, |s| - |AfterLast(s, sep)| - |sep|)
    decreases |s|
  {
    match FindFrom(s, sep, 0)
    case None =>
      assert Split(s, sep) == [s];
      assert s[|s| - |s|..] == s;
    case Some(i) =>
      var rest := s[i + |sep|..];
      AfterLastStep(s, sep, i);
      AfterLastTail(rest, sep);
      var r := AfterLast(rest, sep);
      TailOfTail(s, i + |sep|, r);
      if Contains(rest, sep) {
        OccursInTail(s, sep, i + |sep|, |rest| - |r| - |sep|);
      } else {
        assert FindFrom(rest, sep, 0) == None;
        assert Split(rest, sep) == [rest];
      }
  }

  /** A tail of a tail of `s` is a tail of `s`. */
  lemma TailOfTail(s: string, j: nat, r: string)
    requires j <= |s| && EndsWith(s[j..], r)
    ensures EndsWith(s, r)
  {
    assert s[|s| - |r|..] == s[j..][|s[j..]| - |r|..];
  }

  /** An occurrence in the tail of `s` from `j` is an occurrence in `s`, `j` further on. */
  lemma OccursInTail(s: string, p: string, j: nat, k: nat)
    requires j <= |s| && OccursAt(s[j..], p, k)
    ensures OccursAt(s, p, j + k)
  {
    assert s[j + k..j + k + |p|] == s[j..][k..k + |p|];
  }

  /** The last piece after a separator character whose last occurrence is known. */
  lemma AfterLastOfFree(a: string, c: char, b: string)
    requires Free(b, c)
    ensures AfterLast(a + [c] + b, [c]) == b
  {
    var s := a + [c] + b;
    assert s[|a|..|a| + 1] == [c];
    ContainsAt(s, [c], |a|);
    AfterLastShape(s, [c]);
    var r := AfterLast(s, [c]);
    var p := |s| - |r| - 1;
    assert s[p..p + 1] == [c];
    assert s[p] == c;
    assert forall k :: |a| < k < |s| ==> s[k] == b[k - |a| - 1];
    assert p <= |a|;
    if |r| > |b| {
      assert r == s[p + 1..];
      assert r[|a| - (p + 1)..|a| - (p + 1) + 1] == [c];
      ContainsAt(r, [c], |a| - (p + 1));
    }
    assert r == s[|a| + 1..];
  }

  /** Python's `a < b` on strings: the first differing character decides, and a proper prefix comes first. */
  predicate LexLess(a: string, b: string)
    decreases |a|
  {
    if a == [] then b != []
    else if b == [] then false
    else if a[0] != b[0] then a[0] < b[0]
    else LexLess(a[1..], b[1..])
  }

  lemma {:induction false} LexLessIrreflexive(a: string)
    ensures !LexLess(a, a)
    decreases |a|
  {
    if a != [] {
      LexLessIrreflexive(a[1..]);
    }
  }

  lemma {:induction false} LexLessTransitive(a: string, b: string, c: string)
    requires LexLess(a, b) && LexLess(b, c)
    ensures LexLess(a, c)
    decreases |a|
  {
    if a != [] && a[0] == b[0] && b[0] == c[0] {
      LexLessTransitive(a[1..], b[1..], c[1..]);
    }
  }

  lemma {:induction false} LexLessTotal(a: string, b: string)
    ensures a == b || LexLess(a, b) || LexLess(b, a)
    decreases |a|
  {
    if a != [] && b != [] && a[0] == b[0] {
      LexLessTotal(a[1..], b[1..]);
      assert a == [a[0]] + a[1..] && b == [b[0]] + b[1..];
    }
  }

  /** `sorted(xs)[-1]`: the greatest string of a non-empty list. */
  function LexMax(xs: seq<string>): string
    requires xs != []
  {
    if |xs| == 1 then xs[0]
    else
      var m := LexMax(xs[..|xs| - 1]);
      if LexLess(m, xs[|xs| - 1]) then xs[|xs| - 1] else m
  }

  lemma {:induction false} LexMaxIsGreatest(xs: seq<string>)
    requires xs != []
    ensures LexMax(xs) in xs
    ensures forall x :: x in xs ==> !LexLess(LexMax(xs), x)
  {
    if |xs| == 1 {
      LexLessIrreflexive(xs[0]);
    } else {
      var init := xs[..|xs| - 1];
      var last := xs[|xs| - 1];
      LexMaxIsGreatest(init);
      var m := LexMax(init);
      assert xs == init + [last];
      if LexLess(m, last) {
        forall x | x in xs ensures !LexLess(last, x) {
          if x in init && LexLess(last, x) {
            LexLessTransitive(m, last, x);
          } else if x == last {
            LexLessIrreflexive(last);
          }
        }
      }
    }
  }

  /** A common prefix does not change the order. */
  lemma {:induction false} PrefixThenDecides(p: string, a: string, b: string)
    ensures LexLess(p + a, p + b) == LexLess(a, b)
    decreases |p|
  {
    if p != [] {
      assert (p + a)[0] == p[0] == (p + b)[0];
      assert (p + a)[1..] == p[1..] + a;
      assert (p + b)[1..] == p[1..] + b;
      PrefixThenDecides(p[1..], a, b);
      assert LexLess(p + a, p + b) == LexLess((p + a)[1..], (p + b)[1..]);
    } else {
      assert p + a == a && p + b == b;
    }
  }
}
