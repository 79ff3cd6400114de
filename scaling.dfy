/**
 * The cascading rescale (`applyScaleToContent`): on every linear-move line the
 * X and Y targets are moved to `cur + (target - cur) * factor`, where `cur` is
 * the previous already-scaled position, and written back with four decimals.
 */
module Scaling {
  import opened Text
  import opened Wrappers
  import opened Numbers
  import opened Geometry

  // ---------------------------------------------------------------- the replacement pattern

  /** The characters `.` does not match. */
  predicate IsLineTerminator(c: char) {
    c == '\n' || c == '\r' || c == '\U{2028}' || c == '\U{2029}'
  }

  predicate BoundaryAfter(s: string, e: nat) {
    e == |s| || (e < |s| && !IsWordChar(s[e]))
  }

  /** The end of `\bG0?1\b` matched at `p` under the `i` flag, if it matches there. */
  function MoveWordEnd(s: string, p: nat): (e: Option<nat>)
    requires p <= |s|
    ensures e.Some? ==> p < e.value <= |s|
  {
    if p < |s| && (p == 0 || !IsWordChar(s[p - 1])) && (s[p] == 'G' || s[p] == 'g') then
      if p + 2 < |s| && s[p + 1] == '0' && s[p + 2] == '1' && BoundaryAfter(s, p + 3) then Some(p + 3)
      else if p + 1 < |s| && s[p + 1] == '1' && BoundaryAfter(s, p + 2) then Some(p + 2)
      else None
    else None
  }

  /**
   * The lazy `.*?AXIS(number)` from `q`: the first axis letter followed by a
   * number, found before any line terminator.
   */
  function AxisAfter(s: string, axis: char, q: nat): (r: Option<nat>)
    requires q <= |s|
    ensures r.Some? ==> q <= r.value < |s| && IsAxisLetter(s[r.value], axis) && NumberEnd(s, r.value + 1).Some?
    decreases |s| - q
  {
    if q == |s| then None
    else if IsAxisLetter(s[q], axis) && NumberEnd(s, q + 1).Some? then Some(q)
    else if IsLineTerminator(s[q]) then None
    else AxisAfter(s, axis, q + 1)
  }

  /** `(\bG0?1\b.*?)AXIS([-+]?\d*\.?\d+)` matched at `p`: where the letter is. */
  function MatchAt(s: string, axis: char, p: nat): (r: Option<nat>)
    requires p <= |s|
    ensures r.Some? ==> p < r.value < |s| && IsAxisLetter(s[r.value], axis) && NumberEnd(s, r.value + 1).Some?
  {
    match MoveWordEnd(s, p)
    case None => None
    case Some(g) => AxisAfter(s, axis, g)
  }

  /** Where the match at `p` ends: after the number that follows its letter. */
  function MatchEnd(s: string, axis: char, p: nat): (e: nat)
    requires p <= |s| && MatchAt(s, axis, p).Some?
    ensures MatchAt(s, axis, p).value < e <= |s|
  {
    NumberEnd(s, MatchAt(s, axis, p).value + 1).value
  }

  /** The global replacement from `p`: each match keeps its text before the letter and gets `AXIS` + `text`. */
  function ReplaceFrom(s: string, axis: char, text: string, p: nat): string
    requires p <= |s|
    decreases |s| - p
  {
    if p == |s| then []
    else
      match MatchAt(s, axis, p)
      case Some(r) => s[p..r] + [axis] + text + ReplaceFrom(s, axis, text, MatchEnd(s, axis, p))
      case None => [s[p]] + ReplaceFrom(s, axis, text, p + 1)
  }

  /** `s.replace(/(\bG0?1\b.*?)AXIS([-+]?\d*\.?\d+)/gi, ...)` with `AXIS` + `text` in place of the letter and number. */
  function ReplaceAxis(s: string, axis: char, text: string): string {
    ReplaceFrom(s, axis, text, 0)
  }

  // ---------------------------------------------------------------- the rescale

  datatype Point = Point(x: real, y: real)

  /** The lines `applyScaleToContent` rewrites. */
  predicate IsScaledLine(u: string) {
    Contains(u, "G01") || HasWord(u, "G1")
  }

  /** One coordinate after a rescaled line: `factor` times the way from `cur` to the target, if the line gives one. */
  function ScaleCoord(cur: real, target: Option<real>, factor: real): real {
    match target
    case Some(t) => cur + (t - cur) * factor
    case None => cur
  }

  /** The scaled position after a rescaled line (normalized text `u`) reached from `cur`. */
  function ScaledPoint(cur: Point, u: string, factor: real): Point {
    Point(ScaleCoord(cur.x, AxisValue(u, 'X'), factor), ScaleCoord(cur.y, AxisValue(u, 'Y'), factor))
  }

  /** The scaled position after `lines`, starting from the origin. */
  function PositionAfter(lines: seq<string>, factor: real): Point {
    if lines == [] then Point(0.0, 0.0)
    else
      var prev := PositionAfter(lines[..|lines| - 1], factor);
      var u := Normalized(lines[|lines| - 1]);
      if IsScaledLine(u) then ScaledPoint(prev, u, factor) else prev
  }

  /** A rescaled line with the coordinates of `p` written over the X and Y it gives. */
  function Rewrite(line: string, u: string, p: Point): string {
    var l1 := if AxisValue(u, 'X').Some? then ReplaceAxis(line, 'X', ToFixed(p.x, 4)) else line;
    if AxisValue(u, 'Y').Some? then ReplaceAxis(l1, 'Y', ToFixed(p.y, 4)) else l1
  }

  /** Line `i` after the rescale: rewritten with the scaled position it reaches, or as it was. */
  function ScaledLineAt(lines: seq<string>, i: nat, factor: real): string
    requires i < |lines|
  {
    var u := Normalized(lines[i]);
    if IsScaledLine(u) then Rewrite(lines[i], u, PositionAfter(lines[..i + 1], factor)) else lines[i]
  }

  /** Line `i` after the rescale, for any `i` (nothing past the end). */
  function LineScaler(lines: seq<string>, factor: real): nat -> string {
    (i: nat) => if i < |lines| then ScaledLineAt(lines, i, factor) else ""
  }

  /** `f(0), ..., f(n - 1)`: the first `n` results of a line-by-line map. */
  function Prefix(n: nat, f: nat -> string): seq<string> {
    if n == 0 then [] else Prefix(n - 1, f) + [f(n - 1)]
  }

  /** The lines `applyScaleToContent` joins. */
  function ScaledLines(lines: seq<string>, factor: real): seq<string> {
    Prefix(|lines|, LineScaler(lines, factor))
  }

  lemma ScaledStep(lines: seq<string>, i: nat, factor: real)
    requires i < |lines|
    ensures Prefix(i + 1, LineScaler(lines, factor)) == Prefix(i, LineScaler(lines, factor)) + [ScaledLineAt(lines, i, factor)]
  {
  }

  /**
   * The cascade: a rescaled line moves from the previous already-scaled
   * position (not from the previous target); any other line stays put.
   */
  lemma PositionStep(lines: seq<string>, i: nat, factor: real)
    requires i < |lines|
    ensures var prev := PositionAfter(lines[..i], factor);
      var u := Normalized(lines[i]);
      PositionAfter(lines[..i + 1], factor) == if IsScaledLine(u) then ScaledPoint(prev, u, factor) else prev
  {
    assert lines[..i + 1][..i] == lines[..i];
  }

  /** The two conditional replacements of a rescaled line, one axis after the other, are `Rewrite`. */
  lemma RewriteOf(line: string, u: string, p: Point, l1: string, l2: string)
    requires l1 == if AxisValue(u, 'X').Some? then ReplaceAxis(line, 'X', ToFixed(p.x, 4)) else line
    requires l2 == if AxisValue(u, 'Y').Some? then ReplaceAxis(l1, 'Y', ToFixed(p.y, 4)) else l1
    ensures l2 == Rewrite(line, u, p)
  {
  }

  /** One axis of the callback: move `factor` times the way to the target the line gives, and write the new coordinate over it. */
  method ScaleAxis(line: string, axis: char, target: Option<real>, current: real, scaleFactor: real)
    returns (scaledLine: string, next: real)
    ensures next == ScaleCoord(current, target, scaleFactor)
    ensures scaledLine == if target.Some? then ReplaceAxis(line, axis, ToFixed(next, 4)) else line
  {
    next, scaledLine := current, line;
    if target.Some? {
      var delta := target.value - current;
      var scaledDelta := delta * scaleFactor;
      next := current + scaledDelta;
      scaledLine := ReplaceAxis(line, axis, ToFixed(next, 4));
    }
  }

  /** The callback `applyScaleToContent` maps over the lines, with the scaled position it reads and updates. */
  method ScaleOneLine(line: string, currentX: real, currentY: real, scaleFactor: real)
    returns (scaledLine: string, newX: real, newY: real)
    ensures var u := Normalized(line);
      var cur := Point(currentX, currentY);
      if IsScaledLine(u) then
        Point(newX, newY) == ScaledPoint(cur, u, scaleFactor) && scaledLine == Rewrite(line, u, Point(newX, newY))
      else Point(newX, newY) == cur && scaledLine == line
  {
    var trimmedLine := ToUpper(Trim(line));
    newX, newY := currentX, currentY;
    scaledLine := line;
    if Contains(trimmedLine, "G01") || HasWord(trimmedLine, "G1") {
      var xMatch := AxisValue(trimmedLine, 'X');
      scaledLine, newX := ScaleAxis(scaledLine, 'X', xMatch, currentX, scaleFactor);
      ghost var l1 := scaledLine;
      var yMatch := AxisValue(trimmedLine, 'Y');
      scaledLine, newY := ScaleAxis(scaledLine, 'Y', yMatch, currentY, scaleFactor);
      RewriteOf(line, trimmedLine, Point(newX, newY), l1, scaledLine);
    }
  }

  /** `applyScaleToContent`: a map over the lines carrying the scaled position (the cascade). */
  method ApplyScaleToContent(content: string, scaleFactor: real) returns (r: string)
    ensures r == Join(ScaledLines(Split(content), scaleFactor))
  {
    var lines := Split(content);
    var currentX, currentY := 0.0, 0.0;
    var out: seq<string> := [];
    for i := 0 to |lines|
      invariant Point(currentX, currentY) == PositionAfter(lines[..i], scaleFactor)
      invariant out == Prefix(i, LineScaler(lines, scaleFactor))
    {
      PositionStep(lines, i, scaleFactor);
      ScaledStep(lines, i, scaleFactor);
      var scaledLine;
      scaledLine, currentX, currentY := ScaleOneLine(lines[i], currentX, currentY, scaleFactor);
      out := out + [scaledLine];
    }
    r := Join(out);
  }

  // ---------------------------------------------------------------- properties

  /** A line-by-line map gives `n` lines, the `i`-th being `f(i)`. */
  lemma {:induction false} PrefixShape(n: nat, f: nat -> string)
    ensures |Prefix(n, f)| == n && forall i :: 0 <= i < n ==> Prefix(n, f)[i] == f(i)
  {
    if n > 0 {
      PrefixShape(n - 1, f);
    }
  }

  /** The whole rescale, line by line. */
  lemma ScaledLinesShape(lines: seq<string>, factor: real)
    ensures var out := ScaledLines(lines, factor);
      |out| == |lines| && forall i :: 0 <= i < |lines| && !IsScaledLine(Normalized(lines[i])) ==> out[i] == lines[i]
  {
    PrefixShape(|lines|, LineScaler(lines, factor));
  }

  /** Text without a match of the pattern from `p` on is copied unchanged. */
  lemma {:induction false} ReplaceWithoutMatch(s: string, axis: char, text: string, p: nat)
    requires p <= |s|
    requires forall q :: p <= q < |s| ==> MatchAt(s, axis, q).None?
    ensures ReplaceFrom(s, axis, text, p) == s[p..]
    decreases |s| - p
  {
    if p < |s| {
      ReplaceWithoutMatch(s, axis, text, p + 1);
      assert s[p..] == [s[p]] + s[p + 1..];
    }
  }

  // ---------------------------------------------------------------- what the rewritten text reads as

  /** Where the first match at or after `p` starts, if any. */
  function FirstMatch(s: string, axis: char, p: nat): (q: Option<nat>)
    requires p <= |s|
    ensures q.Some? ==> p <= q.value < |s| && MatchAt(s, axis, q.value).Some?
    decreases |s| - p
  {
    if p == |s| then None
    else if MatchAt(s, axis, p).Some? then Some(p)
    else FirstMatch(s, axis, p + 1)
  }

  /** The replacement copies the text up to the first match, then rewrites it, then goes on after it. */
  lemma {:induction false} ReplaceNext(s: string, axis: char, text: string, p: nat)
    requires p <= |s|
    ensures match FirstMatch(s, axis, p)
      case None => ReplaceFrom(s, axis, text, p) == s[p..]
      case Some(q) =>
        var r := MatchAt(s, axis, q).value;
        ReplaceFrom(s, axis, text, p) == s[p..r] + [axis] + text + ReplaceFrom(s, axis, text, MatchEnd(s, axis, q))
    decreases |s| - p
  {
    if p < |s| && MatchAt(s, axis, p).None? {
      ReplaceCopies(s, axis, text, p);
      ReplaceNext(s, axis, text, p + 1);
      if FirstMatch(s, axis, p + 1).Some? {
        var q := FirstMatch(s, axis, p + 1).value;
        var r := MatchAt(s, axis, q).value;
        CopyThenMatch(s, p, r, [axis], text, ReplaceFrom(s, axis, text, MatchEnd(s, axis, q)));
      } else {
        assert s[p..] == [s[p]] + s[p + 1..];
      }
    }
  }

  /** Where no match starts, the character is copied. */
  lemma ReplaceCopies(s: string, axis: char, text: string, p: nat)
    requires p < |s| && MatchAt(s, axis, p).None?
    ensures ReplaceFrom(s, axis, text, p) == [s[p]] + ReplaceFrom(s, axis, text, p + 1)
  {
  }

  lemma CopyThenMatch(s: string, p: nat, r: nat, a: string, b: string, c: string)
    requires p < r <= |s|
    ensures [s[p]] + (s[p + 1..r] + a + b + c) == s[p..r] + a + b + c
  {
    assert s[p..r] == [s[p]] + s[p + 1..r];
  }

  lemma AppendAssoc<T>(a: seq<T>, b: seq<T>, c: seq<T>, d: seq<T>)
    ensures a + b + c + d == a + (b + (c + d))
  {
  }

  /** An axis letter is never part of a number. */
  lemma LetterNotInNumber(c: char, axis: char)
    requires 'A' <= axis <= 'Z' && !Stopper(c)
    ensures !IsAxisLetter(c, axis)
  {
  }

  /** Text of number characters only holds no axis letter. */
  lemma NumberTextSkipped(text: string, other: char)
    requires 'A' <= other <= 'Z'
    requires forall k :: 0 <= k < |text| ==> !Stopper(text[k])
    ensures forall k :: 0 <= k < |text| ==> !IsAxisLetter(text[k], other)
  {
    forall k | 0 <= k < |text|
      ensures !IsAxisLetter(text[k], other)
    {
      LetterNotInNumber(text[k], other);
    }
  }

  /**
   * A match at `q`: its letter is an axis letter, the number after it holds
   * no axis letter, and what follows the number is not a digit.
   */
  lemma MatchParts(s: string, axis: char, q: nat)
    requires 'A' <= axis <= 'Z'
    requires q <= |s| && MatchAt(s, axis, q).Some?
    ensures var r := MatchAt(s, axis, q).value; var e := MatchEnd(s, axis, q);
      && Stopper(s[r])
      && (forall k :: r + 1 <= k < e ==> !Stopper(s[k]))
      && (e == |s| || !IsDigit(s[e]))
  {
    NumberEndChars(s, MatchAt(s, axis, q).value + 1);
  }

  /** A slice of number characters holds no axis letter. */
  lemma SliceSkipped(s: string, a: nat, b: nat, other: char)
    requires a <= b <= |s| && 'A' <= other <= 'Z'
    requires forall k :: a <= k < b ==> !Stopper(s[k])
    ensures forall k :: 0 <= k < |s[a..b]| ==> !IsAxisLetter(s[a..b][k], other)
  {
    forall k | 0 <= k < |s[a..b]|
      ensures !IsAxisLetter(s[a..b][k], other)
    {
      assert s[a..b][k] == s[a + k];
      LetterNotInNumber(s[a + k], other);
    }
  }

  /** Rewriting one axis with number text leaves the reading of any other axis as it was. */
  lemma {:induction false} ReplaceKeepsOther(s: string, axis: char, other: char, text: string, p: nat)
    requires p <= |s|
    requires 'A' <= axis <= 'Z' && 'A' <= other <= 'Z' && axis != other
    requires forall k :: 0 <= k < |text| ==> !Stopper(text[k])
    ensures ReadAxis(ReplaceFrom(s, axis, text, p), other) == ReadAxis(s[p..], other)
    decreases |s| - p
  {
    ReplaceNext(s, axis, text, p);
    if FirstMatch(s, axis, p).Some? {
      var q := FirstMatch(s, axis, p).value;
      var r := MatchAt(s, axis, q).value;
      var e := MatchEnd(s, axis, q);
      var rest := ReplaceFrom(s, axis, text, e);
      ReplaceKeepsOther(s, axis, other, text, e);
      // the output: the text before the letter, the letter, the new number, the rest
      AppendAssoc(s[p..r], [axis], text, rest);
      NumberTextSkipped(text, other);
      ReadAcross(s[p..r], axis, text, rest, other);
      // the input: the text before the letter, the letter, the old number, the rest
      MatchParts(s, axis, q);
      OtherLetter(s[r], axis, other);
      SliceSkipped(s, r + 1, e, other);
      MatchPieces(s, p, r, e);
      ReadAcross(s[p..r], s[r], s[r + 1..e], s[e..], other);
    }
  }

  /** A letter of one axis is not a letter of another. */
  lemma OtherLetter(c: char, axis: char, other: char)
    requires 'A' <= axis <= 'Z' && 'A' <= other <= 'Z' && axis != other
    requires IsAxisLetter(c, axis)
    ensures !IsAxisLetter(c, other)
  {
  }

  /** The text from `p` cut at a letter `r` and at the end `e` of the number after it. */
  lemma MatchPieces(s: string, p: nat, r: nat, e: nat)
    requires p <= r < e <= |s|
    ensures s[p..] == s[p..r] + ([s[r]] + (s[r + 1..e] + s[e..]))
  {
    assert s[r..] == [s[r]] + (s[r + 1..e] + s[e..]);
  }

  /**
   * Reading another axis across a letter and a number that hold none of it:
   * what comes before is read first, and what comes after when it holds nothing.
   */
  lemma ReadAcross(x: string, a: char, num: string, rest: string, other: char)
    requires Stopper(a) && !IsAxisLetter(a, other)
    requires forall k :: 0 <= k < |num| ==> !IsAxisLetter(num[k], other)
    ensures ReadAxis(x + ([a] + (num + rest)), other)
      == if ReadAxis(x, other).Some? then ReadAxis(x, other) else ReadAxis(rest, other)
  {
    var tail := [a] + (num + rest);
    ReadAppend(x, tail, other);
    assert tail[0] == a && tail[1..] == num + rest;
    ReadSkip(num, rest, other);
  }

  /** A line with no character that ends a line for `.`. */
  predicate NoBreak(s: string) {
    forall k :: 0 <= k < |s| ==> !IsLineTerminator(s[k])
  }

  /**
   * On a line that does not break, the lazy search from `q` stops at the first
   * axis letter with a number: the one the reading of the rest finds.
   */
  lemma {:induction false} AxisAfterFinds(s: string, axis: char, q: nat)
    requires 'A' <= axis <= 'Z'
    requires q <= |s| && NoBreak(s) && ReadAxis(s[q..], axis).Some?
    ensures AxisAfter(s, axis, q).Some?
    ensures ReadAxis(s[q..AxisAfter(s, axis, q).value], axis).None?
    decreases |s| - q
  {
    if q < |s| {
      ReadStep(s, axis, q);
      if !(IsAxisLetter(s[q], axis) && NumberEnd(s, q + 1).Some?) {
        AxisAfterFinds(s, axis, q + 1);
        ReadCut(s, axis, q, AxisAfter(s, axis, q + 1).value);
      }
    }
  }

  /** Reading from `q` on: the letter at `q` with its number, or the reading from the next character. */
  lemma ReadStep(s: string, axis: char, q: nat)
    requires q < |s|
    ensures ReadAxis(s[q..], axis) == if IsAxisLetter(s[q], axis) && NumberEnd(s, q + 1).Some? then NumVal(NumberAt(s[q + 1..])) else ReadAxis(s[q + 1..], axis)
  {
    assert s[q..][0] == s[q] && s[q..][1..] == s[q + 1..];
    NumberEndAt(s, q + 1);
  }

  /** A reading-free stretch before a stopper stays reading-free with a character in front that starts no reading. */
  lemma ReadCut(s: string, axis: char, q: nat, r: nat)
    requires 'A' <= axis <= 'Z' && q < r < |s| && IsAxisLetter(s[r], axis)
    requires !(IsAxisLetter(s[q], axis) && NumberEnd(s, q + 1).Some?)
    requires ReadAxis(s[q + 1..r], axis).None?
    ensures ReadAxis(s[q..r], axis).None?
  {
    var x := s[q..r];
    assert x[0] == s[q] && x[1..] == s[q + 1..r];
    assert s[q + 1..] == s[q + 1..r] + s[r..];
    NumberEndAt(s, q + 1);
    NumberLocal(s[q + 1..r], s[r..]);
  }

  /** Where the line holds a character, the replacement's output starts with it. */
  lemma ReplaceFirst(s: string, axis: char, text: string, p: nat)
    requires p < |s|
    ensures var out := ReplaceFrom(s, axis, text, p); out != [] && out[0] == s[p]
  {
  }

  /** The replacement of a line that does not break, with text that does not break, does not break. */
  lemma {:induction false} ReplaceNoBreak(s: string, axis: char, text: string, p: nat)
    requires p <= |s| && NoBreak(s) && NoBreak(text)
    ensures NoBreak(ReplaceFrom(s, axis, text, p))
    decreases |s| - p
  {
    if p < |s| {
      match MatchAt(s, axis, p)
      case Some(r) =>
        ReplaceNoBreak(s, axis, text, MatchEnd(s, axis, p));
      case None =>
        ReplaceNoBreak(s, axis, text, p + 1);
    }
  }

  /** The written number, read where it was put: the text before holds no reading of the axis. */
  lemma ReadAtRewrite(x: string, axis: char, v: real, rest: string)
    requires 'A' <= axis <= 'Z' && ReadAxis(x, axis).None?
    requires rest == [] || !IsDigit(rest[0])
    ensures ReadAxis(x + ([axis] + (ToFixed(v, 4) + rest)), axis) == Some(Rounded(v, 4))
  {
    var tail := [axis] + (ToFixed(v, 4) + rest);
    ReadAppend(x, tail, axis);
    assert tail[0] == axis && tail[1..] == ToFixed(v, 4) + rest;
    FixedReadsBefore(v, 4, rest);
  }

  /** The move word holds no axis letter. */
  lemma MoveWordSkipped(s: string, axis: char)
    requires 'A' <= axis <= 'Z' && axis != 'G' && MoveWordEnd(s, 0).Some?
    ensures var g := MoveWordEnd(s, 0).value;
      forall k :: 0 <= k < |s[..g]| ==> !IsAxisLetter(s[..g][k], axis)
  {
  }

  /** A line starting with its move word: the first match is the first reading of the axis after it. */
  lemma FirstMatchAtStart(s: string, axis: char)
    requires 'A' <= axis <= 'Z' && axis != 'G' && MoveWordEnd(s, 0).Some? && NoBreak(s) && ReadAxis(s, axis).Some?
    ensures MatchAt(s, axis, 0).Some? && FirstMatch(s, axis, 0) == Some(0)
    ensures MoveWordEnd(s, 0).value < MatchAt(s, axis, 0).value
    ensures ReadAxis(s[..MatchAt(s, axis, 0).value], axis).None?
  {
    var g := MoveWordEnd(s, 0).value;
    MoveWordSkipped(s, axis);
    assert s == s[..g] + s[g..];
    ReadSkip(s[..g], s[g..], axis);
    AxisAfterFinds(s, axis, g);
    var r := AxisAfter(s, axis, g).value;
    assert g != r by {
      assert g < |s| ==> !IsWordChar(s[g]);
    }
    assert s[..r] == s[..g] + s[g..r];
    ReadSkip(s[..g], s[g..r], axis);
  }

  /** The move word is read the same on a line that agrees with `s` up to just past it. */
  lemma MoveWordSame(s: string, t: string)
    requires MoveWordEnd(s, 0).Some?
    requires var g := MoveWordEnd(s, 0).value; g < |s| && g < |t| && s[..g + 1] == t[..g + 1]
    ensures MoveWordEnd(t, 0) == MoveWordEnd(s, 0)
  {
    var g := MoveWordEnd(s, 0).value;
    assert forall k :: 0 <= k <= g ==> s[k] == s[..g + 1][k] == t[..g + 1][k] == t[k];
  }

  /**
   * Rewriting the axis of a line that starts with its move word and does not
   * break: the axis then reads as the written value.
   */
  lemma ReplaceReadsBack(s: string, axis: char, v: real)
    requires 'A' <= axis <= 'Z' && axis != 'G'
    requires MoveWordEnd(s, 0).Some? && NoBreak(s) && ReadAxis(s, axis).Some?
    ensures ReadAxis(ReplaceAxis(s, axis, ToFixed(v, 4)), axis) == Some(Rounded(v, 4))
  {
    var text := ToFixed(v, 4);
    FirstMatchAtStart(s, axis);
    ReplaceNext(s, axis, text, 0);
    var r := MatchAt(s, axis, 0).value;
    var e := MatchEnd(s, axis, 0);
    var rest := ReplaceFrom(s, axis, text, e);
    MatchParts(s, axis, 0);
    if e < |s| {
      ReplaceFirst(s, axis, text, e);
    }
    AppendAssoc(s[0..r], [axis], text, rest);
    assert s[0..r] == s[..r];
    ReadAtRewrite(s[..r], axis, v, rest);
  }

  /** The rewritten line still starts with its move word, and does not break. */
  lemma ReplaceKeepsStart(s: string, axis: char, text: string)
    requires 'A' <= axis <= 'Z' && axis != 'G'
    requires MoveWordEnd(s, 0).Some? && NoBreak(s) && ReadAxis(s, axis).Some? && NoBreak(text)
    ensures var out := ReplaceAxis(s, axis, text);
      MoveWordEnd(out, 0) == MoveWordEnd(s, 0) && NoBreak(out)
  {
    FirstMatchAtStart(s, axis);
    ReplaceNext(s, axis, text, 0);
    var g := MoveWordEnd(s, 0).value;
    var r := MatchAt(s, axis, 0).value;
    var out := ReplaceAxis(s, axis, text);
    assert out[..g + 1] == s[..g + 1] by {
      assert out == s[0..r] + [axis] + text + ReplaceFrom(s, axis, text, MatchEnd(s, axis, 0));
      assert forall k :: 0 <= k <= g ==> out[k] == s[0..r][k] == s[k];
    }
    MoveWordSame(s, out);
    ReplaceNoBreak(s, axis, text, 0);
  }

  /** The normalized line reads each axis as the line itself does. */
  lemma NormalizedReads(line: string, axis: char)
    requires 'A' <= axis <= 'Z'
    ensures AxisValue(Normalized(line), axis) == ReadAxis(line, axis)
  {
    UpperReads(Trim(line), axis);
    TrimReads(line, axis);
  }

  /** The `i`-th output line is line `i` rescaled. */
  lemma ScaledLineIs(lines: seq<string>, i: nat, factor: real)
    requires i < |lines|
    ensures i < |ScaledLines(lines, factor)| && ScaledLines(lines, factor)[i] == ScaledLineAt(lines, i, factor)
  {
    PrefixShape(|lines|, LineScaler(lines, factor));
  }

  /**
   * A rescaled line that starts with its move word, does not break and gives
   * X: its output reads X as the scaled X, rounded to the four decimals written.
   */
  lemma ScaledXRead(lines: seq<string>, i: nat, factor: real)
    requires i < |lines| && IsScaledLine(Normalized(lines[i]))
    requires MoveWordEnd(lines[i], 0).Some? && NoBreak(lines[i]) && AxisValue(Normalized(lines[i]), 'X').Some?
    ensures i < |ScaledLines(lines, factor)|
    ensures AxisValue(Normalized(ScaledLines(lines, factor)[i]), 'X') == Some(Rounded(PositionAfter(lines[..i + 1], factor).x, 4))
  {
    ScaledLineIs(lines, i, factor);
    var line := lines[i];
    var p := PositionAfter(lines[..i + 1], factor);
    NormalizedReads(line, 'X');
    ReplaceReadsBack(line, 'X', p.x);
    var l1 := ReplaceAxis(line, 'X', ToFixed(p.x, 4));
    FixedCharacters(p.y, 4);
    ReplaceKeepsOther(l1, 'Y', 'X', ToFixed(p.y, 4), 0);
    assert l1[0..] == l1;
    NormalizedReads(ScaledLineAt(lines, i, factor), 'X');
  }

  /** The same for Y, read after X has been rewritten. */
  lemma ScaledYRead(lines: seq<string>, i: nat, factor: real)
    requires i < |lines| && IsScaledLine(Normalized(lines[i]))
    requires MoveWordEnd(lines[i], 0).Some? && NoBreak(lines[i]) && AxisValue(Normalized(lines[i]), 'Y').Some?
    ensures i < |ScaledLines(lines, factor)|
    ensures AxisValue(Normalized(ScaledLines(lines, factor)[i]), 'Y') == Some(Rounded(PositionAfter(lines[..i + 1], factor).y, 4))
  {
    ScaledLineIs(lines, i, factor);
    var line := lines[i];
    var u := Normalized(line);
    var p := PositionAfter(lines[..i + 1], factor);
    NormalizedReads(line, 'Y');
    if AxisValue(u, 'X').Some? {
      var tx := ToFixed(p.x, 4);
      NormalizedReads(line, 'X');
      FixedCharacters(p.x, 4);
      ReplaceKeepsStart(line, 'X', tx);
      ReplaceKeepsOther(line, 'X', 'Y', tx, 0);
      assert line[0..] == line;
      ReplaceReadsBack(ReplaceAxis(line, 'X', tx), 'Y', p.y);
    } else {
      ReplaceReadsBack(line, 'Y', p.y);
    }
    NormalizedReads(ScaledLineAt(lines, i, factor), 'Y');
  }

  /** Z (and any other axis) reads on every output line as it did on the input line. */
  lemma ScaledZKept(lines: seq<string>, i: nat, factor: real, axis: char)
    requires i < |lines| && 'A' <= axis <= 'Z' && axis != 'X' && axis != 'Y'
    ensures i < |ScaledLines(lines, factor)|
    ensures AxisValue(Normalized(ScaledLines(lines, factor)[i]), axis) == AxisValue(Normalized(lines[i]), axis)
  {
    ScaledLineIs(lines, i, factor);
    var line := lines[i];
    var u := Normalized(line);
    NormalizedReads(line, axis);
    NormalizedReads(ScaledLineAt(lines, i, factor), axis);
    if IsScaledLine(u) {
      var p := PositionAfter(lines[..i + 1], factor);
      var l1 := if AxisValue(u, 'X').Some? then ReplaceAxis(line, 'X', ToFixed(p.x, 4)) else line;
      FixedCharacters(p.x, 4);
      ReplaceKeepsOther(line, 'X', axis, ToFixed(p.x, 4), 0);
      FixedCharacters(p.y, 4);
      ReplaceKeepsOther(l1, 'Y', axis, ToFixed(p.y, 4), 0);
      assert line[0..] == line && l1[0..] == l1;
    }
  }

  /** A rescaled line giving neither X nor Y (a Z-only move, say) is left as it was. */
  lemma ZOnlyLineKept(line: string, p: Point)
    ensures var u := Normalized(line);
      AxisValue(u, 'X').None? && AxisValue(u, 'Y').None? ==> Rewrite(line, u, p) == line
  {
  }

  /**
   * Reference definition of the unscaled target: the value of `axis` on the
   * last rescaled line that gives one, or 0 when none does.
   */
  function LastTarget(lines: seq<string>, axis: char): real {
    if lines == [] then 0.0
    else
      var u := Normalized(lines[|lines| - 1]);
      if IsScaledLine(u) && AxisValue(u, axis).Some? then AxisValue(u, axis).value
      else LastTarget(lines[..|lines| - 1], axis)
  }

  /** A line without X (or without Y) keeps the previous scaled X (or Y). */
  lemma ScaledKeeps(lines: seq<string>, i: nat, factor: real)
    requires i < |lines|
    ensures var u := Normalized(lines[i]);
      var c := PositionAfter(lines[..i], factor);
      var n := PositionAfter(lines[..i + 1], factor);
      (AxisValue(u, 'X').None? ==> n.x == c.x) && (AxisValue(u, 'Y').None? ==> n.y == c.y)
  {
    PositionStep(lines, i, factor);
  }

  /** With factor 1 the scaled position is always the unscaled target. */
  lemma {:induction false} FactorOneKeepsTargets(lines: seq<string>)
    ensures PositionAfter(lines, 1.0) == Point(LastTarget(lines, 'X'), LastTarget(lines, 'Y'))
  {
    if lines != [] {
      FactorOneKeepsTargets(lines[..|lines| - 1]);
    }
  }

  // ---------------------------------------------------------------- examples

  /** `G01 X` and two digits is its own normalized text, and a rescaled line. */
  lemma TwoDigitMoveText(t: string)
    requires |t| == 2 && AllDigits(t)
    ensures var s := "G01 X" + t;
      Normalized(s) == s && IsScaledLine(s)
  {
    var s := "G01 X" + t;
    assert s[0] == 'G' && s[6] == t[1];
    assert TrimStart(s) == s;
    assert TrimEnd(s) == s;
    assert ToUpper(s) == s;
    assert StartsWith(s, "G01") by {
      assert s[..3] == "G01";
    }
  }

  /** Two digits alone are read as a whole number. */
  lemma TwoDigitNumber(t: string)
    requires |t| == 2 && AllDigits(t)
    ensures NumberAt(t) == Some(NumMatch(false, t, "", 2))
  {
    assert t[0..2] == t;
    DigitRunOver(t, 0, 2);
  }

  /** `G01 X` and two digits gives X as the value of the digits. */
  lemma TwoDigitX(t: string)
    requires |t| == 2 && AllDigits(t)
    ensures AxisValue("G01 X" + t, 'X') == Some(IntVal(t) as real)
  {
    var s := "G01 X" + t;
    var m := NumMatch(false, t, "", 2);
    assert Scan(s, 'X', 4, Reader(s)) == Some((4, m)) by {
      TwoDigitNumber(t);
      assert s[4] == 'X';
      assert s[5..] == t;
      assert Reader(s)(5) == Some(m);
    }
    assert AxisFrom(s, 'X', 0) == Some((4, m)) by {
      forall p | 0 <= p < 4
        ensures s[p] != 'X'
      {
        assert s[p] == "G01 X"[p];
      }
      AxisFromSkip(s, 'X', 0, 4);
    }
  }

  /** `G01 X` and two digits gives no Y. */
  lemma TwoDigitNoY(t: string)
    requires |t| == 2 && AllDigits(t)
    ensures AxisValue("G01 X" + t, 'Y') == None
  {
    var s := "G01 X" + t;
    forall p | 0 <= p < 7
      ensures s[p] != 'Y'
    {
      if p < 5 {
        assert s[p] == "G01 X"[p];
      } else {
        assert s[p] == t[p - 5];
      }
    }
    AxisFromSkip(s, 'Y', 0, 7);
  }

  /**
   * Two rescaled lines with X targets 10 and 30 and no Y, at factor 1.5: the
   * scaled X is 15, then 15 + (30 - 15) * 1.5 = 37.5 (not 45 = 30 * 1.5).
   * `G01 X10` and `G01 X30` are such lines (`ScaledLinesExample`).
   */
  lemma CascadeExample(l1: string, l2: string)
    requires IsScaledLine(Normalized(l1)) && AxisValue(Normalized(l1), 'X') == Some(10.0) && AxisValue(Normalized(l1), 'Y').None?
    requires IsScaledLine(Normalized(l2)) && AxisValue(Normalized(l2), 'X') == Some(30.0) && AxisValue(Normalized(l2), 'Y').None?
    ensures PositionAfter([l1], 1.5) == Point(15.0, 0.0)
    ensures PositionAfter([l1, l2], 1.5) == Point(37.5, 0.0)
  {
    var lines := [l1, l2];
    FirstOfTwo(l1, l2);
    assert PositionAfter([l1], 1.5) == Point(15.0, 0.0) by {
      PositionStep(lines, 0, 1.5);
      assert lines[..0] == [];
    }
    PositionStep(lines, 1, 1.5);
    assert lines[..2] == lines;
  }

  /** On `G01 X` and two digits the pattern matches the X and its digits, and nothing else. */
  lemma TwoDigitRewrite(t: string, w: string)
    requires |t| == 2 && AllDigits(t)
    ensures ReplaceAxis("G01 X" + t, 'X', w) == "G01 X" + w
  {
    var s := "G01 X" + t;
    assert s[0] == 'G' && s[1] == '0' && s[2] == '1' && s[3] == ' ' && s[4] == 'X';
    assert MoveWordEnd(s, 0) == Some(3);
    assert s[5..] == t;
    TwoDigitNumber(t);
    NumberEndAt(s, 5);
    assert AxisAfter(s, 'X', 3) == Some(4);
    assert FirstMatch(s, 'X', 0) == Some(0);
    ReplaceNext(s, 'X', w, 0);
    assert s[0..4] == "G01 ";
  }

  /** `G01 X` and two digits, rescaled to `p`: the X is written, nothing else changes. */
  lemma TwoDigitScaled(t: string, p: Point)
    requires |t| == 2 && AllDigits(t)
    ensures var s := "G01 X" + t; Rewrite(s, Normalized(s), p) == "G01 X" + ToFixed(p.x, 4)
  {
    TwoDigitMoveText(t);
    TwoDigitX(t);
    TwoDigitNoY(t);
    TwoDigitRewrite(t, ToFixed(p.x, 4));
  }

  /** The two-line cascade, written out: `G01 X10`, `G01 X30` at factor 1.5 become `G01 X15.0000`, `G01 X37.5000`. */
  lemma ScaledLinesExample(l1: string, l2: string)
    requires l1 == "G01 X10" && l2 == "G01 X30"
    ensures ScaledLines([l1, l2], 1.5) == ["G01 X15.0000", "G01 X37.5000"]
  {
    ExampleTargets(l1, l2);
    ScaledTwo([l1, l2], 1.5);
  }

  /** Both lines of the example, rewritten with the scaled X each reaches. */
  lemma ExampleTargets(l1: string, l2: string)
    requires l1 == "G01 X10" && l2 == "G01 X30"
    ensures ScaledLineAt([l1, l2], 0, 1.5) == "G01 X15.0000" && ScaledLineAt([l1, l2], 1, 1.5) == "G01 X37.5000"
  {
    ExamplePositions(l1, l2);
    WrittenLines();
    ExampleFirst(l1, l2);
    ExampleSecond(l1, l2);
  }

  lemma ExampleFirst(l1: string, l2: string)
    requires |l1| == 7 && l1 == "G01 X" + l1[5..] && AllDigits(l1[5..])
    requires PositionAfter([l1], 1.5) == Point(15.0, 0.0)
    ensures ScaledLineAt([l1, l2], 0, 1.5) == "G01 X" + ToFixed(15.0, 4)
  {
    var lines := [l1, l2];
    FirstOfTwo(l1, l2);
    ExampleLine(lines, 0, l1[5..], Point(15.0, 0.0), "G01 X" + ToFixed(15.0, 4));
  }

  lemma FirstOfTwo(l1: string, l2: string)
    ensures [l1, l2][..1] == [l1]
  {
  }

  lemma ExampleSecond(l1: string, l2: string)
    requires |l2| == 7 && l2 == "G01 X" + l2[5..] && AllDigits(l2[5..])
    requires PositionAfter([l1, l2], 1.5) == Point(37.5, 0.0)
    ensures ScaledLineAt([l1, l2], 1, 1.5) == "G01 X" + ToFixed(37.5, 4)
  {
    var lines := [l1, l2];
    assert lines[..2] == lines;
    ExampleLine(lines, 1, l2[5..], Point(37.5, 0.0), "G01 X" + ToFixed(37.5, 4));
  }

  /** The example's lines are `G01 X` and two digits, and reach X = 15 and then X = 37.5. */
  lemma ExamplePositions(l1: string, l2: string)
    requires l1 == "G01 X10" && l2 == "G01 X30"
    ensures |l1| == |l2| == 7 && l1 == "G01 X" + l1[5..] && l2 == "G01 X" + l2[5..]
    ensures AllDigits(l1[5..]) && AllDigits(l2[5..])
    ensures PositionAfter([l1], 1.5) == Point(15.0, 0.0) && PositionAfter([l1, l2], 1.5) == Point(37.5, 0.0)
  {
    var a, b := l1[5..], l2[5..];
    assert l1 == "G01 X" + a && l2 == "G01 X" + b;
    ExampleLineReads(l1, a, 10);
    ExampleLineReads(l2, b, 30);
    CascadeExample(l1, l2);
  }

  /** Two lines rescaled: each output line is its input line rescaled. */
  lemma ScaledTwo(lines: seq<string>, factor: real)
    requires |lines| == 2
    ensures ScaledLines(lines, factor) == [ScaledLineAt(lines, 0, factor), ScaledLineAt(lines, 1, factor)]
  {
    ScaledLineIs(lines, 0, factor);
    ScaledLineIs(lines, 1, factor);
    ScaledLinesShape(lines, factor);
  }

  /** `G01 X` and two digits worth `v`: a rescaled line with X at `v` and no Y. */
  lemma ExampleLineReads(l: string, t: string, v: nat)
    requires |t| == 2 && AllDigits(t) && l == "G01 X" + t
    requires DigitValue(t[0]) * 10 + DigitValue(t[1]) == v
    ensures IsScaledLine(Normalized(l)) && AxisValue(Normalized(l), 'X') == Some(v as real) && AxisValue(Normalized(l), 'Y').None?
  {
    TwoDigitMoveText(t);
    TwoDigitX(t);
    TwoDigitVal(t);
    TwoDigitNoY(t);
  }

  lemma WrittenLines()
    ensures "G01 X" + ToFixed(15.0, 4) == "G01 X15.0000" && "G01 X" + ToFixed(37.5, 4) == "G01 X37.5000"
  {
    WrittenLine(15.0, "G01 X15.0000");
    WrittenLine(37.5, "G01 X37.5000");
  }

  lemma WrittenLine(x: real, o: string)
    requires (x == 15.0 && o == "G01 X15.0000") || (x == 37.5 && o == "G01 X37.5000")
    ensures "G01 X" + ToFixed(x, 4) == o
  {
    assert o == "G01 X" + o[5..];
    if x == 15.0 {
      FixedFourZeros();
      assert o[5..] == "15.0000";
    } else {
      FixedFourPlaces();
      assert o[5..] == "37.5000";
    }
  }

  lemma ExampleLine(lines: seq<string>, i: nat, t: string, p: Point, out: string)
    requires i < |lines| && |t| == 2 && AllDigits(t) && lines[i] == "G01 X" + t
    requires PositionAfter(lines[..i + 1], 1.5) == p && "G01 X" + ToFixed(p.x, 4) == out
    ensures ScaledLineAt(lines, i, 1.5) == out
  {
    TwoDigitMoveText(t);
    TwoDigitScaled(t, p);
  }

  lemma TwoDigitVal(t: string)
    requires |t| == 2 && AllDigits(t)
    ensures IntVal(t) == DigitValue(t[0]) * 10 + DigitValue(t[1])
  {
    var h := t[..1];
    assert h[..0] == [] && h[0] == t[0];
    assert IntVal(h) == DigitValue(t[0]);
  }
}
