/**
 * The source sanitizer (`cleanOriginalContent`): drops rapid moves (`G00`) and
 * dwells (`G04`), removes every feed word `F<n>` from the remaining lines,
 * drops the lines that are then empty or only a label, and collapses the
 * whitespace of the rest.
 */
module Sanitizing {
  import opened Text
  import opened Wrappers

  // ---------------------------------------------------------------- line tests

  /** A rapid move, tested on the trimmed, upper-cased ORIGINAL line. */
  predicate DropsAsRapid(line: string) {
    var t := ToUpper(Trim(line));
    StartsWith(t, "G00") || StartsWith(t, "G0 ")
  }

  /** A dwell, tested on the trimmed, upper-cased ORIGINAL line. */
  predicate DropsAsDwell(line: string) {
    var t := ToUpper(Trim(line));
    StartsWith(t, "G04") || StartsWith(t, "G4 ")
  }

  /** `F` under the `i` flag. */
  predicate IsFeedLetter(c: char) {
    c == 'F' || c == 'f'
  }

  /** `/^N\d+\s*$/`: a label and nothing else. */
  predicate IsBareLabel(u: string) {
    && |u| >= 2 && u[0] == 'N'
    && DigitRun(u, 1) >= 1
    && AllSpace(u[1 + DigitRun(u, 1)..])
  }

  // ---------------------------------------------------------------- feed removal

  // Where a match of `/\s*F\d+(\.\d+)?\s*/i` that starts at `p` ends, if one
  // does: blanks, the letter, digits, an optional fraction, blanks. Every
  // part is greedy and nothing after it can fail, so no backtracking is needed.
  function FeedMatchEnd(s: string, p: nat): (e: Option<nat>)
    requires p <= |s|
    ensures e.Some? ==> p < e.value <= |s|
  {
    var a := p + SpaceRun(s, p);
    if a < |s| && IsFeedLetter(s[a]) && DigitRun(s, a + 1) >= 1 then
      var b := a + 1 + DigitRun(s, a + 1);
      var c := if b + 1 < |s| && s[b] == '.' && IsDigit(s[b + 1]) then b + 1 + DigitRun(s, b + 1) else b;
      Some(c + SpaceRun(s, c))
    else None
  }

  /** The global replacement of feed words by `' '`, scanning from `p`. */
  function RemoveFeedFrom(s: string, p: nat): string
    requires p <= |s|
    decreases |s| - p
  {
    if p == |s| then []
    else match FeedMatchEnd(s, p)
      case Some(e) => [' '] + RemoveFeedFrom(s, e)
      case None => [s[p]] + RemoveFeedFrom(s, p + 1)
  }

  // `line.replace(/\s*F\d+(\.\d+)?\s*/gi, ' ')`
  function RemoveFeed(s: string): string {
    RemoveFeedFrom(s, 0)
  }

  /** No feed letter followed by a digit: nothing the removal would match. */
  predicate NoFeedWord(s: string) {
    forall k :: 0 <= k < |s| - 1 ==> !(IsFeedLetter(s[k]) && IsDigit(s[k + 1]))
  }

  // ---------------------------------------------------------------- the sanitizer

  /** What one line becomes: dropped, or trimmed with its whitespace collapsed. */
  function SanitizeLine(line: string): Option<string> {
    if DropsAsRapid(line) || DropsAsDwell(line) then None
    else
      var cleaned := RemoveFeed(line);
      var t := Trim(cleaned);
      if t == [] || IsBareLabel(ToUpper(t)) then None
      else Some(Trim(CollapseSpaces(cleaned)))
  }

  /** The lines `cleanOriginalContent` joins into its result. */
  function Sanitize(lines: seq<string>): seq<string> {
    if lines == [] then []
    else
      var init := Sanitize(lines[..|lines| - 1]);
      match SanitizeLine(lines[|lines| - 1])
      case Some(r) => init + [r]
      case None => init
  }

  lemma SanitizeStep(lines: seq<string>, i: nat)
    requires i < |lines|
    ensures Sanitize(lines[..i + 1])
            == match SanitizeLine(lines[i]) case Some(r) => Sanitize(lines[..i]) + [r] case None => Sanitize(lines[..i])
  {
    assert lines[..i + 1][..i] == lines[..i];
  }

  /** `cleanOriginalContent`: one pass over the lines, pushing each kept line. */
  method CleanOriginalContent(content: string) returns (r: string)
    ensures r == Join(Sanitize(Split(content)))
  {
    var lines := Split(content);
    var cleanedLines: seq<string> := [];
    var i := 0;
    while i < |lines|
      invariant 0 <= i <= |lines|
      invariant cleanedLines == Sanitize(lines[..i])
    {
      var line := lines[i];
      SanitizeStep(lines, i);
      i := i + 1;
      var trimmedLine := ToUpper(Trim(line));
      if StartsWith(trimmedLine, "G00") || StartsWith(trimmedLine, "G0 ") {
        continue;
      }
      if StartsWith(trimmedLine, "G04") || StartsWith(trimmedLine, "G4 ") {
        continue;
      }
      var cleanedLine := RemoveFeed(line);
      var lineAfterFRemoval := Trim(cleanedLine);
      if lineAfterFRemoval == [] || IsBareLabel(ToUpper(lineAfterFRemoval)) {
        continue;
      }
      cleanedLine := Trim(CollapseSpaces(cleanedLine));
      cleanedLines := cleanedLines + [cleanedLine];
    }
    assert lines[..i] == lines;
    r := Join(cleanedLines);
  }

  // ---------------------------------------------------------------- properties

  /** The shape of every line the sanitizer keeps. */
  predicate CleanLine(r: string) {
    && r != []
    && !IsSpace(r[0]) && !IsSpace(r[|r| - 1])
    && SingleSpaced(r)
    && !IsBareLabel(ToUpper(r))
  }

  lemma UpperKeepsSpaces(s: string)
    ensures forall i :: 0 <= i < |s| ==> (IsSpace(ToUpper(s)[i]) <==> IsSpace(s[i]))
  {
  }

  /** A text that starts and ends with non-space is unchanged by `trim()`. */
  lemma TrimmedIsFixed(s: string)
    requires s == [] || (!IsSpace(s[0]) && !IsSpace(s[|s| - 1]))
    ensures Trim(s) == s
  {
    TrimStartAfterSpaces([], s);
    assert [] + s == s;
    TrimEndFacts(s);
  }

  /** The collapse of a trimmed, non-empty text is trimmed, non-empty and single-spaced. */
  lemma CollapseTrimmed(t: string)
    requires t != [] && !IsSpace(t[0]) && !IsSpace(t[|t| - 1])
    ensures var r := CollapseSpaces(t);
      r != [] && !IsSpace(r[0]) && !IsSpace(r[|r| - 1]) && SingleSpaced(r)
  {
    CollapseFacts(t);
    TrimEndCollapse(t);
    assert TrimEnd(t) == t;
    TrimEndFacts(CollapseSpaces(t));
  }

  /** The collapse cannot turn a text into a bare label. */
  lemma CollapseNotBare(t: string)
    requires !IsBareLabel(ToUpper(t))
    requires var r := CollapseSpaces(t); r != [] && !IsSpace(r[|r| - 1])
    ensures !IsBareLabel(ToUpper(CollapseSpaces(t)))
  {
    var r := CollapseSpaces(t);
    if IsBareLabel(ToUpper(r)) {
      var u := ToUpper(r);
      var d := DigitRun(u, 1);
      DigitRunFacts(u, 1);
      UpperKeepsSpaces(r);
      assert 1 + d == |u|;
      forall i | 0 <= i < |r| ensures !IsSpace(r[i]) {
        if i > 0 {
          assert u[1..1 + d][i - 1] == u[i];
        }
      }
      CollapseWithoutSpace(t);
    }
  }

  /** A kept line is non-empty, trimmed, single-spaced and not a bare label. */
  lemma SanitizedLineShape(line: string)
    requires SanitizeLine(line).Some?
    ensures !DropsAsRapid(line) && !DropsAsDwell(line)
    ensures CleanLine(SanitizeLine(line).value)
  {
    var cleaned := RemoveFeed(line);
    var t := Trim(cleaned);
    TrimCollapse(cleaned);
    assert SanitizeLine(line).value == CollapseSpaces(t);
    TrimFacts(cleaned);
    CollapseTrimmed(t);
    CollapseNotBare(t);
  }

  /** The kept lines all have the shape of `CleanLine`, and there are no more of them than input lines. */
  lemma {:induction false} SanitizedShape(lines: seq<string>)
    ensures |Sanitize(lines)| <= |lines|
    ensures forall k :: 0 <= k < |Sanitize(lines)| ==> CleanLine(Sanitize(lines)[k])
  {
    if lines != [] {
      var n := |lines| - 1;
      SanitizedShape(lines[..n]);
      if SanitizeLine(lines[n]).Some? {
        SanitizedLineShape(lines[n]);
      }
    }
  }

  /** Rapid moves and dwells never reach the result. */
  lemma RapidAndDwellDropped(lines: seq<string>, line: string)
    requires DropsAsRapid(line) || DropsAsDwell(line)
    ensures Sanitize(lines + [line]) == Sanitize(lines)
  {
    assert (lines + [line])[..|lines|] == lines;
  }

  // ---------------------------------------------------------------- feed removal, properties

  lemma RemoveFeedHead(s: string, p: nat)
    requires p < |s|
    ensures var r := RemoveFeedFrom(s, p); r != [] && (r[0] == ' ' || r[0] == s[p])
  {
  }

  /** After the removal no feed letter is followed by a digit. */
  lemma {:induction false} RemoveFeedLeavesNoFeed(s: string, p: nat)
    requires p <= |s|
    ensures NoFeedWord(RemoveFeedFrom(s, p))
    decreases |s| - p
  {
    if p < |s| {
      match FeedMatchEnd(s, p)
      case Some(e) =>
        RemoveFeedLeavesNoFeed(s, e);
      case None =>
        RemoveFeedLeavesNoFeed(s, p + 1);
        var rest := RemoveFeedFrom(s, p + 1);
        if IsFeedLetter(s[p]) && p + 1 < |s| {
          assert SpaceRun(s, p) == 0;
          assert !IsDigit(s[p + 1]);
          RemoveFeedHead(s, p + 1);
        }
    }
  }

  /** No feed word from position `p` on. */
  predicate NoFeedFrom(s: string, p: nat) {
    forall k :: p <= k < |s| - 1 ==> !(IsFeedLetter(s[k]) && IsDigit(s[k + 1]))
  }

  lemma NoFeedSlice(s: string, a: nat, b: nat)
    requires a <= b <= |s| && NoFeedWord(s)
    ensures NoFeedWord(s[a..b])
  {
    forall k | 0 <= k < b - a - 1 ensures !(IsFeedLetter(s[a..b][k]) && IsDigit(s[a..b][k + 1])) {
      assert s[a..b][k] == s[a + k] && s[a..b][k + 1] == s[a + k + 1];
    }
  }

  /** A text with no feed word from `p` on comes out of the removal unchanged from `p` on. */
  lemma {:induction false} RemoveFeedWithout(s: string, p: nat)
    requires p <= |s| && NoFeedFrom(s, p)
    ensures RemoveFeedFrom(s, p) == s[p..]
    decreases |s| - p
  {
    if p < |s| {
      assert FeedMatchEnd(s, p).None?;
      RemoveFeedWithout(s, p + 1);
      assert s[p..] == [s[p]] + s[p + 1..];
    }
  }

  lemma CollapseHead(s: string)
    requires s != []
    ensures var c := CollapseSpaces(s); c != [] && c[0] == (if IsSpace(s[0]) then ' ' else s[0])
  {
  }

  lemma {:induction false} CollapseKeepsNoFeed(s: string)
    requires NoFeedWord(s)
    ensures NoFeedWord(CollapseSpaces(s))
    decreases |s|
  {
    if s != [] {
      if IsSpace(s[0]) {
        TrimStartFacts(s);
        var u := TrimStart(s);
        NoFeedSlice(s, |s| - |u|, |s|);
        CollapseKeepsNoFeed(u);
      } else {
        NoFeedSlice(s, 1, |s|);
        CollapseKeepsNoFeed(s[1..]);
        if |s| > 1 {
          CollapseHead(s[1..]);
        }
      }
    }
  }

  /** A line the sanitizer keeps holds no feed word. */
  lemma SanitizedNoFeed(line: string)
    requires SanitizeLine(line).Some?
    ensures NoFeedWord(SanitizeLine(line).value)
  {
    var cleaned := RemoveFeed(line);
    RemoveFeedLeavesNoFeed(line, 0);
    CollapseKeepsNoFeed(cleaned);
    var c := CollapseSpaces(cleaned);
    TrimFacts(c);
    var a := |c| - |TrimStart(c)|;
    var r := Trim(c);
    NoFeedSlice(c, a, a + |r|);
  }

  lemma {:induction false} CollapseSingleSpaced(s: string)
    requires SingleSpaced(s)
    ensures CollapseSpaces(s) == s
    decreases |s|
  {
    if s != [] {
      SingleSpacedSlice(s, 1, |s|);
      if IsSpace(s[0]) {
        assert s[1..] == [] || !IsSpace(s[1..][0]);
        assert TrimStart(s) == s[1..];
        CollapseSingleSpaced(s[1..]);
        assert s == [' '] + s[1..];
      } else {
        CollapseSingleSpaced(s[1..]);
        assert s == [s[0]] + s[1..];
      }
    }
  }

  /**
   * A second pass keeps every line of the first unchanged, unless the first
   * pass exposed a rapid move or a dwell by removing a leading feed word.
   */
  lemma SanitizeLineAgain(line: string)
    requires SanitizeLine(line).Some?
    ensures var r := SanitizeLine(line).value;
      !DropsAsRapid(r) && !DropsAsDwell(r) ==> SanitizeLine(r) == Some(r)
  {
    var r := SanitizeLine(line).value;
    SanitizedLineShape(line);
    SanitizedNoFeed(line);
    RemoveFeedWithout(r, 0);
    TrimmedIsFixed(r);
    CollapseSingleSpaced(r);
  }

  lemma ExampleMatch()
    ensures FeedMatchEnd("F5 G00 X1", 0) == Some(3)
  {
    var s := "F5 G00 X1";
    assert SpaceRun(s, 0) == 0;
    assert DigitRun(s, 2) == 0;
    assert DigitRun(s, 1) == 1;
    assert SpaceRun(s, 3) == 0;
    assert SpaceRun(s, 2) == 1;
    assert !(s[2] == '.');
  }

  lemma ExampleTail()
    ensures RemoveFeedFrom("F5 G00 X1", 3) == " G00 X1"[1..]
  {
    var s := "F5 G00 X1";
    assert NoFeedFrom(s, 3) by {
      forall k | 3 <= k < |s| - 1 ensures !IsFeedLetter(s[k]) {}
    }
    RemoveFeedWithout(s, 3);
  }

  lemma FeedRemovedFromExample()
    ensures RemoveFeed("F5 G00 X1") == " G00 X1"
  {
    ExampleMatch();
    ExampleTail();
  }

  lemma ExampleCleaned()
    ensures Trim(CollapseSpaces(" G00 X1")) == "G00 X1"
  {
    ExampleCollapsed(" G00 X1");
    ExampleNotBare();
  }

  lemma ExampleCollapsed(c: string)
    requires c == " G00 X1"
    ensures CollapseSpaces(c) == c
  {
    assert SingleSpaced(c) by {
      forall i | 0 <= i < |c|
        ensures IsSpace(c[i]) <==> i == 0 || i == 4
        ensures IsSpace(c[i]) ==> c[i] == ' '
      {
      }
    }
    CollapseSingleSpaced(c);
  }

  lemma ExampleNotDropped()
    ensures !DropsAsRapid("F5 G00 X1") && !DropsAsDwell("F5 G00 X1")
  {
    var s := "F5 G00 X1";
    TrimmedIsFixed(s);
    assert ToUpper(Trim(s))[0] == 'F';
  }

  lemma ExampleNotBare()
    ensures Trim(" G00 X1") == "G00 X1" && !IsBareLabel(ToUpper("G00 X1"))
  {
    TrimmedIsFixed("G00 X1");
    TrimStartAfterSpaces([' '], "G00 X1");
    assert ToUpper("G00 X1")[0] == 'G';
  }

  /** `F5 G00 X1` passes the rapid-move test before its feed word is removed, and comes out as `G00 X1`. */
  lemma RapidBehindFeedKept()
    ensures SanitizeLine("F5 G00 X1") == Some("G00 X1")
  {
    ExampleNotDropped();
    FeedRemovedFromExample();
    ExampleNotBare();
    ExampleCleaned();
  }
}
