/**
 * The legacy-output stripper (`detectAndCleanProcessedContent`): a line state
 * machine that drops the header and footer scaffolding of an earlier run,
 * removes one leading `N<digits>` label per kept line, collapses runs of blank
 * lines, keeps only the first `F600` line and drops trailing blank lines.
 */
module Stripping {
  import opened Text

  // ---------------------------------------------------------------- line tests

  /** `s.startsWith(p)` for some `p` in `patterns` (a chain of `||` in the source). */
  predicate StartsWithAny(s: string, patterns: seq<string>) {
    patterns != [] && (StartsWith(s, patterns[0]) || StartsWithAny(s, patterns[1..]))
  }

  /** `s.includes(p)` for some `p` in `patterns` (a chain of `||` in the source). */
  predicate ContainsAny(s: string, patterns: seq<string>) {
    patterns != [] && (Contains(s, patterns[0]) || ContainsAny(s, patterns[1..]))
  }

  const HEADER_PREFIXES: seq<string> := ["; projeto:", "; data:", "; tipo de eps:", "; feed rate:"]

  const HEADER_MARKERS: seq<string> := ["=== inicio do corte ===", "modo absoluto", "zera a origem", "velocidade base"]

  const FOOTER_MARKERS: seq<string> := [
    "=== fim do corte ===", "=== estatisticas ===", "=== creditos ===", "eleva digital midia",
    "danilo pellens", "whatsapp", "distancia total", "tempo estimado", "pausas inseridas"]

  /** A line of a generated header (tested on the trimmed, lower-cased line). */
  predicate IsHeaderLine(lower: string) {
    StartsWithAny(lower, HEADER_PREFIXES) || ContainsAny(lower, HEADER_MARKERS)
  }

  /** `/^F\d+/` */
  predicate StartsFeedWord(upper: string) {
    |upper| >= 2 && upper[0] == 'F' && IsDigit(upper[1])
  }

  /** Set-up lines skipped while inside a header. */
  predicate IsSetupLine(trimmed: string, lower: string, upper: string) {
    || Contains(upper, "G90")
    || Contains(upper, "G92")
    || StartsFeedWord(upper)
    || trimmed == ""
    || StartsWith(lower, ";")
  }

  /** `/G0?1/` together with an `X` or a `Y` somewhere on the line. */
  predicate IsCutCode(upper: string) {
    (Contains(upper, "G1") || Contains(upper, "G01")) && (Contains(upper, "X") || Contains(upper, "Y"))
  }

  /**
   * `/^G0?[^1]/`. Because `0?` may match nothing, the second alternative also
   * accepts `G01...` (with `[^1]` matching the `0`).
   */
  predicate StartsGNotOne(upper: string) {
    || (|upper| >= 3 && upper[0] == 'G' && upper[1] == '0' && upper[2] != '1')
    || (|upper| >= 2 && upper[0] == 'G' && upper[1] != '1')
  }

  /** `/^[NnMm]\d+/` or `/^G0?[^1]/`: a label, an M-code or another G-code. */
  predicate IsOtherCode(upper: string) {
    || (|upper| >= 2 && upper[0] in {'N', 'n', 'M', 'm'} && IsDigit(upper[1]))
    || StartsGNotOne(upper)
  }

  /** A line of a generated footer, or the program end `M30`. */
  predicate IsFooterLine(lower: string, upper: string) {
    ContainsAny(lower, FOOTER_MARKERS) || upper == "M30"
  }

  predicate IsBlank(line: string) {
    Trim(line) == ""
  }

  predicate IsF600(line: string) {
    ToUpper(Trim(line)) == "F600"
  }

  /** `cleanedLines.some(prevLine => prevLine.trim().toUpperCase() === 'F600')` */
  predicate HasF600(lines: seq<string>) {
    exists j :: 0 <= j < |lines| && IsF600(lines[j])
  }

  /**
   * `line.replace(/^\s*[Nn]\d+\s+/, '')`: removes one leading label, and only
   * when whitespace follows its digits.
   */
  function StripLabel(line: string): string {
    var a := SpaceRun(line, 0);
    if a < |line| && line[a] in {'N', 'n'} then
      var d := DigitRun(line, a + 1);
      var w := SpaceRun(line, a + 1 + d);
      if d >= 1 && w >= 1 then line[a + 1 + d + w..] else line
    else line
  }

  // ---------------------------------------------------------------- the state machine

  datatype StripState = StripState(
    insideHeader: bool,
    insideFooter: bool,
    headerEndFound: bool,
    cleanedLines: seq<string>)

  const START := StripState(false, false, false, [])

  /**
   * What the loop tests on one line (its trimmed, lower- and upper-cased
   * forms), and the line with its label removed, which is what it would keep.
   */
  datatype LineClass = LineClass(header: bool, setup: bool, cut: bool, other: bool, footer: bool, clean: string)

  function ClassOf(line: string): LineClass {
    var trimmed := Trim(line);
    var lower := ToLower(trimmed);
    var upper := ToUpper(trimmed);
    LineClass(IsHeaderLine(lower), IsSetupLine(trimmed, lower, upper), IsCutCode(upper), IsOtherCode(upper),
              IsFooterLine(lower, upper), StripLabel(line))
  }

  /** Appending a cleaned line, unless it is a second blank in a row or a second `F600`. */
  function Keep(kept: seq<string>, clean: string): seq<string> {
    if IsBlank(clean) && |kept| > 0 && IsBlank(kept[|kept| - 1]) then kept
    else if IsF600(clean) && HasF600(kept) then kept
    else kept + [clean]
  }

  /** One iteration of the loop, on a line classified as `c`. */
  function Step(st: StripState, c: LineClass): StripState {
    if !st.headerEndFound && c.header then st.(insideHeader := true)
    else if st.insideHeader && c.setup then st
    else if st.insideHeader && !c.cut && c.other then st
    else
      var st1 := if st.insideHeader then st.(insideHeader := false, headerEndFound := true) else st;
      if c.footer then st1.(insideFooter := true)
      else if st1.insideHeader || st1.insideFooter then st1
      else st1.(cleanedLines := Keep(st1.cleanedLines, c.clean))
  }

  /** The state after the loop has seen lines classified as `cs`. */
  function RunOn(cs: seq<LineClass>): StripState {
    if cs == [] then START else Step(RunOn(cs[..|cs| - 1]), cs[|cs| - 1])
  }

  function Classes(lines: seq<string>): seq<LineClass> {
    seq(|lines|, k requires 0 <= k < |lines| => ClassOf(lines[k]))
  }

  /** The state after the loop has seen `lines`. */
  function Run(lines: seq<string>): StripState {
    RunOn(Classes(lines))
  }

  function DropTrailingBlanks(lines: seq<string>): (r: seq<string>)
    ensures |r| <= |lines| && r == lines[..|r|]
    ensures r == [] || !IsBlank(r[|r| - 1])
  {
    if lines != [] && IsBlank(lines[|lines| - 1]) then DropTrailingBlanks(lines[..|lines| - 1]) else lines
  }

  /** The lines `detectAndCleanProcessedContent` joins into its result. */
  function StripLines(lines: seq<string>): seq<string> {
    DropTrailingBlanks(Run(lines).cleanedLines)
  }

  lemma RunStep(lines: seq<string>, i: nat)
    requires i < |lines|
    ensures Run(lines[..i + 1]) == Step(Run(lines[..i]), ClassOf(lines[i]))
  {
    var cs := Classes(lines[..i + 1]);
    assert cs[..i] == Classes(lines[..i]);
  }

  /** `detectAndCleanProcessedContent` */
  method DetectAndCleanProcessedContent(content: string) returns (cleaned: string)
    ensures cleaned == Join(StripLines(Split(content)))
  {
    var lines := Split(content);
    var cleanedLines: seq<string> := [];
    var insideHeader, insideFooter, headerEndFound := false, false, false;
    var i := 0;
    while i < |lines|
      invariant 0 <= i <= |lines|
      invariant StripState(insideHeader, insideFooter, headerEndFound, cleanedLines) == Run(lines[..i])
    {
      var line := lines[i];
      var trimmedLine := Trim(line);
      var lowerLine := ToLower(trimmedLine);
      RunStep(lines, i);
      i := i + 1;

      if !headerEndFound && IsHeaderLine(lowerLine) {
        insideHeader := true;
        continue;
      }
      if insideHeader {
        var upperLine := ToUpper(trimmedLine);
        if IsSetupLine(trimmedLine, lowerLine, upperLine) {
          continue;
        }
        if IsCutCode(upperLine) {
          insideHeader := false;
          headerEndFound := true;
        } else if IsOtherCode(upperLine) {
          continue;
        } else {
          insideHeader := false;
          headerEndFound := true;
        }
      }
      if IsFooterLine(lowerLine, ToUpper(trimmedLine)) {
        insideFooter := true;
        continue;
      }
      if insideHeader || insideFooter {
        continue;
      }
      var cleanLine := StripLabel(line);
      if IsBlank(cleanLine) && |cleanedLines| > 0 && IsBlank(cleanedLines[|cleanedLines| - 1]) {
        continue;
      }
      if IsF600(cleanLine) && HasF600(cleanedLines) {
        continue;
      }
      cleanedLines := cleanedLines + [cleanLine];
    }
    assert lines[..i] == lines;
    ghost var all := cleanedLines;
    while |cleanedLines| > 0 && IsBlank(cleanedLines[|cleanedLines| - 1])
      invariant DropTrailingBlanks(cleanedLines) == DropTrailingBlanks(all)
    {
      cleanedLines := cleanedLines[..|cleanedLines| - 1];
    }
    cleaned := Join(cleanedLines);
  }

  // ---------------------------------------------------------------- properties

  predicate NoAdjacentBlanks(lines: seq<string>) {
    forall k :: 0 <= k < |lines| - 1 ==> !(IsBlank(lines[k]) && IsBlank(lines[k + 1]))
  }

  predicate AtMostOneF600(lines: seq<string>) {
    forall j, k :: 0 <= j < k < |lines| ==> !(IsF600(lines[j]) && IsF600(lines[k]))
  }

  /** Each input line with its leading label removed, in order. */
  function Unlabelled(lines: seq<string>): (r: seq<string>)
    ensures |r| == |lines|
    ensures forall k :: 0 <= k < |lines| ==> r[k] == StripLabel(lines[k])
  {
    seq(|lines|, k requires 0 <= k < |lines| => StripLabel(lines[k]))
  }

  /** The lines the loop would keep, one per classified line. */
  function Cleans(cs: seq<LineClass>): seq<string> {
    seq(|cs|, k requires 0 <= k < |cs| => cs[k].clean)
  }

  /** A step either leaves the kept lines alone or offers the unlabelled line to `Keep`; after a footer it keeps nothing. */
  lemma StepCleaned(st: StripState, c: LineClass)
    ensures var after := Step(st, c).cleanedLines;
      after == st.cleanedLines || after == Keep(st.cleanedLines, c.clean)
    ensures st.insideFooter ==> Step(st, c).insideFooter && Step(st, c).cleanedLines == st.cleanedLines
  {
  }

  lemma KeepPreserves(kept: seq<string>, clean: string)
    requires NoAdjacentBlanks(kept) && AtMostOneF600(kept)
    ensures var r := Keep(kept, clean);
      && NoAdjacentBlanks(r) && AtMostOneF600(r)
      && (r == kept || r == kept + [clean])
  {
    var r := Keep(kept, clean);
    if r != kept {
      assert r == kept + [clean];
      assert !(IsF600(clean) && HasF600(kept));
      forall j, k | 0 <= j < k < |r| ensures !(IsF600(r[j]) && IsF600(r[k])) {
        if k == |kept| {
          assert r[j] == kept[j];
        }
      }
    }
  }

  /** One step of the loop keeps the three properties of the kept lines. */
  lemma KeptStep(before: seq<string>, after: seq<string>, source: seq<string>, clean: string)
    requires NoAdjacentBlanks(before) && AtMostOneF600(before) && IsSubsequence(before, source)
    requires after == before || after == Keep(before, clean)
    ensures NoAdjacentBlanks(after) && AtMostOneF600(after) && IsSubsequence(after, source + [clean])
  {
    KeepPreserves(before, clean);
    if after == before {
      SubsequenceExtend(before, source, clean);
    } else {
      SubsequenceAppend(before, source, clean);
    }
  }

  /** The loop keeps an order-preserving selection of the offered lines, never two blanks in a row, at most one `F600`. */
  lemma {:induction false} RunOnInvariant(cs: seq<LineClass>)
    ensures var kept := RunOn(cs).cleanedLines;
      && NoAdjacentBlanks(kept)
      && AtMostOneF600(kept)
      && IsSubsequence(kept, Cleans(cs))
  {
    if cs != [] {
      var n := |cs| - 1;
      var prev := cs[..n];
      RunOnInvariant(prev);
      StepCleaned(RunOn(prev), cs[n]);
      assert Cleans(cs) == Cleans(prev) + [cs[n].clean];
      KeptStep(RunOn(prev).cleanedLines, RunOn(cs).cleanedLines, Cleans(prev), cs[n].clean);
    }
  }

  lemma CleansAreUnlabelled(lines: seq<string>)
    ensures Cleans(Classes(lines)) == Unlabelled(lines)
  {
  }

  /** Over the input lines: the kept lines are unlabelled input lines in order, no blank pairs, one `F600` at most. */
  lemma RunInvariant(lines: seq<string>)
    ensures var kept := Run(lines).cleanedLines;
      && NoAdjacentBlanks(kept)
      && AtMostOneF600(kept)
      && IsSubsequence(kept, Unlabelled(lines))
  {
    RunOnInvariant(Classes(lines));
    CleansAreUnlabelled(lines);
  }

  /** What the stripper returns: kept lines in input order, no blank pairs, no trailing blank, one `F600` at most. */
  lemma StrippedShape(lines: seq<string>)
    ensures var r := StripLines(lines);
      && NoAdjacentBlanks(r)
      && AtMostOneF600(r)
      && (r == [] || !IsBlank(r[|r| - 1]))
      && IsSubsequence(r, Unlabelled(lines))
  {
    RunInvariant(lines);
    var kept := Run(lines).cleanedLines;
    var r := StripLines(lines);
    SubsequencePrefix(kept, Unlabelled(lines), |r|);
  }

  /** Once a footer line has been seen, the loop stays in the footer. */
  lemma {:induction false} FooterStays(cs: seq<LineClass>, j: nat)
    requires j <= |cs| && RunOn(cs[..j]).insideFooter
    ensures RunOn(cs).insideFooter
  {
    if j < |cs| {
      var n := |cs| - 1;
      assert cs[..n][..j] == cs[..j];
      FooterStays(cs[..n], j);
      StepCleaned(RunOn(cs[..n]), cs[n]);
    } else {
      assert cs[..j] == cs;
    }
  }

  /** Once a footer line has been seen, nothing further is kept. */
  lemma {:induction false} FooterIsFinal(cs: seq<LineClass>, j: nat)
    requires j <= |cs| && RunOn(cs[..j]).insideFooter
    ensures RunOn(cs).cleanedLines == RunOn(cs[..j]).cleanedLines
  {
    if j < |cs| {
      var n := |cs| - 1;
      assert cs[..n][..j] == cs[..j];
      FooterIsFinal(cs[..n], j);
      FooterStays(cs[..n], j);
      StepCleaned(RunOn(cs[..n]), cs[n]);
    } else {
      assert cs[..j] == cs;
    }
  }

  /** Only one label is removed: `N1 N2 X5` keeps `N2 X5`. */
  lemma OneLabelRemoved()
    ensures StripLabel("N1 N2 X5") == "N2 X5"
  {
    var s := "N1 N2 X5";
    assert SpaceRun(s, 0) == 0;
    assert DigitRun(s, 1) == 1;
    assert SpaceRun(s, 2) == 1;
  }

  /** A label with nothing after it is not removed. */
  lemma BareLabelKept()
    ensures StripLabel("N5") == "N5"
  {
    assert SpaceRun("N5", 0) == 0;
    assert DigitRun("N5", 1) == 1;
  }
}
