/**
 * The body of `buildProcessedContent`: blank lines are dropped, every other
 * line except a comment is numbered `N1`, `N2`, ..., and the dwell chosen for
 * a line follows it as its own numbered `G04` line. The document is the
 * header, a blank line, the body, a blank line and the footer.
 */
module Assembly {
  import opened Text
  import opened Wrappers
  import opened Classification
  import opened Materials
  import opened Numbers

  /** `/^\s*;/`: a comment line. */
  predicate IsComment(line: string) {
    var t := TrimStart(line);
    |t| > 0 && t[0] == ';'
  }

  /** `line.trim()` is not empty. */
  predicate IsFilled(line: string) {
    Trim(line) != []
  }

  /**
   * One line of the body: a line of the input (index `index`), numbered
   * unless it is a comment, or the dwell after input line `index`.
   */
  datatype Item = Line(index: nat, text: string, number: Option<nat>) | Dwell(index: nat, n: nat, tier: Tier)
  {
    function Label(): Option<nat> {
      match this
      case Line(_, _, number) => number
      case Dwell(_, n, _) => Some(n)
    }
  }

  function Render(item: Item, m: MaterialConfig): string {
    match item
    case Line(_, text, None) => text
    case Line(_, text, Some(n)) => "N" + NatStr(n) + " " + text
    case Dwell(_, n, t) => "N" + NatStr(n) + " G04 " + Token(m, t)
  }

  function RenderAll(items: seq<Item>, m: MaterialConfig): seq<string> {
    if items == [] then [] else RenderAll(items[..|items| - 1], m) + [Render(items[|items| - 1], m)]
  }

  datatype Assembled = Assembled(next: nat, items: seq<Item>)

  /** The items for line `k` and the label after them, with `next` the label to use first. */
  function LineItems(line: string, k: nat, ps: seq<Pause>, next: nat): Assembled {
    if !IsFilled(line) then Assembled(next, [])
    else
      var first := if IsComment(line) then Line(k, line, None) else Line(k, line, Some(next));
      var n1 := if IsComment(line) then next else next + 1;
      match Lookup(ps, k)
      case Some(t) => Assembled(n1 + 1, [first, Dwell(k, n1, t)])
      case None => Assembled(n1, [first])
  }

  /** The body items for `lines` and the next free label, numbering from 1. */
  function AssembleRun(lines: seq<string>, ps: seq<Pause>): Assembled {
    if lines == [] then Assembled(1, [])
    else
      var k := |lines| - 1;
      var prev := AssembleRun(lines[..k], ps);
      var step := LineItems(lines[k], k, ps, prev.next);
      Assembled(step.next, prev.items + step.items)
  }

  lemma AssembleStep(lines: seq<string>, i: nat, ps: seq<Pause>)
    requires i < |lines|
    ensures var prev := AssembleRun(lines[..i], ps);
      var step := LineItems(lines[i], i, ps, prev.next);
      AssembleRun(lines[..i + 1], ps) == Assembled(step.next, prev.items + step.items)
  {
    assert lines[..i + 1][..i] == lines[..i];
  }

  lemma {:induction false} RenderAppend(items: seq<Item>, more: seq<Item>, m: MaterialConfig)
    ensures RenderAll(items + more, m) == RenderAll(items, m) + RenderAll(more, m)
  {
    if more != [] {
      var k := |more| - 1;
      RenderAppend(items, more[..k], m);
      assert (items + more)[..|items + more| - 1] == items + more[..k];
    } else {
      assert items + more == items;
    }
  }

  /** What one input line contributes: nothing when blank, else its line and possibly its dwell. */
  lemma LineItemsShape(line: string, k: nat, ps: seq<Pause>, next: nat)
    ensures var s := LineItems(line, k, ps, next);
      && |s.items| <= 2
      && (s.items == [] <==> !IsFilled(line))
      && (IsFilled(line) ==> s.items[0] == Line(k, line, if IsComment(line) then None else Some(next)))
      && (|s.items| == 2 <==> IsFilled(line) && Lookup(ps, k).Some?)
      && (|s.items| == 2 ==> s.items[1] == Dwell(k, if IsComment(line) then next else next + 1, Lookup(ps, k).value))
      && s.next >= next
      && |Labels(s.items)| == s.next - next
      && (forall j :: 0 <= j < |Labels(s.items)| ==> Labels(s.items)[j] == next + j)
  {
    var s := LineItems(line, k, ps, next);
    if |s.items| == 2 {
      assert s.items[..1] == [s.items[0]];
      assert [s.items[0]][..0] == [];
      assert Labels(s.items[..1]) == Labels([]) + (if s.items[0].Label().Some? then [s.items[0].Label().value] else []);
    } else if |s.items| == 1 {
      assert s.items[..0] == [];
    }
  }

  /** One input line's rendered lines, numbered from `nCount`, and the next free number. */
  method EmitLine(line: string, index: nat, pausePositions: seq<Pause>, material: MaterialConfig, nCount: nat)
    returns (out: seq<string>, next: nat)
    ensures var s := LineItems(line, index, pausePositions, nCount);
      out == RenderAll(s.items, material) && next == s.next
  {
    LineItemsShape(line, index, pausePositions, nCount);
    var s := LineItems(line, index, pausePositions, nCount);
    out := [];
    next := nCount;
    if Trim(line) != [] {
      if IsComment(line) {
        out := out + [line];
      } else {
        out := out + ["N" + NatStr(next) + " " + line];
        next := next + 1;
      }
      assert out == RenderAll(s.items[..1], material);
      var pause := Lookup(pausePositions, index);
      if pause.Some? {
        out := out + ["N" + NatStr(next) + " G04 " + Token(material, pause.value)];
        next := next + 1;
        assert s.items[..2] == s.items;
      } else {
        assert s.items[..1] == s.items;
      }
    }
  }

  /** The numbered body lines of `buildProcessedContent`, with `nCount` counting from 1. */
  method BuildBody(lines: seq<string>, pausePositions: seq<Pause>, material: MaterialConfig)
    returns (processedLines: seq<string>)
    ensures processedLines == RenderAll(AssembleRun(lines, pausePositions).items, material)
  {
    processedLines := [];
    var nCount := 1;
    for index := 0 to |lines|
      invariant nCount == AssembleRun(lines[..index], pausePositions).next
      invariant processedLines == RenderAll(AssembleRun(lines[..index], pausePositions).items, material)
    {
      AssembleStep(lines, index, pausePositions);
      var prevItems := AssembleRun(lines[..index], pausePositions).items;
      var stepItems := LineItems(lines[index], index, pausePositions, nCount).items;
      RenderAppend(prevItems, stepItems, material);
      var out;
      out, nCount := EmitLine(lines[index], index, pausePositions, material, nCount);
      processedLines := processedLines + out;
    }
    assert lines[..|lines|] == lines;
  }

  /** The whole document: header lines, a blank line, the body, a blank line, footer lines. */
  function Document(header: string, body: seq<string>, footer: string): seq<string> {
    Split(header) + [""] + body + [""] + Split(footer)
  }

  /**
   * `buildProcessedContent` with the header and footer already rendered (the
   * template placeholders filled in).
   */
  method BuildProcessedContent(cleanedContent: string, pausePositions: seq<Pause>, header: string, footer: string,
                               material: MaterialConfig)
    returns (r: string)
    ensures r == Join(Document(header, RenderAll(AssembleRun(Split(cleanedContent), pausePositions).items, material), footer))
  {
    var lines := Split(cleanedContent);
    var body := BuildBody(lines, pausePositions, material);
    var processedLines := Split(header);
    processedLines := processedLines + [""];
    processedLines := processedLines + body;
    processedLines := processedLines + [""];
    processedLines := processedLines + Split(footer);
    r := Join(processedLines);
  }

  // ---------------------------------------------------------------- properties

  function Labels(items: seq<Item>): seq<nat> {
    if items == [] then []
    else
      var last := items[|items| - 1];
      Labels(items[..|items| - 1]) + (if last.Label().Some? then [last.Label().value] else [])
  }

  lemma {:induction false} LabelsAppend(items: seq<Item>, more: seq<Item>)
    ensures Labels(items + more) == Labels(items) + Labels(more)
  {
    if more != [] {
      var k := |more| - 1;
      LabelsAppend(items, more[..k]);
      assert (items + more)[..|items + more| - 1] == items + more[..k];
    } else {
      assert items + more == items;
    }
  }

  /** The labels are N1, N2, ... in order with no gap, and `next` is the one after the last. */
  lemma {:induction false} LabelsConsecutive(lines: seq<string>, ps: seq<Pause>)
    ensures var a := AssembleRun(lines, ps);
      && a.next >= 1 && |Labels(a.items)| == a.next - 1
      && forall i :: 0 <= i < |Labels(a.items)| ==> Labels(a.items)[i] == i + 1
  {
    if lines != [] {
      var k := |lines| - 1;
      LabelsConsecutive(lines[..k], ps);
      var prev := AssembleRun(lines[..k], ps);
      var step := LineItems(lines[k], k, ps, prev.next);
      LineItemsShape(lines[k], k, ps, prev.next);
      LabelsAppend(prev.items, step.items);
    }
  }

  /** Every line item is a filled line of `lines`, numbered exactly when it is not a comment. */
  predicate LinesFrom(items: seq<Item>, lines: seq<string>) {
    forall i :: 0 <= i < |items| ==>
      && items[i].index < |lines|
      && (items[i].Line? ==>
            && items[i].text == lines[items[i].index]
            && IsFilled(items[i].text)
            && (items[i].number.None? <==> IsComment(items[i].text)))
  }

  /** Input indices never decrease, and a line's own item comes before its dwell. */
  predicate InInputOrder(items: seq<Item>) {
    forall i, j :: 0 <= i < j < |items| ==>
      items[i].index < items[j].index || (items[i].index == items[j].index && items[i].Line? && items[j].Dwell?)
  }

  /** Each dwell comes right after the line it was chosen for, with the tier recorded for that line. */
  predicate DwellsFollowLines(items: seq<Item>, ps: seq<Pause>) {
    forall i :: 0 <= i < |items| && items[i].Dwell? ==>
      && i > 0 && items[i - 1].Line? && items[i - 1].index == items[i].index
      && Lookup(ps, items[i].index) == Some(items[i].tier)
  }

  predicate HasLineItem(items: seq<Item>, k: nat, line: string) {
    exists i :: 0 <= i < |items| && items[i].Line? && items[i].index == k && items[i].text == line
  }

  predicate HasDwellItem(items: seq<Item>, k: nat, t: Tier) {
    exists i :: 0 <= i < |items| && items[i].Dwell? && items[i].index == k && items[i].tier == t
  }

  /** Every filled line has its item, and every filled line with a pause has its dwell. */
  predicate Covers(items: seq<Item>, lines: seq<string>, ps: seq<Pause>) {
    forall k: nat :: k < |lines| && IsFilled(lines[k]) ==>
      && HasLineItem(items, k, lines[k])
      && (Lookup(ps, k).Some? ==> HasDwellItem(items, k, Lookup(ps, k).value))
  }

  lemma {:induction false} LinesKept(lines: seq<string>, ps: seq<Pause>)
    ensures LinesFrom(AssembleRun(lines, ps).items, lines)
  {
    if lines != [] {
      var k := |lines| - 1;
      LinesKept(lines[..k], ps);
      var prev := AssembleRun(lines[..k], ps);
      LineItemsShape(lines[k], k, ps, prev.next);
      var items := AssembleRun(lines, ps).items;
      assert items == prev.items + LineItems(lines[k], k, ps, prev.next).items;
      forall i | 0 <= i < |items|
        ensures items[i].index < |lines|
        ensures items[i].Line? ==>
              && items[i].text == lines[items[i].index]
              && IsFilled(items[i].text)
              && (items[i].number.None? <==> IsComment(items[i].text))
      {
        if i < |prev.items| {
          assert items[i] == prev.items[i];
          assert prev.items[i].index < |lines[..k]|;
          assert lines[..k][items[i].index] == lines[items[i].index];
        }
      }
    }
  }

  lemma {:induction false} ItemsInOrder(lines: seq<string>, ps: seq<Pause>)
    ensures InInputOrder(AssembleRun(lines, ps).items)
  {
    if lines != [] {
      var k := |lines| - 1;
      ItemsInOrder(lines[..k], ps);
      LinesKept(lines[..k], ps);
      var prev := AssembleRun(lines[..k], ps);
      LineItemsShape(lines[k], k, ps, prev.next);
      var items := AssembleRun(lines, ps).items;
      assert items == prev.items + LineItems(lines[k], k, ps, prev.next).items;
      forall i, j | 0 <= i < j < |items|
        ensures items[i].index < items[j].index || (items[i].index == items[j].index && items[i].Line? && items[j].Dwell?)
      {
        if j < |prev.items| {
          assert items[i] == prev.items[i] && items[j] == prev.items[j];
        } else if i < |prev.items| {
          assert items[i] == prev.items[i] && prev.items[i].index < |lines[..k]|;
        }
      }
    }
  }

  lemma {:induction false} DwellFollowsLine(lines: seq<string>, ps: seq<Pause>)
    ensures DwellsFollowLines(AssembleRun(lines, ps).items, ps)
  {
    if lines != [] {
      var k := |lines| - 1;
      DwellFollowsLine(lines[..k], ps);
      var prev := AssembleRun(lines[..k], ps);
      LineItemsShape(lines[k], k, ps, prev.next);
      var items := AssembleRun(lines, ps).items;
      assert items == prev.items + LineItems(lines[k], k, ps, prev.next).items;
      forall i | 0 <= i < |items| && items[i].Dwell?
        ensures i > 0 && items[i - 1].Line? && items[i - 1].index == items[i].index
        ensures Lookup(ps, items[i].index) == Some(items[i].tier)
      {
        if i < |prev.items| {
          assert items[i] == prev.items[i] && prev.items[i].Dwell?;
          assert items[i - 1] == prev.items[i - 1];
        } else {
          assert i == |prev.items| + 1;
        }
      }
    }
  }

  lemma {:induction false} NothingMissing(lines: seq<string>, ps: seq<Pause>)
    ensures Covers(AssembleRun(lines, ps).items, lines, ps)
  {
    if lines != [] {
      var n := |lines| - 1;
      NothingMissing(lines[..n], ps);
      var prev := AssembleRun(lines[..n], ps);
      LineItemsShape(lines[n], n, ps, prev.next);
      var items := AssembleRun(lines, ps).items;
      assert items == prev.items + LineItems(lines[n], n, ps, prev.next).items;
      forall k: nat | k < |lines| && IsFilled(lines[k])
        ensures HasLineItem(items, k, lines[k])
        ensures Lookup(ps, k).Some? ==> HasDwellItem(items, k, Lookup(ps, k).value)
      {
        if k == n {
          assert items[|prev.items|].Line? && items[|prev.items|].index == k;
          if Lookup(ps, k).Some? {
            assert items[|prev.items| + 1].Dwell? && items[|prev.items| + 1].index == k;
          }
        } else {
          assert lines[..n][k] == lines[k];
          assert HasLineItem(prev.items, k, lines[k]);
          var i :| 0 <= i < |prev.items| && prev.items[i].Line? && prev.items[i].index == k && prev.items[i].text == lines[k];
          assert items[i] == prev.items[i];
          if Lookup(ps, k).Some? {
            assert HasDwellItem(prev.items, k, Lookup(ps, k).value);
            var j :| 0 <= j < |prev.items| && prev.items[j].Dwell? && prev.items[j].index == k && prev.items[j].tier == Lookup(ps, k).value;
            assert items[j] == prev.items[j];
          }
        }
      }
    }
  }

  lemma RenderNoNewline(item: Item, m: MaterialConfig)
    requires item.Line? ==> '\n' !in item.text
    ensures '\n' !in Render(item, m)
  {
    var r := Render(item, m);
    if item.Line? && item.number.Some? {
      var head := "N" + NatStr(item.number.value) + " ";
      assert r == head + item.text;
      assert forall j :: 0 <= j < |head| ==> r[j] == head[j];
    } else if item.Dwell? {
      var t := ToFixed(TierTempo(m, item.tier), 1);
      FixedCharacters(TierTempo(m, item.tier), 1);
      var head := "N" + NatStr(item.n) + " G04 P";
      assert r == head + t;
      assert forall j :: 0 <= j < |head| ==> r[j] == head[j];
    }
  }

  /** No rendered body line breaks a line, when the input lines had no line break. */
  lemma {:induction false} BodyHasNoNewlines(items: seq<Item>, m: MaterialConfig)
    requires forall i :: 0 <= i < |items| && items[i].Line? ==> '\n' !in items[i].text
    ensures NoNewlines(RenderAll(items, m))
  {
    if items != [] {
      var k := |items| - 1;
      BodyHasNoNewlines(items[..k], m);
      RenderNoNewline(items[k], m);
    }
  }

  /** The assembled document splits back into header lines, `""`, the body lines, `""`, footer lines. */
  lemma DocumentSplits(content: string, ps: seq<Pause>, header: string, footer: string, m: MaterialConfig)
    ensures var body := RenderAll(AssembleRun(Split(content), ps).items, m);
      Split(Join(Document(header, body, footer))) == Document(header, body, footer)
  {
    var lines := Split(content);
    var items := AssembleRun(lines, ps).items;
    LinesKept(lines, ps);
    assert LinesFrom(items, lines);
    BodyHasNoNewlines(items, m);
    DocumentLines(header, RenderAll(items, m), footer);
  }

  /** The document splits back into exactly its parts: header lines, `""`, body, `""`, footer lines. */
  lemma DocumentLines(header: string, body: seq<string>, footer: string)
    requires NoNewlines(body)
    ensures Split(Join(Document(header, body, footer))) == Document(header, body, footer)
  {
    var d := Document(header, body, footer);
    forall k | 0 <= k < |d|
      ensures '\n' !in d[k]
    {
      if k < |Split(header)| {
      } else if k == |Split(header)| {
      } else if k < |Split(header)| + 1 + |body| {
        assert d[k] == body[k - |Split(header)| - 1];
      } else if k == |Split(header)| + 1 + |body| {
      } else {
        assert d[k] == Split(footer)[k - |Split(header)| - 2 - |body|];
      }
    }
    SplitJoin(d);
  }
}
