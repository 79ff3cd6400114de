/**
 * The already-processed detector (`isFileAlreadyProcessed`): a file counts as
 * an earlier output of the pipeline when it carries both the start-of-cut and
 * the statistics banner and its dwell lines are about as many as its move lines.
 */
module Detection {
  import opened Text

  const HEADER_BANNER := "=== inicio do corte ==="
  const STATISTICS_BANNER := "=== estatisticas ==="

  /** The form every line is tested in: trimmed and lower-cased. */
  function Normal(line: string): string {
    ToLower(Trim(line))
  }

  predicate StartsMove(line: string) {
    StartsWith(Normal(line), "g01") || StartsWith(Normal(line), "g1 ")
  }

  predicate StartsDwell(line: string) {
    StartsWith(Normal(line), "g04") || StartsWith(Normal(line), "g4 ")
  }

  predicate SomeLineContains(lines: seq<string>, banner: string) {
    exists i :: 0 <= i < |lines| && Contains(Normal(lines[i]), banner)
  }

  /** The number of lines that start with a move word. */
  function MoveLines(lines: seq<string>): nat {
    if lines == [] then 0
    else MoveLines(lines[..|lines| - 1]) + (if StartsMove(lines[|lines| - 1]) then 1 else 0)
  }

  /** The number of lines that start with a dwell word. */
  function DwellLines(lines: seq<string>): nat {
    if lines == [] then 0
    else DwellLines(lines[..|lines| - 1]) + (if StartsDwell(lines[|lines| - 1]) then 1 else 0)
  }

  /** The detector's verdict, stated over the whole file at once. */
  predicate AlreadyProcessed(lines: seq<string>) {
    && SomeLineContains(lines, HEADER_BANNER)
    && SomeLineContains(lines, STATISTICS_BANNER)
    && DwellLines(lines) > 0
    && -1 <= MoveLines(lines) - DwellLines(lines) <= 1
  }

  lemma ContainsStep(lines: seq<string>, i: nat, banner: string)
    requires i < |lines|
    ensures SomeLineContains(lines[..i + 1], banner)
            == (SomeLineContains(lines[..i], banner) || Contains(Normal(lines[i]), banner))
  {
    assert lines[..i + 1][..i] == lines[..i];
    assert lines[..i + 1][i] == lines[i];
  }

  lemma CountStep(lines: seq<string>, i: nat)
    requires i < |lines|
    ensures MoveLines(lines[..i + 1]) == MoveLines(lines[..i]) + (if StartsMove(lines[i]) then 1 else 0)
    ensures DwellLines(lines[..i + 1]) == DwellLines(lines[..i]) + (if StartsDwell(lines[i]) then 1 else 0)
  {
    assert lines[..i + 1][..i] == lines[..i];
  }

  /** `isFileAlreadyProcessed`: one pass over the lines with two flags and two counters. */
  method IsFileAlreadyProcessed(content: string) returns (processed: bool)
    ensures processed == AlreadyProcessed(Split(content))
  {
    var lines := Split(content);
    var g01Count, g04Count := 0, 0;
    var hasHeader, hasFooter := false, false;
    var i := 0;
    while i < |lines|
      invariant 0 <= i <= |lines|
      invariant hasHeader == SomeLineContains(lines[..i], HEADER_BANNER)
      invariant hasFooter == SomeLineContains(lines[..i], STATISTICS_BANNER)
      invariant g01Count == MoveLines(lines[..i])
      invariant g04Count == DwellLines(lines[..i])
    {
      var trimmed := Normal(lines[i]);
      if Contains(trimmed, HEADER_BANNER) {
        hasHeader := true;
      }
      if Contains(trimmed, STATISTICS_BANNER) {
        hasFooter := true;
      }
      if StartsMove(lines[i]) {
        g01Count := g01Count + 1;
      }
      if StartsDwell(lines[i]) {
        g04Count := g04Count + 1;
      }
      ContainsStep(lines, i, HEADER_BANNER);
      ContainsStep(lines, i, STATISTICS_BANNER);
      CountStep(lines, i);
      i := i + 1;
    }
    assert lines[..i] == lines;
    var diff := g01Count - g04Count;
    var absDiff := if diff < 0 then -diff else diff;
    processed := hasHeader && hasFooter && g04Count > 0 && absDiff <= 1;
  }
}
