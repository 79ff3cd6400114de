/**
 * Extraction of the linear moves (`parseG01Commands`): every line that holds a
 * whole-word `G01` or `G1` becomes a command carrying the absolute position
 * after it, each axis the line omits keeping its previous value.
 */
module Geometry {
  import opened Text
  import opened Wrappers
  import opened Numbers

  // ---------------------------------------------------------------- words

  /** `w` occurs at `i` with a word boundary (`\b`) on both sides. */
  predicate WordAt(s: string, i: nat, w: string) {
    i + |w| <= |s| && s[i..i + |w|] == w
    && (i == 0 || !IsWordChar(s[i - 1]))
    && (i + |w| == |s| || !IsWordChar(s[i + |w|]))
  }

  /** `/\bw\b/.test(s)` */
  predicate HasWord(s: string, w: string) {
    exists i: nat :: i <= |s| && WordAt(s, i, w)
  }

  /** `line.trim().toUpperCase()` */
  function Normalized(line: string): string {
    ToUpper(Trim(line))
  }

  /** The two tests a normalized line passes to count as a linear move. */
  predicate IsMoveLine(u: string) {
    (Contains(u, "G01") || Contains(u, "G1 ") || Contains(u, " G1"))
    && (HasWord(u, "G01") || HasWord(u, "G1"))
  }

  // ---------------------------------------------------------------- commands

  datatype Position = Position(x: real, y: real, z: real)

  const ORIGIN := Position(0.0, 0.0, 0.0)

  datatype G01Command = G01Command(line: nat, originalLine: string, x: real, y: real, z: real)

  /** What one line tells the parse: whether it is a linear move, and the axes it gives. */
  datatype LineMove = LineMove(isMove: bool, x: Option<real>, y: Option<real>, z: Option<real>)

  function MoveOf(line: string): LineMove {
    var u := Normalized(line);
    LineMove(IsMoveLine(u), AxisValue(u, 'X'), AxisValue(u, 'Y'), AxisValue(u, 'Z'))
  }

  /** The value a line gives for `axis` (`X`, `Y`, otherwise `Z`). */
  function Given(m: LineMove, axis: char): Option<real> {
    if axis == 'X' then m.x else if axis == 'Y' then m.y else m.z
  }

  /** The position after a move line: each axis the line gives replaces the old value. */
  function Advance(p: Position, m: LineMove): Position {
    Position(m.x.GetOr(p.x), m.y.GetOr(p.y), m.z.GetOr(p.z))
  }

  datatype Parse = Parse(at: Position, commands: seq<G01Command>)

  /**
   * The running position and the commands after reading `lines` in order, each
   * line read by `mv`; the parse of the source reads lines with `MoveOf`.
   */
  function ParseWith(lines: seq<string>, mv: string -> LineMove): Parse {
    if lines == [] then Parse(ORIGIN, [])
    else
      var n := |lines| - 1;
      var prev := ParseWith(lines[..n], mv);
      var m := mv(lines[n]);
      if m.isMove then
        var p := Advance(prev.at, m);
        Parse(p, prev.commands + [G01Command(n, lines[n], p.x, p.y, p.z)])
      else prev
  }

  function ParseLines(lines: seq<string>): Parse {
    ParseWith(lines, MoveOf)
  }

  function CommandsWith(lines: seq<string>, mv: string -> LineMove): seq<G01Command> {
    ParseWith(lines, mv).commands
  }

  function G01Commands(lines: seq<string>): seq<G01Command> {
    ParseLines(lines).commands
  }

  lemma ParseStep(lines: seq<string>, i: nat)
    requires i < |lines|
    ensures var prev := ParseLines(lines[..i]);
      var m := MoveOf(lines[i]);
      ParseLines(lines[..i + 1])
      == if m.isMove then
           var p := Advance(prev.at, m);
           Parse(p, prev.commands + [G01Command(i, lines[i], p.x, p.y, p.z)])
         else prev
  {
    assert lines[..i + 1][..i] == lines[..i];
  }

  /** `parseG01Commands`: one pass with the running `currentX/Y/Z`. */
  method ParseG01Commands(content: string) returns (g01Commands: seq<G01Command>)
    ensures g01Commands == G01Commands(Split(content))
  {
    var lines := Split(content);
    g01Commands := [];
    var currentX, currentY, currentZ := 0.0, 0.0, 0.0;
    for index := 0 to |lines|
      invariant Parse(Position(currentX, currentY, currentZ), g01Commands) == ParseLines(lines[..index])
    {
      ParseStep(lines, index);
      var line := lines[index];
      var trimmedLine := ToUpper(Trim(line));
      if Contains(trimmedLine, "G01") || Contains(trimmedLine, "G1 ") || Contains(trimmedLine, " G1") {
        if HasWord(trimmedLine, "G01") || HasWord(trimmedLine, "G1") {
          var xMatch := AxisValue(trimmedLine, 'X');
          if xMatch.Some? {
            currentX := xMatch.value;
          }
          var yMatch := AxisValue(trimmedLine, 'Y');
          if yMatch.Some? {
            currentY := yMatch.value;
          }
          var zMatch := AxisValue(trimmedLine, 'Z');
          if zMatch.Some? {
            currentZ := zMatch.value;
          }
          g01Commands := g01Commands + [G01Command(index, line, currentX, currentY, currentZ)];
        }
      }
    }
    assert lines[..|lines|] == lines;
  }

  // ---------------------------------------------------------------- properties

  /**
   * Reference definition of carry-forward: the value of `axis` on the last
   * move line of `lines` that gives one, or 0 when none does.
   */
  function LastGivenWith(lines: seq<string>, mv: string -> LineMove, axis: char): real {
    if lines == [] then 0.0
    else
      var m := mv(lines[|lines| - 1]);
      if m.isMove && Given(m, axis).Some? then Given(m, axis).value
      else LastGivenWith(lines[..|lines| - 1], mv, axis)
  }

  function LastGiven(lines: seq<string>, axis: char): real {
    LastGivenWith(lines, MoveOf, axis)
  }

  lemma {:induction false} ParsePositionWith(lines: seq<string>, mv: string -> LineMove)
    ensures ParseWith(lines, mv).at == Position(LastGivenWith(lines, mv, 'X'), LastGivenWith(lines, mv, 'Y'), LastGivenWith(lines, mv, 'Z'))
  {
    if lines != [] {
      ParsePositionWith(lines[..|lines| - 1], mv);
    }
  }

  /** The running position is, axis by axis, the last value given. */
  lemma ParsePosition(lines: seq<string>)
    ensures ParseLines(lines).at == Position(LastGiven(lines, 'X'), LastGiven(lines, 'Y'), LastGiven(lines, 'Z'))
  {
    ParsePositionWith(lines, MoveOf);
  }

  lemma {:induction false} FromMoveLinesWith(lines: seq<string>, mv: string -> LineMove)
    ensures forall k :: 0 <= k < |CommandsWith(lines, mv)| ==>
        CommandsWith(lines, mv)[k].line < |lines| && CommandsWith(lines, mv)[k].originalLine == lines[CommandsWith(lines, mv)[k].line] && mv(lines[CommandsWith(lines, mv)[k].line]).isMove
  {
    if lines != [] {
      var init := lines[..|lines| - 1];
      FromMoveLinesWith(init, mv);
      var cmds := CommandsWith(lines, mv);
      var old_ := CommandsWith(init, mv);
      forall k | 0 <= k < |cmds|
        ensures cmds[k].line < |lines| && cmds[k].originalLine == lines[cmds[k].line] && mv(lines[cmds[k].line]).isMove
      {
        if k < |old_| {
          assert cmds[k] == old_[k];
          assert init[old_[k].line] == lines[old_[k].line];
        }
      }
    }
  }

  /** Every command comes from a move line, whose text it keeps. */
  lemma CommandsFromMoveLines(lines: seq<string>)
    ensures var cmds := G01Commands(lines);
      forall k :: 0 <= k < |cmds| ==>
        cmds[k].line < |lines| && cmds[k].originalLine == lines[cmds[k].line]
        && IsMoveLine(Normalized(lines[cmds[k].line]))
  {
    FromMoveLinesWith(lines, MoveOf);
    var cmds := G01Commands(lines);
    assert cmds == CommandsWith(lines, MoveOf);
    forall k | 0 <= k < |cmds|
      ensures IsMoveLine(Normalized(lines[cmds[k].line]))
    {
      assert MoveOf(lines[cmds[k].line]).isMove;
    }
  }

  lemma {:induction false} IncreasingWith(lines: seq<string>, mv: string -> LineMove)
    ensures forall j, k :: 0 <= j < k < |CommandsWith(lines, mv)| ==> CommandsWith(lines, mv)[j].line < CommandsWith(lines, mv)[k].line
  {
    if lines != [] {
      var init := lines[..|lines| - 1];
      IncreasingWith(init, mv);
      FromMoveLinesWith(init, mv);
      var cmds := CommandsWith(lines, mv);
      assert forall k :: 0 <= k < |CommandsWith(init, mv)| ==> cmds[k] == CommandsWith(init, mv)[k];
    }
  }

  /** Commands are in line order, at most one per line. */
  lemma CommandsIncreasing(lines: seq<string>)
    ensures var cmds := G01Commands(lines);
      forall j, k :: 0 <= j < k < |cmds| ==> cmds[j].line < cmds[k].line
  {
    IncreasingWith(lines, MoveOf);
    assert G01Commands(lines) == CommandsWith(lines, MoveOf);
  }

  lemma {:induction false} CompleteWith(lines: seq<string>, mv: string -> LineMove)
    ensures forall i :: 0 <= i < |lines| && mv(lines[i]).isMove ==>
        exists k :: 0 <= k < |CommandsWith(lines, mv)| && CommandsWith(lines, mv)[k].line == i
  {
    if lines != [] {
      var n := |lines| - 1;
      var init := lines[..n];
      CompleteWith(init, mv);
      var cmds := CommandsWith(lines, mv);
      var old_ := CommandsWith(init, mv);
      forall i | 0 <= i < |lines| && mv(lines[i]).isMove
        ensures exists k :: 0 <= k < |cmds| && cmds[k].line == i
      {
        if i == n {
          assert cmds[|cmds| - 1].line == i;
        } else {
          assert init[i] == lines[i];
          var k :| 0 <= k < |old_| && old_[k].line == i;
          assert cmds[k] == old_[k];
        }
      }
    }
  }

  /** Every move line has its command. */
  lemma CommandsComplete(lines: seq<string>)
    ensures var cmds := G01Commands(lines);
      forall i :: 0 <= i < |lines| && IsMoveLine(Normalized(lines[i])) ==>
        exists k :: 0 <= k < |cmds| && cmds[k].line == i
  {
    CompleteWith(lines, MoveOf);
    var cmds := G01Commands(lines);
    assert cmds == CommandsWith(lines, MoveOf);
    forall i | 0 <= i < |lines| && IsMoveLine(Normalized(lines[i]))
      ensures exists k :: 0 <= k < |cmds| && cmds[k].line == i
    {
      assert MoveOf(lines[i]).isMove;
    }
  }

  lemma {:induction false} CarryAtWith(lines: seq<string>, mv: string -> LineMove, k: nat)
    requires k < |ParseWith(lines, mv).commands|
    ensures var c := ParseWith(lines, mv).commands[k];
      c.line < |lines|
      && c.x == LastGivenWith(lines[..c.line + 1], mv, 'X')
      && c.y == LastGivenWith(lines[..c.line + 1], mv, 'Y')
      && c.z == LastGivenWith(lines[..c.line + 1], mv, 'Z')
  {
    assert lines != [];
    var n := |lines| - 1;
    var init := lines[..n];
    var prev := ParseWith(init, mv);
    if k < |prev.commands| {
      CarryAtWith(init, mv, k);
      var c := prev.commands[k];
      assert ParseWith(lines, mv).commands[k] == c;
      assert lines[..c.line + 1] == init[..c.line + 1];
    } else {
      ParsePositionWith(lines, mv);
      assert lines[..n + 1] == lines;
    }
  }

  /** Each command holds, axis by axis, the last value given on a move line up to and including its own. */
  lemma CommandsCarry(lines: seq<string>)
    ensures var cmds := G01Commands(lines);
      forall k :: 0 <= k < |cmds| ==>
        cmds[k].line < |lines|
        && cmds[k].x == LastGiven(lines[..cmds[k].line + 1], 'X')
        && cmds[k].y == LastGiven(lines[..cmds[k].line + 1], 'Y')
        && cmds[k].z == LastGiven(lines[..cmds[k].line + 1], 'Z')
  {
    forall k | 0 <= k < |G01Commands(lines)| {
      CarryAtWith(lines, MoveOf, k);
    }
  }
}
