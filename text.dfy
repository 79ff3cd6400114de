/**
 * The JavaScript string primitives the pipeline is built from, over `string`
 * (a `seq<char>`): `trim`, `toUpperCase` / `toLowerCase` (ASCII letters),
 * `startsWith`, `includes`, `split('\n')` / `join('\n')`, the `\s+` collapse
 * used by `replace(/\s+/g, ' ')`, and decimal rendering of naturals.
 */
module Text {

  /** The characters matched by JavaScript's `\s` and removed by `trim()`. */
  predicate IsSpace(c: char) {
    || c == ' ' || c == '\t' || c == '\n' || c == '\r'
    || c == '\U{000B}' || c == '\U{000C}' || c == '\U{00A0}' || c == '\U{1680}'
    || ('\U{2000}' <= c <= '\U{200A}')
    || c == '\U{2028}' || c == '\U{2029}' || c == '\U{202F}' || c == '\U{205F}'
    || c == '\U{3000}' || c == '\U{FEFF}'
  }

  /** `\d` */
  predicate IsDigit(c: char) {
    '0' <= c <= '9'
  }

  /** `\w`, the characters on the inner side of a `\b` word boundary. */
  predicate IsWordChar(c: char) {
    ('a' <= c <= 'z') || ('A' <= c <= 'Z') || IsDigit(c) || c == '_'
  }

  function DigitValue(c: char): (d: nat)
    requires IsDigit(c)
    ensures d < 10
  {
    c as int - '0' as int
  }

  function DigitChar(d: nat): (c: char)
    requires d < 10
    ensures IsDigit(c) && DigitValue(c) == d
  {
    ('0' as int + d) as char
  }

  predicate AllDigits(s: string) {
    forall i :: 0 <= i < |s| ==> IsDigit(s[i])
  }

  predicate AllSpace(s: string) {
    forall i :: 0 <= i < |s| ==> IsSpace(s[i])
  }

  // ---------------------------------------------------------------- trim

  function TrimStart(s: string): (r: string)
    ensures |r| <= |s|
  {
    if s != [] && IsSpace(s[0]) then TrimStart(s[1..]) else s
  }

  function TrimEnd(s: string): (r: string)
    ensures |r| <= |s|
  {
    if s != [] && IsSpace(s[|s| - 1]) then TrimEnd(s[..|s| - 1]) else s
  }

  /** `s.trim()`: drops leading and trailing whitespace, keeps the middle. */
  function Trim(s: string): (r: string)
    ensures |r| <= |s|
  {
    TrimEnd(TrimStart(s))
  }

  lemma {:induction false} TrimStartFacts(s: string)
    ensures var r := TrimStart(s);
      && r == s[|s| - |r|..]
      && (r == [] || !IsSpace(r[0]))
      && AllSpace(s[..|s| - |r|])
  {
    if s != [] && IsSpace(s[0]) {
      TrimStartFacts(s[1..]);
      var r := TrimStart(s);
      assert s[..|s| - |r|] == [s[0]] + s[1..][..|s| - 1 - |r|];
    }
  }

  lemma {:induction false} TrimEndFacts(s: string)
    ensures var r := TrimEnd(s);
      && r == s[..|r|]
      && (r == [] || !IsSpace(r[|r| - 1]))
      && AllSpace(s[|r|..])
  {
    if s != [] && IsSpace(s[|s| - 1]) {
      TrimEndFacts(s[..|s| - 1]);
      var r := TrimEnd(s);
      assert s[|r|..] == s[..|s| - 1][|r|..] + [s[|s| - 1]];
    }
  }

  /**
   * What `trim()` leaves: a slice of the text that neither starts nor ends with
   * whitespace, and nothing at all exactly when the text is all whitespace.
   */
  lemma TrimFacts(s: string)
    ensures var r := Trim(s);
      && (var a := |s| - |TrimStart(s)|; a + |r| <= |s| && r == s[a..a + |r|])
      && (r == [] || (!IsSpace(r[0]) && !IsSpace(r[|r| - 1])))
      && (r == [] <==> AllSpace(s))
  {
    var t := TrimStart(s);
    var r := TrimEnd(t);
    TrimStartFacts(s);
    TrimEndFacts(t);
    var k := |s| - |t|;
    assert r == s[k..k + |r|];
    if r == [] {
      forall i | 0 <= i < |s| ensures IsSpace(s[i]) {
        assert s[..k][i] == s[i];
      }
    } else {
      assert r[0] == t[0] == s[k];
    }
  }

  // ---------------------------------------------------------------- case

  function UpperChar(c: char): char {
    if 'a' <= c <= 'z' then (c as int - 32) as char else c
  }

  function LowerChar(c: char): char {
    if 'A' <= c <= 'Z' then (c as int + 32) as char else c
  }

  /** `s.toUpperCase()` restricted to ASCII letters. */
  function ToUpper(s: string): (r: string)
  {
    seq(|s|, i requires 0 <= i < |s| => UpperChar(s[i]))
  }

  /** `s.toLowerCase()` restricted to ASCII letters. */
  function ToLower(s: string): (r: string)
  {
    seq(|s|, i requires 0 <= i < |s| => LowerChar(s[i]))
  }

  // ---------------------------------------------------------------- search

  predicate StartsWith(s: string, prefix: string) {
    |prefix| <= |s| && s[..|prefix|] == prefix
  }

  /** `s.includes(pattern)` */
  predicate Contains(s: string, pattern: string)
    decreases |s|
  {
    StartsWith(s, pattern) || (s != [] && Contains(s[1..], pattern))
  }

  function FirstIndex(s: string, c: char): (i: nat)
    requires c in s
    ensures i < |s| && s[i] == c && c !in s[..i]
  {
    if s[0] == c then 0 else 1 + FirstIndex(s[1..], c)
  }

  // ---------------------------------------------------------------- lines

  /** `s.split('\n')`: always at least one piece, none holding a newline. */
  function Split(s: string): (lines: seq<string>)
    ensures |lines| >= 1
    ensures forall k :: 0 <= k < |lines| ==> '\n' !in lines[k]
    decreases |s|
  {
    if '\n' !in s then [s]
    else
      var i := FirstIndex(s, '\n');
      [s[..i]] + Split(s[i + 1..])
  }

  /** `lines.join('\n')` */
  function Join(lines: seq<string>): string {
    if |lines| == 0 then ""
    else if |lines| == 1 then lines[0]
    else lines[0] + "\n" + Join(lines[1..])
  }

  predicate NoNewlines(lines: seq<string>) {
    forall k :: 0 <= k < |lines| ==> '\n' !in lines[k]
  }

  /** Splitting at the first newline: the text before it is the first line. */
  lemma SplitAt(first: string, rest: string)
    requires '\n' !in first
    ensures Split(first + "\n" + rest) == [first] + Split(rest)
  {
    var s := first + "\n" + rest;
    assert s[|first|] == '\n';
    assert s[..|first|] == first;
    var i := FirstIndex(s, '\n');
    assert i == |first|;
    assert s[i + 1..] == rest;
  }

  /** Splitting what was joined gives the lines back (JavaScript's `join` then `split`). */
  lemma {:induction false} SplitJoin(lines: seq<string>)
    requires |lines| >= 1 && NoNewlines(lines)
    ensures Split(Join(lines)) == lines
  {
    if |lines| > 1 {
      var others := lines[1..];
      assert NoNewlines(others) by {
        forall k | 0 <= k < |others|
          ensures '\n' !in others[k]
        {
          assert others[k] == lines[k + 1];
        }
      }
      SplitJoin(others);
      SplitAt(lines[0], Join(others));
      assert lines == [lines[0]] + others;
    }
  }

  /** Joining what was split gives the text back. */
  lemma {:induction false} JoinSplit(s: string)
    ensures Join(Split(s)) == s
    decreases |s|
  {
    if '\n' in s {
      var i := FirstIndex(s, '\n');
      var rest := Split(s[i + 1..]);
      JoinSplit(s[i + 1..]);
      var lines := [s[..i]] + rest;
      assert Split(s) == lines;
      assert lines[1..] == rest;
      assert Join(lines) == s[..i] + "\n" + Join(rest);
      assert s == s[..i] + "\n" + s[i + 1..];
    }
  }

  // ---------------------------------------------------------------- whitespace runs

  predicate SingleSpaced(s: string) {
    && (forall i :: 0 <= i < |s| ==> IsSpace(s[i]) ==> s[i] == ' ')
    && (forall i :: 0 <= i < |s| - 1 ==> !(IsSpace(s[i]) && IsSpace(s[i + 1])))
  }

  /** `s.replace(/\s+/g, ' ')`: every maximal whitespace run becomes one space. */
  function CollapseSpaces(s: string): (r: string)
    ensures |r| <= |s|
    decreases |s|
  {
    if s == [] then []
    else if IsSpace(s[0]) then [' '] + CollapseSpaces(TrimStart(s))
    else [s[0]] + CollapseSpaces(s[1..])
  }

  /** After the collapse, whitespace is single spaces, never two in a row. */
  lemma {:induction false} CollapseFacts(s: string)
    ensures var r := CollapseSpaces(s);
      && (r == [] <==> s == [])
      && (r != [] ==> (IsSpace(r[0]) <==> IsSpace(s[0])))
      && SingleSpaced(r)
    decreases |s|
  {
    if s != [] {
      if IsSpace(s[0]) {
        TrimStartFacts(s);
        CollapseFacts(TrimStart(s));
      } else {
        CollapseFacts(s[1..]);
      }
    }
  }

  /** A slice of a single-spaced text is single-spaced. */
  lemma SingleSpacedSlice(s: string, a: nat, b: nat)
    requires a <= b <= |s| && SingleSpaced(s)
    ensures SingleSpaced(s[a..b])
  {
    var t := s[a..b];
    forall i | 0 <= i < |t| - 1 ensures !(IsSpace(t[i]) && IsSpace(t[i + 1])) {
      assert t[i] == s[a + i] && t[i + 1] == s[a + i + 1];
    }
  }

  lemma {:induction false} TrimStartAfterSpaces(a: string, y: string)
    requires AllSpace(a) && (y == [] || !IsSpace(y[0]))
    ensures TrimStart(a + y) == y
  {
    if a != [] {
      assert (a + y)[1..] == a[1..] + y;
      TrimStartAfterSpaces(a[1..], y);
    }
  }

  lemma {:induction false} TrimEndBeforeText(a: string, x: string)
    requires !AllSpace(x)
    ensures TrimEnd(a + x) == a + TrimEnd(x)
  {
    var n := |x| - 1;
    if IsSpace(x[n]) {
      assert (a + x)[..|a + x| - 1] == a + x[..n];
      assert !AllSpace(x[..n]) by {
        var i :| 0 <= i < |x| && !IsSpace(x[i]);
        assert x[..n][i] == x[i];
      }
      TrimEndBeforeText(a, x[..n]);
    }
  }

  lemma {:induction false} TrimEndAllSpace(s: string)
    requires AllSpace(s)
    ensures TrimEnd(s) == []
  {
    if s != [] {
      TrimEndAllSpace(s[..|s| - 1]);
    }
  }

  lemma {:induction false} TrimEndAfterSpaces(a: string, b: string)
    requires AllSpace(b)
    ensures TrimEnd(a + b) == TrimEnd(a)
  {
    if b != [] {
      assert (a + b)[..|a + b| - 1] == a + b[..|b| - 1];
      TrimEndAfterSpaces(a, b[..|b| - 1]);
    } else {
      assert a + b == a;
    }
  }

  /** Dropping trailing whitespace before or after the collapse gives the same text. */
  lemma {:induction false} TrimEndCollapse(s: string)
    ensures TrimEnd(CollapseSpaces(s)) == CollapseSpaces(TrimEnd(s))
    decreases |s|, 1
  {
    if s == [] {
    } else if !IsSpace(s[0]) {
      TrimEndCollapseText(s);
    } else {
      TrimEndCollapseSpace(s);
    }
  }

  lemma {:induction false} TrimEndCollapseText(s: string)
    requires s != [] && !IsSpace(s[0])
    ensures TrimEnd(CollapseSpaces(s)) == CollapseSpaces(TrimEnd(s))
    decreases |s|, 0
  {
    var c := CollapseSpaces(s[1..]);
    assert s == [s[0]] + s[1..];
    if AllSpace(s[1..]) {
      TrimEndAfterSpaces([s[0]], s[1..]);
      assert TrimEnd([s[0]]) == [s[0]];
      CollapseFacts(s[1..]);
      assert AllSpace(c) by {
        if s[1..] != [] {
          TrimStartFacts(s[1..]);
          assert TrimStart(s[1..]) == [];
        }
      }
      TrimEndAfterSpaces([s[0]], c);
    } else {
      TrimEndBeforeText([s[0]], s[1..]);
      CollapseKeepsText(s[1..]);
      TrimEndBeforeText([s[0]], c);
      TrimEndCollapse(s[1..]);
      var t := TrimEnd(s[1..]);
      assert ([s[0]] + t)[1..] == t;
    }
  }

  lemma {:induction false} TrimEndCollapseSpace(s: string)
    requires s != [] && IsSpace(s[0])
    ensures TrimEnd(CollapseSpaces(s)) == CollapseSpaces(TrimEnd(s))
    decreases |s|, 0
  {
    var u := TrimStart(s);
    TrimStartFacts(s);
    var k := |s| - |u|;
    assert s == s[..k] + u;
    if u == [] {
      TrimEndAllSpace(s);
      assert CollapseSpaces(s) == [' '];
    } else {
      CollapseFacts(u);
      CollapseKeepsText(u);
      TrimEndBeforeText([' '], CollapseSpaces(u));
      TrimEndCollapse(u);
      TrimEndBeforeText(s[..k], u);
      var t := TrimEnd(u);
      TrimEndFacts(u);
      assert t != [] && t[0] == u[0] by {
        if t == [] { TrimEndAllSpaceOnly(u); }
      }
      TrimStartAfterSpaces(s[..k], t);
      assert (s[..k] + t)[0] == s[0];
    }
  }

  lemma TrimEndAllSpaceOnly(u: string)
    requires TrimEnd(u) == []
    ensures AllSpace(u)
  {
    TrimEndFacts(u);
  }

  /** The collapse keeps some non-space character exactly when there is one. */
  lemma {:induction false} CollapseKeepsText(s: string)
    requires !AllSpace(s)
    ensures !AllSpace(CollapseSpaces(s))
    decreases |s|
  {
    if IsSpace(s[0]) {
      var u := TrimStart(s);
      TrimStartFacts(s);
      var k := |s| - |u|;
      assert u != [] by {
        var i :| 0 <= i < |s| && !IsSpace(s[i]);
      }
      CollapseFacts(u);
      assert CollapseSpaces(s)[1] == CollapseSpaces(u)[0];
    } else {
      assert CollapseSpaces(s)[0] == s[0];
    }
  }

  /** `trim()` and the collapse commute. */
  lemma TrimCollapse(s: string)
    ensures Trim(CollapseSpaces(s)) == CollapseSpaces(Trim(s))
  {
    var u := TrimStart(s);
    TrimStartFacts(s);
    CollapseFacts(u);
    if s != [] && IsSpace(s[0]) {
      assert TrimStart(CollapseSpaces(s)) == TrimStart(CollapseSpaces(u)) by {
        assert CollapseSpaces(s)[1..] == CollapseSpaces(u);
      }
    }
    assert TrimStart(CollapseSpaces(s)) == CollapseSpaces(u) by {
      TrimStartAfterSpaces([], CollapseSpaces(u));
    }
    TrimEndCollapse(u);
  }

  /** A text whose collapse holds no whitespace held none and is unchanged. */
  lemma {:induction false} CollapseWithoutSpace(s: string)
    requires forall i :: 0 <= i < |CollapseSpaces(s)| ==> !IsSpace(CollapseSpaces(s)[i])
    ensures CollapseSpaces(s) == s
    decreases |s|
  {
    if s != [] {
      assert CollapseSpaces(s)[0] == CollapseSpaces(s)[0];
      if !IsSpace(s[0]) {
        var c := CollapseSpaces(s[1..]);
        forall i | 0 <= i < |c| ensures !IsSpace(c[i]) {
          assert CollapseSpaces(s)[i + 1] == c[i];
        }
        CollapseWithoutSpace(s[1..]);
      }
    }
  }

  // ---------------------------------------------------------------- numbers

  /** `n.toString()` for a natural number. */
  function NatStr(n: nat): (r: string)
    ensures |r| >= 1 && AllDigits(r)
    ensures |r| > 1 ==> r[0] != '0'
  {
    if n < 10 then [DigitChar(n)] else NatStr(n / 10) + [DigitChar(n % 10)]
  }

  /** `s.padStart(width, c)` */
  function PadStart(s: string, width: nat, c: char): (r: string)
    ensures |r| == if |s| >= width then |s| else width
    decreases width - |s|
  {
    if |s| >= width then s else PadStart([c] + s, width, c)
  }

  /** `s.slice(-2)`: the last two characters, or all of a shorter text. */
  function LastTwo(s: string): (r: string)
    ensures |r| == if |s| >= 2 then 2 else |s|
  {
    if |s| >= 2 then s[|s| - 2..] else s
  }

  // ---------------------------------------------------------------- runs

  /** The length of the run of digits starting at `i`. */
  function DigitRun(s: string, i: nat): (n: nat)
    requires i <= |s|
    ensures i + n <= |s|
    decreases |s| - i
  {
    if i < |s| && IsDigit(s[i]) then
      1 + DigitRun(s, i + 1)
    else 0
  }

  /** The run is all digits, and is followed by a non-digit or the end. */
  lemma {:induction false} DigitRunFacts(s: string, i: nat)
    requires i <= |s|
    ensures var n := DigitRun(s, i);
      && (forall k :: i <= k < i + n ==> IsDigit(s[k]))
      && (i + n == |s| || !IsDigit(s[i + n]))
    decreases |s| - i
  {
    if i < |s| && IsDigit(s[i]) {
      DigitRunFacts(s, i + 1);
    }
  }

  /** The length of the run of whitespace starting at `i`. */
  function SpaceRun(s: string, i: nat): (n: nat)
    requires i <= |s|
    ensures i + n <= |s|
    ensures forall k :: i <= k < i + n ==> IsSpace(s[k])
    ensures i + n == |s| || !IsSpace(s[i + n])
    decreases |s| - i
  {
    if i < |s| && IsSpace(s[i]) then
      1 + SpaceRun(s, i + 1)
    else 0
  }

  // ---------------------------------------------------------------- subsequences

  /** `a` is `b` with some elements left out, the rest in their order. */
  predicate IsSubsequence<T(==)>(a: seq<T>, b: seq<T>)
    decreases |b|
  {
    if a == [] then true
    else if b == [] then false
    else (a[|a| - 1] == b[|b| - 1] && IsSubsequence(a[..|a| - 1], b[..|b| - 1]))
         || IsSubsequence(a, b[..|b| - 1])
  }

  lemma {:induction false} SubsequencePrefix<T>(a: seq<T>, b: seq<T>, n: nat)
    requires n <= |a| && IsSubsequence(a, b)
    ensures IsSubsequence(a[..n], b)
    decreases |b|
  {
    if n < |a| && a != [] {
      assert b != [];
      if a[|a| - 1] == b[|b| - 1] && IsSubsequence(a[..|a| - 1], b[..|b| - 1]) {
        assert a[..|a| - 1][..n] == a[..n];
        SubsequencePrefix(a[..|a| - 1], b[..|b| - 1], n);
        SubsequenceExtend(a[..n], b[..|b| - 1], b[|b| - 1]);
        assert b[..|b| - 1] + [b[|b| - 1]] == b;
      } else {
        SubsequencePrefix(a, b[..|b| - 1], n);
        SubsequenceExtend(a[..n], b[..|b| - 1], b[|b| - 1]);
        assert b[..|b| - 1] + [b[|b| - 1]] == b;
      }
    } else {
      assert n == |a| ==> a[..n] == a;
    }
  }

  lemma SubsequenceExtend<T>(a: seq<T>, b: seq<T>, x: T)
    requires IsSubsequence(a, b)
    ensures IsSubsequence(a, b + [x])
  {
    assert (b + [x])[..|b|] == b;
  }

  lemma SubsequenceAppend<T>(a: seq<T>, b: seq<T>, x: T)
    requires IsSubsequence(a, b)
    ensures IsSubsequence(a + [x], b + [x])
  {
    assert (a + [x])[..|a|] == a;
    assert (b + [x])[..|b|] == b;
  }
}
