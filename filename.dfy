/**
 * The output file name (`generateSanitizedFilename`): the original name
 * without its extension, parentheses, accents and unsafe characters, with
 * blanks turned into underscores, followed by the day, month and two-digit
 * year of the run and `.tap`.
 */
module Filename {
  import opened Wrappers
  import opened Text
  import opened Numbers

  // ---------------------------------------------------------------- character passes

  /** `s.replace(/[...]/g, '')`: the characters of `s` that `keep` accepts, in order. */
  function Filter(s: string, keep: char -> bool): (r: string)
    ensures |r| <= |s|
  {
    if s == [] then [] else Filter(s[..|s| - 1], keep) + (if keep(s[|s| - 1]) then [s[|s| - 1]] else [])
  }

  /** Every character the filter keeps is accepted, and the kept characters keep their order. */
  lemma {:induction false} FilterFacts(s: string, keep: char -> bool)
    ensures forall i :: 0 <= i < |Filter(s, keep)| ==> keep(Filter(s, keep)[i])
    ensures IsSubsequence(Filter(s, keep), s)
  {
    if s != [] {
      var init := s[..|s| - 1];
      FilterFacts(init, keep);
      if keep(s[|s| - 1]) {
        var r := Filter(s, keep);
        assert r[..|r| - 1] == Filter(init, keep);
        assert r[|r| - 1] == s[|s| - 1];
        assert IsSubsequence(r[..|r| - 1], s[..|s| - 1]);
      } else {
        assert Filter(s, keep) == Filter(init, keep) + [];
        assert Filter(init, keep) + [] == Filter(init, keep);
        SubsequenceExtend(Filter(init, keep), init, s[|s| - 1]);
        assert init + [s[|s| - 1]] == s;
      }
    }
  }

  /** A text whose every character is accepted goes through unchanged. */
  lemma {:induction false} FilterKeepsAccepted(s: string, keep: char -> bool)
    requires forall i :: 0 <= i < |s| ==> keep(s[i])
    ensures Filter(s, keep) == s
  {
    if s != [] {
      FilterKeepsAccepted(s[..|s| - 1], keep);
    }
  }

  predicate NotParen(c: char) {
    c != '(' && c != ')'
  }

  /** `[̀-ͯ]`: the combining diacritical marks NFD splits accents into. */
  predicate IsCombiningMark(c: char) {
    '\U{0300}' <= c <= '\U{036F}'
  }

  predicate NotCombiningMark(c: char) {
    !IsCombiningMark(c)
  }

  /** `[a-zA-Z0-9_-]` */
  predicate IsSafe(c: char) {
    ('a' <= c <= 'z') || ('A' <= c <= 'Z') || IsDigit(c) || c == '_' || c == '-'
  }

  /** `s.replace(/\s/g, '_')` */
  function Underscored(s: string): string {
    seq(|s|, i requires 0 <= i < |s| => if IsSpace(s[i]) then '_' else s[i])
  }

  // ---------------------------------------------------------------- the extension

  /** `.ext` at `p` ends `name`: a point followed by one or more characters that are neither `/` nor `.`. */
  predicate ExtensionAt(name: string, p: nat) {
    p + 1 < |name| && name[p] == '.'
    && forall k :: p < k < |name| ==> name[k] != '.' && name[k] != '/'
  }

  /** The index of the last point of `s`. */
  function LastDot(s: string): (r: Option<nat>)
    ensures r.Some? ==> r.value < |s| && s[r.value] == '.' && forall k :: r.value < k < |s| ==> s[k] != '.'
    ensures r.None? ==> forall k :: 0 <= k < |s| ==> s[k] != '.'
  {
    if s == [] then None
    else if s[|s| - 1] == '.' then Some(|s| - 1)
    else LastDot(s[..|s| - 1])
  }

  /** `name.replace(/\.[^/.]+$/, '')` */
  function StripExtension(name: string): string {
    match LastDot(name)
    case Some(p) => if p + 1 < |name| && '/' !in name[p + 1..] then name[..p] else name
    case None => name
  }

  /** The regular expression's reading: the extension, where there is one, is cut, and otherwise nothing is. */
  lemma StripExtensionSpec(name: string)
    ensures forall p: nat :: ExtensionAt(name, p) ==> StripExtension(name) == name[..p]
    ensures (forall p: nat :: !ExtensionAt(name, p)) ==> StripExtension(name) == name
  {
    forall p: nat | ExtensionAt(name, p)
      ensures StripExtension(name) == name[..p]
    {
      var q := LastDot(name);
      assert q.Some?;
      assert q.value == p;
      var t := name[p + 1..];
      forall k | 0 <= k < |t|
        ensures t[k] != '/'
      {
        assert t[k] == name[p + 1 + k];
      }
    }
    if (forall p: nat :: !ExtensionAt(name, p)) && LastDot(name).Some? {
      var p := LastDot(name).value;
      if p + 1 < |name| && '/' !in name[p + 1..] {
        forall k | p < k < |name| ensures name[k] != '/' {
          assert name[k] == name[p + 1..][k - p - 1];
        }
        assert ExtensionAt(name, p);
      }
    }
  }

  // ---------------------------------------------------------------- the name

  /**
   * The clock reading the name is stamped with: `getDate()`,
   * `getMonth()` (counted from 0) and `getFullYear()`.
   */
  datatype Date = Date(day: nat, month: nat, fullYear: nat)

  /** `String(n).padStart(2, '0')` */
  function TwoDigits(n: nat): string {
    PadStart(NatStr(n), 2, '0')
  }

  /** The base name: every pass of the source in order; `nfd` is `normalize('NFD')`. */
  function BaseName(originalFilename: string, nfd: string -> string): string {
    var noExtension := StripExtension(originalFilename);
    var noParens := Filter(noExtension, NotParen);
    var noAccents := Filter(nfd(noParens), NotCombiningMark);
    var spaced := Underscored(Trim(CollapseSpaces(noAccents)));
    Filter(spaced, IsSafe)
  }

  /** `generateSanitizedFilename` */
  function SanitizedFilename(originalFilename: string, now: Date, nfd: string -> string): string {
    BaseName(originalFilename, nfd) + DateStamp(now) + ".tap"
  }

  // ---------------------------------------------------------------- properties

  /** The base name holds only letters, digits, `_` and `-`. */
  lemma BaseNameSafe(originalFilename: string, nfd: string -> string)
    ensures forall i :: 0 <= i < |BaseName(originalFilename, nfd)| ==> IsSafe(BaseName(originalFilename, nfd)[i])
  {
    var noAccents := Filter(nfd(Filter(StripExtension(originalFilename), NotParen)), NotCombiningMark);
    FilterFacts(Underscored(Trim(CollapseSpaces(noAccents))), IsSafe);
  }

  /** `TwoDigits` writes a number below 100 as exactly two digits that read back as it. */
  lemma TwoDigitsValue(n: nat)
    requires n < 100
    ensures |TwoDigits(n)| == 2 && AllDigits(TwoDigits(n)) && IntVal(TwoDigits(n)) == n
  {
    PaddedValue(n, 1);
    assert TwoDigits(n) == Padded(n, 1);
    assert |NatStr(n)| <= 2 by {
      if n >= 10 {
        assert NatStr(n) == NatStr(n / 10) + [DigitChar(n % 10)];
      }
    }
  }

  lemma ModOfSplit(n: nat, hi: nat, lo: nat)
    requires n == hi * 100 + lo && lo < 100
    ensures n % 100 == lo
  {
  }

  lemma PairValue(y: string)
    requires |y| == 2 && AllDigits(y)
    ensures IntVal(y) < 100
  {
    assert y[..1][..0] == [];
    assert IntVal(y[..1]) == DigitValue(y[0]);
    assert IntVal(y) == IntVal(y[..1]) * 10 + DigitValue(y[1]);
  }

  /** A run of digits splits into its last two digits and the rest: `n == hi * 100 + lo`. */
  lemma SplitLastTwo(s: string)
    requires |s| >= 2 && AllDigits(s)
    ensures AllDigits(s[..|s| - 2]) && AllDigits(s[|s| - 2..])
    ensures IntVal(s) == IntVal(s[..|s| - 2]) * 100 + IntVal(s[|s| - 2..])
  {
    var p, y := s[..|s| - 2], s[|s| - 2..];
    assert s == p + y;
    IntValAppend(p, y);
    assert Pow10(|y|) == 100;
  }

  /** `String(year).slice(-2)` is the year's last two digits, read as `year % 100`, from the year 10 on. */
  lemma YearDigits(year: nat)
    requires year >= 10
    ensures var y := LastTwo(NatStr(year));
      |y| == 2 && AllDigits(y) && IntVal(y) == year % 100
  {
    var s := NatStr(year);
    assert |s| >= 2 by {
      assert s == NatStr(year / 10) + [DigitChar(year % 10)];
    }
    var y := s[|s| - 2..];
    assert LastTwo(s) == y;
    SplitLastTwo(s);
    IntValNatStr(year);
    PairValue(y);
    ModOfSplit(year, IntVal(s[..|s| - 2]), IntVal(y));
  }

  /** `_DD_MM_YY`: the stamp between the base name and `.tap`. */
  function DateStamp(now: Date): string {
    "_" + TwoDigits(now.day) + "_" + TwoDigits(now.month + 1) + "_" + LastTwo(NatStr(now.fullYear))
  }

  /** For a real date the stamp is nine characters whose digit pairs read back as day, month from 1, and year modulo 100. */
  lemma DateStampValues(now: Date)
    requires 1 <= now.day <= 31 && now.month <= 11 && now.fullYear >= 10
    ensures var t := DateStamp(now);
      && |t| == 9
      && t[0] == '_' && t[3] == '_' && t[6] == '_'
      && AllDigits(t[1..3]) && AllDigits(t[4..6]) && AllDigits(t[7..9])
      && IntVal(t[1..3]) == now.day
      && IntVal(t[4..6]) == now.month + 1
      && IntVal(t[7..9]) == now.fullYear % 100
  {
    var dd, mm, yy := TwoDigits(now.day), TwoDigits(now.month + 1), LastTwo(NatStr(now.fullYear));
    TwoDigitsValue(now.day);
    TwoDigitsValue(now.month + 1);
    YearDigits(now.fullYear);
    StampSlices(dd, mm, yy);
  }

  lemma StampSlices(dd: string, mm: string, yy: string)
    requires |dd| == 2 && |mm| == 2 && |yy| == 2
    ensures var t := "_" + dd + "_" + mm + "_" + yy;
      && |t| == 9
      && t[0] == '_' && t[3] == '_' && t[6] == '_'
      && t[1..3] == dd && t[4..6] == mm && t[7..9] == yy
  {
    var t := "_" + dd + "_" + mm + "_" + yy;
    assert t[1..3] == dd by {
      assert t[..3] == "_" + dd;
    }
    assert t[4..6] == mm;
    assert t[7..9] == yy by {
      assert t[6..] == "_" + yy;
    }
  }

  /** The name is the base name, the stamp and `.tap`, and every character before `.tap` is a letter, digit, `_` or `-`. */
  lemma FilenameShape(originalFilename: string, now: Date, nfd: string -> string)
    ensures var r := SanitizedFilename(originalFilename, now, nfd);
      var b := BaseName(originalFilename, nfd);
      && |r| >= 4 && r[|r| - 4..] == ".tap"
      && r[..|r| - 4] == b + DateStamp(now)
      && (forall i :: 0 <= i < |r| - 4 ==> IsSafe(r[i]))
  {
    var b := BaseName(originalFilename, nfd);
    var t := DateStamp(now);
    BaseNameSafe(originalFilename, nfd);
    var r := SanitizedFilename(originalFilename, now, nfd);
    assert r == (b + t) + ".tap";
    StampSafe(now);
    forall i | 0 <= i < |r| - 4
      ensures IsSafe(r[i])
    {
      if i < |b| {
        assert r[i] == b[i];
      } else {
        assert r[i] == t[i - |b|];
      }
    }
  }

  /** Every character of the stamp is an underscore or a digit. */
  lemma StampSafe(now: Date)
    ensures forall i :: 0 <= i < |DateStamp(now)| ==> IsSafe(DateStamp(now)[i])
  {
    var dd, mm, yy := TwoDigits(now.day), TwoDigits(now.month + 1), LastTwo(NatStr(now.fullYear));
    PaddedValue(now.day, 1);
    PaddedValue(now.month + 1, 1);
    assert dd == Padded(now.day, 1) && mm == Padded(now.month + 1, 1);
    var t := DateStamp(now);
    forall i | 0 <= i < |t|
      ensures IsSafe(t[i])
    {
      if 1 <= i < 1 + |dd| {
        assert t[i] == dd[i - 1];
      } else if 2 + |dd| <= i < 2 + |dd| + |mm| {
        assert t[i] == mm[i - 2 - |dd|];
      } else if 3 + |dd| + |mm| <= i {
        assert t[i] == yy[i - 3 - |dd| - |mm|];
        assert yy[i - 3 - |dd| - |mm|] in NatStr(now.fullYear);
      }
    }
  }

  /** Nothing of the base name is whitespace: blanks became underscores before the last filter. */
  lemma BaseNameHasNoBlanks(originalFilename: string, nfd: string -> string)
    ensures forall i :: 0 <= i < |BaseName(originalFilename, nfd)| ==> !IsSpace(BaseName(originalFilename, nfd)[i])
  {
    BaseNameSafe(originalFilename, nfd);
  }

  /**
   * The blank passes `replace(/\s+/g, ' ').trim().replace(/\s/g, '_')`: what
   * is left of a blank run is one space, never first or last and between two
   * non-blank characters, and it alone becomes `_`; nothing blank survives.
   */
  lemma BlankRunsUnderscored(s: string)
    ensures var t := Trim(CollapseSpaces(s));
      var u := Underscored(t);
      && |u| == |t|
      && (forall i :: 0 <= i < |t| && IsSpace(t[i]) ==>
            t[i] == ' ' && 0 < i < |t| - 1 && !IsSpace(t[i - 1]) && !IsSpace(t[i + 1]) && u[i] == '_')
      && (forall i :: 0 <= i < |t| && !IsSpace(t[i]) ==> u[i] == t[i])
      && (forall i :: 0 <= i < |u| ==> !IsSpace(u[i]))
  {
    var c := CollapseSpaces(s);
    var t := Trim(c);
    CollapseFacts(s);
    TrimFacts(c);
    var a := |c| - |TrimStart(c)|;
    SingleSpacedSlice(c, a, a + |t|);
  }

  /** Blanks around and inside a name: `" a \t b "` becomes `a_b`. */
  lemma BlankRunExample()
    ensures Underscored(Trim(CollapseSpaces(" a \t b "))) == "a_b"
  {
    assert TrimStart(" a \t b ") == "a \t b ";
    assert TrimStart(" \t b ") == "b ";
    assert CollapseSpaces(" a \t b ") == " a b ";
    assert TrimStart(" a b ") == "a b ";
    assert TrimEnd("a b ") == "a b";
  }

  /** Only the last extension goes. */
  lemma LastExtensionOnly()
    ensures StripExtension("corte.v2.tap") == "corte.v2"
  {
    assert LastDot("corte.v2.") == Some(8);
    assert "corte.v2.t"[..9] == "corte.v2.";
    assert LastDot("corte.v2.t") == Some(8);
    assert "corte.v2.ta"[..10] == "corte.v2.t";
    assert LastDot("corte.v2.ta") == Some(8);
    assert "corte.v2.tap"[..11] == "corte.v2.ta";
    assert LastDot("corte.v2.tap") == Some(8);
    assert "corte.v2.tap"[9..] == "tap";
  }

  /** A point before a `/` starts no extension. */
  lemma FolderPointKept()
    ensures StripExtension("pasta.v2/corte") == "pasta.v2/corte"
  {
    assert LastDot("pasta.") == Some(5);
    assert "pasta.v"[..6] == "pasta.";
    assert LastDot("pasta.v") == Some(5);
    assert "pasta.v2"[..7] == "pasta.v";
    assert LastDot("pasta.v2") == Some(5);
    assert "pasta.v2/"[..8] == "pasta.v2";
    assert LastDot("pasta.v2/") == Some(5);
    assert "pasta.v2/c"[..9] == "pasta.v2/";
    assert LastDot("pasta.v2/c") == Some(5);
    assert "pasta.v2/co"[..10] == "pasta.v2/c";
    assert LastDot("pasta.v2/co") == Some(5);
    assert "pasta.v2/cor"[..11] == "pasta.v2/co";
    assert LastDot("pasta.v2/cor") == Some(5);
    assert "pasta.v2/cort"[..12] == "pasta.v2/cor";
    assert LastDot("pasta.v2/cort") == Some(5);
    assert "pasta.v2/corte"[..13] == "pasta.v2/cort";
    assert LastDot("pasta.v2/corte") == Some(5);
    assert "pasta.v2/corte"[6..][2] == '/';
  }

  /** A trailing point is an empty extension, which is kept. */
  lemma TrailingPointKept()
    ensures StripExtension("corte.") == "corte."
  {
    assert LastDot("corte.") == Some(5);
  }

  /** 1 May 2024 is stamped `_01_05_24` (the month counted from 0 by the clock). */
  lemma StampExample()
    ensures DateStamp(Date(1, 4, 2024)) == "_01_05_24"
  {
    assert NatStr(2024) == "2024";
  }
}
