/**
 * Decimal numbers as the pipeline reads and writes them: the coordinate
 * pattern `[-+]?\d*\.?\d+` with `parseFloat` of what it captures, and
 * `toFixed(d)` on exact reals.
 */
module Numbers {
  import opened Text
  import opened Wrappers

  function Pow10(d: nat): (p: nat)
    ensures p >= 1
  {
    if d == 0 then 1 else 10 * Pow10(d - 1)
  }

  /** `v * 10^d`, one factor of ten at a time. */
  function ScaleUp(v: real, d: nat): real {
    if d == 0 then v else ScaleUp(v, d - 1) * 10.0
  }

  /** `v / 10^d`, one factor of ten at a time. */
  function ScaleDown(v: real, d: nat): real {
    if d == 0 then v else ScaleDown(v, d - 1) / 10.0
  }

  /** The value of a run of decimal digits. */
  function IntVal(ds: string): nat
    requires AllDigits(ds)
  {
    if ds == [] then 0 else IntVal(ds[..|ds| - 1]) * 10 + DigitValue(ds[|ds| - 1])
  }

  // ---------------------------------------------------------------- reading

  /**
   * A matched number: its sign, the digits before and after the point (either
   * part may be empty, not both), and the index just after it.
   */
  datatype NumMatch = NumMatch(negative: bool, whole: string, fraction: string, end: nat)
  {
    predicate Valid() {
      AllDigits(whole) && AllDigits(fraction)
    }

    /** `parseFloat` of the captured text. */
    function Value(): real
      requires Valid()
    {
      var v := IntVal(whole) as real + ScaleDown(IntVal(fraction) as real, |fraction|);
      if negative then -v else v
    }
  }

  /** Where the digits of a number at the start of `s` begin: after an optional sign. */
  function SignEnd(s: string): (k: nat)
    ensures k <= |s|
  {
    if 0 < |s| && (s[0] == '-' || s[0] == '+') then 1 else 0
  }

  /**
   * `[-+]?\d*\.?\d+` anchored at the start of `s`. The greedy `\d*` gives back
   * its last digit when no fraction follows, so the match is either digits
   * with an optional `.digits` tail, or `.digits` alone.
   */
  function NumberAt(s: string): (m: Option<NumMatch>)
    ensures m.Some? ==> m.value.Valid() && 0 < m.value.end <= |s|
  {
    var k := SignEnd(s);
    var d := DigitRun(s, k);
    var f := if k + d + 1 <= |s| && s[k + d] == '.' then DigitRun(s, k + d + 1) else 0;
    var neg := 0 < |s| && s[0] == '-';
    RunsAreDigits(s, k);
    if f >= 1 then Some(NumMatch(neg, s[k..k + d], s[k + d + 1..k + d + 1 + f], k + d + 1 + f))
    else if d >= 1 then Some(NumMatch(neg, s[k..k + d], "", k + d))
    else None
  }

  /** The digit runs a number is built from are all digits. */
  lemma RunsAreDigits(s: string, k: nat)
    requires k <= |s|
    ensures var d := DigitRun(s, k);
      && AllDigits(s[k..k + d])
      && (k + d + 1 <= |s| && s[k + d] == '.' ==> AllDigits(s[k + d + 1..k + d + 1 + DigitRun(s, k + d + 1)]))
  {
    var d := DigitRun(s, k);
    RunDigits(s, k);
    if k + d + 1 <= |s| {
      RunDigits(s, k + d + 1);
    }
  }

  lemma RunDigits(s: string, i: nat)
    requires i <= |s|
    ensures AllDigits(s[i..i + DigitRun(s, i)])
  {
    var t := s[i..i + DigitRun(s, i)];
    DigitRunFacts(s, i);
    forall j | 0 <= j < |t|
      ensures IsDigit(t[j])
    {
      assert t[j] == s[i + j];
    }
  }

  /** The number read at each position of `s` (nothing past the end); its end counts from that position. */
  function Reader(s: string): nat -> Option<NumMatch> {
    (p: nat) => if p <= |s| then NumberAt(s[p..]) else None
  }

  /**
   * The first position at or after `i` where `axis` is followed by what `num`
   * reads: the scan of `line.match`, for any reader of numbers.
   */
  function Scan(s: string, axis: char, i: nat, num: nat -> Option<NumMatch>): (r: Option<(nat, NumMatch)>)
    requires i <= |s|
    ensures r.Some? ==> i <= r.value.0 < |s| && s[r.value.0] == axis && num(r.value.0 + 1) == Some(r.value.1)
    decreases |s| - i
  {
    if i == |s| then None
    else if s[i] == axis && num(i + 1).Some? then Some((i, num(i + 1).value))
    else Scan(s, axis, i + 1, num)
  }

  /** The first position at or after `i` where `axis` is followed by a number. */
  function AxisFrom(s: string, axis: char, i: nat): (r: Option<(nat, NumMatch)>)
    requires i <= |s|
    ensures r.Some? ==> i <= r.value.0 < |s| && r.value.1.Valid()
  {
    var r := Scan(s, axis, i, Reader(s));
    assert r.Some? ==> NumberAt(s[r.value.0 + 1..]) == Some(r.value.1);
    r
  }

  lemma {:induction false} ScanFirst(s: string, axis: char, i: nat, num: nat -> Option<NumMatch>)
    requires i <= |s|
    ensures var r := Scan(s, axis, i, num);
      r.Some? ==> forall p :: i <= p < r.value.0 && s[p] == axis ==> num(p + 1).None?
    decreases |s| - i
  {
    if i < |s| && !(s[i] == axis && num(i + 1).Some?) {
      ScanFirst(s, axis, i + 1, num);
    }
  }

  /** The match found is the first: the axis letter at an earlier position is not followed by a number. */
  lemma AxisFromFirst(s: string, axis: char, i: nat)
    requires i <= |s|
    ensures var r := AxisFrom(s, axis, i);
      r.Some? ==> forall p :: i <= p < r.value.0 && s[p] == axis ==> NumberAt(s[p + 1..]).None?
  {
    ScanFirst(s, axis, i, Reader(s));
  }

  lemma {:induction false} ScanNone(s: string, axis: char, i: nat, num: nat -> Option<NumMatch>)
    requires i <= |s|
    ensures var r := Scan(s, axis, i, num);
      r.None? ==> forall p :: i <= p < |s| && s[p] == axis ==> num(p + 1).None?
    decreases |s| - i
  {
    if i < |s| && !(s[i] == axis && num(i + 1).Some?) {
      ScanNone(s, axis, i + 1, num);
    }
  }

  /** No match is found only when no axis letter is followed by a number. */
  lemma AxisFromNone(s: string, axis: char, i: nat)
    requires i <= |s|
    ensures var r := AxisFrom(s, axis, i);
      r.None? ==> forall p :: i <= p < |s| && s[p] == axis ==> NumberAt(s[p + 1..]).None?
  {
    ScanNone(s, axis, i, Reader(s));
  }

  lemma {:induction false} ScanSkip(s: string, axis: char, i: nat, j: nat, num: nat -> Option<NumMatch>)
    requires i <= j <= |s|
    requires forall p :: i <= p < j ==> s[p] != axis
    ensures Scan(s, axis, i, num) == Scan(s, axis, j, num)
    decreases j - i
  {
    if i < j {
      ScanSkip(s, axis, i + 1, j, num);
    }
  }

  /** Positions without the axis letter are passed over. */
  lemma AxisFromSkip(s: string, axis: char, i: nat, j: nat)
    requires i <= j <= |s|
    requires forall p :: i <= p < j ==> s[p] != axis
    ensures AxisFrom(s, axis, i) == AxisFrom(s, axis, j)
  {
    ScanSkip(s, axis, i, j, Reader(s));
  }

  /** `line.match(/X([-+]?\d*\.?\d+)/)` followed by `parseFloat` of the group. */
  function AxisValue(s: string, axis: char): Option<real> {
    match AxisFrom(s, axis, 0)
    case Some((_, m)) => Some(m.Value())
    case None => None
  }

  // ---------------------------------------------------------------- writing

  /** The nearest integer, halves upward (`toFixed` picks the larger `n` on a tie). */
  function RoundHalfUp(y: real): int {
    (y + 0.5).Floor
  }

  /** `n` of `toFixed`: the magnitude of `x` scaled by `10^d` and rounded, halves upward. */
  function Magnitude(x: real, d: nat): nat {
    var a := if x < 0.0 then -x else x;
    var n := RoundHalfUp(ScaleUp(a, d));
    if n < 0 then 0 else n
  }

  /** The digits of `n`, padded with zeros to at least `d + 1` of them. */
  function Padded(n: nat, d: nat): (m: string)
    ensures |m| >= d + 1
  {
    PadStart(NatStr(n), d + 1, '0')
  }

  /** The digits of `n / 10^d` with exactly `d` after the point. */
  function FixedDigits(n: nat, d: nat): string {
    var m := Padded(n, d);
    if d == 0 then m else m[..|m| - d] + "." + m[|m| - d..]
  }

  /** `x.toFixed(d)` on an exact real (the sign is written for every negative `x`). */
  function ToFixed(x: real, d: nat): string {
    (if x < 0.0 then "-" else "") + FixedDigits(Magnitude(x, d), d)
  }

  /** The value `parseFloat(x.toFixed(d))` reads back: `x` rounded to `d` places. */
  function Rounded(x: real, d: nat): real {
    var v := ScaleDown(Magnitude(x, d) as real, d);
    if x < 0.0 then -v else v
  }

  // ---------------------------------------------------------------- digit lemmas

  lemma MulAssoc(x: nat, y: nat, z: nat)
    ensures (x * y) * z == x * (y * z)
  {
  }

  lemma {:induction false} IntValAppend(a: string, b: string)
    requires AllDigits(a) && AllDigits(b)
    ensures AllDigits(a + b)
    ensures IntVal(a + b) == IntVal(a) * Pow10(|b|) + IntVal(b)
  {
    if b == [] {
      assert a + b == a;
    } else {
      var c := a + b;
      var b' := b[..|b| - 1];
      assert c[..|c| - 1] == a + b';
      IntValAppend(a, b');
      assert c[|c| - 1] == b[|b| - 1];
      var p := Pow10(|b'|);
      var v := DigitValue(b[|b| - 1]);
      calc {
        IntVal(c);
        IntVal(a + b') * 10 + v;
        (IntVal(a) * p + IntVal(b')) * 10 + v;
        { MulAssoc(IntVal(a), p, 10); }
        IntVal(a) * (p * 10) + IntVal(b') * 10 + v;
      }
    }
  }

  lemma {:induction false} IntValNatStr(n: nat)
    ensures IntVal(NatStr(n)) == n
  {
    if n >= 10 {
      IntValNatStr(n / 10);
      var s := NatStr(n / 10) + [DigitChar(n % 10)];
      assert s[..|s| - 1] == NatStr(n / 10);
    }
  }

  /** Leading zeros do not change the value of a run of digits. */
  lemma {:induction false} PadZerosValue(s: string, width: nat)
    requires AllDigits(s)
    ensures AllDigits(PadStart(s, width, '0')) && IntVal(PadStart(s, width, '0')) == IntVal(s)
    decreases width - |s|
  {
    if |s| < width {
      IntValAppend("0", s);
      assert IntVal("0") == 0 by { assert "0"[..0] == ""; }
      PadZerosValue("0" + s, width);
    }
  }

  /** The padded digits still spell `n`. */
  lemma PaddedValue(n: nat, d: nat)
    ensures AllDigits(Padded(n, d)) && IntVal(Padded(n, d)) == n
  {
    IntValNatStr(n);
    PadZerosValue(NatStr(n), d + 1);
  }

  lemma {:induction false} ScaleDownAdd(v: real, w: real, d: nat)
    ensures ScaleDown(v + w, d) == ScaleDown(v, d) + ScaleDown(w, d)
  {
    if d > 0 {
      ScaleDownAdd(v, w, d - 1);
    }
  }

  lemma {:induction false} ScaleDownPow(u: nat, d: nat)
    ensures ScaleDown((u * Pow10(d)) as real, d) == u as real
    decreases d
  {
    if d > 0 {
      MulAssoc(u, 10, Pow10(d - 1));
      ScaleDownPow(u * 10, d - 1);
    }
  }

  /** Digits `a` before the point and `b` after it are worth `IntVal(a + b) / 10^|b|`. */
  lemma DecimalValue(a: string, b: string)
    requires AllDigits(a) && AllDigits(b)
    ensures AllDigits(a + b)
    ensures IntVal(a) as real + ScaleDown(IntVal(b) as real, |b|) == ScaleDown(IntVal(a + b) as real, |b|)
  {
    IntValAppend(a, b);
    ScaleDownAdd((IntVal(a) * Pow10(|b|)) as real, IntVal(b) as real, |b|);
    ScaleDownPow(IntVal(a), |b|);
  }

  /** Cutting digits spelling `n` at `d` places from the end gives a whole part and a fraction worth `n / 10^d`. */
  lemma CutValue(m: string, n: nat, d: nat)
    requires AllDigits(m) && |m| >= d && IntVal(m) == n
    ensures AllDigits(m[..|m| - d]) && AllDigits(m[|m| - d..])
    ensures IntVal(m[..|m| - d]) as real + ScaleDown(IntVal(m[|m| - d..]) as real, d) == ScaleDown(n as real, d)
  {
    var a, b := m[..|m| - d], m[|m| - d..];
    assert m == a + b;
    DecimalValue(a, b);
  }

  /** A run of `n` digits that is followed by a non-digit (or the end) is exactly `DigitRun`. */
  lemma {:induction false} DigitRunOver(s: string, i: nat, n: nat)
    requires i + n <= |s| && AllDigits(s[i..i + n])
    requires i + n == |s| || !IsDigit(s[i + n])
    ensures DigitRun(s, i) == n
    decreases n
  {
    if n > 0 {
      assert s[i..i + n][0] == s[i];
      assert s[i + 1..i + n] == s[i..i + n][1..];
      DigitRunOver(s, i + 1, n - 1);
    }
  }

  lemma {:induction false} DigitRunShift(a: string, b: string, i: nat)
    requires i <= |b|
    ensures DigitRun(a + b, |a| + i) == DigitRun(b, i)
    decreases |b| - i
  {
    if i < |b| {
      assert (a + b)[|a| + i] == b[i];
      DigitRunShift(a, b, i + 1);
    }
  }

  /** Digits followed by a non-digit (or nothing) are one run. */
  lemma DigitsThen(x: string, y: string)
    requires AllDigits(x) && (y == [] || !IsDigit(y[0]))
    ensures DigitRun(x + y, 0) == |x|
  {
    var s := x + y;
    assert s[0..|x|] == x;
    assert |x| < |s| ==> s[|x|] == y[0];
    DigitRunOver(s, 0, |x|);
  }

  /** Digits after a prefix and before a non-digit are one run, starting where the prefix ends. */
  lemma RunAfter(p: string, x: string, y: string)
    requires AllDigits(x) && (y == [] || !IsDigit(y[0]))
    ensures DigitRun(p + x + y, |p|) == |x|
    ensures (p + x + y)[|p|..|p| + |x|] == x
  {
    var s := p + x + y;
    assert s == p + (x + y);
    DigitRunShift(p, x + y, 0);
    DigitsThen(x, y);
    assert s[|p|..|p| + |x|] == x;
  }

  /** The sign, the whole part and the point of a signed decimal, up to what follows the point. */
  lemma PointHead(s: string, sign: string, a: string, rest: string)
    requires sign == "" || sign == "-"
    requires |a| >= 1 && AllDigits(a)
    requires rest != [] && rest[0] == '.'
    requires s == sign + a + rest
    ensures SignEnd(s) == |sign|
    ensures (0 < |s| && s[0] == '-') == (sign == "-")
    ensures DigitRun(s, |sign|) == |a|
    ensures |sign| + |a| + 1 <= |s| && s[|sign| + |a|] == '.'
    ensures s[|sign|..|sign| + |a|] == a
  {
    SignBefore(s, sign, a + rest);
    assert s[|sign| + |a|] == rest[0];
    RunAfter(sign, a, rest);
  }

  lemma PointAssoc(sign: string, a: string, b: string, y: string)
    ensures sign + a + "." + b + y == sign + a + ("." + b + y)
  {
  }

  /** The sign, the whole part and the point of a signed decimal. */
  lemma DecimalHead(s: string, sign: string, a: string, b: string, y: string)
    requires sign == "" || sign == "-"
    requires |a| >= 1 && AllDigits(a)
    requires s == sign + a + "." + b + y
    ensures SignEnd(s) == |sign|
    ensures (0 < |s| && s[0] == '-') == (sign == "-")
    ensures DigitRun(s, |sign|) == |a|
    ensures |sign| + |a| + 1 <= |s| && s[|sign| + |a|] == '.'
    ensures s[|sign|..|sign| + |a|] == a
  {
    PointAssoc(sign, a, b, y);
    PointHead(s, sign, a, "." + b + y);
  }

  /** The fraction of a signed decimal followed by a non-digit. */
  lemma DecimalTail(s: string, sign: string, a: string, b: string, y: string)
    requires AllDigits(b) && (y == [] || !IsDigit(y[0]))
    requires s == sign + a + "." + b + y
    ensures DigitRun(s, |sign| + |a| + 1) == |b|
    ensures s[|sign| + |a| + 1..|sign| + |a| + 1 + |b|] == b
  {
    RunAfter(sign + a + ".", b, y);
  }

  /**
   * An optional minus, digits, a point and digits are matched whole, up to
   * whatever non-digit follows them.
   */
  lemma ReadDecimalBefore(sign: string, a: string, b: string, y: string)
    requires sign == "" || sign == "-"
    requires |a| >= 1 && |b| >= 1 && AllDigits(a) && AllDigits(b)
    requires y == [] || !IsDigit(y[0])
    ensures NumberAt(sign + a + "." + b + y) == Some(NumMatch(sign == "-", a, b, |sign| + |a| + 1 + |b|))
  {
    var s := sign + a + "." + b + y;
    DecimalHead(s, sign, a, b, y);
    DecimalTail(s, sign, a, b, y);
    PointedNumber(s, |sign|, |a|, |b|);
  }

  /** An optional minus before a digit is where the number's digits begin. */
  lemma SignBefore(s: string, sign: string, t: string)
    requires sign == "" || sign == "-"
    requires t != [] && IsDigit(t[0])
    requires s == sign + t
    ensures SignEnd(s) == |sign|
    ensures (0 < |s| && s[0] == '-') == (sign == "-")
  {
    assert s[0] == (if sign == "" then t[0] else '-');
  }

  /** Digits, a point and at least one digit after the sign are read as whole and fraction. */
  lemma PointedNumber(s: string, k: nat, d: nat, f: nat)
    requires k == SignEnd(s) && d == DigitRun(s, k)
    requires k + d + 1 <= |s| && s[k + d] == '.'
    requires f == DigitRun(s, k + d + 1) && f >= 1
    ensures NumberAt(s) == Some(NumMatch(0 < |s| && s[0] == '-', s[k..k + d], s[k + d + 1..k + d + 1 + f], k + d + 1 + f))
  {
    NumberParts(s, k, d, f);
  }

  /** An optional minus, digits, a point and digits are matched whole, to the end. */
  lemma ReadSignedDecimal(sign: string, a: string, b: string)
    requires sign == "" || sign == "-"
    requires |a| >= 1 && |b| >= 1 && AllDigits(a) && AllDigits(b)
    ensures NumberAt(sign + a + "." + b) == Some(NumMatch(sign == "-", a, b, |sign| + |a| + 1 + |b|))
  {
    assert sign + a + "." + b + [] == sign + a + "." + b;
    ReadDecimalBefore(sign, a, b, []);
  }

  /**
   * Digits spelling `n`, cut `d` places from the end and signed, read back as
   * `n / 10^d` with that sign, before any non-digit tail `y`.
   */
  lemma ReadBackDigits(t: string, sign: string, p: string, n: nat, d: nat, y: string)
    requires sign == "" || sign == "-"
    requires d >= 1 && AllDigits(p) && |p| >= d + 1 && IntVal(p) == n
    requires y == [] || !IsDigit(y[0])
    requires t == sign + p[..|p| - d] + "." + p[|p| - d..] + y
    ensures var m := NumberAt(t);
      var v := ScaleDown(n as real, d);
      m.Some? && m.value.end == |t| - |y| && m.value.Value() == (if sign == "-" then -v else v)
  {
    CutValue(p, n, d);
    ReadDecimalBefore(sign, p[..|p| - d], p[|p| - d..], y);
  }

  lemma FixedDigitsCut(n: nat, d: nat)
    requires d >= 1
    ensures var p := Padded(n, d);
      FixedDigits(n, d) == p[..|p| - d] + "." + p[|p| - d..]
  {
  }

  /** The fixed-point text of `n` with `d` places, signed, reads back as `n / 10^d` with that sign. */
  lemma ReadBackFixed(sign: string, n: nat, d: nat, y: string)
    requires sign == "" || sign == "-"
    requires d >= 1
    requires y == [] || !IsDigit(y[0])
    ensures var t := sign + FixedDigits(n, d) + y;
      var m := NumberAt(t);
      var v := ScaleDown(n as real, d);
      m.Some? && m.value.end == |t| - |y| && m.value.Value() == (if sign == "-" then -v else v)
  {
    var p := Padded(n, d);
    PaddedValue(n, d);
    FixedDigitsCut(n, d);
    var t := sign + FixedDigits(n, d) + y;
    assert t == sign + p[..|p| - d] + "." + p[|p| - d..] + y;
    ReadBackDigits(t, sign, p, n, d, y);
  }

  /** `parseFloat(x.toFixed(d))` is `Rounded(x, d)`: the written text is read whole, as the rounded value. */
  lemma FixedReadsBack(x: real, d: nat)
    requires d >= 1
    ensures var m := NumberAt(ToFixed(x, d));
      m.Some? && m.value.end == |ToFixed(x, d)| && m.value.Value() == Rounded(x, d)
  {
    FixedReadsBefore(x, d, []);
    assert ToFixed(x, d) + [] == ToFixed(x, d);
  }

  /**
   * The same read-back when the text is followed by anything but a digit: the
   * match stops where the written number ends.
   */
  lemma FixedReadsBefore(x: real, d: nat, y: string)
    requires d >= 1
    requires y == [] || !IsDigit(y[0])
    ensures var m := NumberAt(ToFixed(x, d) + y);
      m.Some? && m.value.end == |ToFixed(x, d)| && m.value.Value() == Rounded(x, d)
  {
    var sign := if x < 0.0 then "-" else "";
    ReadBackFixed(sign, Magnitude(x, d), d, y);
    assert ToFixed(x, d) + y == sign + FixedDigits(Magnitude(x, d), d) + y;
  }

  /** `x.toFixed(d)` is written with digits, a point and a sign only: it never breaks a line. */
  lemma FixedCharacters(x: real, d: nat)
    ensures forall k :: 0 <= k < |ToFixed(x, d)| ==> var c := ToFixed(x, d)[k]; IsDigit(c) || c == '.' || c == '-'
  {
    SignedFixedChars(if x < 0.0 then "-" else "", Magnitude(x, d), d);
  }

  lemma SignedFixedChars(sign: string, n: nat, d: nat)
    requires sign == "" || sign == "-"
    ensures var t := sign + FixedDigits(n, d);
      forall k :: 0 <= k < |t| ==> IsDigit(t[k]) || t[k] == '.' || t[k] == '-'
  {
    var p := Padded(n, d);
    PaddedValue(n, d);
    if d >= 1 {
      FixedDigitsCut(n, d);
      var i := |p| - d;
      assert AllDigits(p[..i]) && AllDigits(p[i..]) by {
        DigitSlices(p, i);
      }
      PointedChars(sign, p[..i], p[i..]);
    } else {
      PointedChars(sign, p, "");
      assert sign + FixedDigits(n, d) == (sign + p + "." + "")[..|sign + p|];
    }
  }

  lemma DigitSlices(p: string, i: nat)
    requires AllDigits(p) && i <= |p|
    ensures AllDigits(p[..i]) && AllDigits(p[i..])
  {
    assert forall k :: 0 <= k < i ==> p[..i][k] == p[k];
    assert forall k :: 0 <= k < |p| - i ==> p[i..][k] == p[i + k];
  }

  /** A sign, digits, a point and digits: every character is one of those. */
  lemma PointedChars(sign: string, a: string, b: string)
    requires sign == "" || sign == "-"
    requires AllDigits(a) && AllDigits(b)
    ensures var t := sign + a + "." + b;
      forall k :: 0 <= k < |t| ==> IsDigit(t[k]) || t[k] == '.' || t[k] == '-'
  {
    var t := sign + a + "." + b;
    forall k | 0 <= k < |t|
      ensures IsDigit(t[k]) || t[k] == '.' || t[k] == '-'
    {
      if |sign| <= k < |sign| + |a| {
        assert t[k] == a[k - |sign|];
      } else if k > |sign| + |a| {
        assert t[k] == b[k - |sign| - |a| - 1];
      }
    }
  }

  // ---------------------------------------------------------------- reading an axis in any text

  /** `c` is the letter `axis` (given upper-case) in either case. */
  predicate IsAxisLetter(c: char, axis: char) {
    c == axis || c == LowerChar(axis)
  }

  /** A character no number `[-+]?\d*\.?\d+` can run into. */
  predicate Stopper(c: char) {
    !IsDigit(c) && c != '.' && c != '-' && c != '+'
  }

  /** What `parseFloat` gives for a match, if there is one. */
  function NumVal(m: Option<NumMatch>): Option<real>
    requires m.Some? ==> m.value.Valid()
  {
    if m.Some? then Some(m.value.Value()) else None
  }

  /**
   * The reference reading of a coordinate: the number after the first letter
   * `axis`, in either case, that has one, wherever the text starts.
   */
  function ReadAxis(s: string, axis: char): Option<real>
    decreases |s|
  {
    if s == [] then None
    else if IsAxisLetter(s[0], axis) && NumberAt(s[1..]).Some? then NumVal(NumberAt(s[1..]))
    else ReadAxis(s[1..], axis)
  }

  /** A matched number ends at the end of the text or before a non-digit, and holds no stopper. */
  lemma NumberBounds(s: string)
    ensures var m := NumberAt(s);
      m.Some? ==> (m.value.end == |s| || !IsDigit(s[m.value.end]))
                  && forall i :: 0 <= i < m.value.end ==> !Stopper(s[i])
  {
    var k := SignEnd(s);
    var d := DigitRun(s, k);
    DigitRunFacts(s, k);
    if k + d + 1 <= |s| {
      DigitRunFacts(s, k + d + 1);
    }
  }

  /**
   * The same pattern matched in place at position `i` of `s`, as the matcher
   * of a longer pattern sees it: where the number ends, if one starts there.
   */
  function NumberEnd(s: string, i: nat): (e: Option<nat>)
    requires i <= |s|
    ensures e.Some? ==> i < e.value <= |s|
  {
    var k := if i < |s| && (s[i] == '-' || s[i] == '+') then i + 1 else i;
    var d := DigitRun(s, k);
    var f := if k + d + 1 <= |s| && s[k + d] == '.' then DigitRun(s, k + d + 1) else 0;
    if f >= 1 then Some(k + d + 1 + f) else if d >= 1 then Some(k + d) else None
  }

  /** Matching in place agrees with matching the rest of the text on its own. */
  lemma NumberEndAt(s: string, i: nat)
    requires i <= |s|
    ensures var m := NumberAt(s[i..]);
      NumberEnd(s, i) == if m.Some? then Some(i + m.value.end) else None
  {
    var t := s[i..];
    var k := SignEnd(t);
    var d := DigitRun(t, k);
    var f := if k + d + 1 <= |t| && t[k + d] == '.' then DigitRun(t, k + d + 1) else 0;
    InPlaceParts(s, i, k, d, f);
    NumberParts(t, k, d, f);
  }

  /** The sign and the digit runs of the number at `i`, seen in place and in the rest of the text. */
  lemma InPlaceParts(s: string, i: nat, k: nat, d: nat, f: nat)
    requires i <= |s|
    requires k == SignEnd(s[i..]) && d == DigitRun(s[i..], k)
    requires f == if k + d + 1 <= |s[i..]| && s[i..][k + d] == '.' then DigitRun(s[i..], k + d + 1) else 0
    ensures i + k == (if i < |s| && (s[i] == '-' || s[i] == '+') then i + 1 else i)
    ensures d == DigitRun(s, i + k)
    ensures f == if i + k + d + 1 <= |s| && s[i + k + d] == '.' then DigitRun(s, i + k + d + 1) else 0
  {
    DigitRunFrom(s, i, k);
    if k + d + 1 <= |s[i..]| {
      DigitRunFrom(s, i, k + d + 1);
    }
  }

  lemma {:induction false} DigitRunFrom(s: string, i: nat, j: nat)
    requires i + j <= |s|
    ensures DigitRun(s[i..], j) == DigitRun(s, i + j)
    decreases |s| - i - j
  {
    if i + j < |s| {
      assert s[i..][j] == s[i + j];
      DigitRunFrom(s, i, j + 1);
    }
  }

  /** The number matched in place holds only number characters, and is not followed by a digit. */
  lemma NumberEndChars(s: string, i: nat)
    requires i <= |s| && NumberEnd(s, i).Some?
    ensures var e := NumberEnd(s, i).value;
      && (forall k :: i <= k < e ==> !Stopper(s[k]))
      && (e == |s| || !IsDigit(s[e]))
  {
    var t := s[i..];
    NumberEndAt(s, i);
    NumberBounds(t);
    var e := NumberEnd(s, i).value;
    forall k | i <= k < e
      ensures !Stopper(s[k])
    {
      assert s[k] == t[k - i];
    }
    assert e < |s| ==> s[e] == t[e - i];
  }

  /** `NumberAt` taken apart: where the digits start, and the two digit runs. */
  lemma NumberParts(s: string, k: nat, d: nat, f: nat)
    requires k == SignEnd(s)
    requires d == DigitRun(s, k)
    requires f == if k + d + 1 <= |s| && s[k + d] == '.' then DigitRun(s, k + d + 1) else 0
    ensures k + d + f + 1 <= |s| || f == 0
    ensures NumberAt(s) ==
      if f >= 1 then Some(NumMatch(0 < |s| && s[0] == '-', s[k..k + d], s[k + d + 1..k + d + 1 + f], k + d + 1 + f))
      else if d >= 1 then Some(NumMatch(0 < |s| && s[0] == '-', s[k..k + d], "", k + d))
      else None
  {
  }

  lemma {:induction false} DigitRunLocal(x: string, y: string, i: nat)
    requires i <= |x| && (y == [] || !IsDigit(y[0]))
    ensures DigitRun(x + y, i) == DigitRun(x, i)
    decreases |x| - i
  {
    if i < |x| {
      assert (x + y)[i] == x[i];
      DigitRunLocal(x, y, i + 1);
    } else if y != [] {
      assert (x + y)[i] == y[0];
    }
  }

  lemma SliceLocal(x: string, y: string, a: nat, b: nat)
    requires a <= b <= |x|
    ensures (x + y)[a..b] == x[a..b]
  {
  }

  /** The parts of the number at the start of `x` are the same with a stopper and more after it. */
  lemma LocalParts(x: string, y: string, k: nat, d: nat, f: nat)
    requires y == [] || Stopper(y[0])
    requires k == SignEnd(x) && d == DigitRun(x, k)
    requires f == if k + d + 1 <= |x| && x[k + d] == '.' then DigitRun(x, k + d + 1) else 0
    ensures k == SignEnd(x + y) && d == DigitRun(x + y, k)
    ensures f == if k + d + 1 <= |x + y| && (x + y)[k + d] == '.' then DigitRun(x + y, k + d + 1) else 0
    ensures (0 < |x| && x[0] == '-') == (0 < |x + y| && (x + y)[0] == '-')
    ensures (x + y)[k..k + d] == x[k..k + d]
    ensures f >= 1 ==> (x + y)[k + d + 1..k + d + 1 + f] == x[k + d + 1..k + d + 1 + f]
  {
    var s := x + y;
    if x != [] {
      assert s[0] == x[0];
    } else if y != [] {
      assert s[0] == y[0];
    }
    DigitRunLocal(x, y, k);
    if k + d < |x| {
      assert s[k + d] == x[k + d];
      DigitRunLocal(x, y, k + d + 1);
    } else if y != [] {
      assert s[k + d] == y[0];
    }
    SliceLocal(x, y, k, k + d);
    if f >= 1 {
      SliceLocal(x, y, k + d + 1, k + d + 1 + f);
    }
  }

  /** What follows a stopper does not change the number read before it. */
  lemma NumberLocal(x: string, y: string)
    requires y == [] || Stopper(y[0])
    ensures NumberAt(x + y) == NumberAt(x)
  {
    var k := SignEnd(x);
    var d := DigitRun(x, k);
    var f := if k + d + 1 <= |x| && x[k + d] == '.' then DigitRun(x, k + d + 1) else 0;
    LocalParts(x, y, k, d, f);
    NumberParts(x, k, d, f);
    NumberParts(x + y, k, d, f);
  }

  /** The two texts differ at most in characters no number can hold. */
  predicate SameNumberChars(s: string, t: string) {
    |s| == |t| && forall i :: 0 <= i < |s| ==> (Stopper(s[i]) <==> Stopper(t[i])) && (!Stopper(s[i]) ==> s[i] == t[i])
  }

  lemma {:induction false} DigitRunSame(s: string, t: string, i: nat)
    requires SameNumberChars(s, t) && i <= |s|
    ensures DigitRun(t, i) == DigitRun(s, i)
    decreases |s| - i
  {
    if i < |s| && IsDigit(s[i]) {
      DigitRunSame(s, t, i + 1);
    }
  }

  /** The parts of the number at the start of `s` are those of a text that agrees on every number character. */
  lemma SameParts(s: string, t: string, k: nat, d: nat, f: nat)
    requires SameNumberChars(s, t)
    requires k == SignEnd(s) && d == DigitRun(s, k)
    requires f == if k + d + 1 <= |s| && s[k + d] == '.' then DigitRun(s, k + d + 1) else 0
    ensures k == SignEnd(t) && d == DigitRun(t, k)
    ensures f == if k + d + 1 <= |t| && t[k + d] == '.' then DigitRun(t, k + d + 1) else 0
    ensures (0 < |s| && s[0] == '-') == (0 < |t| && t[0] == '-')
    ensures t[k..k + d] == s[k..k + d]
    ensures f >= 1 ==> t[k + d + 1..k + d + 1 + f] == s[k + d + 1..k + d + 1 + f]
  {
    DigitRunSame(s, t, k);
    DigitRunFacts(s, k);
    if k + d + 1 <= |s| {
      DigitRunSame(s, t, k + d + 1);
      DigitRunFacts(s, k + d + 1);
    }
  }

  /** Texts that agree on every character a number can hold read the same number. */
  lemma NumberSame(s: string, t: string)
    requires SameNumberChars(s, t)
    ensures NumberAt(t) == NumberAt(s)
  {
    var k := SignEnd(s);
    var d := DigitRun(s, k);
    var f := if k + d + 1 <= |s| && s[k + d] == '.' then DigitRun(s, k + d + 1) else 0;
    SameParts(s, t, k, d, f);
    NumberParts(s, k, d, f);
    NumberParts(t, k, d, f);
  }

  /** Upper-casing leaves the number where it was. */
  lemma NumberUpper(s: string)
    ensures NumberAt(ToUpper(s)) == NumberAt(s)
  {
    assert SameNumberChars(s, ToUpper(s));
    NumberSame(s, ToUpper(s));
  }

  lemma UpperSuffix(t: string, n: nat)
    requires n <= |t|
    ensures ToUpper(t)[n..] == ToUpper(t[n..])
  {
  }

  /** Reading across a stopper: the first text is read first, the rest only when it holds nothing. */
  lemma {:induction false} ReadAppend(x: string, y: string, axis: char)
    requires y == [] || Stopper(y[0])
    ensures ReadAxis(x + y, axis) == if ReadAxis(x, axis).Some? then ReadAxis(x, axis) else ReadAxis(y, axis)
    decreases |x|
  {
    if x == [] {
      assert x + y == y;
    } else {
      assert (x + y)[0] == x[0];
      assert (x + y)[1..] == x[1..] + y;
      NumberLocal(x[1..], y);
      ReadAppend(x[1..], y, axis);
    }
  }

  /** Text without the axis letter adds nothing to the reading. */
  lemma {:induction false} ReadSkip(x: string, y: string, axis: char)
    requires forall i :: 0 <= i < |x| ==> !IsAxisLetter(x[i], axis)
    ensures ReadAxis(x + y, axis) == ReadAxis(y, axis)
    decreases |x|
  {
    if x == [] {
      assert x + y == y;
    } else {
      assert (x + y)[0] == x[0];
      assert (x + y)[1..] == x[1..] + y;
      ReadSkip(x[1..], y, axis);
    }
  }

  /** The scan of the upper-cased text from `i` finds the value the case-blind reading of the rest finds. */
  lemma {:induction false} ScanUpper(t: string, axis: char, i: nat)
    requires 'A' <= axis <= 'Z' && i <= |t|
    ensures var r := AxisFrom(ToUpper(t), axis, i);
      (if r.Some? then Some(r.value.1.Value()) else None) == ReadAxis(t[i..], axis)
    decreases |t| - i
  {
    var u := ToUpper(t);
    if i < |t| {
      assert u[i] == axis <==> IsAxisLetter(t[i], axis);
      UpperSuffix(t, i + 1);
      NumberUpper(t[i + 1..]);
      assert t[i..][0] == t[i];
      assert t[i..][1..] == t[i + 1..];
      if !(u[i] == axis && NumberAt(u[i + 1..]).Some?) {
        ScanUpper(t, axis, i + 1);
      }
    }
  }

  /** Reading the upper-cased text is reading the text in either case. */
  lemma UpperReads(t: string, axis: char)
    requires 'A' <= axis <= 'Z'
    ensures AxisValue(ToUpper(t), axis) == ReadAxis(t, axis)
  {
    ScanUpper(t, axis, 0);
    assert t[0..] == t;
  }

  lemma TrimStartReads(t: string, axis: char)
    requires 'A' <= axis <= 'Z'
    ensures ReadAxis(TrimStart(t), axis) == ReadAxis(t, axis)
  {
    var r := TrimStart(t);
    TrimStartFacts(t);
    var a := |t| - |r|;
    assert t == t[..a] + r;
    ReadSkip(t[..a], r, axis);
  }

  lemma TrimEndReads(t: string, axis: char)
    requires 'A' <= axis <= 'Z'
    ensures ReadAxis(TrimEnd(t), axis) == ReadAxis(t, axis)
  {
    var r := TrimEnd(t);
    TrimEndFacts(t);
    var tail := t[|r|..];
    assert t == r + tail;
    ReadAppend(r, tail, axis);
    assert tail == tail + [];
    ReadSkip(tail, [], axis);
  }

  /** Leading and trailing whitespace does not change the reading. */
  lemma TrimReads(t: string, axis: char)
    requires 'A' <= axis <= 'Z'
    ensures ReadAxis(Trim(t), axis) == ReadAxis(t, axis)
  {
    TrimStartReads(t, axis);
    TrimEndReads(TrimStart(t), axis);
  }

  // ---------------------------------------------------------------- examples

  /** A sign and a bare fraction are read: `X-.5` holds -0.5. */
  lemma ReadsSignedFraction()
    ensures AxisValue("X-.5", 'X') == Some(-0.5)
  {
    var n := "-.5";
    assert "X-.5"[1..] == n;
    assert DigitRun(n, 1) == 0;
    assert DigitRun(n, 2) == 1;
    NumberParts(n, 1, 0, 1);
    assert n[1..1] == "" && n[2..3] == "5";
    assert IntVal("5") == 5 && ScaleDown(5.0, 1) == 0.5;
  }

  /** A point with no digits after it is not part of the number: `X12.` holds 12. */
  lemma TrailingPointNotRead()
    ensures AxisValue("X12.", 'X') == Some(12.0)
  {
    var s := "X12.";
    var n := s[1..];
    assert n == "12.";
    assert DigitRun(n, 2) == 0;
    assert DigitRun(n, 0) == 2;
    assert DigitRun(n, 3) == 0;
    assert n[0..2] == "12";
    assert NumberAt(n) == Some(NumMatch(false, "12", "", 2));
    assert IntVal("12") == 12 by { assert "12"[..1] == "1"; }
  }

  lemma FixedTenths()
    ensures ToFixed(0.3, 1) == "0.3" && ToFixed(0.0, 1) == "0.0"
  {
    assert RoundHalfUp(0.3 * 10.0) == 3;
    assert PadStart("3", 2, '0') == "03";
    assert RoundHalfUp(0.0) == 0;
    assert PadStart("0", 2, '0') == "00";
  }

  lemma FixedFourPlaces()
    ensures ToFixed(37.5, 4) == "37.5000"
  {
    assert Pow10(4) == 10000;
    assert RoundHalfUp(37.5 * 10000.0) == 375000;
    assert NatStr(375000) == "375000";
  }

  lemma FixedFourZeros()
    ensures ToFixed(15.0, 4) == "15.0000"
  {
    assert Pow10(4) == 10000;
    assert RoundHalfUp(15.0 * 10000.0) == 150000;
    assert NatStr(150000) == "150000";
  }
}
