/**
 * The report `calculateStatistics` builds after a run: total distance, how
 * many pauses of each tier were inserted (recognised again from their `P`
 * tokens), how many rapid and dwell lines the original file had, and the
 * seconds spent in pauses.
 */
module Statistics {
  import opened Wrappers
  import opened Text
  import opened Numbers
  import opened Geometry
  import opened Materials
  import opened Classification

  // ---------------------------------------------------------------- reading tokens back

  /** `s.replace(c, '')` with a one-character pattern: only the first occurrence goes. */
  function RemoveFirst(s: string, c: char): string {
    if c in s then var i := FirstIndex(s, c); s[..i] + s[i + 1..] else s
  }

  /**
   * `parseFloat(s)` on text made of a sign, digits and a point: the value of
   * the longest leading number, or `None` (NaN) when there is none.
   */
  function ParseFloat(s: string): Option<real> {
    match NumberAt(s)
    case Some(n) => Some(n.Value())
    case None => None
  }

  /** `parseFloat(token.replace('P', ''))`: the seconds a pause token stands for. */
  function PauseValue(token: string): Option<real> {
    ParseFloat(RemoveFirst(token, 'P'))
  }

  /** `parseFloat(tempo.toFixed(1))`: what a tier's tempo is compared as. */
  function TierValue(tempo: real): Option<real> {
    ParseFloat(ToFixed(tempo, 1))
  }

  /** A tempo compares as itself rounded to tenths. */
  lemma TierValueRounded(tempo: real)
    ensures TierValue(tempo) == Some(Rounded(tempo, 1))
  {
    FixedReadsBack(tempo, 1);
  }

  /** The token written for a tier reads back as that tier's tempo rounded to tenths. */
  lemma TokenValue(m: MaterialConfig, t: Tier)
    ensures PauseValue(Token(m, t)) == Some(Rounded(TierTempo(m, t), 1))
  {
    var text := ToFixed(TierTempo(m, t), 1);
    FixedCharacters(TierTempo(m, t), 1);
    assert Token(m, t) == "P" + text;
    assert FirstIndex("P" + text, 'P') == 0;
    assert RemoveFirst(Token(m, t), 'P') == text;
    TierValueRounded(TierTempo(m, t));
  }

  // ---------------------------------------------------------------- pauses by type

  datatype PauseCounts = PauseCounts(short: nat, medium: nat, long: nat, total: nat)

  /** What a pause of tier `t` reads back as: its tempo rounded to tenths. */
  function PauseSeconds(m: MaterialConfig, t: Tier): real {
    Rounded(TierTempo(m, t), 1)
  }

  /**
   * The counter a pause worth `v` seconds is added to: the first tier, in the
   * order short, medium, long, whose tempo rounded to tenths equals `v`.
   */
  function CountedAs(v: real, m: MaterialConfig): Option<Tier> {
    if v == PauseSeconds(m, Short) then Some(Short)
    else if v == PauseSeconds(m, Medium) then Some(Medium)
    else if v == PauseSeconds(m, Long) then Some(Long)
    else None
  }

  function Tally(c: PauseCounts, t: Option<Tier>): PauseCounts {
    match t
    case Some(Short) => c.(short := c.short + 1)
    case Some(Medium) => c.(medium := c.medium + 1)
    case Some(Long) => c.(long := c.long + 1)
    case None => c
  }

  /** The counters after visiting the pauses of `ps` in order (`total` still 0). */
  function CountRun(ps: seq<Pause>, m: MaterialConfig): PauseCounts {
    if ps == [] then PauseCounts(0, 0, 0, 0)
    else
      var p := ps[|ps| - 1];
      Tally(CountRun(ps[..|ps| - 1], m), CountedAs(PauseSeconds(m, p.tier), m))
  }

  /** `countPausesByType`, with `total` the sum of the three counters. */
  function CountPauses(ps: seq<Pause>, m: MaterialConfig): PauseCounts {
    var c := CountRun(ps, m);
    c.(total := c.short + c.medium + c.long)
  }

  lemma CountStep(ps: seq<Pause>, i: nat, m: MaterialConfig)
    requires i < |ps|
    ensures CountRun(ps[..i + 1], m) == Tally(CountRun(ps[..i], m), CountedAs(PauseSeconds(m, ps[i].tier), m))
  {
    assert ps[..i + 1][..i] == ps[..i];
  }

  /** `parseFloat(pauseTime.replace('P', ''))` for the token of a pause of tier `t`. */
  method ReadPauseToken(material: MaterialConfig, t: Tier) returns (timeValue: Option<real>)
    ensures timeValue == Some(PauseSeconds(material, t))
  {
    var pauseTime := Token(material, t);
    timeValue := PauseValue(pauseTime);
    TokenValue(material, t);
  }

  /** `parseFloat(tempo.toFixed(1))`. */
  method ReadTempo(tempo: real) returns (value: Option<real>)
    ensures value == Some(Rounded(tempo, 1))
  {
    value := TierValue(tempo);
    TierValueRounded(tempo);
  }

  /** `countPausesByType`: one pass over the pause map's tokens. */
  method CountPausesByType(pausePositions: seq<Pause>, material: MaterialConfig) returns (counts: PauseCounts)
    ensures counts == CountPauses(pausePositions, material)
  {
    counts := PauseCounts(0, 0, 0, 0);
    for i := 0 to |pausePositions|
      invariant counts == CountRun(pausePositions[..i], material)
    {
      CountStep(pausePositions, i, material);
      var timeValue := ReadPauseToken(material, pausePositions[i].tier);
      var shortValue := ReadTempo(material.pausas.short.tempo);
      var mediumValue := ReadTempo(material.pausas.medium.tempo);
      var longValue := ReadTempo(material.pausas.long.tempo);
      if timeValue.Some? && timeValue == shortValue {
        counts := counts.(short := counts.short + 1);
      } else if timeValue.Some? && timeValue == mediumValue {
        counts := counts.(medium := counts.medium + 1);
      } else if timeValue.Some? && timeValue == longValue {
        counts := counts.(long := counts.long + 1);
      }
    }
    assert pausePositions[..|pausePositions|] == pausePositions;
    counts := counts.(total := counts.short + counts.medium + counts.long);
  }

  /** The number of pauses of tier `t`. */
  function TierCount(ps: seq<Pause>, t: Tier): nat {
    if ps == [] then 0 else TierCount(ps[..|ps| - 1], t) + (if ps[|ps| - 1].tier == t then 1 else 0)
  }

  /** The three tiers' tempos stay apart once rounded to tenths. */
  predicate DistinctTempos(m: MaterialConfig) {
    var s := Rounded(m.pausas.short.tempo, 1);
    var md := Rounded(m.pausas.medium.tempo, 1);
    var l := Rounded(m.pausas.long.tempo, 1);
    s != md && s != l && md != l
  }

  /** A pause is counted in the tier that compares first, which is its own tier when the tempos are distinct. */
  lemma CountedTier(m: MaterialConfig, t: Tier)
    ensures var c := CountedAs(PauseSeconds(m, t), m);
      && c.Some?
      && (DistinctTempos(m) ==> c == Some(t))
  {
  }

  /** Every pause is counted once: the total is the number of pauses. */
  lemma {:induction false} CountsTotal(ps: seq<Pause>, m: MaterialConfig)
    ensures var c := CountPauses(ps, m);
      c.total == c.short + c.medium + c.long == |ps|
  {
    if ps != [] {
      CountsTotal(ps[..|ps| - 1], m);
      CountedTier(m, ps[|ps| - 1].tier);
    }
  }

  /** With distinct rounded tempos each counter is the number of pauses of its tier. */
  lemma {:induction false} CountsByTier(ps: seq<Pause>, m: MaterialConfig)
    requires DistinctTempos(m)
    ensures CountPauses(ps, m) == PauseCounts(TierCount(ps, Short), TierCount(ps, Medium), TierCount(ps, Long), |ps|)
  {
    if ps != [] {
      CountsByTier(ps[..|ps| - 1], m);
      CountedTier(m, ps[|ps| - 1].tier);
    }
  }

  /** When the medium tempo rounds like the short one, medium pauses are counted as short and none as medium. */
  lemma {:induction false} SharedTempoCountsAsShort(ps: seq<Pause>, m: MaterialConfig)
    requires Rounded(m.pausas.medium.tempo, 1) == Rounded(m.pausas.short.tempo, 1)
    ensures CountPauses(ps, m).medium == 0
    ensures CountPauses(ps, m).short >= TierCount(ps, Short) + TierCount(ps, Medium)
  {
    if ps != [] {
      SharedTempoCountsAsShort(ps[..|ps| - 1], m);
    }
  }

  // ---------------------------------------------------------------- removed commands

  /** A rapid move of the original file: starts with `G00` or `G0 `. */
  predicate IsRapidLine(line: string) {
    StartsWith(Normalized(line), "G00") || StartsWith(Normalized(line), "G0 ")
  }

  /** A dwell of the original file: starts with `G04` or `G4 `. */
  predicate IsDwellLine(line: string) {
    StartsWith(Normalized(line), "G04") || StartsWith(Normalized(line), "G4 ")
  }

  function RapidCount(lines: seq<string>): nat {
    if lines == [] then 0 else RapidCount(lines[..|lines| - 1]) + (if IsRapidLine(lines[|lines| - 1]) then 1 else 0)
  }

  function DwellCount(lines: seq<string>): nat {
    if lines == [] then 0 else DwellCount(lines[..|lines| - 1]) + (if IsDwellLine(lines[|lines| - 1]) then 1 else 0)
  }

  /** No line is both a rapid and a dwell. */
  lemma RapidNotDwell(line: string)
    ensures !(IsRapidLine(line) && IsDwellLine(line))
  {
    var u := Normalized(line);
    if StartsWith(u, "G00") || StartsWith(u, "G0 ") {
      assert u[1] == '0';
      assert u[2] != '4';
    }
  }

  /** The two removal counts never add up to more than the lines of the file. */
  lemma {:induction false} RemovedAtMostLines(lines: seq<string>)
    ensures RapidCount(lines) + DwellCount(lines) <= |lines|
  {
    if lines != [] {
      RemovedAtMostLines(lines[..|lines| - 1]);
      RapidNotDwell(lines[|lines| - 1]);
    }
  }

  // ---------------------------------------------------------------- the report

  /** The seconds the pauses of `ps` add up to, each as its token reads back. */
  function PauseSecondsRun(ps: seq<Pause>, m: MaterialConfig): real {
    if ps == [] then 0.0 else PauseSecondsRun(ps[..|ps| - 1], m) + PauseSeconds(m, ps[|ps| - 1].tier)
  }

  function Weight(t: Tier, a: real, b: real, c: real): real {
    match t
    case Short => a
    case Medium => b
    case Long => c
  }

  /** The sum over `ps` of `a`, `b` or `c` according to each pause's tier. */
  function TierSum(ps: seq<Pause>, a: real, b: real, c: real): real {
    if ps == [] then 0.0 else TierSum(ps[..|ps| - 1], a, b, c) + Weight(ps[|ps| - 1].tier, a, b, c)
  }

  /** `n` copies of `a` added up. */
  function Times(n: nat, a: real): real {
    if n == 0 then 0.0 else Times(n - 1, a) + a
  }

  lemma {:induction false} TimesIsProduct(n: nat, a: real)
    ensures Times(n, a) == n as real * a
  {
    if n > 0 {
      TimesIsProduct(n - 1, a);
      assert n as real * a == (n - 1) as real * a + a;
    }
  }

  lemma {:induction false} TierSumWeighted(ps: seq<Pause>, a: real, b: real, c: real)
    ensures TierSum(ps, a, b, c) == Times(TierCount(ps, Short), a) + Times(TierCount(ps, Medium), b) + Times(TierCount(ps, Long), c)
  {
    if ps != [] {
      TierSumWeighted(ps[..|ps| - 1], a, b, c);
    }
  }

  lemma TierSumProducts(ps: seq<Pause>, a: real, b: real, c: real)
    ensures TierSum(ps, a, b, c)
         == TierCount(ps, Short) as real * a + TierCount(ps, Medium) as real * b + TierCount(ps, Long) as real * c
  {
    TierSumWeighted(ps, a, b, c);
    TimesIsProduct(TierCount(ps, Short), a);
    TimesIsProduct(TierCount(ps, Medium), b);
    TimesIsProduct(TierCount(ps, Long), c);
  }

  lemma {:induction false} SecondsAreTierSum(ps: seq<Pause>, m: MaterialConfig)
    ensures PauseSecondsRun(ps, m) == TierSum(ps, PauseSeconds(m, Short), PauseSeconds(m, Medium), PauseSeconds(m, Long))
  {
    if ps != [] {
      SecondsAreTierSum(ps[..|ps| - 1], m);
      var t := ps[|ps| - 1].tier;
      assert PauseSeconds(m, t) == Weight(t, PauseSeconds(m, Short), PauseSeconds(m, Medium), PauseSeconds(m, Long));
    }
  }

  /** The pause seconds are the tier counts weighted by the rounded tempos. */
  lemma PauseSecondsByTier(ps: seq<Pause>, m: MaterialConfig)
    ensures PauseSecondsRun(ps, m)
         == TierCount(ps, Short) as real * PauseSeconds(m, Short)
          + TierCount(ps, Medium) as real * PauseSeconds(m, Medium)
          + TierCount(ps, Long) as real * PauseSeconds(m, Long)
  {
    SecondsAreTierSum(ps, m);
    TierSumProducts(ps, PauseSeconds(m, Short), PauseSeconds(m, Medium), PauseSeconds(m, Long));
  }

  datatype RemovedCounts = RemovedCounts(g00: nat, g04: nat, total: nat)

  /**
   * `ProcessingStatistics`. The time estimates are `None` where the source
   * divides by a zero feed rate (JavaScript's Infinity or NaN); the optional
   * `isReprocessedFile` flag is `false` where the source leaves it out.
   */
  datatype ProcessingStatistics = ProcessingStatistics(
    totalDistance: real,
    estimatedTimeMinutes: Option<real>,
    totalCommands: nat,
    pausesInserted: PauseCounts,
    removedCommands: RemovedCounts,
    processingTime: real,
    pauseSeconds: real,
    estimatedTotalTime: Option<real>,
    isReprocessedFile: bool)

  /** `totalDistance / (feedRate * 0.5)`, the minutes at half the feed rate. */
  function MachiningMinutes(totalDistance: real, feedRate: real): Option<real> {
    if feedRate == 0.0 then None else Some(totalDistance / (feedRate * 0.5))
  }

  /**
   * The report for a run; `processingTime` is the elapsed time the caller
   * measured, and the cleaned content plays no part.
   */
  function StatisticsOf(distances: seq<Distance>, pausePositions: seq<Pause>, originalContent: string,
                        processingTime: real, material: MaterialConfig): ProcessingStatistics
  {
    var totalDistance := SumValues(distances);
    var originalLines := Split(originalContent);
    var g00 := RapidCount(originalLines);
    var g04 := DwellCount(originalLines);
    var minutes := MachiningMinutes(totalDistance, material.feedRate);
    var pauseSeconds := PauseSecondsRun(pausePositions, material);
    ProcessingStatistics(
      totalDistance, minutes, |distances| + 1, CountPauses(pausePositions, material),
      RemovedCounts(g00, g04, g00 + g04), processingTime, pauseSeconds,
      if minutes.Some? then Some(minutes.value * 60.0 + pauseSeconds) else None, false)
  }

  lemma SecondsStep(ps: seq<Pause>, i: nat, m: MaterialConfig)
    requires i < |ps|
    ensures PauseSecondsRun(ps[..i + 1], m) == PauseSecondsRun(ps[..i], m) + PauseSeconds(m, ps[i].tier)
  {
    assert ps[..i + 1][..i] == ps[..i];
  }

  /** `calculateStatistics`. */
  method CalculateStatistics(distances: seq<Distance>, pausePositions: seq<Pause>, originalContent: string,
                             cleanedContent: string, processingTime: real, material: MaterialConfig)
    returns (stats: ProcessingStatistics)
    ensures stats == StatisticsOf(distances, pausePositions, originalContent, processingTime, material)
  {
    var totalDistance := SumValues(distances);
    var pauseCounts := CountPausesByType(pausePositions, material);
    var originalLines := Split(originalContent);
    var removedG00 := RapidCount(originalLines);
    var removedG04 := DwellCount(originalLines);
    var minutes := MachiningMinutes(totalDistance, material.feedRate);
    var pauseSeconds := 0.0;
    for i := 0 to |pausePositions|
      invariant pauseSeconds == PauseSecondsRun(pausePositions[..i], material)
    {
      SecondsStep(pausePositions, i, material);
      var pauseValue := ReadPauseToken(material, pausePositions[i].tier);
      pauseSeconds := pauseSeconds + pauseValue.value;
    }
    assert pausePositions[..|pausePositions|] == pausePositions;
    stats := ProcessingStatistics(
      totalDistance, minutes, |distances| + 1, pauseCounts,
      RemovedCounts(removedG00, removedG04, removedG00 + removedG04), processingTime, pauseSeconds,
      if minutes.Some? then Some(minutes.value * 60.0 + pauseSeconds) else None, false);
  }

  /**
   * What the report promises: one command more than distances, every pause
   * counted once, removal counts bounded by the file, pause seconds weighted
   * by tier, and the total time the machining plus the pauses.
   */
  lemma ReportFacts(distances: seq<Distance>, pausePositions: seq<Pause>, originalContent: string,
                    processingTime: real, material: MaterialConfig)
    ensures var s := StatisticsOf(distances, pausePositions, originalContent, processingTime, material);
      && s.totalCommands == |distances| + 1
      && s.pausesInserted.total == |pausePositions|
      && s.removedCommands.total <= |Split(originalContent)|
      && s.pauseSeconds
         == TierCount(pausePositions, Short) as real * PauseSeconds(material, Short)
          + TierCount(pausePositions, Medium) as real * PauseSeconds(material, Medium)
          + TierCount(pausePositions, Long) as real * PauseSeconds(material, Long)
      && (s.estimatedTotalTime.Some? <==> material.feedRate != 0.0)
      && (material.feedRate != 0.0 ==>
            s.estimatedTotalTime.value == s.totalDistance / (material.feedRate * 0.5) * 60.0 + s.pauseSeconds)
  {
    CountsTotal(pausePositions, material);
    RemovedAtMostLines(Split(originalContent));
    PauseSecondsByTier(pausePositions, material);
  }

  /** Distances that are never negative add up to a total that is not negative. */
  lemma {:induction false} TotalDistanceNonNegative(ds: seq<Distance>)
    requires forall k :: 0 <= k < |ds| ==> ds[k].value >= 0.0
    ensures SumValues(ds) >= 0.0
  {
    if ds != [] {
      TotalDistanceNonNegative(ds[..|ds| - 1]);
    }
  }
}
