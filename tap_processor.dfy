// The whole pipeline of `TapProcessor.processFile`: recognise a file that was
// already processed, strip and sanitize it, scale it, measure its moves,
// classify the pauses, assemble the output and report on the run.

module TapProcessor {
  import opened Wrappers
  import opened Text
  import opened Materials
  import opened Detection
  import opened Stripping
  import opened Sanitizing
  import opened Geometry
  import opened Scaling
  import opened Classification
  import opened Assembly
  import opened Statistics
  import opened Filename

  /** `ScaleConfig`: the lengths only inform the user; the factor and the switch drive the scaling. */
  datatype ScaleConfig = ScaleConfig(currentLength: real, desiredLength: real, scaleFactor: real, applyScale: bool)

  /** `ProcessedResult` */
  datatype ProcessedResult = ProcessedResult(
    originalContent: string, processedContent: string, statistics: ProcessingStatistics, filename: string)

  /** The report given for a file that was already processed: everything zero, and the flag set. */
  const REPROCESSED_STATISTICS := ProcessingStatistics(
    0.0, Some(0.0), 0, PauseCounts(0, 0, 0, 0), RemovedCounts(0, 0, 0), 0.0, 0.0, Some(0.0), true)

  // ---------------------------------------------------------------- the stages

  /** Earlier output stripped, then rapid moves, dwells and feed words removed. */
  function CleanedOf(content: string): string {
    Join(Sanitize(Split(Join(StripLines(Split(content))))))
  }

  /** The cleaned content, scaled when a configuration asks for it. */
  function ScaledOf(cleaned: string, scaleConfig: Option<ScaleConfig>): string {
    if scaleConfig.Some? && scaleConfig.value.applyScale then Join(ScaledLines(Split(cleaned), scaleConfig.value.scaleFactor))
    else cleaned
  }

  /** One distance per pair of consecutive moves. */
  function DistancesOf(cmds: seq<G01Command>): seq<Distance> {
    seq(if |cmds| == 0 then 0 else |cmds| - 1, k requires 0 <= k < |cmds| - 1 => DistanceAt(cmds, k + 1))
  }

  /** What `calculateDistancesMaxVariation` promises pins its result down to `DistancesOf`. */
  lemma DistancesAre(cmds: seq<G01Command>, ds: seq<Distance>)
    requires |ds| == if |cmds| == 0 then 0 else |cmds| - 1
    requires forall k :: 0 <= k < |ds| ==> ds[k] == DistanceAt(cmds, k + 1)
    ensures ds == DistancesOf(cmds)
  {
  }

  /** The result `processFile` returns; the elapsed time, the date and NFD decomposition are the caller's. */
  function Processed(content: string, header: string, footer: string, originalFilename: string,
                     material: MaterialConfig, scaleConfig: Option<ScaleConfig>,
                     now: Date, nfd: string -> string, processingTime: real): ProcessedResult
  {
    var filename := SanitizedFilename(originalFilename, now, nfd);
    if AlreadyProcessed(Split(content)) then
      ProcessedResult(content, content, REPROCESSED_STATISTICS, filename)
    else
      var scaled := ScaledOf(CleanedOf(content), scaleConfig);
      var ds := DistancesOf(G01Commands(Split(scaled)));
      var ps := ProcessRun(ds, material).pausePositions;
      var body := RenderAll(AssembleRun(Split(scaled), ps).items, material);
      ProcessedResult(content, Join(Document(header, body, footer)),
                      StatisticsOf(ds, ps, content, processingTime, material), filename)
  }

  /**
   * `processFile`. The header and footer arrive already rendered from the
   * project's templates; the elapsed time is measured by the caller.
   */
  method ProcessFile(content: string, header: string, footer: string, originalFilename: string,
                     material: MaterialConfig, scaleConfig: Option<ScaleConfig>,
                     now: Date, nfd: string -> string, processingTime: real)
    returns (result: ProcessedResult)
    ensures result == Processed(content, header, footer, originalFilename, material, scaleConfig, now, nfd, processingTime)
  {
    var isAlreadyProcessed := IsFileAlreadyProcessed(content);
    var cleanOriginalContent := DetectAndCleanProcessedContent(content);
    var cleanedContent := CleanOriginalContent(cleanOriginalContent);
    if isAlreadyProcessed {
      result := ProcessedResult(content, content, REPROCESSED_STATISTICS, SanitizedFilename(originalFilename, now, nfd));
      return;
    }
    var scaledContent := cleanedContent;
    if scaleConfig.Some? && scaleConfig.value.applyScale {
      scaledContent := ApplyScaleToContent(cleanedContent, scaleConfig.value.scaleFactor);
    }
    var g01Commands := ParseG01Commands(scaledContent);
    var distances := CalculateDistancesMaxVariation(g01Commands);
    DistancesAre(g01Commands, distances);
    var pausePositions, accumulatorStats, accumulator := ProcessWithAccumulator(distances, material);
    var processedContent := BuildProcessedContent(scaledContent, pausePositions, header, footer, material);
    var statistics := CalculateStatistics(distances, pausePositions, content, cleanedContent, processingTime, material);
    var filename := SanitizedFilename(originalFilename, now, nfd);
    result := ProcessedResult(content, processedContent, statistics, filename);
  }

  // ---------------------------------------------------------------- properties

  /**
   * A file already processed comes back unchanged with an all-zero report;
   * the reprocessed flag is set exactly for such files, and the original
   * content and the sanitized name are returned either way.
   */
  lemma ReprocessedUnchanged(content: string, header: string, footer: string, originalFilename: string,
                             material: MaterialConfig, scaleConfig: Option<ScaleConfig>,
                             now: Date, nfd: string -> string, processingTime: real)
    ensures var r := Processed(content, header, footer, originalFilename, material, scaleConfig, now, nfd, processingTime);
      && r.originalContent == content
      && r.filename == SanitizedFilename(originalFilename, now, nfd)
      && (r.statistics.isReprocessedFile <==> AlreadyProcessed(Split(content)))
      && (AlreadyProcessed(Split(content)) ==>
            r.processedContent == content && r.statistics.totalCommands == 0 && r.statistics.pausesInserted.total == 0)
  {
  }

  /** Moves are in line order, so their distances end on strictly increasing lines. */
  lemma DistancesIncrease(lines: seq<string>)
    ensures var ds := DistancesOf(G01Commands(lines));
      forall j, k :: 0 <= j < k < |ds| ==> ds[j].to.line < ds[k].to.line
  {
    var cmds := G01Commands(lines);
    CommandsIncreasing(lines);
    DistanceKeysIncrease(cmds, DistancesOf(cmds));
  }

  /** A move line is never blank, so the assembly keeps it. */
  lemma MoveLineFilled(line: string)
    requires IsMoveLine(Normalized(line))
    ensures IsFilled(line)
  {
  }

  /** The pauses of a run, one per distance, keyed by the line each distance ends on. */
  lemma PausesOfMoves(lines: seq<string>, m: MaterialConfig)
    ensures var cmds := G01Commands(lines);
      var ps := ProcessRun(DistancesOf(cmds), m).pausePositions;
      && |ps| == |DistancesOf(cmds)|
      && (forall k :: 0 <= k < |ps| ==> ps[k] == Pause(cmds[k + 1].line, Classify(MaxVariation(cmds[k], cmds[k + 1]), m)))
      && (forall a, b :: 0 <= a < b < |ps| ==> ps[a].line < ps[b].line)
  {
    var ds := DistancesOf(G01Commands(lines));
    DistancesIncrease(lines);
    OnePausePerDistance(ds, m);
  }

  /** The dwell after move `k`, of the tier of the distance from move `k - 1`. */
  lemma DwellAtMove(lines: seq<string>, m: MaterialConfig, k: nat)
    requires 1 <= k < |G01Commands(lines)|
    ensures var cmds := G01Commands(lines);
      var ps := ProcessRun(DistancesOf(cmds), m).pausePositions;
      HasDwellItem(AssembleRun(lines, ps).items, cmds[k].line, Classify(MaxVariation(cmds[k - 1], cmds[k]), m))
  {
    var cmds := G01Commands(lines);
    var ps := ProcessRun(DistancesOf(cmds), m).pausePositions;
    PausesOfMoves(lines, m);
    assert ps[k - 1] == Pause(cmds[k].line, Classify(MaxVariation(cmds[k - 1], cmds[k]), m));
    LookupIncreasing(ps, k - 1);
    CommandsFromMoveLines(lines);
    MoveLineFilled(lines[cmds[k].line]);
    NothingMissing(lines, ps);
  }

  /** A key the pause list holds is the line of a move other than the first. */
  lemma PausedKeyIsMove(cmds: seq<G01Command>, ps: seq<Pause>, key: nat)
    requires |ps| < |cmds|
    requires forall k :: 0 <= k < |ps| ==> ps[k].line == cmds[k + 1].line
    requires Lookup(ps, key).Some?
    ensures exists k :: 1 <= k < |cmds| && cmds[k].line == key
  {
    LookupFinds(ps, key);
    var j :| 0 <= j < |ps| && ps[j].line == key;
    assert cmds[j + 1].line == key;
  }

  /** The pause after distance `k` sits on the line of move `k + 1`. */
  lemma PauseLines(lines: seq<string>, m: MaterialConfig)
    ensures var cmds := G01Commands(lines);
      var ps := ProcessRun(DistancesOf(cmds), m).pausePositions;
      |ps| < |cmds| || ps == []
    ensures var cmds := G01Commands(lines);
      var ps := ProcessRun(DistancesOf(cmds), m).pausePositions;
      forall k :: 0 <= k < |ps| ==> ps[k].line == cmds[k + 1].line
  {
    var cmds := G01Commands(lines);
    var ps := ProcessRun(DistancesOf(cmds), m).pausePositions;
    PausesOfMoves(lines, m);
    LinesOfPauses(cmds, ps, m);
  }

  lemma LinesOfPauses(cmds: seq<G01Command>, ps: seq<Pause>, m: MaterialConfig)
    requires |ps| == |DistancesOf(cmds)|
    requires forall k :: 0 <= k < |ps| ==> ps[k] == Pause(cmds[k + 1].line, Classify(MaxVariation(cmds[k], cmds[k + 1]), m))
    ensures |ps| < |cmds| || ps == []
    ensures forall k :: 0 <= k < |ps| ==> ps[k].line == cmds[k + 1].line
  {
  }

  /** A dwell placed from a pause list whose keys are move lines sits on a move line. */
  lemma DwellOnPausedMove(lines: seq<string>, cmds: seq<G01Command>, ps: seq<Pause>, i: nat)
    requires |ps| < |cmds| || ps == []
    requires forall k :: 0 <= k < |ps| ==> ps[k].line == cmds[k + 1].line
    requires i < |AssembleRun(lines, ps).items| && AssembleRun(lines, ps).items[i].Dwell?
    ensures exists k :: 1 <= k < |cmds| && cmds[k].line == AssembleRun(lines, ps).items[i].index
  {
    var key := AssembleRun(lines, ps).items[i].index;
    DwellFollowsLine(lines, ps);
    assert Lookup(ps, key).Some?;
    if ps == [] {
      assert false;
    }
    PausedKeyIsMove(cmds, ps, key);
  }

  /** A dwell in the output sits on the line of a move other than the first. */
  lemma DwellOnMove(lines: seq<string>, m: MaterialConfig, i: nat)
    requires var ps := ProcessRun(DistancesOf(G01Commands(lines)), m).pausePositions;
      var items := AssembleRun(lines, ps).items;
      i < |items| && items[i].Dwell?
    ensures var cmds := G01Commands(lines);
      var ps := ProcessRun(DistancesOf(cmds), m).pausePositions;
      exists k :: 1 <= k < |cmds| && cmds[k].line == AssembleRun(lines, ps).items[i].index
  {
    PauseLines(lines, m);
    DwellOnPausedMove(lines, G01Commands(lines), ProcessRun(DistancesOf(G01Commands(lines)), m).pausePositions, i);
  }

  /**
   * Every move after the first is followed in the output by a dwell of the
   * tier of the distance travelled to reach it, and there is no other dwell.
   */
  lemma DwellAfterEveryMove(lines: seq<string>, m: MaterialConfig)
    ensures var cmds := G01Commands(lines);
      var ps := ProcessRun(DistancesOf(cmds), m).pausePositions;
      var items := AssembleRun(lines, ps).items;
      && (forall k :: 1 <= k < |cmds| ==> HasDwellItem(items, cmds[k].line, Classify(MaxVariation(cmds[k - 1], cmds[k]), m)))
      && (forall i :: 0 <= i < |items| && items[i].Dwell? ==>
            exists k :: 1 <= k < |cmds| && cmds[k].line == items[i].index)
  {
    var cmds := G01Commands(lines);
    var items := AssembleRun(lines, ProcessRun(DistancesOf(cmds), m).pausePositions).items;
    forall k | 1 <= k < |cmds|
      ensures HasDwellItem(items, cmds[k].line, Classify(MaxVariation(cmds[k - 1], cmds[k]), m))
    {
      DwellAtMove(lines, m, k);
    }
    forall i | 0 <= i < |items| && items[i].Dwell?
      ensures exists k :: 1 <= k < |cmds| && cmds[k].line == items[i].index
    {
      DwellOnMove(lines, m, i);
    }
  }

  /** With keys in increasing order, the pauses of each tier number as many as the accumulator counted. */
  lemma {:induction false} PauseTiersMatchAccumulator(ds: seq<Distance>, m: MaterialConfig)
    requires forall j, k :: 0 <= j < k < |ds| ==> ds[j].to.line < ds[k].to.line
    ensures var c := ProcessRun(ds, m);
      && TierCount(c.pausePositions, Short) == c.stats.shortAccumulator
      && TierCount(c.pausePositions, Medium) == c.stats.mediumAccumulator
      && TierCount(c.pausePositions, Long) == c.stats.longAccumulator
  {
    if ds != [] {
      var n := |ds| - 1;
      var init := ds[..n];
      PauseTiersMatchAccumulator(init, m);
      OnePausePerDistance(init, m);
      var prev := ProcessRun(init, m).pausePositions;
      var t := Classify(ds[n].value, m);
      MapSetNew(prev, ds[n].to.line, t);
      var ps := prev + [Pause(ds[n].to.line, t)];
      assert ps[..|ps| - 1] == prev;
    }
  }

  /**
   * A fresh file: the output is the header, a blank line, the assembled body,
   * a blank line and the footer, the body keeping every filled line in order;
   * the report counts one command more than distances and one pause per
   * distance, tier by tier as the accumulator counted when the tiers' tempos
   * are told apart.
   */
  lemma FreshFileResult(content: string, header: string, footer: string, originalFilename: string,
                        material: MaterialConfig, scaleConfig: Option<ScaleConfig>,
                        now: Date, nfd: string -> string, processingTime: real)
    requires !AlreadyProcessed(Split(content))
    ensures var r := Processed(content, header, footer, originalFilename, material, scaleConfig, now, nfd, processingTime);
      var lines := Split(ScaledOf(CleanedOf(content), scaleConfig));
      var ds := DistancesOf(G01Commands(lines));
      var c := ProcessRun(ds, material);
      var items := AssembleRun(lines, c.pausePositions).items;
      && Split(r.processedContent) == Document(header, RenderAll(items, material), footer)
      && Covers(items, lines, c.pausePositions)
      && InInputOrder(items)
      && r.statistics.totalCommands == |ds| + 1
      && r.statistics.pausesInserted.total == |ds|
      && (DistinctTempos(material) ==>
            r.statistics.pausesInserted
            == PauseCounts(c.stats.shortAccumulator, c.stats.mediumAccumulator, c.stats.longAccumulator, |ds|))
  {
    var lines := Split(ScaledOf(CleanedOf(content), scaleConfig));
    var ds := DistancesOf(G01Commands(lines));
    var c := ProcessRun(ds, material);
    DocumentSplits(ScaledOf(CleanedOf(content), scaleConfig), c.pausePositions, header, footer, material);
    NothingMissing(lines, c.pausePositions);
    ItemsInOrder(lines, c.pausePositions);
    ReportFacts(ds, c.pausePositions, content, processingTime, material);
    DistancesIncrease(lines);
    OnePausePerDistance(ds, material);
    if DistinctTempos(material) {
      CountsByTier(c.pausePositions, material);
      PauseTiersMatchAccumulator(ds, material);
    }
  }

  /** `calculateTotalDistance`: the content's moves parsed again and their distances added up. */
  function CalculateTotalDistance(content: string): real {
    SumValues(DistancesOf(G01Commands(Split(content))))
  }

  /** The distances between consecutive moves add up to a total that is never negative. */
  lemma DistanceSumNonNegative(cmds: seq<G01Command>)
    ensures SumValues(DistancesOf(cmds)) >= 0.0
  {
    var ds := DistancesOf(cmds);
    forall k | 0 <= k < |ds|
      ensures ds[k].value >= 0.0
    {
      MaxVariationFacts(cmds[k], cmds[k + 1], 0.0, 0.0);
    }
    TotalDistanceNonNegative(ds);
  }

  /**
   * For a fresh file the total distance the footer template is given is the
   * one the report gives, and it is never negative.
   */
  lemma FooterDistanceIsReported(content: string, header: string, footer: string, originalFilename: string,
                                 material: MaterialConfig, scaleConfig: Option<ScaleConfig>,
                                 now: Date, nfd: string -> string, processingTime: real)
    requires !AlreadyProcessed(Split(content))
    ensures var r := Processed(content, header, footer, originalFilename, material, scaleConfig, now, nfd, processingTime);
      && r.statistics.totalDistance == CalculateTotalDistance(ScaledOf(CleanedOf(content), scaleConfig))
      && r.statistics.totalDistance >= 0.0
  {
    DistanceSumNonNegative(G01Commands(Split(ScaledOf(CleanedOf(content), scaleConfig))));
  }
}
