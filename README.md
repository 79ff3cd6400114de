# TapProcessor pipeline in Dafny

This project models the G-code rewriter of Processador.tap. `TapProcessor`
takes the text of a CNC hot-wire cutting program for EPS foam and rewrites it in
fixed stages:

1. It recognises a file that the pipeline already processed, and returns such a
   file unchanged.
2. It strips the header and footer scaffolding left by an earlier run.
3. It sanitizes the program: rapid moves (`G00`) and dwells (`G04`) go, feed
   words (`F<n>`) are removed, and whitespace is collapsed.
4. It optionally rescales the program. Each linear move is moved `factor` times
   the way from the previous, already scaled, position to its target.
5. It extracts the linear moves (`G01`/`G1`). An axis a move omits carries its
   previous value.
6. It measures each move as `max(|Δx|, |Δy|)` and classifies it into the short,
   medium or long pause tier of the chosen material.
7. It assembles the output. Lines are numbered `N1`, `N2`, … and a `G04 P<t>`
   dwell follows every move after the first.
8. It reports statistics and builds the output file name
   (`base_DD_MM_YY.tap`).

The material profiles of `materials.ts` are modelled too: the built-in T1 and T2
profiles, the merge that keeps both in the stored list, and lookup by id.

The project has one module per stage:

- `Detection`
- `Stripping`
- `Sanitizing`
- `Geometry`
- `Scaling`
- `Classification`
- `Assembly`
- `Statistics`
- `Filename`
- `Materials`
- `TapProcessor` (the orchestration)

They rest on three shared modules: `Text` (the JavaScript string primitives),
`Numbers` (the coordinate pattern, `parseFloat` and `toFixed`) and `Wrappers`.

The source's loops are methods:

- `isFileAlreadyProcessed`
- `detectAndCleanProcessedContent`
- `cleanOriginalContent`
- `parseG01Commands`
- `applyScaleToContent`
- `calculateDistancesMaxVariation`
- `processWithAccumulator`
- `buildProcessedContent`
- `countPausesByType`
- `calculateStatistics`
- `processFile`

Each of these methods has its loop invariants and is proved equal to a
function. The properties are proved as lemmas about those functions. Text is
`string` and is split and joined on `'\n'` exactly as JavaScript does.
Coordinates, distances and times are exact `real`s. The pause map is a sequence
of `(line, tier)` entries with `Map.set` semantics.

## Model

| member | source | states |
|---|---|---|
| Detection.IsFileAlreadyProcessed | tap-processor/app/lib/tap-processor.ts:656-691 | The loop's verdict is the whole-file predicate. Some trimmed, lower-cased line holds `=== inicio do corte ===` and some line holds `=== estatisticas ===`. At least one line starts with `g04`/`g4 `. The numbers of move lines and dwell lines differ by at most one. |
| Stripping.DetectAndCleanProcessedContent | tap-processor/app/lib/tap-processor.ts:77-182 | The loop's result is the join of the lines the flag state machine keeps, after the trailing blank lines are popped. |
| Stripping.DropTrailingBlanks | tap-processor/app/lib/tap-processor.ts:176-179 | The popped list is a prefix of the kept lines and does not end with a blank line. |
| Stripping.StepCleaned | tap-processor/app/lib/tap-processor.ts:143-173 | One iteration leaves the kept lines alone or offers them the line without its label. Inside the footer it keeps nothing and stays in the footer. |
| Stripping.KeepPreserves | tap-processor/app/lib/tap-processor.ts:158-173 | The blank-line and `F600` dedupe appends at most the offered line. It keeps "no two blank lines in a row" and "at most one `F600`". |
| Stripping.RunInvariant | tap-processor/app/lib/tap-processor.ts:85-174 | After the loop, the kept lines are an order-preserving selection of the input lines, each without its leading label. No two are blank in a row, and at most one is `F600`. |
| Stripping.StrippedShape | tap-processor/app/lib/tap-processor.ts:153-181 | The stripper's lines have no adjacent blank lines and no trailing blank line, and at most one of them is `F600`. They are the unlabelled input lines, in order, with some left out. |
| Stripping.FooterStays | tap-processor/app/lib/tap-processor.ts:133-145 | Once a footer line has been seen, the loop stays in the footer. |
| Stripping.FooterIsFinal | tap-processor/app/lib/tap-processor.ts:147-150 | Once a footer line has been seen, no later line is kept. |
| Stripping.OneLabelRemoved | tap-processor/app/lib/tap-processor.ts:156 | Only one leading label goes: `N1 N2 X5` becomes `N2 X5`. |
| Stripping.BareLabelKept | tap-processor/app/lib/tap-processor.ts:156 | A label not followed by whitespace stays: `N5` is kept. |
| Sanitizing.CleanOriginalContent | tap-processor/app/lib/tap-processor.ts:184-225 | The loop's result is the join of the kept lines, in input order, each cleaned. |
| Sanitizing.SanitizedLineShape | tap-processor/app/lib/tap-processor.ts:188-221 | A kept line came from a line that was neither a rapid move nor a dwell. It is non-empty, trimmed, single-spaced and not a bare `N<digits>` label. |
| Sanitizing.SanitizedShape | tap-processor/app/lib/tap-processor.ts:184-224 | Every kept line has that shape, and there are no more kept lines than input lines. |
| Sanitizing.RapidAndDwellDropped | tap-processor/app/lib/tap-processor.ts:191-199 | A line starting (trimmed, upper-cased) with `G00`, `G0 `, `G04` or `G4 ` adds nothing to the result. |
| Sanitizing.RemoveFeedLeavesNoFeed | tap-processor/app/lib/tap-processor.ts:207 | After the global feed-word replacement, no `F`/`f` is followed by a digit. |
| Sanitizing.RemoveFeedWithout | tap-processor/app/lib/tap-processor.ts:207 | Text holding no feed word comes out of the replacement unchanged. |
| Sanitizing.SanitizedNoFeed | tap-processor/app/lib/tap-processor.ts:203-218 | A kept line holds no feed word. |
| Sanitizing.SanitizeLineAgain | tap-processor/app/lib/tap-processor.ts:188-221 | Cleaning a kept line again changes nothing, unless the first pass exposed a rapid move or a dwell. |
| Sanitizing.RapidBehindFeedKept | tap-processor/app/lib/tap-processor.ts:189-218 | `F5 G00 X1` passes the rapid-move test and comes out as `G00 X1`. |
| Numbers.AxisFromFirst | tap-processor/app/lib/tap-processor.ts:243 | `match(/X(number)/)` finds the first axis letter followed by a number. An earlier letter is followed by none. |
| Numbers.AxisFromNone | tap-processor/app/lib/tap-processor.ts:243 | No match means that no axis letter in the line is followed by a number. |
| Numbers.ReadSignedDecimal | tap-processor/app/lib/tap-processor.ts:243-244 | An optional minus, digits, a point and digits are matched whole. They are read as their sign, whole part and fraction. |
| Numbers.FixedReadsBack | tap-processor/app/lib/tap-processor.ts:307 | `parseFloat(x.toFixed(d))` reads the whole text back and gives `x` rounded to `d` places. |
| Numbers.FixedCharacters | tap-processor/app/lib/tap-processor.ts:307 | `toFixed` writes only digits, a point and a minus. |
| Numbers.ReadsSignedFraction | tap-processor/app/lib/tap-processor.ts:243-244 | `X-.5` holds -0.5. |
| Numbers.TrailingPointNotRead | tap-processor/app/lib/tap-processor.ts:243-244 | `X12.` holds 12: a point with no digits after it is not read. |
| Numbers.FixedTenths | tap-processor/app/lib/tap-processor.ts:383 | `(0.3).toFixed(1)` is `0.3` and `(0).toFixed(1)` is `0.0`. |
| Numbers.FixedFourPlaces | tap-processor/app/lib/tap-processor.ts:307 | `(37.5).toFixed(4)` is `37.5000`. |
| Geometry.ParseG01Commands | tap-processor/app/lib/tap-processor.ts:227-268 | The loop's commands are those of the line-by-line parse, with the running position carried in `currentX/Y/Z`. |
| Geometry.ParsePosition | tap-processor/app/lib/tap-processor.ts:230-252 | The running position, axis by axis, is the value given on the last move line that gives one, or 0. |
| Geometry.CommandsFromMoveLines | tap-processor/app/lib/tap-processor.ts:237-262 | Every command comes from a line holding a whole-word `G01` or `G1`, and it keeps that line's text. |
| Geometry.CommandsIncreasing | tap-processor/app/lib/tap-processor.ts:234-262 | Command line indices strictly increase, so there is at most one command per line. |
| Geometry.CommandsComplete | tap-processor/app/lib/tap-processor.ts:237-263 | Every move line has its command. |
| Geometry.CommandsCarry | tap-processor/app/lib/tap-processor.ts:242-260 | Each command's X, Y and Z is the value given last on a move line up to and including its own, or 0. |
| Scaling.ApplyScaleToContent | tap-processor/app/lib/tap-processor.ts:280-335 | The map with its running scaled position gives the join of the rescaled lines. |
| Scaling.ScaleOneLine | tap-processor/app/lib/tap-processor.ts:287-333 | On a move line, the new position is the scaled point reached from the current one, and the X and Y it gives are rewritten. Any other line is returned as it was, and the position stays. |
| Scaling.ScaleAxis | tap-processor/app/lib/tap-processor.ts:298-323 | One axis moves `factor` times the way to its target. The coordinate is rewritten with four decimals only when the line gives that axis. |
| Scaling.ScaledLinesShape | tap-processor/app/lib/tap-processor.ts:287-334 | The rescale keeps the number of lines, and every line that is not a move line is unchanged. |
| Scaling.PositionStep | tap-processor/app/lib/tap-processor.ts:294-327 | The cascade: a move line starts from the previous already-scaled position, not from the previous target. |
| Scaling.ScaledKeeps | tap-processor/app/lib/tap-processor.ts:294-327 | A move line without X keeps the scaled X, and one without Y keeps the scaled Y. |
| Scaling.ZOnlyLineKept | tap-processor/app/lib/tap-processor.ts:297-323 | A move line giving neither X nor Y (a Z-only move) is left as it was. |
| Scaling.ScaledZKept | tap-processor/app/lib/tap-processor.ts:287-334 | On every output line, Z (and any axis other than X and Y) reads as it did on the input line: the two replacements never touch another axis. |
| Scaling.ScaledXRead | tap-processor/app/lib/tap-processor.ts:298-308 | A move line that starts with its `G01`/`G1` word, holds no line terminator and gives X comes out reading X as the scaled X rounded to four decimals. |
| Scaling.ScaledYRead | tap-processor/app/lib/tap-processor.ts:312-322 | The same for Y, read after X has been rewritten. |
| Scaling.ScaledLinesExample | tap-processor/app/lib/tap-processor.ts:280-335 | `G01 X10`, `G01 X30` at factor 1.5 become `G01 X15.0000`, `G01 X37.5000`. |
| Scaling.ReplaceNext | tap-processor/app/lib/tap-processor.ts:306-308 | The global replacement copies the text up to the first match, writes the text before the letter, the letter and the new number in place of the match, and goes on after the old number. |
| Scaling.ReplaceKeepsOther | tap-processor/app/lib/tap-processor.ts:306-308 | Rewriting one axis with number text leaves the reading of every other axis unchanged. |
| Scaling.AxisAfterFinds | tap-processor/app/lib/tap-processor.ts:306 | On a line with no terminator, the lazy `.*?` stops at the first axis letter followed by a number, so nothing before it reads as that axis. |
| Scaling.ReplaceReadsBack | tap-processor/app/lib/tap-processor.ts:306-308 | On a line that starts with its move word and has no terminator, the axis reads back, after the rewrite, as the written value rounded to four decimals. |
| Scaling.ReplaceKeepsStart | tap-processor/app/lib/tap-processor.ts:306-308 | The rewritten line still starts with its move word and still has no terminator, so the Y replacement sees the same line shape. |
| Scaling.ReplaceNoBreak | tap-processor/app/lib/tap-processor.ts:306-308 | The replacement adds no line terminator. |
| Scaling.TwoDigitRewrite | tap-processor/app/lib/tap-processor.ts:306-308 | On `G01 X` and two digits, the pattern matches the X and its digits and nothing else. |
| Scaling.NormalizedReads | tap-processor/app/lib/tap-processor.ts:288-298 | Matching an axis on the trimmed, upper-cased line finds the value the case-blind reading of the line itself finds. |
| Numbers.NumberEndAt | tap-processor/app/lib/tap-processor.ts:306 | The number pattern matched in place inside the replacement pattern ends where the number read from that position on its own ends. |
| Numbers.NumberLocal | tap-processor/app/lib/tap-processor.ts:243-244 | What follows a character no number can hold does not change the number read before it. |
| Numbers.UpperReads | tap-processor/app/lib/tap-processor.ts:288-298 | Matching `X(number)` on the upper-cased text reads the same value as the case-blind reading of the text. |
| Numbers.TrimReads | tap-processor/app/lib/tap-processor.ts:288-298 | Trimming does not change what any axis reads as. |
| Scaling.ReplaceWithoutMatch | tap-processor/app/lib/tap-processor.ts:306-308 | Text with no match of `(\bG0?1\b.*?)X(number)` is not changed by the replacement. |
| Scaling.FactorOneKeepsTargets | tap-processor/app/lib/tap-processor.ts:299-317 | With factor 1, the scaled position is always the last target given. |
| Scaling.TwoDigitMoveText | tap-processor/app/lib/tap-processor.ts:288-291 | `G01 X` followed by two digits is already normalized and is recognised as a line to rescale. |
| Scaling.TwoDigitX | tap-processor/app/lib/tap-processor.ts:298-300 | `G01 X` followed by two digits gives X as the value of those digits. |
| Scaling.CascadeExample | tap-processor/app/lib/tap-processor.ts:325-327 | Targets 10 and then 30 at factor 1.5 give X = 15 and then 37.5. |
| Classification.CalculateDistancesMaxVariation | tap-processor/app/lib/tap-processor.ts:337-358 | `n` commands give `max(n - 1, 0)` distances. The `k`-th runs from command `k` to command `k + 1`. |
| Classification.MaxVariationFacts | tap-processor/app/lib/tap-processor.ts:344-348 | The distance is the larger of `|Δx|` and `|Δy|`. It is never negative, and Z plays no part. |
| Classification.MaxVariationExample | tap-processor/app/lib/tap-processor.ts:344-348 | The distance from (0, 0) to (3, 4) is 4. |
| Classification.DistanceKeysIncrease | tap-processor/app/lib/tap-processor.ts:340-355 | Distances built from commands in line order end on strictly increasing lines. |
| Classification.ClassifyBands | tap-processor/app/lib/tap-processor.ts:381-397 | A distance is short below `short.maxDist` and medium from there up to `medium.maxDist`. Above that it is long; `long.minDist` is never consulted. |
| Classification.MapSetLookup | tap-processor/app/lib/tap-processor.ts:383 | After `set`, `get` of that key gives the new tier, and every other key is unaffected. |
| Classification.MapSetNew | tap-processor/app/lib/tap-processor.ts:383 | `set` of a new key appends one entry. |
| Classification.LookupFinds | tap-processor/app/lib/tap-processor.ts:507-508 | `has(k)` holds exactly when an entry holds `k`, and `get(k)` gives that entry's tier. |
| Classification.LookupIncreasing | tap-processor/app/lib/tap-processor.ts:507-508 | When keys are in increasing order, `get` of an entry's key gives that entry's tier. |
| Classification.ProcessWithAccumulator | tap-processor/app/lib/tap-processor.ts:360-401 | The loop's pause map, tier counters and accumulator are those of the classification run. |
| Classification.OnePausePerDistance | tap-processor/app/lib/tap-processor.ts:373-398 | Each distance sets exactly one pause, in order. It is keyed by the line the distance ends on and carries the distance's tier. |
| Classification.TierCountsTotal | tap-processor/app/lib/tap-processor.ts:384-395 | Every distance is counted in exactly one tier counter. |
| Classification.AccumulatorIsShortRun | tap-processor/app/lib/tap-processor.ts:371-396 | The accumulator is the sum of the final run of short distances. It grows on a short distance and restarts at 0 on a medium or long one. |
| Classification.DefaultTiers | tap-processor/app/lib/materials.ts:23-27 | With T1's tiers, 2 mm is short, 10 mm medium and 60 mm long. |
| Classification.TokenShortDefault | tap-processor/app/lib/materials.ts:24 | T1's short dwell is written `P0.0`. |
| Classification.TokenMediumDefault | tap-processor/app/lib/materials.ts:25 | T1's medium dwell is written `P0.3`. |
| Classification.TokenLongDefault | tap-processor/app/lib/materials.ts:26 | T1's long dwell is written `P0.5`. |
| Assembly.EmitLine | tap-processor/app/lib/tap-processor.ts:497-511 | One input line renders as its items. Nothing renders for a blank line. Otherwise the line comes out, labelled unless it is a comment, followed by its dwell. The counter moves past the labels used. |
| Assembly.BuildBody | tap-processor/app/lib/tap-processor.ts:496-512 | The loop's body lines are the rendering of the assembled items, with the labels counted from 1. |
| Assembly.BuildProcessedContent | tap-processor/app/lib/tap-processor.ts:480-517 | The result is the join of the header lines, `""`, the body, `""` and the footer lines. |
| Assembly.LineItemsShape | tap-processor/app/lib/tap-processor.ts:498-510 | A line gives no item when blank. Otherwise it gives itself, labelled unless a comment, and a second, labelled item (its dwell) exactly when the pause map has its index. The labels used run on from `next` with no gap. |
| Assembly.LabelsConsecutive | tap-processor/app/lib/tap-processor.ts:496-511 | The body's labels are N1, N2, … in order, with no gap. |
| Assembly.LinesKept | tap-processor/app/lib/tap-processor.ts:497-505 | Every line item is a non-blank input line. It is numbered exactly when it is not a comment. |
| Assembly.ItemsInOrder | tap-processor/app/lib/tap-processor.ts:497-512 | Items follow the input order, and a line's own item comes before its dwell. |
| Assembly.DwellFollowsLine | tap-processor/app/lib/tap-processor.ts:506-509 | Each dwell immediately follows the line it was set for and carries that line's tier. |
| Assembly.NothingMissing | tap-processor/app/lib/tap-processor.ts:497-511 | Every non-blank line has its item, and every non-blank line with a pause has its dwell. |
| Assembly.BodyHasNoNewlines | tap-processor/app/lib/tap-processor.ts:501-508 | No rendered body line breaks a line. |
| Assembly.DocumentLines | tap-processor/app/lib/tap-processor.ts:480-517 | The document splits back into exactly the header lines, `""`, the body, `""` and the footer lines. |
| Assembly.DocumentSplits | tap-processor/app/lib/tap-processor.ts:480-517 | The same holds for the body built from split content. |
| Statistics.CountPausesByType | tap-processor/app/lib/tap-processor.ts:526-550 | The loop's counters are those of visiting the pause tokens in insertion order. |
| Statistics.ReadPauseToken | tap-processor/app/lib/tap-processor.ts:536 | `parseFloat(token.replace('P', ''))` of a tier's token is that tier's tempo rounded to tenths. |
| Statistics.ReadTempo | tap-processor/app/lib/tap-processor.ts:539 | `parseFloat(tempo.toFixed(1))` is the tempo rounded to tenths. |
| Statistics.TierValueRounded | tap-processor/app/lib/tap-processor.ts:539-543 | A tier tempo compares as itself rounded to tenths. |
| Statistics.TokenValue | tap-processor/app/lib/tap-processor.ts:536 | A written token reads back as its tier's tempo rounded to tenths. |
| Statistics.CountedTier | tap-processor/app/lib/tap-processor.ts:539-545 | Every pause is counted in some tier, and in its own tier when the rounded tempos differ. |
| Statistics.CountsTotal | tap-processor/app/lib/tap-processor.ts:548 | `total = short + medium + long`, which is the number of pauses. |
| Statistics.CountsByTier | tap-processor/app/lib/tap-processor.ts:534-548 | When the rounded tempos differ, each counter is the number of pauses of its tier. |
| Statistics.SharedTempoCountsAsShort | tap-processor/app/lib/tap-processor.ts:539-542 | When the medium tempo rounds like the short one, medium pauses count as short and none as medium. |
| Statistics.RapidNotDwell | tap-processor/app/lib/tap-processor.ts:577-585 | No line counts both as a removed `G00` and as a removed `G04`. |
| Statistics.RemovedAtMostLines | tap-processor/app/lib/tap-processor.ts:575-585 | The removed `G00` and `G04` counts together never exceed the original file's lines. |
| Statistics.PauseSecondsByTier | tap-processor/app/lib/tap-processor.ts:596-601 | The pause seconds are the tier counts weighted by the tempos rounded to tenths. |
| Statistics.TotalDistanceNonNegative | tap-processor/app/lib/tap-processor.ts:569 | Distances that are never negative sum to a total that is not negative. |
| Statistics.CalculateStatistics | tap-processor/app/lib/tap-processor.ts:561-624 | The report is the statistics of the run; the removed commands are counted on the original content. |
| Statistics.ReportFacts | tap-processor/app/lib/tap-processor.ts:569-623 | `totalCommands` is the number of distances plus 1. Each pause is counted once. The removed counts are bounded by the file. The pause seconds are weighted by tier. The total time is the machining at half the feed rate plus the pauses. |
| Filename.FilterFacts | tap-processor/app/lib/tap-processor.ts:645 | A character-class deletion keeps only accepted characters, in their order. |
| Filename.FilterKeepsAccepted | tap-processor/app/lib/tap-processor.ts:645 | A deletion changes nothing when every character is accepted. |
| Filename.BlankRunsUnderscored | tap-processor/app/lib/tap-processor.ts:641-642 | After the collapse and `trim`, each blank left is a single space, never first or last, with non-blank characters on both sides. It alone becomes `_`, so every inner whitespace run ends as one underscore and no blank survives. |
| Filename.BlankRunExample | tap-processor/app/lib/tap-processor.ts:641-642 | `" a \t b "` becomes `a_b`. |
| Filename.LastDot | tap-processor/app/lib/tap-processor.ts:633 | It finds the last point of the name, or reports that there is none. |
| Filename.StripExtensionSpec | tap-processor/app/lib/tap-processor.ts:633 | `replace(/\.[^/.]+$/, '')` cuts a final extension where the name ends in one, and otherwise changes nothing. |
| Filename.BaseNameSafe | tap-processor/app/lib/tap-processor.ts:633-645 | The base name holds only letters, digits, `_` and `-`. |
| Filename.BaseNameHasNoBlanks | tap-processor/app/lib/tap-processor.ts:642-645 | The base name holds no whitespace. |
| Filename.TwoDigitsValue | tap-processor/app/lib/tap-processor.ts:628-629 | `padStart(2, '0')` writes a number below 100 as two digits that read back as that number. |
| Filename.YearDigits | tap-processor/app/lib/tap-processor.ts:630 | `String(year).slice(-2)` is two digits worth `year % 100`, from the year 10 on. |
| Filename.DateStampValues | tap-processor/app/lib/tap-processor.ts:627-647 | For a real date, the stamp `_DD_MM_YY` is nine characters. Its digit pairs read as the day, the month counted from 1, and the year modulo 100. |
| Filename.FilenameShape | tap-processor/app/lib/tap-processor.ts:626-647 | The name is the base name, the stamp and `.tap`, whatever the input extension. Everything before `.tap` is a letter, digit, `_` or `-`. |
| Filename.StampSafe | tap-processor/app/lib/tap-processor.ts:647 | Every stamp character is an underscore or a digit. |
| Filename.LastExtensionOnly | tap-processor/app/lib/tap-processor.ts:633 | Only the last extension goes: `corte.v2.tap` becomes `corte.v2`. |
| Filename.FolderPointKept | tap-processor/app/lib/tap-processor.ts:633 | A point before a `/` starts no extension. |
| Filename.TrailingPointKept | tap-processor/app/lib/tap-processor.ts:633 | A trailing point is not an extension and is kept. |
| Filename.StampExample | tap-processor/app/lib/tap-processor.ts:627-630 | 1 May 2024 (month 4 on the clock) is stamped `_01_05_24`. |
| Materials.WithoutId | tap-processor/app/lib/materials.ts:64 | The filter drops exactly the entries with that id and keeps the others. It changes nothing when the id is absent. |
| Materials.GetMaterials | tap-processor/app/lib/materials.ts:47-67 | T1 and T2 are always present. No storage gives exactly `[T1, T2]`. A stored list holding both ids comes back unchanged. Without T2, the result is the defaults followed by the stored entries other than T1. Without T1 only, T1 is put in front. |
| Materials.FirstWithId | tap-processor/app/lib/materials.ts:77 | `find` stops at the first entry with the id, or passes the whole list. |
| Materials.GetMaterialById | tap-processor/app/lib/materials.ts:75-78 | The result is the first listed material with that id, or T1 when none has it. |
| Materials.BuiltInIdsFound | tap-processor/app/lib/materials.ts:58-78 | Looking up `T1` or `T2` always finds a material with that id. |
| TapProcessor.ProcessFile | tap-processor/app/lib/tap-processor.ts:12-75 | The orchestration returns the pipeline's result for the file. |
| TapProcessor.ReprocessedUnchanged | tap-processor/app/lib/tap-processor.ts:26-43 | An already-processed file comes back unchanged with an all-zero report. The reprocessed flag is set exactly for such files. The original content and the sanitized name are always returned. |
| TapProcessor.FreshFileResult | tap-processor/app/lib/tap-processor.ts:45-74 | For any other file, the output splits into header, `""`, the assembled body, `""`, footer. The body keeps every non-blank line in order and has a dwell for every pause. The report counts the distances plus 1 as commands and one pause per distance. With distinct tempos, the tiers agree with the accumulator's counters. |
| TapProcessor.DistancesAre | tap-processor/app/lib/tap-processor.ts:337-358 | Whatever meets the distance loop's contract is the distance list. |
| TapProcessor.DistancesIncrease | tap-processor/app/lib/tap-processor.ts:52-55 | The distances of the parsed moves end on strictly increasing lines. |
| TapProcessor.MoveLineFilled | tap-processor/app/lib/tap-processor.ts:498 | A move line is never blank, so the assembly keeps it. |
| TapProcessor.PausesOfMoves | tap-processor/app/lib/tap-processor.ts:52-58 | There is one pause per distance, set on the line of the later move with the tier of the distance, with keys increasing. |
| TapProcessor.PausedKeyIsMove | tap-processor/app/lib/tap-processor.ts:373-383 | Every key the pause map holds is the line of a move other than the first. |
| TapProcessor.DwellAtMove | tap-processor/app/lib/tap-processor.ts:506-509 | Move `k` (after the first) is followed by a dwell of the tier of the distance from move `k - 1`. |
| TapProcessor.DwellOnMove | tap-processor/app/lib/tap-processor.ts:506-509 | Every dwell in the output sits on the line of a move other than the first. |
| TapProcessor.DwellAfterEveryMove | tap-processor/app/lib/tap-processor.ts:52-61 | Every move after the first gets a dwell of its tier, and there is no other dwell. |
| TapProcessor.PauseTiersMatchAccumulator | tap-processor/app/lib/tap-processor.ts:381-397 | With keys in increasing order, the pauses of each tier number as many as that tier's counter. |
| TapProcessor.DistanceSumNonNegative | tap-processor/app/lib/tap-processor.ts:520-524 | The summed distance of any list of moves is never negative. |
| TapProcessor.FooterDistanceIsReported | tap-processor/app/lib/tap-processor.ts:414 | The total distance recomputed for the footer template equals the report's, and it is not negative. |
| Text.TrimFacts | tap-processor/app/lib/tap-processor.ts:87 | `trim()` leaves a slice of the text that neither starts nor ends with whitespace, and it is empty exactly when the text is all whitespace. |
| Text.SplitJoin | tap-processor/app/lib/tap-processor.ts:181 | Splitting what was joined gives back lines that hold no newline. |
| Text.JoinSplit | tap-processor/app/lib/tap-processor.ts:78 | Joining what was split gives the text back. |
| Text.CollapseFacts | tap-processor/app/lib/tap-processor.ts:218 | `replace(/\s+/g, ' ')` leaves single spaces only, never two whitespace characters in a row. It empties nothing but the empty text. |
| Text.TrimCollapse | tap-processor/app/lib/tap-processor.ts:218 | The collapse and `trim()` commute. |

## Left out

- **I/O:** `console.log` (lines 421-425 and 452-457) and `saveMaterials` (`localStorage` write) are left out.
- **Storage read:** `getMaterials` takes what `localStorage` held as an input value (`Storage`). That value is the absence of `window`, an unreadable entry, or the list that `JSON.parse` gave. `saveMaterials` only ever writes an array, so a stored value that parses to something else (`null`, say, on which `mats.some` would throw at materials.ts:58) is not modelled.
- **Clock:** `performance.now()` is left out. `ProcessFile` takes the elapsed time as a parameter.
- **Date:** `new Date()` is a `Date` parameter.
- **Accents:** `normalize('NFD')` is a function parameter `nfd`. Only the removal of the combining marks that follows it is modelled.
- **Header and footer templates:** header and footer reach `BuildProcessedContent` already rendered. This leaves out the template placeholders, the date text, the minute/second rounding with `floor`/`round`/`ceil`, the scale note and the footer regex rewrite (lines 413-479). Only `calculateTotalDistance`, which fills `{TOTAL_DISTANCE}`, is modelled.
- **Dead code:** `applyScale` (lines 270-278), `calculateEstimatedTime` (lines 552-559) and the unused `originalToCleanedLineMap` (lines 483-493) have no effect on any result. `ProcessWithAccumulator` returns the accumulator statistics that `processFile` discards.
- **Floating point:**
  - Coordinates, distances, tempos and times are exact reals, so there is no IEEE rounding.
  - `toFixed` is exact decimal rounding of the real, halves away from zero.
  - `parseFloat` is modelled only on text made of a sign, digits and a point (no exponent, `Infinity` or leading whitespace), which is all the pipeline gives it.
- **Zero feed rate:** `estimatedTimeMinutes` and `estimatedTotalTime` are `None` when the material's feed rate is 0, where JavaScript would produce `Infinity` or `NaN`.
- **Letter case:** `toUpperCase`/`toLowerCase` map ASCII letters only. The pipeline compares only ASCII keywords.
- **Reprocessed flag:** `isReprocessedFile` is absent from a fresh file's report in the source. The model writes it as `false`.
- **Pause map:** the `Map<number, string>` is a sequence of entries in insertion order. Each entry holds a tier, and the tier's `P<t>` token is computed where the source reads it back.
- Scaling.ScaledXRead: proved only for a line that starts with its `G01`/`G1` word and holds no line terminator (`\r` included). Elsewhere the replacement can rewrite a different `X` from the one read as the target, or stop at a terminator.
- Scaling.ScaledYRead: proved under the same two assumptions as `Scaling.ScaledXRead`.
- **Batch processing:** `processMultipleFiles` (lines 651-653) only maps `processFile` over the files. It is not part of this model; `ProcessFile` is the per-file operation.
- **Out of scope:** the UI components, the page, the Python test script and `default-config.ts` are not part of this model.

## Where the code departs from its description

The model follows the code in each of these cases:

- **Sanitizer and rapid moves:** the sanitizer tests for a rapid move or dwell on the original line, before the feed words are removed. So `F5 G00 X1` is kept as `G00 X1`, and a kept line can start with `G00` (`Sanitizing.RapidBehindFeedKept`). `Sanitizing.SanitizedLineShape` states what holds instead: the original line was neither.
- **Label removal:** the stripper removes one leading label, and only when whitespace follows it. `N1 N2 X5` keeps `N2 X5` and `N5` is kept (`Stripping.OneLabelRemoved`, `Stripping.BareLabelKept`). "No kept line starts with a label" is therefore not claimed.
- **Target and rewrite can differ:** the rescale takes the target from the first `X<number>` anywhere in the trimmed line (line 298). It rewrites the first `X<number>` after a `G01`/`G1` word (line 306). On `X5 G01 X10` the target is 5, but `X10` is the number rewritten. `Scaling.ScaledXRead` therefore assumes the line starts with its move word.
- **The cascade:** the rescale moves each target relative to the previous scaled position. So targets 10 and 30 at factor 1.5 give 15 and then 37.5, not 45 (`Scaling.CascadeExample`).
- **File extension:** the output name always ends in `.tap`, whatever the input's extension was.
- **Long tier:** the long tier's `minDist` is never read. Every distance from `medium.maxDist` upward is long.
- **No round trip:** the pipeline's own output is not detected as already processed. Its moves and dwells start with `N<k> `, and the detector counts only lines that start with `G01`/`G04`. No round-trip property is claimed.
