# xlat_evtool data side, in Dafny

This project models the data side of the `xlat_evtool` window, the desktop
companion of the XLAT latency tester. The parts modelled are:

- the chunk parser that turns one serial read into a report `xlatData`
  (report number, latency, device average, device standard deviation);
- the ordered store `allData` and the last parsed report `myData`;
- the recompute `dataInterpolation`. After every stored report it sorts the
  latencies and derives min, max, mean, median, p5, p10, p90, p95, IQR, MAD
  and standard deviation. Nine of these go into integer members. The median
  and the MAD reach only the line edits, because the members of those names
  are shadowed by locals;
- the warm-up gate of `updatePercentileData`. It hides p90, p95 and the IQR
  behind the call counter `_counterCall`;
- the reset `clearData`;
- the CSV export and import;
- the sixteen-bar latency histogram.

Modules, in dependency order:

- `Wrappers`: `Option` and `Result`.
- `Text`: the string primitives the tool relies on.
  - `QString::split` on one separator, with empty parts kept.
  - `QString::toInt`: surrounding ASCII white space, an optional sign, decimal
    digits, and a 32-bit range check. It has a checked form and a form that
    yields 0 on failure.
  - `QString::number` for ints.
- `Records`: the `xlatData` struct and its latency column.
- `Statistics`: the value-level meaning of one recompute, `Summarize`.
  - An insertion sort.
  - The rounded percentile index. `std::round(f * n)` is modelled exactly as
    an integer index.
  - C++ truncating division for the mean and the even-length median.
  - Floor division for the MAD.
  - An integer square root for the standard deviation.
  - The lemmas that order and bound the resulting `Snapshot`.
- `Histogram`: the bar boundaries `minLatency + i * step` and the first-match
  binning of each latency.
- `Csv`: the exported file as a sequence of lines, and the import as a fold
  over its lines that yields either the imported reports or the first error.
- `Evtool`: the window's state as the class `XlatEvtool`.
  - Fields: the store, `myData`, the eleven summary ints, the counter, and the
    contents of the eleven summary line edits.
  - Methods: one per source slot, with loops where the source loops. Each
    recompute method is proved against `Summarize`. The gate is proved
    against `Display`. The import is proved against `ImportLines`.

`XlatEvtool` keeps two class invariants.

- `Valid()` says four things:
  - the counter equals the number of stored reports;
  - every stored field fits an int;
  - once a reset has happened, `medianLatency` and `madValue` stay 0, since
    no recompute writes them;
  - after a reset, an empty store has every summary member at 0 and every
    line edit blank.
- `Summarized()` says that, once the store is non-empty, the summary members
  and the line edits are those of the last recompute over the whole store.

Behaviour of the code that this model follows:

- The parser keeps no partial record between reads. A read that splits on
  `;` into fewer than four fields is dropped.
- Percentile indices are not clamped. For small stores the rounded index of
  p90, p95 or the third quartile is one past the end of the sorted
  latencies.
  - In `Snapshot` such a percentile is `None`.
  - The method that performs the read (`ReadAt`) may return any int.
  - The warm-up gate hides every such value from the line edits
    (`GateHidesOutOfRange`).
- Export writes no free-form header line. Import always drops the first line,
  which is therefore the "Minimum Latency" summary line. The other summary
  lines and the blank line hold no comma and are skipped.
- The gate is evaluated before the counter is incremented. The recompute for
  the k-th report sees the counter at k - 1. p90 therefore appears from 9
  reports on, p95 from 11 and the IQR from 5.
- `importCsv` clears the store before it opens the file. A file that cannot
  be opened leaves the store empty.
- `dataInterpolation` writes the median and the MAD into locals that shadow
  the members `medianLatency` and `madValue`. Those two members change only
  through `clearData`, which sets them to 0. The values are still shown in
  the line edits, because they are passed as arguments to
  `updatePercentileData`.
- During import, each row's device standard deviation is stored into the
  `stdev` member and then overwritten by the recompute that follows.

## Model

| member | source | states |
|---|---|---|
| Text.Split | xlat_evtool.cpp:314 | the parts between separators; always at least one part, none holding the separator |
| Text.JoinSplit | xlat_evtool.cpp:314 | splitting loses no character: joining the parts with the separator gives the input back |
| Text.SplitLength | xlat_evtool.cpp:316 | the number of parts is the number of separators plus one |
| Text.SplitJoin | xlat_evtool.cpp:435 | parts without the separator, joined and split again, come back unchanged |
| Text.ToIntChecked | xlat_evtool.cpp:444-446 | the checked conversion succeeds only with a value inside the 32-bit int range |
| Text.TrimStartKeeps | xlat_evtool.cpp:445 | trimming leading white space keeps only characters of the input and removes only white space |
| Text.TrimEndKeeps | xlat_evtool.cpp:445 | trimming trailing white space keeps only characters of the input and removes only white space |
| Text.ParseSignedAccepts | xlat_evtool.cpp:445 | an accepted number is made of digits and signs and ends in a digit |
| Text.ToIntCheckedRefuses | xlat_evtool.cpp:444-446 | the checked conversion refuses text holding a character other than white space, a digit or a sign, and text holding no digit (empty, blank or a bare sign) |
| Text.ToInt | xlat_evtool.cpp:318-321 | the unchecked conversion is the checked result when there is one and 0 otherwise, always inside the int range |
| Text.FormatInt | xlat_evtool.cpp:408 | the printed int is non-empty, digits with an optional leading minus, and holds neither ',' nor ';' |
| Text.FormatIntRoundTrip | xlat_evtool.cpp:458-461 | every int printed and read back with the checked conversion is the same int |
| Text.FormatIntZero | xlat_evtool.cpp:401 | 0 is printed as "0" |
| Records.Latencies | xlat_evtool.cpp:490-493 | the latency column has one entry per report, in store order |
| Statistics.SortAscending | xlat_evtool.cpp:494 | sorting keeps the length |
| Statistics.SortAscendingSorts | xlat_evtool.cpp:494 | the sorted latencies are ascending and a permutation of the input |
| Statistics.SortedEnds | xlat_evtool.cpp:524-525 | the first sorted element is a stored latency no larger than any other, the last one a stored latency no smaller than any other |
| Statistics.Insert | xlat_evtool.cpp:494 | inserting one element lengthens the run by one |
| Statistics.Digest | xlat_evtool.cpp:510-538 | the snapshot of a sorted run and its sums: min <= median <= max, min <= reference <= max, p5 and p10 always defined |
| Statistics.Summarize | xlat_evtool.cpp:488-538 | the snapshot of the stored latencies: min <= median <= max, p5 and p10 always defined |
| Statistics.TruncDiv | xlat_evtool.cpp:510 | the quotient is the sum divided by the count, rounded toward zero, for both signs |
| Statistics.PercentileIndex | xlat_evtool.cpp:512-523 | the index is k% of n rounded to nearest, halves up |
| Statistics.PercentileIndexMonotone | xlat_evtool.cpp:512-517 | a larger fraction never yields a smaller index |
| Statistics.FloorDiv | xlat_evtool.cpp:535 | the MAD is the absolute-deviation sum divided by the count, rounded down |
| Statistics.RootMeanSquare | xlat_evtool.cpp:538 | the stdev is the largest s with s*s*n not above the squared-deviation sum |
| Statistics.IntSqrt | xlat_evtool.cpp:538 | the integer square root: s*s <= q < (s+1)*(s+1) |
| Statistics.Median | xlat_evtool.cpp:528-532 | odd length: the middle element; even length: between the two middle elements |
| Statistics.At | xlat_evtool.cpp:519-523 | an index read is defined exactly when the index is inside the sorted run, and then is that element |
| Statistics.IndexRanges | xlat_evtool.cpp:512-523 | p5, p10 and Q1 are always in range; Q3 exactly from 3 samples, p90 from 6, p95 from 11 |
| Statistics.IndexOrder | xlat_evtool.cpp:512-517 | p5 <= p10 <= middle <= p90 <= p95 and Q1 <= Q3 as indices |
| Statistics.SnapshotDefinedness | xlat_evtool.cpp:519-523 | p5 and p10 are always defined; IQR exactly from 3 samples, p90 from 6, p95 from 11 |
| Statistics.SnapshotOrder | xlat_evtool.cpp:519-538 | min <= p5 <= p10 <= median <= max, min <= mean <= max, median <= p90 <= p95 <= max when defined, IQR not negative |
| Statistics.SnapshotExtremes | xlat_evtool.cpp:524-525 | min and max are stored latencies bounding every stored latency |
| Statistics.SnapshotSpread | xlat_evtool.cpp:503-538 | deviations are taken from the middle sorted element; mean, MAD and stdev are the truncated quotient, the floor quotient and the floor root of their sums |
| Statistics.ConstantCentre | xlat_evtool.cpp:519-532 | a constant store has min, max, mean, median, p5 and p10 all equal to that constant |
| Statistics.ConstantSpread | xlat_evtool.cpp:503-538 | a constant store has IQR, MAD and stdev 0 |
| Statistics.DeviationsOfConstant | xlat_evtool.cpp:503-508 | equal latencies contribute no absolute and no squared deviation |
| Statistics.SortedOfConstant | xlat_evtool.cpp:494 | sorting a constant store leaves every element that constant |
| Histogram.Boundaries | xlat_evtool.cpp:709-719 | there are sixteen lower bar boundaries |
| Histogram.BoundariesOrdered | xlat_evtool.cpp:709-719 | for min <= max the step is not negative, the boundaries do not decrease, start at min and end at or below max |
| Histogram.NarrowRange | xlat_evtool.cpp:709-719 | a range narrower than 16 gives step 0, so every boundary is min |
| Histogram.FirstMatch | xlat_evtool.cpp:755-788 | a match found from bar j is a bar at or after j whose interval holds the latency: at or above its lower boundary and, except for the last bar, below the next |
| Histogram.BarOf | xlat_evtool.cpp:755-788 | the bar the chain picks holds the latency in its interval: at or above its lower boundary and, except for the last bar, below the next |
| Histogram.Step | xlat_evtool.cpp:709-711 | the step is the range divided by 16, rounded toward zero: for min <= max, 16*step <= range < 16*step + 16 |
| Histogram.TallyCountsBar | xlat_evtool.cpp:755-789 | with ordered boundaries, each bar counts exactly the latencies inside its half-open interval |
| Histogram.BarOfIsInterval | xlat_evtool.cpp:755-788 | a latency lands in bar k exactly when it is at least boundary k and below boundary k+1 (the last bar is open above) |
| Histogram.BarOfTotal | xlat_evtool.cpp:755-788 | a latency lands in some bar exactly when it is at least the first boundary |
| Histogram.Bump | xlat_evtool.cpp:755-788 | a count step keeps the sixteen counters |
| Histogram.BumpTotal | xlat_evtool.cpp:755-788 | one count step raises the total by one exactly when the latency lands in a bar |
| Histogram.Tally | xlat_evtool.cpp:738-789 | counting yields sixteen bars |
| Histogram.TallyStep | xlat_evtool.cpp:755-789 | each further latency adds one to the total exactly when it reaches the first boundary |
| Histogram.TallyTotal | xlat_evtool.cpp:738-789 | the bar total is the number of latencies at or above the first boundary |
| Histogram.CountAtLeastAll | xlat_evtool.cpp:755-789 | when every latency reaches the bound, all of them are counted |
| Histogram.BarsCoverSamples | xlat_evtool.cpp:709-789 | with the boundaries built from the true min and max, every stored report is counted in exactly one bar |
| Histogram.NarrowRangeLastBar | xlat_evtool.cpp:709-789 | a range narrower than 16 puts every report in the last bar and none in the others |
| Histogram.FillBoundaries | xlat_evtool.cpp:713-719 | the boundary loop fills exactly the sixteen boundaries |
| Histogram.CountBars | xlat_evtool.cpp:738-789 | the counting loop produces exactly the tally of the latencies |
| Csv.SummaryLines | xlat_evtool.cpp:394-404 | eleven summary lines, none holding a comma |
| Csv.RowFields | xlat_evtool.cpp:408 | four printed fields per report, none holding a comma |
| Csv.FormatRow | xlat_evtool.cpp:408 | a printed row splits on ',' back into its four printed fields |
| Csv.ExportLines | xlat_evtool.cpp:394-409 | eleven summary lines, then a blank line, then row i is report i printed with commas |
| Csv.ExportLinesAppend | xlat_evtool.cpp:407-409 | one more report adds exactly one more row at the end |
| Csv.ZeroSummaryLine | xlat_evtool.cpp:394-404 | a zero summary value is written as its label followed by "0" |
| Csv.Fold | xlat_evtool.cpp:432-466 | the import loop over line outcomes: at most one report per line after the first; an error names a line between 2 and the lines read |
| Csv.ImportLines | xlat_evtool.cpp:420-466 | a whole import yields fewer reports than lines, or an error naming a line after the first |
| Csv.FirstNonNumeric | xlat_evtool.cpp:443-451 | the reported field is the first of the four that is not an int; none when all four are |
| Csv.ClassifyLine | xlat_evtool.cpp:435-463 | an accepted line yields a report whose fields fit an int; a rejected line names its first bad field |
| Csv.Outcomes | xlat_evtool.cpp:432-466 | one outcome per line, namely that line's classification |
| Csv.ClassifyShort | xlat_evtool.cpp:438 | a line with fewer than four comma fields is skipped |
| Csv.ClassifyBad | xlat_evtool.cpp:443-456 | a line with a bad field among the first four is rejected naming that field |
| Csv.ClassifyGood | xlat_evtool.cpp:458-461 | a line whose first four fields are ints yields the report read from them in order |
| Csv.LineWithoutCommaSkipped | xlat_evtool.cpp:435-438 | a line without a comma is skipped |
| Csv.RejectedLine | xlat_evtool.cpp:443-451 | a rejected line really has that bad field |
| Csv.ImportErrorLocated | xlat_evtool.cpp:447 | an import error names a line after the first line, everything before it imports, and that line has the named bad field |
| Csv.ImportSucceedsIff | xlat_evtool.cpp:432-466 | import succeeds exactly when no line after the first is rejected |
| Csv.ImportedFitInt32 | xlat_evtool.cpp:458-461 | every imported report fits an int |
| Csv.ImportStep | xlat_evtool.cpp:432-466 | one more line skips, fails with that line number, or appends the line's report |
| Csv.ImportErrorSticks | xlat_evtool.cpp:453-456 | once a prefix fails, the whole import fails with the same error |
| Csv.RowRoundTrip | xlat_evtool.cpp:408 | a printed row is read back as the same report |
| Csv.SummarySkipped | xlat_evtool.cpp:394-405 | the summary block and the blank line import nothing |
| Csv.RowOutcome | xlat_evtool.cpp:407-409 | each exported row is accepted as its own report |
| Csv.RowsImported | xlat_evtool.cpp:420-466 | importing an export up to its k-th row yields the first k reports |
| Csv.ExportImportRoundTrip | xlat_evtool.cpp:394-466 | importing an exported file yields exactly the exported reports |
| Evtool.ParseChunk | xlat_evtool.cpp:314-321 | a chunk yields a report exactly when it splits into at least four ';' fields (three separators); the report fits an int |
| Evtool.ChunkRoundTrip | xlat_evtool.cpp:314-321 | four printed ints, with any further fields, parse back to the same report |
| Evtool.PrintedFieldsSplitBack | xlat_evtool.cpp:314 | printed ints joined with ';' split back into the same fields |
| Evtool.ChunkFieldValues | xlat_evtool.cpp:318-321 | each of the four report fields is the matching ';' field read as an int, or 0 where that field is not an int |
| Evtool.XlatEvtool.ReadSerialData | xlat_evtool.cpp:301-337 | a parsable chunk appends its report, becomes myData and leaves the summary that of the whole store; any other chunk changes nothing; the median and MAD members never change |
| Evtool.ReadAt | xlat_evtool.cpp:519-523 | an in-range read is the sorted element; past the end nothing is known |
| Evtool.CollectLatencies | xlat_evtool.cpp:490-493 | the collecting loop yields the latency column |
| Evtool.Accumulate | xlat_evtool.cpp:503-508 | the accumulating loop yields the sum, absolute-deviation sum and squared-deviation sum about the reference |
| Evtool.Interpolate | xlat_evtool.cpp:488-538 | every value the recompute computes agrees with the snapshot of the stored latencies wherever the snapshot is defined |
| Evtool.ReadSorted | xlat_evtool.cpp:510-538 | the reads from the sorted latencies agree with the digest of that run and the three sums |
| Evtool.XlatEvtool.DataInterpolation | xlat_evtool.cpp:488-545 | after the recompute, the members and line edits are those of the whole store and the counter rises by one; median and MAD members unchanged |
| Evtool.XlatEvtool.Publish | xlat_evtool.cpp:519-544 | stores the readings in the members, shows them through the gate at the old counter, then increments the counter |
| Evtool.XlatEvtool.StoreSummary | xlat_evtool.cpp:519-538 | the nine summary members written by the recompute hold the readings |
| Evtool.XlatEvtool.UpdatePercentileData | xlat_evtool.cpp:548-579 | p90 shown when the counter exceeds 7, p95 above 9, IQR above 3, else "need more data"; every other line edit shows its number, stdev from the member |
| Evtool.Display | xlat_evtool.cpp:552-568 | after the k-th recompute p90 is shown from 9 reports on, p95 from 11, IQR from 5; all other line edits show a number |
| Evtool.Gate | xlat_evtool.cpp:552-578 | the gates nest: p95 shown implies p90 and IQR shown, p90 shown implies IQR shown; p5 and p10 always show their readings |
| Evtool.GateHidesOutOfRange | xlat_evtool.cpp:552-568 | a percentile read past the end is never shown, and every shown gated value is the snapshot's |
| Evtool.DisplayOrdered | xlat_evtool.cpp:548-579 | the shown values keep the snapshot's order: min <= p5 <= p10 <= median <= max, gated values in order, MAD and stdev not negative |
| Evtool.DisplayOfReadings | xlat_evtool.cpp:548-568 | the gate over readings that agree with the snapshot, at the counter one below the store size, is the panel Display describes |
| Evtool.XlatEvtool.RecomputedIsValid | xlat_evtool.cpp:540-544 | members holding agreeing readings with the gated panel and a counter equal to the store size satisfy both class invariants |
| Evtool.XlatEvtool.constructor | xlat_evtool.h:109-125 | an empty store and a zero counter |
| Evtool.XlatEvtool.ClearData | xlat_evtool.cpp:582-615 | empties the store, zeroes the counter and all eleven summary members, blanks the line edits |
| Evtool.XlatEvtool.ZeroSummary | xlat_evtool.cpp:603-613 | all eleven summary members become 0 |
| Evtool.XlatEvtool.SummaryValues | xlat_evtool.cpp:394-404 | the eleven summary members in export order |
| Evtool.XlatEvtool.SaveCsv | xlat_evtool.cpp:394-409 | the file is the export of the members and the store; after a reset, MAD and median are written as 0 |
| Evtool.FirstBadField | xlat_evtool.cpp:443-451 | the checking loop reports the first field of four that is not an int |
| Evtool.XlatEvtool.ImportRow | xlat_evtool.cpp:433-465 | one line extends the imported prefix exactly as the import fold does, keeping both invariants; myData, median and MAD members unchanged |
| Evtool.XlatEvtool.Push | xlat_evtool.cpp:463-464 | appends one report and recomputes: both invariants hold over the longer store; myData, median and MAD members unchanged |
| Evtool.XlatEvtool.ImportCsv | xlat_evtool.cpp:420-473 | on success the store is exactly the imported reports; on the first bad field the error is returned and the tool is reset; an unopenable file leaves it reset; myData is never touched |
| Evtool.XlatEvtool.ShowHistogramWindow | xlat_evtool.cpp:709-789 | the bars are the tally of the store; they count every report, all in the last bar when the range is narrower than 16 |
| Evtool.SaveAndReload | xlat_evtool.cpp:394-473 | saving then importing gives a tool with the same reports and valid, recomputed summary |

## Left out

- Serial I/O is not modelled: opening and polling the port, `readAll`, the `serialDataReceived` signal, connection checks and error handling. The received chunk is a parameter of `ReadSerialData`.
- File I/O is not modelled. The dialogs are left out. The file read by import is a parameter: `None` for a file that cannot be opened, otherwise its lines without terminators. `SaveCsv` returns the lines instead of writing them.
- The import error dialog (`QMessageBox::critical`) is not modelled. The error is returned as an `ImportError` value holding the 0-based field and the 1-based line.
- The table view (`updateTableView`, `updateTableViewDynamic`, the row removal in `clearData`) is not modelled, nor the chart windows and bar set labels, `ledwidget` and the program's entry point. These do not affect the stored data or the summary.
- The line edits are modelled only as which number, or "need more data", each one shows. Their text formatting is not modelled.
- Statistics.PercentileIndex: computes k% of n exactly, with halves rounded up. The source computes the product in double with inexact fractions such as 0.05. A product that should be an exact half may therefore round the other way for very large n.
- Statistics.RootMeanSquare: is the exact integer root of the squared-deviation sum over n. The source sums the squares in double, which loses precision once squared differences pass 2^53.
- Statistics.Median: does not model 32-bit overflow of the sum of the two middle latencies.
- Statistics.Digest: does not model 32-bit overflow of the IQR subtraction or of the deviation `latency - reference`. Every value is an unbounded integer.
- Histogram.Boundaries: does not model 32-bit overflow of `maxLatency - minLatency` or of `minLatency + i * step`.
- Evtool.ReadAt: an index past the end reads some unspecified int, which the model leaves unconstrained. In the source this is undefined behaviour.
- Evtool.XlatEvtool.constructor: the summary members and `myData` start with arbitrary values. In the source they are uninitialised.
- Text.ToIntChecked: trims only ASCII white space around the number. `QString::toInt` also trims Unicode white space.
