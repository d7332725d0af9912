/**
 * The data side of the `xlat_evtool` window: the ordered store of device
 * reports, the warm-up counter, the integer summary members recomputed after
 * every new report, the eleven summary line edits, the chunk parser, the CSV
 * import and export, and the histogram counts.
 */
module Evtool {
  import opened Wrappers
  import opened Text
  import opened Records
  import opened Statistics
  import opened Histogram
  import opened Csv

  // ---------------------------------------------------------------------------
  // The serial chunk
  // ---------------------------------------------------------------------------

  /** A received chunk split on ';': with at least four fields it is one
      report read from fields 0..3 in declaration order, each through the
      unchecked `toInt` (a field that is not an int reads as 0); with fewer
      it is nothing. Fields past the fourth are ignored. */
  function ParseChunk(chunk: string): (r: Option<XlatData>)
    ensures r.Some? <==> |Split(chunk, ';')| >= 4
    ensures r.Some? <==> Occurrences(chunk, ';') >= 3
    ensures r.Some? ==> FitsInt32(r.value)
  {
    SplitLength(chunk, ';');
    var fields := Split(chunk, ';');
    if |fields| >= 4 then
      Some(XlatData(ToInt(fields[0]), ToInt(fields[1]), ToInt(fields[2]), ToInt(fields[3])))
    else None
  }

  /** A chunk printed as `reportNumber;latency;avgLatency;stdev`, followed by
      any further `;`-separated fields, parses back to that report. */
  lemma ChunkRoundTrip(d: XlatData, extra: seq<string>)
    requires FitsInt32(d)
    requires forall i :: 0 <= i < |extra| ==> ';' !in extra[i]
    ensures ParseChunk(Join([FormatInt(d.reportNumber), FormatInt(d.latency),
      FormatInt(d.avgLatency), FormatInt(d.stdev)] + extra, ';')) == Some(d)
  {
    PrintedFieldsSplitBack(d, extra);
    FormatIntRoundTrip(d.reportNumber);
    FormatIntRoundTrip(d.latency);
    FormatIntRoundTrip(d.avgLatency);
    FormatIntRoundTrip(d.stdev);
  }

  /** The printed fields of a report, followed by separator-free extra
      fields, split back into themselves. */
  lemma PrintedFieldsSplitBack(d: XlatData, extra: seq<string>)
    requires forall i :: 0 <= i < |extra| ==> ';' !in extra[i]
    ensures var parts := [FormatInt(d.reportNumber), FormatInt(d.latency),
      FormatInt(d.avgLatency), FormatInt(d.stdev)] + extra;
      Split(Join(parts, ';'), ';') == parts
  {
    var parts := [FormatInt(d.reportNumber), FormatInt(d.latency),
      FormatInt(d.avgLatency), FormatInt(d.stdev)] + extra;
    forall i | 0 <= i < |parts| ensures ';' !in parts[i] {
      if i == 0 {
        assert parts[i] == FormatInt(d.reportNumber);
      } else if i == 1 {
        assert parts[i] == FormatInt(d.latency);
      } else if i == 2 {
        assert parts[i] == FormatInt(d.avgLatency);
      } else if i == 3 {
        assert parts[i] == FormatInt(d.stdev);
      } else {
        assert parts[i] == extra[i - 4];
      }
    }
    SplitJoin(parts, ';');
  }

  /** A field that is not an int is stored as 0, the others as their value. */
  lemma ChunkFieldValues(chunk: string)
    requires ParseChunk(chunk).Some?
    ensures var d := ParseChunk(chunk).value; var fields := Split(chunk, ';');
      (ToIntChecked(fields[1]).None? ==> d.latency == 0)
      && (ToIntChecked(fields[1]).Some? ==> d.latency == ToIntChecked(fields[1]).value)
      && (ToIntChecked(fields[0]).None? ==> d.reportNumber == 0)
      && (ToIntChecked(fields[0]).Some? ==> d.reportNumber == ToIntChecked(fields[0]).value)
      && (ToIntChecked(fields[2]).None? ==> d.avgLatency == 0)
      && (ToIntChecked(fields[2]).Some? ==> d.avgLatency == ToIntChecked(fields[2]).value)
      && (ToIntChecked(fields[3]).None? ==> d.stdev == 0)
      && (ToIntChecked(fields[3]).Some? ==> d.stdev == ToIntChecked(fields[3]).value)
  {
    SplitLength(chunk, ';');
  }

  // ---------------------------------------------------------------------------
  // The summary line edits
  // ---------------------------------------------------------------------------

  /** What one line edit shows: nothing, a number, or "need more data". */
  datatype Shown = Blank | Number(v: int) | NeedMoreData

  datatype Panel = Panel(
    p90: Shown, p95: Shown, iqr: Shown, p5: Shown, p10: Shown,
    maxLatency: Shown, minLatency: Shown, median: Shown, avgLatency: Shown,
    stdev: Shown, mad: Shown)

  const BlankPanel: Panel :=
    Panel(Blank, Blank, Blank, Blank, Blank, Blank, Blank, Blank, Blank, Blank, Blank)

  /** The panel after the recompute for `latencies`. That recompute sees the
      counter one below the sample count, so p90 appears from 9 samples on,
      p95 from 11 and the IQR from 5; every other line edit shows a number. */
  function Display(latencies: seq<int>): (p: Panel)
    requires |latencies| > 0
    ensures p.p90.Number? <==> |latencies| >= 9
    ensures p.p95.Number? <==> |latencies| >= 11
    ensures p.iqr.Number? <==> |latencies| >= 5
    ensures p.p90 != Blank && p.p95 != Blank && p.iqr != Blank
    ensures p.p5.Number? && p.p10.Number? && p.maxLatency.Number? && p.minLatency.Number?
      && p.median.Number? && p.avgLatency.Number? && p.stdev.Number? && p.mad.Number?
  {
    SnapshotDefinedness(latencies);
    Gate(|latencies| - 1, SnapshotReadings(Summarize(latencies)))
  }

  /** The panel `updatePercentileData` builds from readings when the counter
      stands at `counter`. The gates are nested: whenever p95 is shown so are
      p90 and the IQR, and whenever p90 is shown so is the IQR. */
  function Gate(counter: int, r: Readings): (p: Panel)
    ensures p.p95.Number? ==> p.p90.Number? && p.iqr.Number?
    ensures p.p90.Number? ==> p.iqr.Number?
    ensures p.p90 != Blank && p.p95 != Blank && p.iqr != Blank
    ensures p.p5 == Number(r.p5) && p.p10 == Number(r.p10)
  {
    Panel(
      p90 := if counter > 7 then Number(r.p90) else NeedMoreData,
      p95 := if counter > 9 then Number(r.p95) else NeedMoreData,
      iqr := if counter > 3 then Number(r.iqr) else NeedMoreData,
      p5 := Number(r.p5), p10 := Number(r.p10),
      maxLatency := Number(r.maxLatency), minLatency := Number(r.minLatency),
      median := Number(r.median), avgLatency := Number(r.mean),
      stdev := Number(r.stdev), mad := Number(r.mad))
  }

  /** A snapshot's values as readings; a value the snapshot leaves undefined
      reads 0 here, and the gate never shows it. */
  function SnapshotReadings(s: Snapshot): Readings {
    Readings(OrZero(s.p90), OrZero(s.p95), OrZero(s.p5), OrZero(s.p10), OrZero(s.iqr),
             s.maxLatency, s.minLatency, s.mean, s.median, s.mad, s.stdev)
  }

  function OrZero(o: Option<int>): int {
    if o.Some? then o.value else 0
  }

  /** The warm-up gate covers every percentile index that runs past the end
      of the sorted latencies: q3 below 3 samples, p90 below 6 and p95 below
      11 are all hidden, and whatever is shown is the snapshot's value. */
  lemma GateHidesOutOfRange(latencies: seq<int>)
    requires |latencies| > 0
    ensures var s := Summarize(latencies); var p := Display(latencies);
      (s.p90.None? ==> p.p90 == NeedMoreData)
      && (s.p95.None? ==> p.p95 == NeedMoreData)
      && (s.iqr.None? ==> p.iqr == NeedMoreData)
      && (p.p90.Number? ==> s.p90 == Some(p.p90.v))
      && (p.p95.Number? ==> s.p95 == Some(p.p95.v))
      && (p.iqr.Number? ==> s.iqr == Some(p.iqr.v))
  {
    SnapshotDefinedness(latencies);
  }

  /** Everything the panel shows lies in the order of the snapshot:
      min <= p5 <= p10 <= median <= p90 <= p95 <= max and IQR >= 0. */
  lemma DisplayOrdered(latencies: seq<int>)
    requires |latencies| > 0
    ensures var p := Display(latencies);
      p.minLatency.v <= p.p5.v <= p.p10.v <= p.median.v <= p.maxLatency.v
      && p.minLatency.v <= p.avgLatency.v <= p.maxLatency.v
      && (p.p90.Number? ==> p.median.v <= p.p90.v <= p.maxLatency.v)
      && (p.p95.Number? ==> p.p90.Number? && p.p90.v <= p.p95.v)
      && (p.iqr.Number? ==> p.iqr.v >= 0)
      && p.mad.v >= 0 && p.stdev.v >= 0
  {
    SnapshotDefinedness(latencies);
    SnapshotOrder(latencies);
  }

  /** A stored summary member agrees with a defined snapshot value; an
      undefined one (a read past the end) leaves it unconstrained. */
  predicate Matches(v: int, o: Option<int>) {
    o.Some? ==> v == o.value
  }

  /** `sorted[idx]` as the recompute reads it, without a bounds check: past
      the end what is read is not defined, so any int may come back. */
  method ReadAt(sorted: seq<int>, idx: nat) returns (v: int)
    ensures Matches(v, At(sorted, idx))
    ensures idx < |sorted| ==> v == sorted[idx]
  {
    if idx < |sorted| {
      v := sorted[idx];
    } else {
      v :| true;
    }
  }

  /** The latency column of the store, collected in store order. */
  method CollectLatencies(data: seq<XlatData>) returns (latencies: seq<int>)
    ensures latencies == Latencies(data)
  {
    latencies := [];
    var i := 0;
    while i < |data|
      invariant 0 <= i <= |data|
      invariant latencies == Latencies(data)[..i]
    {
      latencies := latencies + [data[i].latency];
      i := i + 1;
    }
  }

  /** The accumulator loop of the recompute: the sum of the latencies, and
      the sums of absolute and of squared distances from `ref`. */
  method Accumulate(data: seq<XlatData>, ref: int) returns (sumLatency: int, madSum: nat, sumSqrt: nat)
    ensures sumLatency == Sum(Latencies(data))
    ensures madSum == SumAbsDev(Latencies(data), ref)
    ensures sumSqrt == SumSqDev(Latencies(data), ref)
  {
    var latencies := Latencies(data);
    sumLatency, madSum, sumSqrt := 0, 0, 0;
    var i := 0;
    while i < |data|
      invariant 0 <= i <= |data|
      invariant sumLatency == Sum(latencies[..i])
      invariant madSum == SumAbsDev(latencies[..i], ref)
      invariant sumSqrt == SumSqDev(latencies[..i], ref)
    {
      assert latencies[..i + 1][..i] == latencies[..i];
      sumLatency := sumLatency + data[i].latency;
      var difference := data[i].latency - ref;
      madSum := madSum + Abs(difference);
      sumSqrt := sumSqrt + difference * difference;
      i := i + 1;
    }
    assert latencies[..i] == latencies;
  }

  /** The values one recompute derives, each as the int it is stored or
      shown as. Where the snapshot has an index past the end, the value read
      there is not defined. */
  datatype Readings = Readings(
    p90: int, p95: int, p5: int, p10: int, iqr: int,
    maxLatency: int, minLatency: int, mean: int, median: int, mad: int, stdev: int)

  predicate Agrees(r: Readings, s: Snapshot) {
    Matches(r.p90, s.p90) && Matches(r.p95, s.p95) && Matches(r.p5, s.p5)
    && Matches(r.p10, s.p10) && Matches(r.iqr, s.iqr)
    && r.maxLatency == s.maxLatency && r.minLatency == s.minLatency
    && r.mean == s.mean && r.median == s.median && r.mad == s.mad && r.stdev == s.stdev
  }

  /** The computation of `dataInterpolation`: collect and sort the
      latencies, accumulate from the reference element `sorted[n/2]`, then read
      the percentiles, extremes, mean, median, MAD and stdev. Every defined
      value is the snapshot's. */
  method Interpolate(data: seq<XlatData>) returns (r: Readings)
    requires |data| > 0
    ensures Agrees(r, Summarize(Latencies(data)))
  {
    var latencies := CollectLatencies(data);
    var sorted := SortAscending(latencies);
    SortAscendingSorts(latencies);
    var sumLatency, madSum, sumSqrt := Accumulate(data, sorted[|sorted| / 2]);
    r := ReadSorted(sorted, sumLatency, madSum, sumSqrt);
  }

  /** The reads and divisions after the accumulator loop, over the sorted
      latencies and the three sums. This is the computation as the window
      performs it, reading past the end where the index runs out; `Digest`
      is its specification, where such a read is an undefined value. */
  method ReadSorted(sorted: seq<int>, sumLatency: int, madSum: nat, sumSqrt: nat) returns (r: Readings)
    requires |sorted| > 0 && IsSorted(sorted)
    ensures Agrees(r, Digest(sorted, sumLatency, madSum, sumSqrt))
  {
    var size := |sorted|;
    var meanLatency := TruncDiv(sumLatency, size);
    var p90 := ReadAt(sorted, PercentileIndex(90, size));
    var p95 := ReadAt(sorted, PercentileIndex(95, size));
    var p5 := ReadAt(sorted, PercentileIndex(5, size));
    var p10 := ReadAt(sorted, PercentileIndex(10, size));
    var q3 := ReadAt(sorted, PercentileIndex(75, size));
    var q1 := ReadAt(sorted, PercentileIndex(25, size));
    var median;
    if size % 2 == 0 {
      median := TruncDiv(sorted[size / 2 - 1] + sorted[size / 2], 2);
    } else {
      median := sorted[size / 2];
    }
    var mad := FloorDiv(madSum, size);
    var root := RootMeanSquare(sumSqrt, size);
    r := Readings(p90, p95, p5, p10, q3 - q1, sorted[size - 1], sorted[0],
                  meanLatency, median, mad, root);
  }

  /** The panel the gate builds from a recompute's readings, with the counter
      one below the sample count, is the panel Display describes. */
  lemma DisplayOfReadings(latencies: seq<int>, r: Readings)
    requires |latencies| > 0 && Agrees(r, Summarize(latencies))
    ensures Display(latencies) == Gate(|latencies| - 1, r)
  {
    SnapshotDefinedness(latencies);
  }

  /** The conversion check of the import: the first of the first four
      fields that is not an int, if any. */
  method FirstBadField(fields: seq<string>) returns (bad: Option<nat>)
    requires |fields| >= 4
    ensures bad == FirstNonNumeric(fields, 0)
  {
    bad := None;
    var i := 0;
    while i < 4
      invariant 0 <= i <= 4
      invariant FirstNonNumeric(fields, 0) == FirstNonNumeric(fields, i)
    {
      if ToIntChecked(fields[i]).None? {
        bad := Some(i);
        break;
      }
      i := i + 1;
    }
  }

  // ---------------------------------------------------------------------------
  // The window's data state
  // ---------------------------------------------------------------------------

  class XlatEvtool {
    var allData: seq<XlatData>
    var myData: XlatData
    var minLatency: int
    var maxLatency: int
    var p90Value: int
    var p95Value: int
    var p5Value: int
    var p10Value: int
    var iqrValue: int
    var madValue: int
    var avgLatency: int
    var medianLatency: int
    var stdev: int
    var counterCall: int
    var panel: Panel
    /** Whether the store has been cleared at least once. */
    ghost var cleared: bool

    /** The summary members hold the snapshot wherever it is defined. The
        median and MAD members are not among them: the recompute writes
        locals of the same name and leaves the members alone. */
    ghost predicate Reflects(s: Snapshot)
      reads this
    {
      minLatency == s.minLatency && maxLatency == s.maxLatency
      && avgLatency == s.mean && stdev == s.stdev
      && Matches(p5Value, s.p5) && Matches(p10Value, s.p10)
      && Matches(p90Value, s.p90) && Matches(p95Value, s.p95)
      && Matches(iqrValue, s.iqr)
    }

    /** The state right after a reset. */
    ghost predicate Zeroed()
      reads this
    {
      minLatency == 0 && maxLatency == 0 && p90Value == 0 && p95Value == 0
      && p5Value == 0 && p10Value == 0 && iqrValue == 0 && madValue == 0
      && avgLatency == 0 && medianLatency == 0 && stdev == 0
      && panel == BlankPanel
    }

    /** What holds of the stored reports at any time. */
    ghost predicate Stored()
      reads this
    {
      AllFitInt32(allData)
      && (cleared ==> medianLatency == 0 && madValue == 0)
    }

    /** Between operations: one recompute per stored report, and a store
        emptied by a reset leaves every summary member at 0. */
    ghost predicate Valid()
      reads this
    {
      Stored()
      && counterCall == |allData|
      && (|allData| == 0 && cleared ==> Zeroed())
    }

    /** Once a report is stored, the summary members and the panel are those
        of the last recompute, which covered the whole store. */
    ghost predicate Summarized()
      reads this
    {
      |allData| > 0 ==>
        Reflects(Summarize(Latencies(allData))) && panel == Display(Latencies(allData))
    }

    /** The counter starts at 0 and the store empty; the other summary
        members and `myData` have no initial value. */
    constructor ()
      ensures Valid() && Summarized() && allData == [] && counterCall == 0 && !cleared
    {
      allData := [];
      counterCall := 0;
      cleared := false;
    }

    /** The values the export writes, in the order it writes them. */
    function SummaryValues(): (values: seq<int>)
      reads this
      ensures |values| == |SummaryLabels|
    {
      [minLatency, maxLatency, p5Value, p10Value, p90Value, p95Value,
       iqrValue, madValue, avgLatency, medianLatency, stdev]
    }

    /** Parse one received chunk; a chunk with at least four fields adds one
        report and triggers a recompute, any other chunk changes nothing. */
    method ReadSerialData(chunk: string)
      requires Valid()
      modifies this
      ensures Valid() && cleared == old(cleared)
      ensures medianLatency == old(medianLatency) && madValue == old(madValue)
      ensures match ParseChunk(chunk)
        case Some(d) => allData == old(allData) + [d] && myData == d && Summarized()
        case None => allData == old(allData) && unchanged(this)
    {
      var dataList := Split(chunk, ';');
      SplitLength(chunk, ';');
      if |dataList| >= 4 {
        myData := myData.(reportNumber := ToInt(dataList[0]));
        myData := myData.(latency := ToInt(dataList[1]));
        myData := myData.(avgLatency := ToInt(dataList[2]));
        myData := myData.(stdev := ToInt(dataList[3]));
        Push(myData);
      }
    }

    /** `allData.push_back` followed by the recompute. */
    method Push(d: XlatData)
      requires Stored() && counterCall == |allData| && FitsInt32(d)
      modifies this
      ensures Valid() && Summarized() && allData == old(allData) + [d]
      ensures myData == old(myData) && cleared == old(cleared)
      ensures medianLatency == old(medianLatency) && madValue == old(madValue)
    {
      allData := allData + [d];
      DataInterpolation();
    }

    /** Recompute the summary over all stored latencies, write the summary
        members, refresh the panel through the warm-up gate, then count the
        recompute. */
    method DataInterpolation()
      requires Stored() && counterCall + 1 == |allData| && |allData| > 0
      modifies this
      ensures Valid() && Summarized()
      ensures allData == old(allData) && myData == old(myData) && cleared == old(cleared)
      ensures medianLatency == old(medianLatency) && madValue == old(madValue)
      ensures counterCall == old(counterCall) + 1
    {
      var r := Interpolate(allData);
      ghost var data := allData;
      Publish(r);
      RecomputedIsValid(data, r);
    }

    /** The second half of the recompute: write the summary members, refresh
        the panel through the gate with the counter as it stands, then count
        the recompute. */
    method Publish(r: Readings)
      modifies this
      ensures Holds(r) && panel == Gate(old(counterCall), r)
      ensures allData == old(allData) && myData == old(myData) && cleared == old(cleared)
      ensures medianLatency == old(medianLatency) && madValue == old(madValue)
      ensures counterCall == old(counterCall) + 1
    {
      StoreSummary(r);
      UpdatePercentileData(r.p90, r.p95, r.p5, r.p10, r.iqr,
                           r.maxLatency, r.minLatency, r.mean, r.median, r.mad);
      counterCall := counterCall + 1;
    }

    /** The warm-up gate: p90, p95 and the IQR show "need more data" until
        the counter passes 7, 9 and 3; the other values are always shown. */
    method UpdatePercentileData(p90: int, p95: int, p5: int, p10: int, iqr: int,
                                maxL: int, minL: int, avg: int, median: int, mad: int)
      modifies this`panel
      ensures panel == Gate(counterCall, Readings(p90, p95, p5, p10, iqr, maxL, minL, avg, median, mad, stdev))
    {
      var shown90, shown95, shownIqr;
      if counterCall > 7 {
        shown90 := Number(p90);
      } else {
        shown90 := NeedMoreData;
      }
      if counterCall > 9 {
        shown95 := Number(p95);
      } else {
        shown95 := NeedMoreData;
      }
      if counterCall > 3 {
        shownIqr := Number(iqr);
      } else {
        shownIqr := NeedMoreData;
      }
      panel := Panel(shown90, shown95, shownIqr, Number(p5), Number(p10),
                     Number(maxL), Number(minL), Number(median), Number(avg),
                     Number(stdev), Number(mad));
    }

    /** The members a recompute writes from readings that agree with the
        snapshot of the store, with the counter counting that recompute, make
        the state valid. */
    lemma RecomputedIsValid(data: seq<XlatData>, r: Readings)
      requires allData == data && |data| > 0 && counterCall == |data| && Stored()
      requires Agrees(r, Summarize(Latencies(data)))
      requires Holds(r)
      requires panel == Gate(counterCall - 1, r)
      ensures Valid() && Summarized()
    {
      DisplayOfReadings(Latencies(data), r);
    }

    /** The summary members hold the readings (all but the median and MAD). */
    ghost predicate Holds(r: Readings)
      reads this
    {
      p90Value == r.p90 && p95Value == r.p95 && p5Value == r.p5 && p10Value == r.p10
      && iqrValue == r.iqr && maxLatency == r.maxLatency && minLatency == r.minLatency
      && avgLatency == r.mean && stdev == r.stdev
    }

    /** The member writes of the recompute, in the order it makes them. */
    method StoreSummary(r: Readings)
      modifies this`p90Value, this`p95Value, this`p5Value, this`p10Value, this`iqrValue,
        this`maxLatency, this`minLatency, this`avgLatency, this`stdev
      ensures Holds(r)
    {
      p90Value := r.p90;
      p95Value := r.p95;
      p5Value := r.p5;
      p10Value := r.p10;
      iqrValue := r.iqr;
      maxLatency := r.maxLatency;
      minLatency := r.minLatency;
      avgLatency := r.mean;
      stdev := r.stdev;
    }

    /** Empty the store, blank the panel, zero the counter and every summary
        member. The last parsed report `myData` is kept. */
    method ClearData()
      modifies this
      ensures Valid() && Summarized() && cleared && Zeroed()
      ensures allData == [] && counterCall == 0 && myData == old(myData)
    {
      allData := [];
      panel := BlankPanel;
      counterCall := 0;
      ZeroSummary();
      cleared := true;
    }

    /** The resets of `clearData`, one member at a time. */
    method ZeroSummary()
      modifies this`minLatency, this`maxLatency, this`p90Value, this`p95Value,
        this`p5Value, this`p10Value, this`iqrValue, this`madValue,
        this`avgLatency, this`medianLatency, this`stdev
      ensures minLatency == 0 && maxLatency == 0 && p90Value == 0 && p95Value == 0
      ensures p5Value == 0 && p10Value == 0 && iqrValue == 0 && madValue == 0
      ensures avgLatency == 0 && medianLatency == 0 && stdev == 0
    {
      minLatency := 0;
      maxLatency := 0;
      p90Value := 0;
      p95Value := 0;
      p5Value := 0;
      p10Value := 0;
      iqrValue := 0;
      madValue := 0;
      avgLatency := 0;
      medianLatency := 0;
      stdev := 0;
    }

    /** Import a CSV file given as its lines, or None when it cannot be
        opened. The store is cleared first in either case. The header line is
        dropped, and each further line goes through `ImportRow`; the first
        refused line ends the import with an error naming the field and the
        line, and with the store cleared again. */
    method ImportCsv(file: Option<seq<string>>) returns (err: Option<ImportError>)
      modifies this
      ensures Valid() && Summarized() && cleared && myData == old(myData)
      ensures file.None? ==> err.None? && allData == [] && Zeroed()
      ensures file.Some? ==> match ImportLines(file.value)
        case Ok(samples) => err.None? && allData == samples
        case Err(e) => err == Some(e) && allData == [] && Zeroed()
    {
      ClearData();
      err := None;
      if file.Some? {
        var lines := file.value;
        var k := 1;
        var row := 1;
        while k < |lines|
          invariant 1 <= k && row == k
          invariant |lines| == 0 || k <= |lines|
          invariant Valid() && Summarized() && cleared && err.None?
          invariant myData == old(myData)
          invariant ImportPrefix(lines, if |lines| == 0 then 0 else k) == Ok(allData)
        {
          row := row + 1;
          var bad := ImportRow(lines[k], lines, k);
          if bad.Some? {
            ghost var e := NonNumeric(bad.value, k + 1);
            assert ImportPrefix(lines, k + 1) == Err(e);
            ImportErrorSticks(lines, k + 1, e);
            assert row == k + 1;
            err := Some(NonNumeric(bad.value, row));
            ClearData();
            return;
          }
          k := k + 1;
        }
      }
    }

    /** One data line of the import. A line with fewer than four comma fields
        is skipped; one whose first four fields are all ints adds a report and
        triggers a recompute (the `stdev` member is first set from the line,
        then overwritten by that recompute); any other line changes nothing
        and names its first field that is not an int. */
    method ImportRow(line: string, ghost lines: seq<string>, ghost k: nat) returns (bad: Option<nat>)
      requires 1 <= k < |lines| && lines[k] == line
      requires Valid() && Summarized() && ImportPrefix(lines, k) == Ok(allData)
      modifies this
      ensures Valid() && Summarized() && cleared == old(cleared)
      ensures myData == old(myData)
      ensures medianLatency == old(medianLatency) && madValue == old(madValue)
      ensures bad.None? ==> ImportPrefix(lines, k + 1) == Ok(allData)
      ensures bad.Some? ==> ImportPrefix(lines, k + 1) == Err(NonNumeric(bad.value, k + 1))
    {
      ImportStep(lines, k, allData);
      var fields := Split(line, ',');
      bad := None;
      if |fields| >= 4 {
        bad := FirstBadField(fields);
        if bad.None? {
          var newData := XlatData(ToInt(fields[0]), ToInt(fields[1]), ToInt(fields[2]), ToInt(fields[3]));
          stdev := newData.stdev;
          Push(newData);
        }
      }
    }

    /** The text the export writes: the eleven summary lines, a blank line
        and one row per stored report. After a reset the median and MAD lines
        read 0 whatever the samples, since no recompute writes them. */
    method SaveCsv() returns (lines: seq<string>)
      ensures lines == ExportLines(SummaryValues(), allData)
      ensures Stored() && cleared ==>
        lines[7] == SummaryLabels[7] + "0" && lines[9] == SummaryLabels[9] + "0"
    {
      lines := SummaryLines(SummaryValues()) + [""];
      var i := 0;
      while i < |allData|
        invariant 0 <= i <= |allData|
        invariant lines == ExportLines(SummaryValues(), allData[..i])
      {
        lines := lines + [FormatRow(allData[i])];
        assert allData[..i + 1] == allData[..i] + [allData[i]];
        ExportLinesAppend(SummaryValues(), allData[..i], allData[i]);
        i := i + 1;
      }
      assert allData[..i] == allData;
      if Stored() && cleared {
        ZeroSummaryLine(SummaryValues(), allData, 7);
        ZeroSummaryLine(SummaryValues(), allData, 9);
      }
    }

    /** The 16 histogram counts over the stored latencies, against boundaries
        taken from the stored min and max. Once a recompute has run they add up
        to the number of reports, and a range narrower than 16 puts every
        report in the last bar. */
    method ShowHistogramWindow() returns (bars: seq<nat>)
      ensures bars == Tally(Latencies(allData), Boundaries(minLatency, maxLatency))
      ensures Summarized() && |allData| > 0 ==> Total(bars) == |allData|
      ensures Summarized() && |allData| > 0 && maxLatency - minLatency < Bars ==>
        bars[Bars - 1] == |allData|
    {
      var bounds := FillBoundaries(minLatency, maxLatency);
      bars := CountBars(Latencies(allData), bounds);
      if Summarized() && |allData| > 0 {
        var latencies := Latencies(allData);
        SnapshotExtremes(latencies);
        BarsCoverSamples(latencies, minLatency, maxLatency);
        if maxLatency - minLatency < Bars {
          NarrowRangeLastBar(latencies, minLatency, maxLatency);
        }
      }
    }
  }

  /** Export followed by import into a fresh window restores the reports in
      order. The reloaded window has recomputed its summary, but its median
      and MAD members read 0: the file's median and MAD lines are skipped. */
  method SaveAndReload(tool: XlatEvtool) returns (reloaded: XlatEvtool)
    requires tool.Valid()
    ensures reloaded.Valid() && reloaded.Summarized() && reloaded.allData == tool.allData
    ensures reloaded.medianLatency == 0 && reloaded.madValue == 0
  {
    var lines := tool.SaveCsv();
    ExportImportRoundTrip(tool.SummaryValues(), tool.allData);
    reloaded := new XlatEvtool();
    var err := reloaded.ImportCsv(Some(lines));
  }
}
