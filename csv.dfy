/**
 * The CSV file of the tool, as a sequence of lines. Export writes eleven
 * `Label: value` summary lines, one blank line and one
 * `reportNumber,latency,avgLatency,stdev` row per sample. Import drops the
 * first line, skips every line with fewer than four comma-separated fields,
 * and stops at the first of the first four fields that is not an int.
 */
module Csv {
  import opened Wrappers
  import opened Text
  import opened Records

  /** The summary labels, in the order they are written. */
  const SummaryLabels: seq<string> := [
    "Minimum Latency: ", "Maximum Latency: ", "p5: ", "p10: ", "p90: ", "p95: ",
    "IQR: ", "MAD: ", "Average Latency: ", "Median Latency: ", "STDEV : "]

  /** One summary line per value; none of them holds a comma. */
  function SummaryLines(values: seq<int>): (lines: seq<string>)
    requires |values| == |SummaryLabels|
    ensures |lines| == |SummaryLabels|
    ensures forall i :: 0 <= i < |lines| ==> ',' !in lines[i]
  {
    assert forall i :: 0 <= i < |SummaryLabels| ==> ',' !in SummaryLabels[i];
    seq(|values|, i requires 0 <= i < |values| => SummaryLabels[i] + FormatInt(values[i]))
  }

  /** The four fields of a sample, printed in declaration order. */
  function RowFields(d: XlatData): (fields: seq<string>)
    ensures |fields| == 4
    ensures forall i :: 0 <= i < 4 ==> ',' !in fields[i]
  {
    [FormatInt(d.reportNumber), FormatInt(d.latency), FormatInt(d.avgLatency), FormatInt(d.stdev)]
  }

  function FormatRow(d: XlatData): (line: string)
    ensures Split(line, ',') == RowFields(d)
  {
    SplitJoin(RowFields(d), ',');
    Join(RowFields(d), ',')
  }

  /** The whole exported file: summary, blank line, one row per sample. */
  function ExportLines(values: seq<int>, samples: seq<XlatData>): (lines: seq<string>)
    requires |values| == |SummaryLabels|
    ensures |lines| == |SummaryLabels| + 1 + |samples|
    ensures lines[|SummaryLabels|] == ""
    ensures forall i :: 0 <= i < |samples| ==> lines[|SummaryLabels| + 1 + i] == FormatRow(samples[i])
  {
    SummaryLines(values) + [""] + seq(|samples|, i requires 0 <= i < |samples| => FormatRow(samples[i]))
  }

  /** One more sample adds one more row at the end. */
  lemma ExportLinesAppend(values: seq<int>, samples: seq<XlatData>, d: XlatData)
    requires |values| == |SummaryLabels|
    ensures ExportLines(values, samples + [d]) == ExportLines(values, samples) + [FormatRow(d)]
  {
    var a := ExportLines(values, samples + [d]);
    var b := ExportLines(values, samples) + [FormatRow(d)];
    assert |a| == |b|;
    forall i | 0 <= i < |a| ensures a[i] == b[i] {
      if i >= |SummaryLabels| + 1 {
        var k := i - |SummaryLabels| - 1;
        assert (samples + [d])[k] == if k < |samples| then samples[k] else d;
      }
    }
  }

  /** A summary value of 0 is written as its label followed by "0". */
  lemma ZeroSummaryLine(values: seq<int>, samples: seq<XlatData>, i: nat)
    requires |values| == |SummaryLabels| && i < |values| && values[i] == 0
    ensures ExportLines(values, samples)[i] == SummaryLabels[i] + "0"
  {
    FormatIntZero();
    assert ExportLines(values, samples)[i] == SummaryLines(values)[i];
  }

  // ---------------------------------------------------------------------------
  // Import
  // ---------------------------------------------------------------------------

  /** Which field (0 to 3) on which line (the first line being 1) did not
      convert. */
  datatype ImportError = NonNumeric(field: nat, line: nat)

  datatype LineOutcome = Skip | Reject(field: nat) | Accept(d: XlatData)

  /** The first of fields i..3 that `toInt` refuses. */
  function FirstNonNumeric(fields: seq<string>, i: nat): (r: Option<nat>)
    requires |fields| >= 4 && i <= 4
    ensures r.Some? ==>
      (i <= r.value < 4 && ToIntChecked(fields[r.value]).None?
       && forall j :: i <= j < r.value ==> ToIntChecked(fields[j]).Some?)
    ensures r.None? ==> forall j :: i <= j < 4 ==> ToIntChecked(fields[j]).Some?
    decreases 4 - i
  {
    if i == 4 then None
    else if ToIntChecked(fields[i]).None? then Some(i)
    else FirstNonNumeric(fields, i + 1)
  }

  /** Field `f` is the first of the first four fields that is not an int. */
  predicate BadField(fields: seq<string>, f: nat) {
    |fields| >= 4 && f < 4 && ToIntChecked(fields[f]).None?
    && forall j :: 0 <= j < f ==> ToIntChecked(fields[j]).Some?
  }

  /** Line `l` (counting the header as 1) has a field import rejects. */
  predicate LineRejected(lines: seq<string>, l: nat) {
    1 <= l <= |lines| && ClassifyLine(lines[l - 1]).Reject?
  }

  /** What the import loop does with one data line. */
  function ClassifyLine(line: string): (r: LineOutcome)
    ensures r.Accept? ==> FitsInt32(r.d)
    ensures r.Reject? ==> BadField(Split(line, ','), r.field)
  {
    var fields := Split(line, ',');
    if |fields| < 4 then Skip
    else match FirstNonNumeric(fields, 0)
      case Some(f) => Reject(f)
      case None => Accept(XlatData(ToInt(fields[0]), ToInt(fields[1]), ToInt(fields[2]), ToInt(fields[3])))
  }

  /** The import loop over per-line outcomes: the samples accepted from lines
      2..upTo (line 1, the header, is read and dropped), or the error of the
      first rejected line, which ends the loop. */
  function Fold(outcomes: seq<LineOutcome>, upTo: nat): (r: Result<seq<XlatData>, ImportError>)
    requires upTo <= |outcomes|
    ensures r.Ok? ==> |r.value| <= (if upTo == 0 then 0 else upTo - 1)
    ensures r.Err? ==> 2 <= r.error.line <= upTo
  {
    if upTo <= 1 then Ok([])
    else match Fold(outcomes, upTo - 1)
      case Err(e) => Err(e)
      case Ok(acc) =>
        match outcomes[upTo - 1]
        case Skip => Ok(acc)
        case Reject(f) => Err(NonNumeric(f, upTo))
        case Accept(d) => Ok(acc + [d])
  }

  function Outcomes(lines: seq<string>): (os: seq<LineOutcome>)
    ensures |os| == |lines|
    ensures forall i {:trigger ClassifyLine(lines[i])} :: 0 <= i < |lines| ==> os[i] == ClassifyLine(lines[i])
  {
    seq(|lines|, i requires 0 <= i < |lines| => ClassifyLine(lines[i]))
  }

  /** What importing lines 1..upTo yields. */
  function ImportPrefix(lines: seq<string>, upTo: nat): Result<seq<XlatData>, ImportError>
    requires upTo <= |lines|
  {
    Fold(Outcomes(lines), upTo)
  }

  function ImportLines(lines: seq<string>): (r: Result<seq<XlatData>, ImportError>)
    ensures r.Ok? ==> (|r.value| < |lines| || lines == [])
    ensures r.Err? ==> 2 <= r.error.line <= |lines|
  {
    ImportPrefix(lines, |lines|)
  }

  lemma {:induction false} FoldErrorLocated(os: seq<LineOutcome>, upTo: nat)
    requires upTo <= |os| && Fold(os, upTo).Err?
    ensures var e := Fold(os, upTo).error;
      2 <= e.line <= upTo && Fold(os, e.line - 1).Ok? && os[e.line - 1] == Reject(e.field)
  {
    if Fold(os, upTo - 1).Err? {
      FoldErrorLocated(os, upTo - 1);
    }
  }

  /** A reported error names a line after the header with at least four
      fields and the first of its first four fields that is not an int; every
      line before it was read without error. */
  lemma RejectedLine(lines: seq<string>, i: nat)
    requires i < |lines| && Outcomes(lines)[i].Reject?
    ensures BadField(Split(lines[i], ','), Outcomes(lines)[i].field)
  {
    assert Outcomes(lines)[i] == ClassifyLine(lines[i]);
  }

  lemma ImportErrorLocated(lines: seq<string>, e: ImportError)
    requires ImportLines(lines) == Err(e)
    ensures 2 <= e.line <= |lines|
    ensures ImportPrefix(lines, e.line - 1).Ok?
    ensures BadField(Split(lines[e.line - 1], ','), e.field)
  {
    var os := Outcomes(lines);
    FoldErrorLocated(os, |lines|);
    RejectedLine(lines, e.line - 1);
  }

  lemma {:induction false} FoldSucceedsIff(os: seq<LineOutcome>, upTo: nat)
    requires upTo <= |os|
    ensures Fold(os, upTo).Ok? <==> forall l :: 1 <= l < upTo ==> !os[l].Reject?
  {
    if upTo > 1 {
      FoldSucceedsIff(os, upTo - 1);
    }
  }

  /** Import succeeds exactly when no line after the header has four or more
      fields with a non-int among its first four. */
  lemma ImportSucceedsIff(lines: seq<string>)
    ensures ImportLines(lines).Ok? <==> forall l :: 2 <= l <= |lines| ==> !LineRejected(lines, l)
  {
    var os := Outcomes(lines);
    assert ImportLines(lines) == Fold(os, |lines|);
    FoldSucceedsIff(os, |lines|);
    assert forall l :: 1 <= l < |lines| ==> (os[l].Reject? <==> LineRejected(lines, l + 1));
  }

  lemma {:induction false} FoldFitsInt32(os: seq<LineOutcome>, upTo: nat)
    requires upTo <= |os|
    requires forall i :: 0 <= i < |os| && os[i].Accept? ==> FitsInt32(os[i].d)
    ensures Fold(os, upTo).Ok? ==> AllFitInt32(Fold(os, upTo).value)
  {
    if upTo > 1 {
      FoldFitsInt32(os, upTo - 1);
    }
  }

  /** Every imported field fits a 32-bit int. */
  lemma ImportedFitInt32(lines: seq<string>, upTo: nat)
    requires upTo <= |lines|
    ensures ImportPrefix(lines, upTo).Ok? ==> AllFitInt32(ImportPrefix(lines, upTo).value)
  {
    FoldFitsInt32(Outcomes(lines), upTo);
  }

  /** The field check of the import loop decides a line as ClassifyLine
      does: too few fields skip it, the first bad field rejects it, and four
      good fields give the sample read with `toInt`. */
  lemma ClassifyShort(line: string)
    requires |Split(line, ',')| < 4
    ensures ClassifyLine(line) == Skip
  {
  }

  lemma ClassifyBad(line: string, f: nat)
    requires BadField(Split(line, ','), f)
    ensures ClassifyLine(line) == Reject(f)
  {
    var fields := Split(line, ',');
    var r := FirstNonNumeric(fields, 0);
  }

  lemma ClassifyGood(line: string)
    requires |Split(line, ',')| >= 4
    requires forall j :: 0 <= j < 4 ==> ToIntChecked(Split(line, ',')[j]).Some?
    ensures var fields := Split(line, ',');
      ClassifyLine(line)
      == Accept(XlatData(ToInt(fields[0]), ToInt(fields[1]), ToInt(fields[2]), ToInt(fields[3])))
  {
    var r := FirstNonNumeric(Split(line, ','), 0);
    assert r.None?;
  }

  /** One more line through the import loop. */
  lemma ImportStep(lines: seq<string>, k: nat, acc: seq<XlatData>)
    requires 1 <= k < |lines| && ImportPrefix(lines, k) == Ok(acc)
    ensures ImportPrefix(lines, k + 1) == match ClassifyLine(lines[k])
      case Skip => Ok(acc)
      case Reject(f) => Err(NonNumeric(f, k + 1))
      case Accept(d) => Ok(acc + [d])
  {
    assert Outcomes(lines)[k] == ClassifyLine(lines[k]);
  }

  lemma {:induction false} FoldErrorSticks(os: seq<LineOutcome>, a: nat, b: nat, e: ImportError)
    requires a <= b <= |os| && Fold(os, a) == Err(e)
    ensures Fold(os, b) == Err(e)
    decreases b - a
  {
    if a < b {
      FoldErrorSticks(os, a, b - 1, e);
    }
  }

  /** Once a line is rejected the import is over: later lines change nothing. */
  lemma ImportErrorSticks(lines: seq<string>, k: nat, e: ImportError)
    requires k <= |lines| && ImportPrefix(lines, k) == Err(e)
    ensures ImportLines(lines) == Err(e)
  {
    FoldErrorSticks(Outcomes(lines), k, |lines|, e);
  }

  // ---------------------------------------------------------------------------
  // Round trip
  // ---------------------------------------------------------------------------

  /** A line without a comma is skipped. */
  lemma LineWithoutCommaSkipped(line: string)
    requires ',' !in line
    ensures ClassifyLine(line) == Skip
  {
    SplitSinglePart(line, ',');
  }

  /** An exported row reads back as the sample it was printed from. */
  lemma RowRoundTrip(d: XlatData)
    requires FitsInt32(d)
    ensures ClassifyLine(FormatRow(d)) == Accept(d)
  {
    var fields := RowFields(d);
    SplitJoin(fields, ',');
    FormatIntRoundTrip(d.reportNumber);
    FormatIntRoundTrip(d.latency);
    FormatIntRoundTrip(d.avgLatency);
    FormatIntRoundTrip(d.stdev);
  }

  lemma {:induction false} SummarySkipped(values: seq<int>, samples: seq<XlatData>, upTo: nat)
    requires |values| == |SummaryLabels|
    requires upTo <= |SummaryLabels| + 1
    ensures ImportPrefix(ExportLines(values, samples), upTo) == Ok([])
  {
    var lines := ExportLines(values, samples);
    if upTo > 1 {
      SummarySkipped(values, samples, upTo - 1);
      if upTo - 1 < |SummaryLabels| {
        assert lines[upTo - 1] == SummaryLines(values)[upTo - 1];
      }
      LineWithoutCommaSkipped(lines[upTo - 1]);
      assert Outcomes(lines)[upTo - 1] == Skip;
    }
  }

  lemma RowOutcome(values: seq<int>, samples: seq<XlatData>, k: nat)
    requires |values| == |SummaryLabels| && k < |samples| && FitsInt32(samples[k])
    ensures Outcomes(ExportLines(values, samples))[|SummaryLabels| + 1 + k] == Accept(samples[k])
  {
    var lines := ExportLines(values, samples);
    RowRoundTrip(samples[k]);
    assert lines[|SummaryLabels| + 1 + k] == FormatRow(samples[k]);
    assert Outcomes(lines)[|SummaryLabels| + 1 + k] == ClassifyLine(lines[|SummaryLabels| + 1 + k]);
  }

  lemma {:induction false} RowsImported(values: seq<int>, samples: seq<XlatData>, k: nat)
    requires |values| == |SummaryLabels| && AllFitInt32(samples)
    requires k <= |samples|
    ensures ImportPrefix(ExportLines(values, samples), |SummaryLabels| + 1 + k) == Ok(samples[..k])
  {
    if k == 0 {
      SummarySkipped(values, samples, |SummaryLabels| + 1);
    } else {
      var lines := ExportLines(values, samples);
      var at := |SummaryLabels| + k;
      RowsImported(values, samples, k - 1);
      assert lines[at] == FormatRow(samples[k - 1]);
      RowRoundTrip(samples[k - 1]);
      ImportStep(lines, at, samples[..k - 1]);
      PrefixGrows(samples, k);
    }
  }

  /** Importing an exported file gives back exactly the exported samples, in
      order, whatever the summary values were: the first summary line is taken
      for the header and the others, holding no comma, are skipped. */
  lemma ExportImportRoundTrip(values: seq<int>, samples: seq<XlatData>)
    requires |values| == |SummaryLabels| && AllFitInt32(samples)
    ensures ImportLines(ExportLines(values, samples)) == Ok(samples)
  {
    RowsImported(values, samples, |samples|);
    assert samples[..|samples|] == samples;
  }
}
