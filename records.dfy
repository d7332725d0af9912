/** One device report: the four ints of `struct xlatData`, in their order. */
module Records {
  import opened Text

  datatype XlatData = XlatData(reportNumber: int, latency: int, avgLatency: int, stdev: int)

  /** Every field fits a 32-bit int, as it does when it came out of `toInt`. */
  predicate FitsInt32(d: XlatData) {
    InInt32(d.reportNumber) && InInt32(d.latency) && InInt32(d.avgLatency) && InInt32(d.stdev)
  }

  predicate AllFitInt32(ds: seq<XlatData>) {
    forall i :: 0 <= i < |ds| ==> FitsInt32(ds[i])
  }

  /** The latency column, in store order. */
  function Latencies(ds: seq<XlatData>): (ls: seq<int>)
    ensures |ls| == |ds|
    ensures forall i :: 0 <= i < |ds| ==> ls[i] == ds[i].latency
  {
    if |ds| == 0 then [] else Latencies(ds[..|ds| - 1]) + [ds[|ds| - 1].latency]
  }

  /** A prefix one longer is the shorter prefix and the next report. */
  lemma PrefixGrows(ds: seq<XlatData>, k: nat)
    requires 0 < k <= |ds|
    ensures ds[..k] == ds[..k - 1] + [ds[k - 1]]
  {
  }
}
