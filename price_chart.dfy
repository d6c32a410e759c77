/** The price-distribution bar chart (`updateChartData`, src/App.js): ten
    fixed price ranges and how many transactions fall into each. */
module PriceChart {
  import opened Transactions

  /** The ten range labels, in the order the chart shows them. */
  const Labels: seq<string> := [
    "0-100", "101-200", "201-300", "301-400", "401-500",
    "501-600", "601-700", "701-800", "801-900", "901+"]

  const BucketCount: nat := 10

  /** What the chart is given: the labels and, label by label, the counts. */
  datatype ChartData = ChartData(labels: seq<string>, counts: seq<nat>)

  /** The chart before anything has been loaded. */
  const NoChart := ChartData([], [])

  /** Price `p` lies in the range of bucket `k`: above 100 * k (except for the
      first range, which takes every price up to 100) and at most
      100 * (k + 1) (except for the last range, which has no upper bound). */
  ghost predicate InRange(p: real, k: int)
  {
    0 <= k < BucketCount
    && (k == 0 || (k as real) * 100.0 < p)
    && (k == BucketCount - 1 || p <= (k as real + 1.0) * 100.0)
  }

  /** The if/else-if chain of `<=` tests: the first threshold the price does
      not exceed picks the bucket; anything above 900 lands in "901+". */
  function BucketOf(p: real): (k: nat)
    ensures InRange(p, k)
    ensures forall j :: InRange(p, j) ==> j == k
  {
    if p <= 100.0 then 0
    else if p <= 200.0 then 1
    else if p <= 300.0 then 2
    else if p <= 400.0 then 3
    else if p <= 500.0 then 4
    else if p <= 600.0 then 5
    else if p <= 700.0 then 6
    else if p <= 800.0 then 7
    else if p <= 900.0 then 8
    else 9
  }

  /** A higher price never lands in a lower bucket. */
  lemma BucketMonotone(p: real, q: real)
    requires p <= q
    ensures BucketOf(p) <= BucketOf(q)
  {
  }

  /** How many of `ts` fall into bucket `k`. */
  function CountIn(ts: seq<Transaction>, k: nat): (r: nat)
    ensures r <= |ts|
  {
    if ts == [] then 0
    else CountIn(ts[..|ts| - 1], k) + (if BucketOf(ts[|ts| - 1].price) == k then 1 else 0)
  }

  /** The counts of all ten buckets, zero ones included. */
  function BucketCounts(ts: seq<Transaction>): seq<nat>
  {
    seq(BucketCount, k requires 0 <= k => CountIn(ts, k))
  }

  /** The chart computed for a list of transactions. */
  function ChartOf(ts: seq<Transaction>): ChartData
  {
    ChartData(Labels, BucketCounts(ts))
  }

  function Sum(s: seq<nat>): nat
  {
    if s == [] then 0 else Sum(s[..|s| - 1]) + s[|s| - 1]
  }

  lemma {:induction false} SumOfZeros(s: seq<nat>)
    requires forall k :: 0 <= k < |s| ==> s[k] == 0
    ensures Sum(s) == 0
  {
    if s != [] {
      SumOfZeros(s[..|s| - 1]);
    }
  }

  /** `s` with one added to entry `k`. */
  function Bump(s: seq<nat>, k: nat): (r: seq<nat>)
    requires k < |s|
    ensures |r| == |s| && r[k] == s[k] + 1
    ensures forall j :: 0 <= j < |s| && j != k ==> r[j] == s[j]
  {
    s[k := s[k] + 1]
  }

  lemma {:induction false} SumBump(s: seq<nat>, k: nat)
    requires k < |s|
    ensures Sum(Bump(s, k)) == Sum(s) + 1
  {
    var n := |s| - 1;
    if k < n {
      SumBump(s[..n], k);
      assert Bump(s, k)[..n] == Bump(s[..n], k);
    } else {
      assert Bump(s, k)[..n] == s[..n];
    }
  }

  /** Adding a transaction bumps exactly its own bucket. */
  lemma BucketCountsStep(ts: seq<Transaction>, t: Transaction)
    ensures BucketCounts(ts + [t]) == Bump(BucketCounts(ts), BucketOf(t.price))
  {
    assert (ts + [t])[..|ts|] == ts;
  }

  /** Every transaction is counted exactly once: the ten counts add up to the
      number of transactions, and the chart always has all ten labels. */
  lemma {:induction false} ChartCountsEveryTransaction(ts: seq<Transaction>)
    ensures |ChartOf(ts).labels| == |ChartOf(ts).counts| == BucketCount
    ensures Sum(ChartOf(ts).counts) == |ts|
  {
    if ts == [] {
      SumOfZeros(BucketCounts(ts));
    } else {
      var n := |ts| - 1;
      ChartCountsEveryTransaction(ts[..n]);
      BucketCountsStep(ts[..n], ts[n]);
      assert ts[..n] + [ts[n]] == ts;
      SumBump(BucketCounts(ts[..n]), BucketOf(ts[n].price));
    }
  }

  /** No two ranges share a label: their first characters are the digits
      0 to 9 in order. */
  lemma LabelsDistinct()
    ensures forall j, k :: 0 <= j < BucketCount && 0 <= k < BucketCount && Labels[j] == Labels[k] ==> j == k
  {
    assert forall k :: 0 <= k < BucketCount ==> |Labels[k]| > 0 && Labels[k][0] as int == '0' as int + k;
  }

  /** Counting one more transaction adds one to its own bucket only. */
  lemma CountInStep(ts: seq<Transaction>, i: nat)
    requires i < |ts|
    ensures forall k :: CountIn(ts[..i + 1], k) == CountIn(ts[..i], k) + (if BucketOf(ts[i].price) == k then 1 else 0)
  {
    assert ts[..i + 1][..i] == ts[..i];
  }

  /** The `priceRanges` dictionary: one counter per label, all starting at
      zero, and for each transaction in turn the counter of its range goes up
      by one. */
  method PriceRanges(ts: seq<Transaction>) returns (ranges: map<string, nat>)
    ensures forall l :: l in ranges <==> l in Labels
    ensures forall k :: 0 <= k < BucketCount ==> ranges[Labels[k]] == CountIn(ts, k)
  {
    LabelsDistinct();
    ranges := map[
      "0-100" := 0, "101-200" := 0, "201-300" := 0, "301-400" := 0, "401-500" := 0,
      "501-600" := 0, "601-700" := 0, "701-800" := 0, "801-900" := 0, "901+" := 0];
    for i := 0 to |ts|
      invariant forall l :: l in ranges <==> l in Labels
      invariant forall k :: 0 <= k < BucketCount ==> ranges[Labels[k]] == CountIn(ts[..i], k)
    {
      var b := BucketOf(ts[i].price);
      ranges := ranges[Labels[b] := ranges[Labels[b]] + 1];
      CountInStep(ts, i);
    }
    assert ts[..|ts|] == ts;
  }
}
