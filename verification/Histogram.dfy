/** The latency histogram: a value goes into the first bucket that can hold it,
    and the cumulative counts printed for Prometheus count the values up to each
    bound. Values are real numbers. */
module Histogram {
  import opened Counting

  const BUCKETS: nat := 14

  const BOUNDS: seq<real> := [0.001, 0.005, 0.01, 0.025, 0.05, 0.1, 0.25, 0.5, 1.0, 2.5, 5.0, 10.0, 25.0, 50.0]

  ghost predicate Increasing(bounds: seq<real>) {
    forall i, j :: 0 <= i < j < |bounds| ==> bounds[i] < bounds[j]
  }

  /** First bucket whose bound is not below the value, or the length. */
  function FirstFit(bounds: seq<real>, v: real): (k: nat)
    ensures k <= |bounds|
    ensures k < |bounds| ==> v <= bounds[k]
    ensures forall i :: 0 <= i < k ==> v > bounds[i]
  {
    if bounds == [] || v <= bounds[0] then 0 else 1 + FirstFit(bounds[1..], v)
  }

  /** Recorded values up to a bound. */
  function AtMost(values: seq<real>, bound: real): nat {
    Count(values, v => v <= bound)
  }

  /** Recorded values that went into bucket `k`. */
  function InBucket(values: seq<real>, bounds: seq<real>, k: nat): nat {
    Count(values, v => FirstFit(bounds, v) == k)
  }

  function Total(values: seq<real>): real {
    if values == [] then 0.0 else Total(values[..|values| - 1]) + values[|values| - 1]
  }

  /** The bounds step by 1, 2.5 and 5 within each power of ten: from the third on,
      each is a tenth of the one three places further. */
  lemma BoundsByDecades()
    ensures |BOUNDS| == 14 && BOUNDS[..5] == [0.001, 0.005, 0.01, 0.025, 0.05]
    ensures forall i :: 2 <= i < 11 ==> BOUNDS[i + 3] == 10.0 * BOUNDS[i]
  {
  }

  lemma {:induction false} TotalOfParts(a: seq<real>, b: seq<real>, v: real)
    ensures Total(a + b) == Total(a) + Total(b) && Total([v]) == v
  {
    if b == [] {
      assert a + b == a;
    } else {
      var n := |b| - 1;
      TotalOfParts(a, b[..n], v);
      assert (a + b)[..|a| + n] == a + b[..n];
    }
  }

  class Data {
    const buckets: seq<real>
    const counts: array<nat>
    var sumCount: nat
    var sumTotal: real
    /** Everything recorded so far. */
    ghost var values: seq<real>

    ghost predicate Valid()
      reads this, counts
    {
      && |buckets| == counts.Length && Increasing(buckets)
      && (forall k :: 0 <= k < counts.Length ==> counts[k] == InBucket(values, buckets, k))
      && sumCount == |values| && sumTotal == Total(values)
    }

    constructor ()
      ensures Valid() && fresh(counts) && values == [] && buckets == BOUNDS && counts.Length == BUCKETS
    {
      buckets := BOUNDS;
      counts := new nat[BUCKETS](_ => 0);
      sumCount, sumTotal := 0, 0.0;
      values := [];
    }

    /** `histogram_record`. */
    method Record(value: real)
      requires Valid()
      modifies this, counts
      ensures Valid() && values == old(values) + [value]
    {
      var i := 0;
      while i < counts.Length
        invariant 0 <= i <= counts.Length
        invariant forall k :: 0 <= k < i ==> value > buckets[k]
        invariant forall k :: 0 <= k < counts.Length ==> counts[k] == old(counts[k])
      {
        if value <= buckets[i] { break; }
        i := i + 1;
      }
      assert i == FirstFit(buckets, value);
      if i < counts.Length {
        counts[i] := counts[i] + 1;
      }
      sumCount := sumCount + 1;
      sumTotal := sumTotal + value;
      forall k | 0 <= k < counts.Length
        ensures InBucket(values + [value], buckets, k) == InBucket(values, buckets, k) + One(i == k)
      {
        CountAppend(values, value, v => FirstFit(buckets, v) == k);
      }
      assert (values + [value])[..|values|] == values;
      values := values + [value];
    }

    /** The counting loop of `format_histogram`: one cumulative count per bound,
        each the number of recorded values up to that bound; they do not
        decrease and none exceeds the total printed for +Inf. */
    method Cumulative() returns (out: seq<nat>, inf: nat)
      requires Valid()
      ensures |out| == counts.Length && inf == |values|
      ensures forall k :: 0 <= k < |out| ==> out[k] == AtMost(values, buckets[k])
      ensures forall j, k :: 0 <= j < k < |out| ==> out[j] <= out[k]
      ensures forall k :: 0 <= k < |out| ==> out[k] <= inf
    {
      var cumulative := 0;
      out := [];
      for i := 0 to counts.Length
        invariant |out| == i
        invariant cumulative == if i == 0 then 0 else AtMost(values, buckets[i - 1])
        invariant forall k :: 0 <= k < i ==> out[k] == AtMost(values, buckets[k])
      {
        BucketStep(values, buckets, i);
        cumulative := cumulative + counts[i];
        out := out + [cumulative];
      }
      inf := sumCount;
      forall j, k | 0 <= j < k < |out| ensures out[j] <= out[k] {
        CountMonotone(values, v => v <= buckets[j], v => v <= buckets[k]);
      }
      forall k | 0 <= k < |out| ensures out[k] <= inf {
        CountBound(values, v => v <= buckets[k]);
      }
    }
  }

  /** Prefix sums step by step: the values up to a bound are those up to the
      bound before it and those whose first fit is this bucket. */
  lemma {:induction false} BucketStep(values: seq<real>, bounds: seq<real>, k: nat)
    requires Increasing(bounds) && k < |bounds|
    ensures AtMost(values, bounds[k]) ==
            (if k == 0 then 0 else AtMost(values, bounds[k - 1])) + InBucket(values, bounds, k)
  {
    if values != [] {
      var init, v := values[..|values| - 1], values[|values| - 1];
      BucketStep(init, bounds, k);
      var f := FirstFit(bounds, v);
      assert v <= bounds[k] <==> f <= k;
      if k > 0 { assert v <= bounds[k - 1] <==> f <= k - 1; }
    }
  }
}
