/** Bucket generation and lookup: the start timestamps of the time buckets
    of a query range, and the bucket a timestamp falls into. */
module TimeBuckets {
  import opened Wrappers
  import opened TimechartTypes

  /** `points` are start, start + interval, start + 2*interval, ... */
  ghost predicate EvenlySpaced(points: seq<int>, start: int, interval: int)
  {
    forall k :: 0 <= k < |points| ==> points[k] == start + k * interval
  }

  /** Division rounded up. */
  function CeilDiv(a: nat, b: nat): nat
    requires b > 0
  {
    (a + b - 1) / b
  }

  lemma MulMonotone(a: int, b: int, c: nat)
    requires a <= b
    ensures a * c <= b * c
  {
  }

  /** The quotient of `d` by `interval` is the `k` whose interval-sized
      window [k*interval, (k+1)*interval) holds `d`. */
  lemma {:induction false} DivUnique(d: nat, interval: nat, k: nat)
    requires interval > 0
    requires k * interval <= d < k * interval + interval
    ensures d / interval == k
  {
    var q, m := d / interval, d % interval;
    assert d == q * interval + m && 0 <= m < interval;
    if q < k {
      assert (k - 1) * interval == k * interval - interval;
      MulMonotone(q, k - 1, interval);
    } else if q > k {
      assert (k + 1) * interval == k * interval + interval;
      MulMonotone(k + 1, q, interval);
    }
  }

  /** A count `n` of interval steps that covers `d` and whose last step starts
      inside `d` is the rounded-up quotient. */
  lemma {:induction false} CeilDivUnique(d: nat, interval: nat, n: nat)
    requires interval > 0 && n > 0
    requires (n - 1) * interval < d <= n * interval
    ensures CeilDiv(d, interval) == n
  {
    assert (n - 1) * interval == n * interval - interval;
    DivUnique(d + interval - 1, interval, n);
  }

  /** What a complete bucket list is: evenly spaced from `start`, every entry
      below `end`, and the next boundary at or past `end`. Such a list is
      strictly increasing, empty exactly when the range is, and as long as the
      range divided by the interval, rounded up. */
  lemma {:induction false} CompleteBucketList(buckets: seq<int>, start: nat, end: nat, interval: nat)
    requires start < end ==> interval > 0
    requires EvenlySpaced(buckets, start, interval)
    requires forall k :: 0 <= k < |buckets| ==> buckets[k] < end
    requires start + |buckets| * interval >= end
    ensures forall i, j :: 0 <= i < j < |buckets| ==> buckets[i] < buckets[j]
    ensures buckets == [] <==> start >= end
    ensures start < end ==> |buckets| == CeilDiv(end - start, interval)
  {
    if buckets != [] {
      assert buckets[0] == start < end;
    }
    if start < end {
      var n := |buckets|;
      assert buckets[n - 1] == start + (n - 1) * interval < end;
      CeilDivUnique(end - start, interval, n);
    }
    forall i, j | 0 <= i < j < |buckets|
      ensures buckets[i] < buckets[j]
    {
      MulMonotone(i + 1, j, interval);
      assert (i + 1) * interval == i * interval + interval;
    }
  }

  /** The loop that lists the bucket starts: it appends the current boundary,
      stops once the next boundary would pass the end, and otherwise steps on.
      The result is exactly the boundaries start + k*interval below the end. */
  method GenerateTimeRangeBuckets(timeHistogram: TimeBucket) returns (buckets: seq<uint64>)
    requires timeHistogram.startTime < timeHistogram.endTime ==> timeHistogram.intervalMillis > 0
    requires timeHistogram.startTime < timeHistogram.endTime ==>
               timeHistogram.endTime + timeHistogram.intervalMillis <= UINT64_LIMIT
    ensures EvenlySpaced(buckets, timeHistogram.startTime, timeHistogram.intervalMillis)
    ensures forall k :: 0 <= k < |buckets| ==> buckets[k] < timeHistogram.endTime
    ensures forall i, j :: 0 <= i < j < |buckets| ==> buckets[i] < buckets[j]
    ensures buckets == [] <==> timeHistogram.startTime >= timeHistogram.endTime
    ensures timeHistogram.startTime < timeHistogram.endTime ==>
              |buckets| == CeilDiv(timeHistogram.endTime - timeHistogram.startTime, timeHistogram.intervalMillis)
  {
    var start, end, interval := timeHistogram.startTime, timeHistogram.endTime, timeHistogram.intervalMillis;
    buckets := [];
    var currentTime := start;
    while currentTime < end
      invariant start <= currentTime
      invariant currentTime < end ==> interval > 0
      invariant currentTime == start + |buckets| * interval
      invariant EvenlySpaced(buckets, start, interval)
      invariant forall k :: 0 <= k < |buckets| ==> buckets[k] < end
      decreases end - currentTime
    {
      assert (|buckets| + 1) * interval == |buckets| * interval + interval;
      buckets := buckets + [currentTime];
      var nextTime := currentTime + interval;
      if nextTime > end {
        break;
      }
      currentTime := nextTime;
    }
    CompleteBucketList(buckets, start, end, interval);
  }

  /** The bucket of `timestamp`: the entry `(timestamp - first) / interval`
      places along the list. */
  function FindTimeRangeBucket(timePoints: seq<uint64>, timestamp: uint64, intervalMillis: uint64): (bucket: uint64)
    requires |timePoints| > 0 && timePoints[0] <= timestamp && intervalMillis > 0
    requires (timestamp - timePoints[0]) / intervalMillis < |timePoints|
    ensures bucket in timePoints
  {
    timePoints[(timestamp - timePoints[0]) / intervalMillis]
  }

  /** On an evenly spaced bucket list, every timestamp from the first bucket up
      to the end of the last one is found: the lookup index is in range, the
      bucket returned encloses the timestamp, and it is the only bucket that does. */
  lemma {:induction false} FindTimeRangeBucketEncloses(timePoints: seq<uint64>, timestamp: uint64, intervalMillis: uint64)
    requires intervalMillis > 0 && |timePoints| > 0
    requires EvenlySpaced(timePoints, timePoints[0], intervalMillis)
    requires timePoints[0] <= timestamp < timePoints[0] + |timePoints| * intervalMillis
    ensures (timestamp - timePoints[0]) / intervalMillis < |timePoints|
    ensures var b := FindTimeRangeBucket(timePoints, timestamp, intervalMillis);
            b <= timestamp < b + intervalMillis
    ensures forall k :: 0 <= k < |timePoints| && timePoints[k] <= timestamp < timePoints[k] + intervalMillis ==>
              timePoints[k] == FindTimeRangeBucket(timePoints, timestamp, intervalMillis)
  {
    var d := timestamp - timePoints[0];
    var q := d / intervalMillis;
    assert q * intervalMillis <= d < q * intervalMillis + intervalMillis;
    if q >= |timePoints| {
      MulMonotone(|timePoints|, q, intervalMillis);
    }
    forall k | 0 <= k < |timePoints| && timePoints[k] <= timestamp < timePoints[k] + intervalMillis
      ensures timePoints[k] == FindTimeRangeBucket(timePoints, timestamp, intervalMillis)
    {
      DivUnique(d, intervalMillis, k);
    }
  }

  /** One-minute buckets over three minutes, and a timestamp in the third. */
  method OneMinuteBucketsScenario()
  {
    var buckets := GenerateTimeRangeBuckets(TimeBucket(60000, 0, 180000, None));
    assert |buckets| == 3 by {
      assert CeilDiv(180000, 60000) == 3;
    }
    assert buckets == [0, 60000, 120000];
    FindTimeRangeBucketEncloses(buckets, 125000, 60000);
    assert FindTimeRangeBucket(buckets, 125000, 60000) == 120000;
  }
}
