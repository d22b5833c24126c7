# Timechart aggregation core, modelled in Dafny

A timechart aggregates the values of a measure into time buckets, split by
the values of one field. Only the N highest (or lowest) scoring split-by
values keep their own series. Every other value is folded into a synthetic
"other" series. This project models the helpers that do this, from
`pkg/segment/aggregations/timechartagg.go`:

- **Time buckets** (`time_buckets.dfy`, module `TimeBuckets`): the list of
  bucket start times for a query range, and the bucket a timestamp falls into.
- **Bucket configuration** (`time_bucket_config.dfy`, module
  `TimeBucketConfig`): a span (number and unit) becomes a millisecond
  interval. A split-by field gets a limit: the explicit one, or by default
  the top ten, ranked by sum for one measure and by frequency for several.
- **Running-stat expansion** (`running_stats.dfy`, module `RunningStats`):
  a count becomes one primitive count and an average becomes a sum plus a
  count. The three collections the expanders append to are the fields of
  the class `TimechartRunningStats`.
- **Top-N classification** (`top_n.dfy`, module `TopN`, with the in-place
  sort in `sorting.dfy`, module `Sorting`): the split-by values are ranked
  by accumulated score or by frequency, and the first `num` are kept.
- **Merging** (`merge.dfy`, module `Merge`): merging one partial value into
  another, adding up per-value counts from two shards, and routing an
  incoming value. The routing goes to the "other" series, to a ranking
  score, or to the result. Its state is the class `TMLimitResult`.

Shared types are in `timechart_types.dfy` (module `TimechartTypes`).
`wrappers.dfy` holds `Option` and `Result`.

The two-value reduce primitive and the score reader of a value are
parameters of type `Reducer` and `ScoreReader`. Their implementation is not
part of this model. A Go map mutated through its reference, and a value
updated through a pointer, are modelled as an input value plus the returned
new value. This applies to `MergeMap` and `MergeVal`. Iteration over a Go
map is a loop that picks the remaining keys in an arbitrary order, so every
contract holds for any iteration order.

Behaviour of the code that the model follows as written:

- Bucket generation appends the current boundary and stops once the next
  boundary would pass the end. The list therefore holds exactly the
  boundaries `start + k*interval` that lie below the end. Its length is
  exactly the range divided by the interval, rounded up; it is never one
  less.
- The centisecond and decisecond cases multiply the span by 10 ms or
  100 ms but do not convert the duration to milliseconds. The interval is
  therefore the nanosecond count: `num * 10^7` and `num * 10^8`.
- The average expander records `idx` for the sum and `idx + 1` for the
  count. These are two different reverse-index entries, not two copies of
  the original position.
- Value merging never merges sketches. Count, Avg, Min, Max, Range and Sum
  are reduced as a sum. Any other aggregation, cardinality included, is
  handed to the reduce primitive unchanged. The sketches and the
  addition-only flag have no effect.

## Model

| member | source | states |
|---|---|---|
| TimeBuckets.GenerateTimeRangeBuckets | pkg/segment/aggregations/timechartagg.go:19-33 | The buckets are `start + k*interval` for consecutive `k`, all below the end, strictly increasing, empty exactly when start ≥ end, and their number is ceil((end − start)/interval). |
| TimeBuckets.CompleteBucketList | pkg/segment/aggregations/timechartagg.go:22-30 | An evenly spaced list below the end whose next boundary reaches the end is strictly increasing, empty iff the range is empty, and of length ceil((end − start)/interval). |
| TimeBuckets.FindTimeRangeBucket | pkg/segment/aggregations/timechartagg.go:36-39 | Looking up a timestamp returns one of the bucket starts. |
| TimeBuckets.FindTimeRangeBucketEncloses | pkg/segment/aggregations/timechartagg.go:36-39 | On an evenly spaced list, every timestamp from the first start up to the end of the last bucket has an in-range index, and the bucket returned is the unique one with `b ≤ t < b + interval`. |
| TimeBucketConfig.DurationMillis | pkg/segment/aggregations/timechartagg.go:53-66 | Converting `num` units to whole milliseconds gives `num` times the unit's millisecond length and never exceeds the nanosecond count. |
| TimeBucketConfig.IntervalMillis | pkg/segment/aggregations/timechartagg.go:42-67 | The interval is `num` times the unit's entry in the millisecond table. The table holds 0 for microseconds, 1 ms, 10^7 for centiseconds, 10^8 for deciseconds, 1000 ms per second, and the fixed minute, hour, day, 7-day, 30-day and 120-day lengths. |
| TimeBucketConfig.InitTimeBucket | pkg/segment/aggregations/timechartagg.go:41-94 | The configuration has the span's interval, zero start and end, and the split-by field. It has no limit without a split-by field, the explicit limit if one is given, and otherwise top 10 ranked by frequency for more than one measure and by sum otherwise. |
| TimeBucketConfig.DefaultRankingMode | pkg/segment/aggregations/timechartagg.go:73-86 | With a split-by field and no explicit limit, ranking is by sum exactly when there is at most one measure, and the default keeps the top ten. |
| RunningStats.IndicesOfColumnAppend | pkg/segment/aggregations/timechartagg.go:96-104 | Appending a converted measure and its reverse-index entry adds that entry to its own column's index list and to no other. |
| RunningStats.TimechartRunningStats.constructor | pkg/segment/aggregations/timechartagg.go:96-122 | The collections start as given, and empty collections satisfy the column-index invariant the expanders preserve. |
| RunningStats.TimechartRunningStats.AddAggCountToTimechartRunningStats | pkg/segment/aggregations/timechartagg.go:96-104 | It only appends: one Count measure on the same column, `idx` to the reverse index, and `idx` to that column's index list. Other columns are unchanged and the column-index invariant is preserved. |
| RunningStats.TimechartRunningStats.AddAggAvgToTimechartRunningStats | pkg/segment/aggregations/timechartagg.go:106-122 | It only appends: a Sum then a Count on the same column, `idx` then `idx + 1` to the reverse index and to that column's list. Other columns are unchanged and the invariant is preserved. |
| Sorting.SortSlice | pkg/segment/aggregations/timechartagg.go:154-162 | The slice ends up ordered by the comparator, descending for top and ascending for bottom, and is a permutation of its input. |
| TopN.SortedCopy | pkg/segment/aggregations/timechartagg.go:185-193 | The sorted ranking list is ordered by the comparator and is a permutation of the collected list. |
| TopN.RanksExactlyPermutation | pkg/segment/aggregations/timechartagg.go:154-162 | Sorting keeps a ranking list a one-entry-per-value listing of the ranked values with their scores, and its length is the number of ranked values. |
| TopN.IsRankBySum | pkg/segment/aggregations/timechartagg.go:302-307 | Ranking is by sum exactly when a timechart with a limit exists and that limit does not rank by frequency. |
| TopN.IsOtherCol | pkg/segment/aggregations/timechartagg.go:224-233 | A value is folded into "other" exactly when a classification exists, covers the value, and does not keep it. |
| TopN.LimitCount | pkg/segment/aggregations/timechartagg.go:164-167 | A limit keeps `num` values clipped to the number of ranked ones, and none when `num` is not positive. |
| TopN.CollectScorePairs | pkg/segment/aggregations/timechartagg.go:139-153 | Every scored value is marked not kept, and the values with a readable score are listed once each with that score and consecutive indices. |
| TopN.CollectCounts | pkg/segment/aggregations/timechartagg.go:178-183 | Every counted value is marked not kept and listed once, and each count entry carries its value's count and position. |
| TopN.CountsRankExactly | pkg/segment/aggregations/timechartagg.go:178-200 | The collected count entries name every counted value once, through their index into the value list, with its count. |
| TopN.MarkKept | pkg/segment/aggregations/timechartagg.go:164-171 | Exactly the values of the first `min(num, length)` sorted entries become kept, none when `num` ≤ 0, and no key is added. |
| TopN.SortedPrefixSelection | pkg/segment/aggregations/timechartagg.go:164-171 | Keeping a sorted prefix keeps exactly the limit's number of ranked values, and each outranks or ties every ranked value not kept. |
| TopN.RankBySum | pkg/segment/aggregations/timechartagg.go:136-172 | Sum ranking covers every value of the score map. It keeps the top or bottom `num` values among those with a readable score, and values with an unreadable score are not kept. |
| TopN.RankByFreq | pkg/segment/aggregations/timechartagg.go:173-204 | Frequency ranking covers every counted value and keeps the top or bottom `num` by count. |
| TopN.CheckGroupByColValsAgainstLimit | pkg/segment/aggregations/timechartagg.go:127-207 | The result is nil iff there is no timechart or no limit. Its keys are the score map's under sum ranking and the count map's otherwise. Exactly min(num, #ranked) values are kept, none when num ≤ 0. Kept values outrank or tie every ranked value not kept, and unreadable scores are folded into "other". |
| TopN.KeptOutranks | pkg/segment/aggregations/timechartagg.go:127-207 | In a classification, a ranked value that strictly beats a kept value is kept too. |
| TopN.InitialScoreMap | pkg/segment/aggregations/timechartagg.go:210-222 | A score map exists exactly under sum ranking. It then has one entry per counted value, each an invalid empty placeholder. |
| Merge.MergeFunc | pkg/segment/aggregations/timechartagg.go:245-274 | Count, Avg, Min, Max, Range and Sum merge as Sum, other aggregations as themselves, and the result is never one of the other five. |
| Merge.MergeVal | pkg/segment/aggregations/timechartagg.go:237-283 | When the reduction of the incoming value with the current one (under the normalised function) succeeds, its result is the merged value, for every aggregation; when it fails, the current value is kept unchanged. |
| Merge.MergeValAdditive | pkg/segment/aggregations/timechartagg.go:245-283 | Every additive aggregation merges exactly like Sum, and the sketches and the addition flag do not affect the result. |
| Merge.MergeMap | pkg/segment/aggregations/timechartagg.go:285-300 | The keys are the union of both maps. Shared values get the sum of both counts, values on one side keep their count, and the result equals the reference merge. |
| Merge.MergedCountsCommute | pkg/segment/aggregations/timechartagg.go:285-300 | Merging shard counts gives the same map whichever side is merged into. |
| Merge.MergedCountsAssociate | pkg/segment/aggregations/timechartagg.go:285-300 | Merging three shards' counts gives the same map for either grouping. |
| Merge.MergedCountsIdentity | pkg/segment/aggregations/timechartagg.go:285-300 | Merging in no counts leaves the map unchanged. |
| Merge.MergedCountsTwice | pkg/segment/aggregations/timechartagg.go:285-300 | Merging the same shard twice adds its counts twice, so merging is not idempotent. |
| Merge.TMLimitResult.ShouldAddRes | pkg/segment/aggregations/timechartagg.go:309-328 | Returns true iff the value is not folded into "other" and sum ranking is not still scoring. Otherwise exactly one cell is replaced by the merged value: the other-series entry at `index`, or the value's score. The sketch is unchanged. |

## Left out

- Logging of reduce and score-reading failures is not modelled. Only the
  control flow around it is.
- Sketch merging is not modelled. HyperLogLog sketches are opaque tokens
  that no operation reads, matching the disabled merge path in the code.
- The reduce primitive and a value's score reader are parameters. Their
  arithmetic, type promotion and errors are outside this model.
- Scores are integers rather than 64-bit floats. Ranking only compares
  them, so NaN ordering and rounding are not modelled.
- `sort.Slice` is modelled by an insertion sort with the same comparator.
  Tie order among equal scores is not fixed by either, and nothing is stated
  about it.
- Pointer aliasing of the score and other-series cells is not modelled.
  Cells are values inside `TMLimitResult`, and a nil cell, which would
  panic in the code, is excluded by the precondition of `ShouldAddRes`.
- TimeBuckets.GenerateTimeRangeBuckets: requires a positive interval and no
  unsigned 64-bit overflow of `end + interval` for a non-empty range. The
  code would loop forever with a zero interval and could wrap around near
  the top of the range.
- TimeBucketConfig.IntervalMillis: requires a non-negative span that does
  not overflow the signed 64-bit duration. The code would wrap negative or
  overflowing products when it converts them to an unsigned interval.
- TimeBuckets.FindTimeRangeBucket: requires the timestamp to be at or after
  the first bucket and the index to be in range. The code underflows or
  panics otherwise.
- TimeBuckets.FindTimeRangeBucket: requires a positive interval. The code
  panics on the integer division by zero otherwise.
- Merge.MergeMap: adds counts as unbounded integers. The code adds 64-bit
  `int` counts, which wrap around on overflow; the sums here are the
  mathematical ones.
