/** Turning a timechart span (a number and a unit) and an optional split-by
    clause into a time-bucket configuration, with the default limit policy. */
module TimeBucketConfig {
  import opened Wrappers
  import opened TimechartTypes
  import opened TopN

  // Nanosecond lengths of the duration constants the interval is computed from.
  const MILLISECOND_NS: nat := 1_000_000
  const SECOND_NS: nat := 1_000_000_000
  const MINUTE_NS: nat := 60 * SECOND_NS
  const HOUR_NS: nat := 60 * MINUTE_NS

  /** The factor the span number is multiplied by to form a duration; units
      whose case does no multiplication have factor 1 (millisecond, which
      converts the number as it is) or 0 (no case, interval 0). */
  function DurationFactor(unit: TimeUnit): nat
  {
    match unit
    case Microsecond => 0
    case Millisecond => 1
    case Centisecond => 10 * MILLISECOND_NS
    case Decisecond => 100 * MILLISECOND_NS
    case Second => SECOND_NS
    case Minute => MINUTE_NS
    case Hour => HOUR_NS
    case Day => 24 * HOUR_NS
    case Week => 7 * 24 * HOUR_NS
    case Month => 30 * 24 * HOUR_NS
    case Quarter => 120 * 24 * HOUR_NS
    case UnlistedUnit => 0
  }

  /** The span number neither overflows the signed 64-bit duration nor is
      negative where it is converted to an unsigned interval. */
  predicate SpanInRange(num: int64, unit: TimeUnit)
  {
    DurationFactor(unit) == 0 || (0 <= num && num * DurationFactor(unit) <= INT64_MAX)
  }

  /** Whole milliseconds of a nanosecond duration, truncating toward zero. */
  function Milliseconds(d: int): int
  {
    if d >= 0 then d / MILLISECOND_NS else -((-d) / MILLISECOND_NS)
  }

  /** The whole milliseconds of `num` units of `nanosPerUnit` nanoseconds each. */
  function DurationMillis(num: nat, nanosPerUnit: nat): (millis: nat)
    requires nanosPerUnit % MILLISECOND_NS == 0
    ensures millis == num * (nanosPerUnit / MILLISECOND_NS)
    ensures millis <= num * nanosPerUnit
  {
    var perUnit := nanosPerUnit / MILLISECOND_NS;
    assert nanosPerUnit == perUnit * MILLISECOND_NS;
    assert num * nanosPerUnit == (num * perUnit) * MILLISECOND_NS;
    Milliseconds(num * nanosPerUnit)
  }

  /** Milliseconds per unit, as the interval switch computes them; the
      centisecond and decisecond entries are nanosecond counts. */
  function MillisPerUnit(unit: TimeUnit): nat
  {
    match unit
    case Microsecond => 0
    case Millisecond => 1
    case Centisecond => 10_000_000
    case Decisecond => 100_000_000
    case Second => 1000
    case Minute => 60_000
    case Hour => 3_600_000
    case Day => 86_400_000
    case Week => 7 * 86_400_000
    case Month => 30 * 86_400_000
    case Quarter => 120 * 86_400_000
    case UnlistedUnit => 0
  }

  /** The interval in milliseconds a span stands for: `num` times the unit's
      length. Centiseconds and deciseconds yield the duration's nanosecond
      count, because that case does not convert to milliseconds. */
  function IntervalMillis(num: int64, unit: TimeUnit): (millis: uint64)
    requires SpanInRange(num, unit)
    ensures millis == num * MillisPerUnit(unit)
  {
    match unit
    case Microsecond => 0
    case Millisecond => num
    case Centisecond => num * DurationFactor(Centisecond)
    case Decisecond => num * DurationFactor(Decisecond)
    case Second => DurationMillis(num, SECOND_NS)
    case Minute => DurationMillis(num, MINUTE_NS)
    case Hour => DurationMillis(num, HOUR_NS)
    case Day => DurationMillis(num, 24 * HOUR_NS)
    case Week => DurationMillis(num, 7 * 24 * HOUR_NS)
    case Month => DurationMillis(num, 30 * 24 * HOUR_NS)
    case Quarter => DurationMillis(num, 120 * 24 * HOUR_NS)
    case UnlistedUnit => 0
  }

  /** The limit used when a split-by field is given without an explicit
      limit: the top ten, by sum for one measure and by frequency for more. */
  function DefaultLimit(measureAggLength: int): LimitExpr
  {
    LimitExpr(true, 10, if measureAggLength > 1 then ByFreq else BySum)
  }

  /** A fresh time-bucket configuration: the interval from the span, the
      split-by field, and a limit only when there is a split-by field. */
  function InitTimeBucket(num: int64, timeUnit: TimeUnit, byField: string, limitExpr: Option<LimitExpr>,
                          measureAggLength: int): (timeBucket: TimeBucket)
    requires SpanInRange(num, timeUnit)
    ensures timeBucket.intervalMillis == IntervalMillis(num, timeUnit)
    ensures timeBucket.startTime == 0 && timeBucket.endTime == 0
    ensures timeBucket.timechart.Some? && timeBucket.timechart.value.byField == byField
    ensures byField == [] ==> timeBucket.timechart.value.limitExpr.None?
    ensures byField != [] && limitExpr.Some? ==> timeBucket.timechart.value.limitExpr == limitExpr
    ensures byField != [] && limitExpr.None? ==>
              timeBucket.timechart.value.limitExpr == Some(LimitExpr(true, 10, if measureAggLength > 1 then ByFreq else BySum))
  {
    var limit :=
      if |byField| > 0 then
        if limitExpr.Some? then limitExpr else Some(DefaultLimit(measureAggLength))
      else None;
    TimeBucket(IntervalMillis(num, timeUnit), 0, 0, Some(TimechartExpr(byField, limit)))
  }

  /** A split-by field without an explicit limit ranks by sum for a single
      measure and by frequency for several, keeping the top ten. */
  lemma DefaultRankingMode(num: int64, timeUnit: TimeUnit, byField: string, measureAggLength: int)
    requires SpanInRange(num, timeUnit) && byField != []
    ensures var timechart := InitTimeBucket(num, timeUnit, byField, None, measureAggLength).timechart;
            && (IsRankBySum(timechart) <==> measureAggLength <= 1)
            && timechart.value.limitExpr.value.isTop && timechart.value.limitExpr.value.num == 10
  {
  }
}
