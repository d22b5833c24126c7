/** The values the timechart bookkeeping works on: the time-bucket
    configuration with its optional split-by limit, measure aggregators and
    the tagged scalar that partial aggregates are stored in. */
module TimechartTypes {
  import opened Wrappers

  const UINT64_LIMIT: int := 0x1_0000_0000_0000_0000
  const INT64_MAX: int := 0x7fff_ffff_ffff_ffff

  type uint64 = x: int | 0 <= x < UINT64_LIMIT
  type int64 = x: int | -INT64_MAX - 1 <= x <= INT64_MAX

  /** The interval units a timechart span may be written in. `UnlistedUnit`
      stands for any unit value the interval switch has no case for. */
  datatype TimeUnit =
    | Microsecond | Millisecond | Centisecond | Decisecond | Second
    | Minute | Hour | Day | Week | Month | Quarter | UnlistedUnit

  /** How the split-by values are ranked: by the summed measure value or by
      how often each value occurs. */
  datatype LimitScoreMode = BySum | ByFreq

  /** `limit=top N` / `limit=bottom N` of a timechart. */
  datatype LimitExpr = LimitExpr(isTop: bool, num: int, scoreMode: LimitScoreMode)

  /** The split-by part of a timechart; an empty `byField` means no split. */
  datatype TimechartExpr = TimechartExpr(byField: string, limitExpr: Option<LimitExpr>)

  datatype TimeBucket = TimeBucket(
    intervalMillis: uint64,
    startTime: uint64,
    endTime: uint64,
    timechart: Option<TimechartExpr>)

  datatype AggregateFunction = Count | Avg | Min | Max | Range | Sum | Cardinality | Values

  datatype MeasureAggregator = MeasureAggregator(
    measureCol: string,
    measureFunc: AggregateFunction,
    strEnc: string)

  /** The type tag of a scalar aggregate value; `Invalid` marks a placeholder. */
  datatype DType = Invalid | UnsignedNum | SignedNum | FloatNum | Str

  datatype CVal = UnsignedVal(u: nat) | SignedVal(i: int) | FloatVal(f: real) | StrVal(s: string)

  /** A tagged scalar; `cval` is `None` where the source stores a nil value. */
  datatype CValueEnclosure = CValueEnclosure(dtype: DType, cval: Option<CVal>)

  /** The fresh placeholder a score cell starts from. */
  const InvalidPlaceholder: CValueEnclosure := CValueEnclosure(Invalid, None)

  /** Ranking scores: only ever compared, never combined. */
  type Score = int

  /** A cardinality sketch, handled as an opaque token: the core never looks inside. */
  datatype Sketch = Sketch(token: nat)

  /** The two-scalar reduce primitive of the value layer:
      `reduce(incoming, current, f)` combines two values under `f` or fails. */
  type Reducer = (CValueEnclosure, CValueEnclosure, AggregateFunction) -> Result<CValueEnclosure, string>

  /** Reading a scalar as a ranking score, which fails for non-numeric values. */
  type ScoreReader = CValueEnclosure -> Option<Score>
}
