/** Merging partial timechart results: one aggregated value into another,
    per-value counts of two shards, and the routing of a value either into
    the result, into the "other" series, or into its ranking score. */
module Merge {
  import opened Wrappers
  import opened TimechartTypes
  import opened TopN

  /** The aggregations whose partial values merge by addition. */
  predicate MergesByAddition(aggFunc: AggregateFunction)
  {
    aggFunc in {Count, Avg, Min, Max, Range, Sum}
  }

  /** The function partial values are reduced with: a sum for the
      aggregations that merge by addition, the aggregation itself otherwise. */
  function MergeFunc(aggFunc: AggregateFunction): (f: AggregateFunction)
    ensures MergesByAddition(aggFunc) ==> f == Sum
    ensures !MergesByAddition(aggFunc) ==> f == aggFunc
    ensures f !in {Count, Avg, Min, Max, Range}
  {
    match aggFunc
    case Count => Sum
    case Avg => Sum
    case Min => Sum
    case Max => Sum
    case Range => Sum
    case Sum => Sum
    case _ => aggFunc
  }

  /** The current value `eVal` after merging `eValToMerge` into it: the
      reduction of the incoming value with the current one, or the current
      value unchanged when the reduction fails. The sketches and the addition
      flag take no part. */
  function MergeVal(eVal: CValueEnclosure, eValToMerge: CValueEnclosure, hll: Sketch, hllToMerge: Sketch,
                    aggFunc: AggregateFunction, useAdditionForMerge: bool, reduce: Reducer): (merged: CValueEnclosure)
    ensures reduce(eValToMerge, eVal, MergeFunc(aggFunc)).Failure? ==> merged == eVal
    ensures reduce(eValToMerge, eVal, MergeFunc(aggFunc)).Success? ==>
              merged == reduce(eValToMerge, eVal, MergeFunc(aggFunc)).value
  {
    var tmp := CValueEnclosure(eVal.dtype, eVal.cval);
    match reduce(eValToMerge, tmp, MergeFunc(aggFunc))
    case Success(retVal) => CValueEnclosure(retVal.dtype, retVal.cval)
    case Failure(_) => eVal
  }

  /** Every aggregation that merges by addition merges exactly like a sum,
      whatever sketches and addition flag are passed. */
  lemma MergeValAdditive(eVal: CValueEnclosure, eValToMerge: CValueEnclosure, hll: Sketch, hllToMerge: Sketch,
                         aggFunc: AggregateFunction, useAdditionForMerge: bool, reduce: Reducer)
    requires MergesByAddition(aggFunc)
    ensures MergeVal(eVal, eValToMerge, hll, hllToMerge, aggFunc, useAdditionForMerge, reduce) ==
            MergeVal(eVal, eValToMerge, Sketch(0), Sketch(0), Sum, true, reduce)
    ensures reduce(eValToMerge, eVal, Sum).Success? ==>
              MergeVal(eVal, eValToMerge, hll, hllToMerge, aggFunc, useAdditionForMerge, reduce) ==
              reduce(eValToMerge, eVal, Sum).value
  {
  }

  /** The count a map holds for a value, zero when it holds none. */
  function Tally(counts: map<string, int>, key: string): int
  {
    if key in counts then counts[key] else 0
  }

  /** Per-value counts of two shards, merged: every value of either, with the
      sum of its counts. */
  ghost function MergedCounts(groupByColValCnt: map<string, int>, toMerge: map<string, int>): map<string, int>
  {
    map key | key in groupByColValCnt.Keys + toMerge.Keys :: Tally(groupByColValCnt, key) + Tally(toMerge, key)
  }

  /** Adds the counts of `toMerge` into `groupByColValCnt`: shared values get
      the sum of both counts, values of one side keep their count. */
  method MergeMap(groupByColValCnt: map<string, int>, toMerge: map<string, int>) returns (merged: map<string, int>)
    ensures merged.Keys == groupByColValCnt.Keys + toMerge.Keys
    ensures forall key :: key in groupByColValCnt && key in toMerge ==> merged[key] == groupByColValCnt[key] + toMerge[key]
    ensures forall key :: key in groupByColValCnt && key !in toMerge ==> merged[key] == groupByColValCnt[key]
    ensures forall key :: key !in groupByColValCnt && key in toMerge ==> merged[key] == toMerge[key]
    ensures merged == MergedCounts(groupByColValCnt, toMerge)
  {
    merged := groupByColValCnt;
    var remaining := groupByColValCnt.Keys;
    while remaining != {}
      invariant remaining <= groupByColValCnt.Keys
      invariant merged.Keys == groupByColValCnt.Keys
      invariant forall key :: key in merged ==>
                  merged[key] == if key !in remaining && key in toMerge then groupByColValCnt[key] + toMerge[key]
                                 else groupByColValCnt[key]
      decreases remaining
    {
      var key :| key in remaining;
      var cnt := groupByColValCnt[key];
      if key in toMerge {
        merged := merged[key := cnt + toMerge[key]];
      }
      remaining := remaining - {key};
    }

    remaining := toMerge.Keys;
    while remaining != {}
      invariant remaining <= toMerge.Keys
      invariant merged.Keys == groupByColValCnt.Keys + (toMerge.Keys - remaining)
      invariant forall key :: key in merged ==> merged[key] == Tally(groupByColValCnt, key) + Tally(toMerge, key)
      decreases remaining
    {
      var key :| key in remaining;
      var cnt := toMerge[key];
      if key !in merged {
        merged := merged[key := cnt];
      }
      remaining := remaining - {key};
    }
  }

  /** Merging shard counts does not depend on which side is merged into. */
  lemma MergedCountsCommute(a: map<string, int>, b: map<string, int>)
    ensures MergedCounts(a, b) == MergedCounts(b, a)
  {
  }

  /** Merging the counts of three shards does not depend on the grouping. */
  lemma MergedCountsAssociate(a: map<string, int>, b: map<string, int>, c: map<string, int>)
    ensures MergedCounts(MergedCounts(a, b), c) == MergedCounts(a, MergedCounts(b, c))
  {
  }

  /** Merging with no counts changes nothing. */
  lemma MergedCountsIdentity(a: map<string, int>)
    ensures MergedCounts(a, map[]) == a
  {
  }

  /** Merging the same shard twice counts it twice: merging is not idempotent. */
  lemma MergedCountsTwice(a: map<string, int>, b: map<string, int>)
    ensures forall key :: key in b ==> MergedCounts(MergedCounts(a, b), b)[key] == MergedCounts(a, b)[key] + b[key]
  {
  }

  /** The partial result of a limited timechart: the "other" series per
      measure (absent while values are still being scored), the ranking score
      per split-by value, and the distinct-count sketch. */
  class TMLimitResult {
    var otherCValArr: Option<seq<CValueEnclosure>>
    var groupValScoreMap: map<string, CValueEnclosure>
    var hll: Sketch

    constructor (otherCValArr: Option<seq<CValueEnclosure>>, groupValScoreMap: map<string, CValueEnclosure>, hll: Sketch)
      ensures this.otherCValArr == otherCValArr && this.groupValScoreMap == groupValScoreMap && this.hll == hll
    {
      this.otherCValArr := otherCValArr;
      this.groupValScoreMap := groupValScoreMap;
      this.hll := hll;
    }

    /** Routes the value `eVal` of measure `index` for split-by value
        `groupByColVal`: a value folded into "other" is merged into the other
        series; while sum ranking is still scoring (no other series yet) a kept
        value is merged into its score; only otherwise does the value go into
        the result. Exactly one cell changes when the value is not added. */
    method ShouldAddRes(timechart: Option<TimechartExpr>, index: int, eVal: CValueEnclosure, hllToMerge: Sketch,
                        aggFunc: AggregateFunction, groupByColVal: string, isOtherCol: bool, reduce: Reducer)
      returns (addRes: bool)
      requires isOtherCol ==> otherCValArr.Some? && 0 <= index < |otherCValArr.value|
      requires !isOtherCol && IsRankBySum(timechart) && otherCValArr.None? ==> groupByColVal in groupValScoreMap
      modifies this
      ensures addRes <==> !isOtherCol && !(IsRankBySum(timechart) && old(otherCValArr).None?)
      ensures hll == old(hll)
      ensures isOtherCol ==>
                && otherCValArr.Some?
                && otherCValArr.value ==
                   old(otherCValArr).value[index := MergeVal(old(otherCValArr).value[index], eVal, old(hll), hllToMerge,
                                                             aggFunc, old(otherCValArr).None?, reduce)]
                && groupValScoreMap == old(groupValScoreMap)
      ensures !isOtherCol && !addRes ==>
                && groupValScoreMap ==
                   old(groupValScoreMap)[groupByColVal := MergeVal(old(groupValScoreMap)[groupByColVal], eVal, old(hll),
                                                                   hllToMerge, aggFunc, true, reduce)]
                && otherCValArr == old(otherCValArr)
      ensures addRes ==> otherCValArr == old(otherCValArr) && groupValScoreMap == old(groupValScoreMap)
    {
      var useAdditionForMerge := otherCValArr.None?;
      var isRankBySum := IsRankBySum(timechart);

      if isOtherCol {
        var arr := otherCValArr.value;
        var otherCVal := arr[index];
        otherCValArr := Some(arr[index := MergeVal(otherCVal, eVal, hll, hllToMerge, aggFunc, useAdditionForMerge, reduce)]);
        return false;
      } else {
        if isRankBySum && otherCValArr.None? {
          var scoreVal := groupValScoreMap[groupByColVal];
          groupValScoreMap := groupValScoreMap[groupByColVal :=
                                MergeVal(scoreVal, eVal, hll, hllToMerge, aggFunc, useAdditionForMerge, reduce)];
          return false;
        }
        return true;
      }
    }
  }
}
