/** Top-N classification of split-by values: which values of the split-by
    field are kept as their own series and which are folded into "other". */
module TopN {
  import opened Wrappers
  import opened TimechartTypes
  import opened Sorting

  /** A ranking entry under sum ranking: the value, its score, and its
      position in the order the values were collected. */
  datatype ScorePair = ScorePair(groupByColVal: string, score: Score, index: int)

  /** A ranking entry under frequency ranking: a count and the position of
      its value in the list of collected values. */
  datatype CountIndex = CountIndex(cnt: int, index: int)

  function PairName(p: ScorePair): string { p.groupByColVal }
  function PairScore(p: ScorePair): int { p.score }
  function CountOf(c: CountIndex): int { c.cnt }

  /** The split-by values a classification keeps. */
  function TrueKeys(valIsInLimit: map<string, bool>): set<string>
  {
    set k | k in valIsInLimit && valIsInLimit[k]
  }

  /** Ranking is by sum exactly when there is a limit and it does not rank by
      frequency. */
  function IsRankBySum(timechart: Option<TimechartExpr>): (rankBySum: bool)
    ensures rankBySum <==>
              timechart.Some? && timechart.value.limitExpr.Some? && timechart.value.limitExpr.value.scoreMode != ByFreq
  {
    timechart.Some? && timechart.value.limitExpr.Some? && timechart.value.limitExpr.value.scoreMode == BySum
  }

  /** A value is folded into "other" exactly when a classification exists,
      covers the value, and does not keep it; values it does not cover are not. */
  function IsOtherCol(valIsInLimit: Option<map<string, bool>>, groupByColVal: string): (isOtherCol: bool)
    ensures isOtherCol <==>
              valIsInLimit.Some? && groupByColVal in valIsInLimit.value.Keys - TrueKeys(valIsInLimit.value)
  {
    if valIsInLimit.Some? && groupByColVal in valIsInLimit.value then !valIsInLimit.value[groupByColVal]
    else false
  }

  /** The number of values a limit keeps out of `n` rankable ones. */
  function LimitCount(num: int, n: nat): (kept: nat)
    ensures kept <= n
    ensures num > 0 ==> kept == if num < n then num else n
    ensures num <= 0 ==> kept == 0
  {
    if num <= 0 then 0 else if num > n then n else num
  }

  /** The values that take part in the ranking, with their scores: under sum
      ranking the values whose accumulated score can be read, under frequency
      ranking every counted value with its count. */
  ghost function RankedScores(rankBySum: bool, groupByColValCnt: map<string, int>,
                              groupValScoreMap: map<string, CValueEnclosure>, getFloatValue: ScoreReader): map<string, Score>
  {
    if rankBySum then
      map k | k in groupValScoreMap && getFloatValue(groupValScoreMap[k]).Some? :: getFloatValue(groupValScoreMap[k]).value
    else groupByColValCnt
  }

  /** `valIsInLimit` classifies the values of `domain`: it keeps only ranked
      values, exactly as many as the limit allows, and every kept value
      scores at least as high (top) or at most as high (bottom) as every
      ranked value it does not keep. Ties are not broken in any fixed way. */
  ghost predicate IsLimitSelection(valIsInLimit: map<string, bool>, domain: set<string>,
                                   ranked: map<string, Score>, limitExpr: LimitExpr)
  {
    && valIsInLimit.Keys == domain
    && TrueKeys(valIsInLimit) <= ranked.Keys
    && |TrueKeys(valIsInLimit)| == LimitCount(limitExpr.num, |ranked|)
    && forall k1, k2 :: k1 in ranked && k2 in ranked && k1 in TrueKeys(valIsInLimit) && k2 !in TrueKeys(valIsInLimit) ==>
         InOrder(limitExpr.isTop, ranked[k1], ranked[k2])
  }

  lemma {:induction false} ImageAppend<T>(s: seq<T>, x: T, f: T -> string)
    ensures Image(s + [x], f) == Image(s, f) + {f(x)}
  {
    var t := s + [x];
    forall y | y in Image(t, f)
      ensures y in Image(s, f) + {f(x)}
    {
      var i :| 0 <= i < |t| && f(t[i]) == y;
      if i < |s| {
        assert t[i] == s[i];
      }
    }
    forall y | y in Image(s, f)
      ensures y in Image(t, f)
    {
      var i :| 0 <= i < |s| && f(s[i]) == y;
      assert t[i] == s[i];
    }
    assert t[|s|] == x;
  }

  /** `s` lists every ranked value exactly once, each with its score. */
  ghost predicate RanksExactly<T>(s: seq<T>, name: T -> string, score: T -> int, ranked: map<string, Score>)
  {
    && DistinctBy(s, name)
    && Image(s, name) == ranked.Keys
    && forall p :: 0 <= p < |s| ==> name(s[p]) in ranked && ranked[name(s[p])] == score(s[p])
  }

  /** Sorting a ranking list keeps it a listing of the ranked values, one
      entry per value. */
  lemma {:induction false} RanksExactlyPermutation<T>(s: seq<T>, t: seq<T>, name: T -> string, score: T -> int,
                                                      ranked: map<string, Score>)
    requires multiset(s) == multiset(t)
    requires RanksExactly(s, name, score, ranked)
    ensures RanksExactly(t, name, score, ranked)
    ensures |t| == |ranked|
  {
    DistinctByPermutation(s, t, name);
    ImagePermutation(s, t, name);
    forall p | 0 <= p < |t|
      ensures name(t[p]) in ranked && ranked[name(t[p])] == score(t[p])
    {
      assert t[p] in multiset(s);
      var q :| 0 <= q < |s| && s[q] == t[p];
    }
    ImageSize(t, name);
  }

  /** A sorted copy of a ranking list, as the in-place sort leaves it. */
  method SortedCopy<T>(s: seq<T>, key: T -> int, isTop: bool) returns (sorted: seq<T>)
    ensures SortedBy(sorted, key, isTop)
    ensures multiset(sorted) == multiset(s)
  {
    var a := new T[|s|](p requires 0 <= p < |s| => s[p]);
    assert a[..] == s;
    SortSlice(a, key, isTop);
    sorted := a[..];
  }

  /** Marks the values of the first `num` entries of a sorted ranking list
      (all of them when `num` exceeds its length, none when `num` is not
      positive) as kept. */
  method MarkKept<T>(valIsInLimit: map<string, bool>, sorted: seq<T>, name: T -> string, num: int)
    returns (marked: map<string, bool>)
    requires forall p :: 0 <= p < |sorted| ==> name(sorted[p]) in valIsInLimit
    requires forall k :: k in valIsInLimit ==> !valIsInLimit[k]
    ensures marked.Keys == valIsInLimit.Keys
    ensures forall k :: k in marked ==> (marked[k] <==> k in Image(sorted[..LimitCount(num, |sorted|)], name))
  {
    marked := valIsInLimit;
    var limit := num;
    if limit > |sorted| {
      limit := |sorted|;
    }
    var i := 0;
    while i < limit
      invariant 0 <= i <= LimitCount(num, |sorted|)
      invariant marked.Keys == valIsInLimit.Keys
      invariant forall k :: k in marked ==> (marked[k] <==> k in Image(sorted[..i], name))
    {
      assert sorted[..i + 1] == sorted[..i] + [sorted[i]];
      ImageAppend(sorted[..i], sorted[i], name);
      marked := marked[name(sorted[i]) := true];
      i := i + 1;
    }
  }

  /** Marking the first entries of a sorted listing of the ranked values
      selects exactly as many as the limit allows, and they outrank every
      other ranked value. */
  lemma {:induction false} SortedPrefixSelection<T>(valIsInLimit: map<string, bool>, s: seq<T>, name: T -> string,
                                                    score: T -> int, ranked: map<string, Score>, limitExpr: LimitExpr)
    requires RanksExactly(s, name, score, ranked) && SortedBy(s, score, limitExpr.isTop)
    requires |s| == |ranked|
    requires ranked.Keys <= valIsInLimit.Keys
    requires forall k :: k in valIsInLimit ==>
               (valIsInLimit[k] <==> k in Image(s[..LimitCount(limitExpr.num, |s|)], name))
    ensures IsLimitSelection(valIsInLimit, valIsInLimit.Keys, ranked, limitExpr)
  {
    var limit := LimitCount(limitExpr.num, |s|);
    var prefix := s[..limit];
    forall k | k in Image(prefix, name)
      ensures k in ranked
    {
      var p :| 0 <= p < |prefix| && name(prefix[p]) == k;
      assert prefix[p] == s[p];
    }
    assert TrueKeys(valIsInLimit) == Image(prefix, name);
    assert DistinctBy(prefix, name);
    ImageSize(prefix, name);
    forall k1, k2 | k1 in ranked && k2 in ranked && k1 in TrueKeys(valIsInLimit) && k2 !in TrueKeys(valIsInLimit)
      ensures InOrder(limitExpr.isTop, ranked[k1], ranked[k2])
    {
      var p :| 0 <= p < |prefix| && name(prefix[p]) == k1;
      assert prefix[p] == s[p];
      var q :| 0 <= q < |s| && name(s[q]) == k2;
    }
  }

  /** The collecting loop of sum ranking: every value of the score map is
      first marked as not kept, and those whose score can be read are listed
      with their score, in the order they were visited. */
  method CollectScorePairs(groupValScoreMap: map<string, CValueEnclosure>, getFloatValue: ScoreReader)
    returns (valIsInLimit: map<string, bool>, scorePairs: seq<ScorePair>)
    ensures valIsInLimit.Keys == groupValScoreMap.Keys
    ensures forall k :: k in valIsInLimit ==> !valIsInLimit[k]
    ensures forall p :: 0 <= p < |scorePairs| ==> scorePairs[p].index == p
    ensures RanksExactly(scorePairs, PairName, PairScore, RankedScores(true, map[], groupValScoreMap, getFloatValue))
  {
    ghost var ranked := RankedScores(true, map[], groupValScoreMap, getFloatValue);
    valIsInLimit := map[];
    var index := 0;
    scorePairs := [];
    var remaining := groupValScoreMap.Keys;
    while remaining != {}
      invariant remaining <= groupValScoreMap.Keys
      invariant valIsInLimit.Keys == groupValScoreMap.Keys - remaining
      invariant forall k :: k in valIsInLimit ==> !valIsInLimit[k]
      invariant index == |scorePairs|
      invariant forall p :: 0 <= p < |scorePairs| ==> scorePairs[p].index == p
      invariant forall p :: 0 <= p < |scorePairs| ==>
                  PairName(scorePairs[p]) in ranked && ranked[PairName(scorePairs[p])] == PairScore(scorePairs[p])
      invariant DistinctBy(scorePairs, PairName)
      invariant Image(scorePairs, PairName) == ranked.Keys - remaining
      decreases remaining
    {
      var groupByColVal :| groupByColVal in remaining;
      remaining := remaining - {groupByColVal};
      valIsInLimit := valIsInLimit[groupByColVal := false];
      var score := getFloatValue(groupValScoreMap[groupByColVal]);
      if score.None? {
        continue;
      }
      ImageAppend(scorePairs, ScorePair(groupByColVal, score.value, index), PairName);
      scorePairs := scorePairs + [ScorePair(groupByColVal, score.value, index)];
      index := index + 1;
    }
  }

  /** The sum-ranking branch: collect the values with a readable score, sort
      them by score and keep the first `num`. */
  method RankBySum(limitExpr: LimitExpr, groupValScoreMap: map<string, CValueEnclosure>, getFloatValue: ScoreReader)
    returns (valIsInLimit: map<string, bool>)
    ensures IsLimitSelection(valIsInLimit, groupValScoreMap.Keys,
                             RankedScores(true, map[], groupValScoreMap, getFloatValue), limitExpr)
  {
    ghost var ranked := RankedScores(true, map[], groupValScoreMap, getFloatValue);
    var notKept, scorePairs := CollectScorePairs(groupValScoreMap, getFloatValue);
    var sorted := SortedCopy(scorePairs, PairScore, limitExpr.isTop);
    RanksExactlyPermutation(scorePairs, sorted, PairName, PairScore, ranked);
    valIsInLimit := MarkKept(notKept, sorted, PairName, limitExpr.num);
    SortedPrefixSelection(valIsInLimit, sorted, PairName, PairScore, ranked, limitExpr);
  }

  /** The value a frequency-ranking entry stands for: the collected value at
      its index. */
  function ValueAt(vals: seq<string>): CountIndex -> string
  {
    (c: CountIndex) => if 0 <= c.index < |vals| then vals[c.index] else ""
  }

  /** The collecting loop of frequency ranking: every counted value is marked
      as not kept and listed once, with its count and its position. */
  method CollectCounts(groupByColValCnt: map<string, int>)
    returns (valIsInLimit: map<string, bool>, cnts: seq<CountIndex>, vals: seq<string>)
    ensures valIsInLimit.Keys == groupByColValCnt.Keys
    ensures forall k :: k in valIsInLimit ==> !valIsInLimit[k]
    ensures |cnts| == |vals|
    ensures forall p, q :: 0 <= p < q < |vals| ==> vals[p] != vals[q]
    ensures forall k :: k in groupByColValCnt <==> k in vals
    ensures forall p :: 0 <= p < |cnts| ==>
              vals[p] in groupByColValCnt && cnts[p] == CountIndex(groupByColValCnt[vals[p]], p)
  {
    valIsInLimit := map[];
    var index := 0;
    cnts, vals := [], [];
    var remaining := groupByColValCnt.Keys;
    while remaining != {}
      invariant remaining <= groupByColValCnt.Keys
      invariant valIsInLimit.Keys == groupByColValCnt.Keys - remaining
      invariant forall k :: k in valIsInLimit ==> !valIsInLimit[k]
      invariant index == |vals| == |cnts|
      invariant forall k :: k in valIsInLimit <==> k in vals
      invariant forall p, q :: 0 <= p < q < |vals| ==> vals[p] != vals[q]
      invariant forall p :: 0 <= p < |cnts| ==>
                  vals[p] in groupByColValCnt && cnts[p] == CountIndex(groupByColValCnt[vals[p]], p)
      decreases remaining
    {
      var groupByColVal :| groupByColVal in remaining;
      remaining := remaining - {groupByColVal};
      vals := vals + [groupByColVal];
      cnts := cnts + [CountIndex(groupByColValCnt[groupByColVal], index)];
      valIsInLimit := valIsInLimit[groupByColVal := false];
      index := index + 1;
    }
  }

  /** The collected counts list every counted value once, with its count. */
  lemma {:induction false} CountsRankExactly(cnts: seq<CountIndex>, vals: seq<string>, groupByColValCnt: map<string, int>)
    requires |cnts| == |vals|
    requires forall p, q :: 0 <= p < q < |vals| ==> vals[p] != vals[q]
    requires forall k :: k in groupByColValCnt <==> k in vals
    requires forall p :: 0 <= p < |cnts| ==>
               vals[p] in groupByColValCnt && cnts[p] == CountIndex(groupByColValCnt[vals[p]], p)
    ensures RanksExactly(cnts, ValueAt(vals), CountOf, groupByColValCnt)
  {
  }

  /** The frequency-ranking branch: collect every counted value, sort the
      counts and keep the values of the first `num`. */
  method RankByFreq(limitExpr: LimitExpr, groupByColValCnt: map<string, int>) returns (valIsInLimit: map<string, bool>)
    ensures IsLimitSelection(valIsInLimit, groupByColValCnt.Keys, groupByColValCnt, limitExpr)
  {
    var notKept, cnts, vals := CollectCounts(groupByColValCnt);
    CountsRankExactly(cnts, vals, groupByColValCnt);
    var sorted := SortedCopy(cnts, CountOf, limitExpr.isTop);
    RanksExactlyPermutation(cnts, sorted, ValueAt(vals), CountOf, groupByColValCnt);
    valIsInLimit := MarkKept(notKept, sorted, ValueAt(vals), limitExpr.num);
    SortedPrefixSelection(valIsInLimit, sorted, ValueAt(vals), CountOf, groupByColValCnt, limitExpr);
  }

  /** Classifies the split-by values against the timechart's limit: no
      classification without a limit; otherwise the values of the score map
      (sum ranking) or of the count map (frequency ranking), with the top or
      bottom `num` ranked values kept and every other value, including one
      whose score cannot be read, folded into "other". */
  method CheckGroupByColValsAgainstLimit(timechart: Option<TimechartExpr>, groupByColValCnt: map<string, int>,
                                         groupValScoreMap: map<string, CValueEnclosure>, getFloatValue: ScoreReader)
    returns (valIsInLimit: Option<map<string, bool>>)
    ensures valIsInLimit.None? <==> timechart.None? || timechart.value.limitExpr.None?
    ensures valIsInLimit.Some? ==>
              IsLimitSelection(valIsInLimit.value,
                               if IsRankBySum(timechart) then groupValScoreMap.Keys else groupByColValCnt.Keys,
                               RankedScores(IsRankBySum(timechart), groupByColValCnt, groupValScoreMap, getFloatValue),
                               timechart.value.limitExpr.value)
    ensures IsRankBySum(timechart) ==>
              forall k :: k in groupValScoreMap && getFloatValue(groupValScoreMap[k]).None? ==> IsOtherCol(valIsInLimit, k)
  {
    if timechart.None? || timechart.value.limitExpr.None? {
      return None;
    }
    var limitExpr := timechart.value.limitExpr.value;
    var classified;
    if IsRankBySum(timechart) {
      classified := RankBySum(limitExpr, groupValScoreMap, getFloatValue);
    } else {
      classified := RankByFreq(limitExpr, groupByColValCnt);
    }
    valIsInLimit := Some(classified);
  }

  /** The starting score map of sum ranking: one fresh invalid placeholder per
      counted value; no score map under frequency ranking or without a limit. */
  method InitialScoreMap(timechart: Option<TimechartExpr>, groupByColValCnt: map<string, int>)
    returns (groupByColValScoreMap: Option<map<string, CValueEnclosure>>)
    ensures groupByColValScoreMap.Some? <==> IsRankBySum(timechart)
    ensures groupByColValScoreMap.Some? ==> groupByColValScoreMap.value.Keys == groupByColValCnt.Keys
    ensures groupByColValScoreMap.Some? ==>
              forall k :: k in groupByColValScoreMap.value ==> groupByColValScoreMap.value[k] == InvalidPlaceholder
  {
    if timechart.None? || timechart.value.limitExpr.None? || timechart.value.limitExpr.value.scoreMode == ByFreq {
      return None;
    }
    var scoreMap: map<string, CValueEnclosure> := map[];
    var remaining := groupByColValCnt.Keys;
    while remaining != {}
      invariant remaining <= groupByColValCnt.Keys
      invariant scoreMap.Keys == groupByColValCnt.Keys - remaining
      invariant forall k :: k in scoreMap ==> scoreMap[k] == InvalidPlaceholder
      decreases remaining
    {
      var groupByColVal :| groupByColVal in remaining;
      scoreMap := scoreMap[groupByColVal := InvalidPlaceholder];
      remaining := remaining - {groupByColVal};
    }
    groupByColValScoreMap := Some(scoreMap);
  }

  /** A ranked value that beats a kept value is kept too. */
  lemma KeptOutranks(valIsInLimit: map<string, bool>, ranked: map<string, Score>, limitExpr: LimitExpr,
                     kept: string, other: string)
    requires IsLimitSelection(valIsInLimit, valIsInLimit.Keys, ranked, limitExpr)
    requires kept in TrueKeys(valIsInLimit) && kept in ranked && other in ranked
    requires Before(limitExpr.isTop, ranked[other], ranked[kept])
    ensures other in TrueKeys(valIsInLimit)
  {
  }

  /** Three values counted 5, 2 and 8 times, top two by frequency: the two
      most frequent are kept and the third is folded into "other". */
  method TopTwoByFrequencyScenario(getFloatValue: ScoreReader)
  {
    var counts := map["a" := 5, "b" := 2, "c" := 8];
    var timechart := Some(TimechartExpr("host", Some(LimitExpr(true, 2, ByFreq))));
    var result := CheckGroupByColValsAgainstLimit(timechart, counts, map[], getFloatValue);
    var v := result.value;
    var kept := TrueKeys(v);
    assert v.Keys == {"a", "b", "c"};
    assert |kept| == 2;
    var x :| x in kept;
    if x != "c" {
      KeptOutranks(v, counts, LimitExpr(true, 2, ByFreq), x, "c");
    }
    assert |kept - {"c"}| == 1;
    var y :| y in kept - {"c"};
    if y == "b" {
      KeptOutranks(v, counts, LimitExpr(true, 2, ByFreq), "b", "a");
    }
    assert kept * {"a", "c"} == {"a", "c"};
    assert |kept * {"a", "c"}| == 2;
    assert |kept - {"a", "c"}| == 0;
    assert "b" !in kept;
    assert v["a"] && !v["b"] && v["c"];
    assert v == map["a" := true, "b" := false, "c" := true];
    assert IsOtherCol(result, "b") && !IsOtherCol(result, "a") && !IsOtherCol(result, "c");
  }
}
