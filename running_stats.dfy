/** Running-stat expansion: a composite measure of a timechart is rewritten
    into primitive measures that can be merged across shards, with a reverse
    index and a per-column index list kept alongside. */
module RunningStats {
  import opened TimechartTypes

  /** The entries of `reverseIndex` whose converted measure reads column
      `col`, in order. */
  function IndicesOfColumn(ops: seq<MeasureAggregator>, reverseIndex: seq<int>, col: string): seq<int>
    requires |ops| == |reverseIndex|
  {
    if ops == [] then []
    else (if ops[0].measureCol == col then [reverseIndex[0]] else []) + IndicesOfColumn(ops[1..], reverseIndex[1..], col)
  }

  /** Appending one converted measure and its reverse-index entry adds that
      entry to the index list of the measure's column and of no other. */
  lemma {:induction false} IndicesOfColumnAppend(ops: seq<MeasureAggregator>, reverseIndex: seq<int>,
                                                 op: MeasureAggregator, idx: int, col: string)
    requires |ops| == |reverseIndex|
    ensures IndicesOfColumn(ops + [op], reverseIndex + [idx], col) ==
            IndicesOfColumn(ops, reverseIndex, col) + (if op.measureCol == col then [idx] else [])
  {
    if ops != [] {
      assert (ops + [op])[1..] == ops[1..] + [op];
      assert (reverseIndex + [idx])[1..] == reverseIndex[1..] + [idx];
      IndicesOfColumnAppend(ops[1..], reverseIndex[1..], op, idx, col);
    } else {
      assert ops + [op] == [op] && reverseIndex + [idx] == [idx];
    }
  }

  /** A missing column has the empty index list. */
  function ColumnIndices(colToIdx: map<string, seq<int>>, col: string): seq<int>
  {
    if col in colToIdx then colToIdx[col] else []
  }

  /** The collections the expanders append to: the converted (primitive)
      measures, a reverse index parallel to them, and the indices per column. */
  class TimechartRunningStats {
    var allConvertedMeasureOps: seq<MeasureAggregator>
    var allReverseIndex: seq<int>
    var colToIdx: map<string, seq<int>>

    /** The reverse index is parallel to the converted measures, and each
        column's index list holds exactly the reverse-index entries of the
        converted measures that read that column, in order. */
    ghost predicate Valid()
      reads this
    {
      && |allConvertedMeasureOps| == |allReverseIndex|
      && forall col :: ColumnIndices(colToIdx, col) == IndicesOfColumn(allConvertedMeasureOps, allReverseIndex, col)
    }

    constructor (ops: seq<MeasureAggregator>, reverseIndex: seq<int>, colToIdx: map<string, seq<int>>)
      ensures allConvertedMeasureOps == ops && allReverseIndex == reverseIndex && this.colToIdx == colToIdx
      ensures ops == [] && reverseIndex == [] && colToIdx == map[] ==> Valid()
    {
      allConvertedMeasureOps := ops;
      allReverseIndex := reverseIndex;
      this.colToIdx := colToIdx;
    }

    /** A count is kept as one primitive count of the same column, recorded
        under `idx`. */
    method AddAggCountToTimechartRunningStats(m: MeasureAggregator, idx: int)
      modifies this
      ensures allReverseIndex == old(allReverseIndex) + [idx]
      ensures colToIdx == old(colToIdx)[m.measureCol := ColumnIndices(old(colToIdx), m.measureCol) + [idx]]
      ensures allConvertedMeasureOps == old(allConvertedMeasureOps) + [MeasureAggregator(m.measureCol, Count, m.strEnc)]
      ensures forall col :: col != m.measureCol ==> ColumnIndices(colToIdx, col) == ColumnIndices(old(colToIdx), col)
      ensures old(Valid()) ==> Valid()
    {
      ghost var oldOps, oldRev := allConvertedMeasureOps, allReverseIndex;
      allReverseIndex := allReverseIndex + [idx];
      colToIdx := colToIdx[m.measureCol := ColumnIndices(colToIdx, m.measureCol) + [idx]];
      allConvertedMeasureOps := allConvertedMeasureOps + [MeasureAggregator(m.measureCol, Count, m.strEnc)];
      if |oldOps| == |oldRev| {
        forall col
          ensures IndicesOfColumn(allConvertedMeasureOps, allReverseIndex, col) ==
                  IndicesOfColumn(oldOps, oldRev, col) + (if m.measureCol == col then [idx] else [])
        {
          IndicesOfColumnAppend(oldOps, oldRev, MeasureAggregator(m.measureCol, Count, m.strEnc), idx, col);
        }
      }
    }

    /** An average is kept as a primitive sum recorded under `idx` followed by
        a primitive count recorded under `idx + 1`. */
    method AddAggAvgToTimechartRunningStats(m: MeasureAggregator, idx: int)
      modifies this
      ensures allReverseIndex == old(allReverseIndex) + [idx, idx + 1]
      ensures colToIdx == old(colToIdx)[m.measureCol := ColumnIndices(old(colToIdx), m.measureCol) + [idx, idx + 1]]
      ensures allConvertedMeasureOps == old(allConvertedMeasureOps) +
                [MeasureAggregator(m.measureCol, Sum, m.strEnc), MeasureAggregator(m.measureCol, Count, m.strEnc)]
      ensures forall col :: col != m.measureCol ==> ColumnIndices(colToIdx, col) == ColumnIndices(old(colToIdx), col)
      ensures old(Valid()) ==> Valid()
    {
      ghost var oldOps, oldRev, oldCol := allConvertedMeasureOps, allReverseIndex, ColumnIndices(colToIdx, m.measureCol);
      var sumOp := MeasureAggregator(m.measureCol, Sum, m.strEnc);
      var countOp := MeasureAggregator(m.measureCol, Count, m.strEnc);
      var i := idx;
      allReverseIndex := allReverseIndex + [i];
      colToIdx := colToIdx[m.measureCol := ColumnIndices(colToIdx, m.measureCol) + [i]];
      allConvertedMeasureOps := allConvertedMeasureOps + [sumOp];
      ghost var midOps, midRev := allConvertedMeasureOps, allReverseIndex;
      i := i + 1;
      allReverseIndex := allReverseIndex + [i];
      colToIdx := colToIdx[m.measureCol := ColumnIndices(colToIdx, m.measureCol) + [i]];
      allConvertedMeasureOps := allConvertedMeasureOps + [countOp];
      assert oldCol + [idx] + [idx + 1] == oldCol + [idx, idx + 1];
      if |oldOps| == |oldRev| {
        forall col
          ensures IndicesOfColumn(allConvertedMeasureOps, allReverseIndex, col) ==
                  IndicesOfColumn(oldOps, oldRev, col) + (if m.measureCol == col then [idx, idx + 1] else [])
        {
          IndicesOfColumnAppend(oldOps, oldRev, sumOp, idx, col);
          IndicesOfColumnAppend(midOps, midRev, countOp, idx + 1, col);
        }
      }
    }
  }
}
