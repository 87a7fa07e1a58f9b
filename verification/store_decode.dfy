/**
 * `Store::decode_and_merge_with` and `Store::merge_with`. Decoding accumulates indexes in
 * 64 bits, narrows each to 32 bits with a checked conversion, and issues one `add` per bin;
 * the result records those calls in order, and either the unread rest of the input or the
 * error that stopped decoding.
 */
module StoreDecode {
  import opened Errors
  import opened Flags
  import opened Serde
  import opened BinEncoding
  import opened StoreBins
  import opened StoreCodec

  /** The `add(index, count)` calls issued, and how decoding ended. */
  datatype Decoded = Decoded(adds: seq<Bin>, status: Result<seq<Token>>)

  /** How many times `while i < num_bins` runs from i = 0. */
  function Iterations(numBins: int): nat {
    if numBins < 0 then 0 else numBins
  }

  /** The IndexDeltasAndCounts loop: `remaining` more (delta, count) pairs after `index`. */
  function DeltasAndCountsLoop(input: seq<Token>, remaining: nat, index: int): (r: Decoded)
    ensures |r.adds| <= remaining
    ensures r.status.Ok? ==> |r.adds| == remaining
    ensures forall k :: 0 <= k < |r.adds| ==> InI32(r.adds[k].0)
    decreases remaining
  {
    if remaining == 0 then Decoded([], Ok(input))
    else
      match ReadSignedVarLong(input)
      case Err(e) => Decoded([], Err(e))
      case Ok((indexDelta, afterDelta)) =>
        match ReadVarDouble(afterDelta)
        case Err(e) => Decoded([], Err(e))
        case Ok((count, afterCount)) =>
          var next := Wrap64(index + indexDelta);
          match I64ToI32Exact(next)
          case Err(e) => Decoded([], Err(e))
          case Ok(narrowed) =>
            var tail := DeltasAndCountsLoop(afterCount, remaining - 1, next);
            Decoded([(narrowed, count)] + tail.adds, tail.status)
  }

  /** The IndexDeltas loop: `remaining` more deltas, each bin added with weight 1. */
  function DeltasLoop(input: seq<Token>, remaining: nat, index: int): (r: Decoded)
    ensures |r.adds| <= remaining
    ensures r.status.Ok? ==> |r.adds| == remaining
    ensures forall k :: 0 <= k < |r.adds| ==> InI32(r.adds[k].0) && r.adds[k].1 == 1.0
    decreases remaining
  {
    if remaining == 0 then Decoded([], Ok(input))
    else
      match ReadSignedVarLong(input)
      case Err(e) => Decoded([], Err(e))
      case Ok((indexDelta, afterDelta)) =>
        var next := Wrap64(index + indexDelta);
        match I64ToI32Exact(next)
        case Err(e) => Decoded([], Err(e))
        case Ok(narrowed) =>
          var tail := DeltasLoop(afterDelta, remaining - 1, next);
          Decoded([(narrowed, 1.0)] + tail.adds, tail.status)
  }

  /** The ContiguousCounts loop: `remaining` more counts, the index advancing by `indexDelta`. */
  function ContiguousLoop(input: seq<Token>, remaining: nat, index: int, indexDelta: int): (r: Decoded)
    ensures |r.adds| <= remaining
    ensures r.status.Ok? ==> |r.adds| == remaining
    ensures forall k :: 0 <= k < |r.adds| ==> InI32(r.adds[k].0)
    decreases remaining
  {
    if remaining == 0 then Decoded([], Ok(input))
    else
      match ReadVarDouble(input)
      case Err(e) => Decoded([], Err(e))
      case Ok((count, afterCount)) =>
        match I64ToI32Exact(index)
        case Err(e) => Decoded([], Err(e))
        case Ok(narrowed) =>
          var tail := ContiguousLoop(afterCount, remaining - 1, Wrap64(index + indexDelta), indexDelta);
          Decoded([(narrowed, count)] + tail.adds, tail.status)
  }

  /** `Store::decode_and_merge_with`: the payload that follows a store flag of the given mode. */
  function DecodeAndMergeWith(input: seq<Token>, mode: BinEncodingMode): (r: Decoded)
    ensures forall k :: 0 <= k < |r.adds| ==> InI32(r.adds[k].0)
    ensures mode.IndexDeltas? ==> forall k :: 0 <= k < |r.adds| ==> r.adds[k].1 == 1.0
  {
    match mode
    case IndexDeltasAndCounts =>
      (match ReadUnsignedVarLong(input)
       case Err(e) => Decoded([], Err(e))
       case Ok((numBins, rest)) => DeltasAndCountsLoop(rest, Iterations(numBins), 0))
    case IndexDeltas =>
      (match ReadUnsignedVarLong(input)
       case Err(e) => Decoded([], Err(e))
       case Ok((numBins, rest)) => DeltasLoop(rest, Iterations(numBins), 0))
    case ContiguousCounts =>
      (match ReadUnsignedVarLong(input)
       case Err(e) => Decoded([], Err(e))
       case Ok((numBins, afterNumBins)) =>
         match ReadSignedVarLong(afterNumBins)
         case Err(e) => Decoded([], Err(e))
         case Ok((index, afterIndex)) =>
           match ReadSignedVarLong(afterIndex)
           case Err(e) => Decoded([], Err(e))
           case Ok((indexDelta, rest)) => ContiguousLoop(rest, Iterations(numBins), index, indexDelta))
  }

  /** Every mode starts by reading a bin count, so an exhausted input adds nothing and ends at EOF. */
  lemma {:induction false} DecodeEmptyInput(mode: BinEncodingMode)
    ensures DecodeAndMergeWith([], mode) == Decoded([], Err(IoError(UnexpectedEof)))
  {
  }

  // ---------------------------------------------------------------------------------------
  // What each mode decodes to

  /** The index of the k-th bin of a ContiguousCounts payload: the step added k times in i64 arithmetic. */
  function ContiguousIndex(start: int, step: int, k: nat): int
    decreases k
  {
    if k == 0 then start else Wrap64(ContiguousIndex(start, step, k - 1) + step)
  }

  /** In closed form, the k-th index is start + k * step wrapped to i64. */
  lemma {:induction false} ContiguousIndexClosedForm(start: int, step: int, k: nat)
    requires InI64(start)
    ensures ContiguousIndex(start, step, k) == Wrap64(start + k * step)
    decreases k
  {
    if k > 0 {
      ContiguousIndexClosedForm(start, step, k - 1);
      WrapAddLeft(start + (k - 1) * step, step);
      assert start + (k - 1) * step + step == start + k * step;
    }
  }

  /** One turn of the IndexDeltasAndCounts loop over the tokens an encoder wrote for `bins`. */
  lemma {:induction false} DeltasAndCountsLoopStep(bins: seq<Bin>, previous: int, rest: seq<Token>)
    requires |bins| > 0 && InI64(bins[0].0)
    ensures var d := DeltasAndCountsLoop(DeltaCountTokens(bins, previous) + rest, |bins|, previous);
      var dt := DeltasAndCountsLoop(DeltaCountTokens(bins[1..], bins[0].0) + rest, |bins| - 1, bins[0].0);
      d == if InI32(bins[0].0) then Decoded([bins[0]] + dt.adds, dt.status)
           else Decoded([], Err(InvalidArgument(INDEX_OUT_OF_RANGE)))
  {
    var input := DeltaCountTokens(bins, previous) + rest;
    var tail := DeltaCountTokens(bins[1..], bins[0].0) + rest;
    assert input == [SVar(bins[0].0 - previous), VarDouble(bins[0].1)] + tail;
    assert input[1..][1..] == tail;
    assert ReadSignedVarLong(input) == Ok((bins[0].0 - previous, input[1..]));
    assert ReadVarDouble(input[1..]) == Ok((bins[0].1, tail));
    assert Wrap64(previous + (bins[0].0 - previous)) == bins[0].0;
  }

  lemma {:induction false} DeltasAndCountsLoopAdds(bins: seq<Bin>, previous: int, rest: seq<Token>)
    requires forall k :: 0 <= k < |bins| ==> InI64(bins[k].0)
    ensures var d := DeltasAndCountsLoop(DeltaCountTokens(bins, previous) + rest, |bins|, previous);
      d.adds == bins[..|d.adds|]
    decreases |bins|
  {
    if |bins| > 0 {
      DeltasAndCountsLoopStep(bins, previous, rest);
      var d := DeltasAndCountsLoop(DeltaCountTokens(bins, previous) + rest, |bins|, previous);
      if InI32(bins[0].0) {
        DeltasAndCountsLoopAdds(bins[1..], bins[0].0, rest);
        var dt := DeltasAndCountsLoop(DeltaCountTokens(bins[1..], bins[0].0) + rest, |bins| - 1, bins[0].0);
        assert d.adds == [bins[0]] + dt.adds;
        assert dt.adds == bins[1..][..|dt.adds|];
        assert bins[..1 + |dt.adds|] == [bins[0]] + bins[1..][..|dt.adds|];
      } else {
        assert d.adds == [];
      }
    }
  }

  lemma {:induction false} DeltasAndCountsLoopStatus(bins: seq<Bin>, previous: int, rest: seq<Token>)
    requires forall k :: 0 <= k < |bins| ==> InI64(bins[k].0)
    ensures var d := DeltasAndCountsLoop(DeltaCountTokens(bins, previous) + rest, |bins|, previous);
      && (d.status.Ok? <==> forall k :: 0 <= k < |bins| ==> InI32(bins[k].0))
      && (d.status.Ok? ==> d.status.value == rest)
      && (d.status.Err? ==> |d.adds| < |bins| && !InI32(bins[|d.adds|].0)
                             && d.status.error == InvalidArgument(INDEX_OUT_OF_RANGE))
    decreases |bins|
  {
    if |bins| > 0 {
      DeltasAndCountsLoopStep(bins, previous, rest);
      if InI32(bins[0].0) {
        DeltasAndCountsLoopStatus(bins[1..], bins[0].0, rest);
        assert forall k :: 1 <= k < |bins| ==> bins[k] == bins[1..][k - 1];
      }
    }
  }

  /**
   * IndexDeltasAndCounts: the bins are added in stream order with their decoded counts,
   * each index the running sum of the deltas from 0. Decoding stops with InvalidArgument at
   * the first index outside the 32-bit range; the bins before it have been added, none after.
   */
  lemma {:induction false} DecodeIndexDeltasAndCounts(bins: seq<Bin>, rest: seq<Token>)
    requires forall k :: 0 <= k < |bins| ==> InI64(bins[k].0)
    ensures var d := DecodeAndMergeWith([UVar(|bins|)] + DeltaCountTokens(bins, 0) + rest, IndexDeltasAndCounts);
      && d.adds == bins[..|d.adds|]
      && (d.status.Ok? <==> forall k :: 0 <= k < |bins| ==> InI32(bins[k].0))
      && (d.status.Ok? ==> d.adds == bins && d.status.value == rest)
      && (d.status.Err? ==> |d.adds| < |bins| && !InI32(bins[|d.adds|].0)
                             && d.status.error == InvalidArgument(INDEX_OUT_OF_RANGE))
  {
    var input := [UVar(|bins|)] + DeltaCountTokens(bins, 0) + rest;
    assert input[1..] == DeltaCountTokens(bins, 0) + rest;
    DeltasAndCountsLoopAdds(bins, 0, rest);
    DeltasAndCountsLoopStatus(bins, 0, rest);
  }

  /** The bins IndexDeltas decodes to: each index with weight 1. */
  function UnitBins(indexes: seq<int>): (r: seq<Bin>)
    ensures |r| == |indexes|
    ensures forall k :: 0 <= k < |indexes| ==> r[k] == (indexes[k], 1.0)
  {
    seq(|indexes|, k requires 0 <= k < |indexes| => (indexes[k], 1.0))
  }

  lemma {:induction false} UnitBinsCons(indexes: seq<int>)
    requires |indexes| > 0
    ensures UnitBins(indexes) == [(indexes[0], 1.0)] + UnitBins(indexes[1..])
  {
  }

  /** One turn of the IndexDeltas loop over the tokens an encoder wrote for `indexes`. */
  lemma {:induction false} DeltasLoopStep(indexes: seq<int>, previous: int, rest: seq<Token>)
    requires |indexes| > 0 && InI64(indexes[0])
    ensures var d := DeltasLoop(DeltaTokens(indexes, previous) + rest, |indexes|, previous);
      var dt := DeltasLoop(DeltaTokens(indexes[1..], indexes[0]) + rest, |indexes| - 1, indexes[0]);
      d == if InI32(indexes[0]) then Decoded([(indexes[0], 1.0)] + dt.adds, dt.status)
           else Decoded([], Err(InvalidArgument(INDEX_OUT_OF_RANGE)))
  {
    var input := DeltaTokens(indexes, previous) + rest;
    var tail := DeltaTokens(indexes[1..], indexes[0]) + rest;
    assert input == [SVar(indexes[0] - previous)] + tail;
    assert input[1..] == tail;
    assert ReadSignedVarLong(input) == Ok((indexes[0] - previous, tail));
    assert Wrap64(previous + (indexes[0] - previous)) == indexes[0];
  }

  lemma {:induction false} DeltasLoopAdds(indexes: seq<int>, previous: int, rest: seq<Token>)
    requires forall k :: 0 <= k < |indexes| ==> InI64(indexes[k])
    ensures var d := DeltasLoop(DeltaTokens(indexes, previous) + rest, |indexes|, previous);
      d.adds == UnitBins(indexes)[..|d.adds|]
    decreases |indexes|
  {
    if |indexes| > 0 {
      DeltasLoopStep(indexes, previous, rest);
      if InI32(indexes[0]) {
        DeltasLoopAdds(indexes[1..], indexes[0], rest);
        UnitBinsCons(indexes);
      }
    }
  }

  lemma {:induction false} DeltasLoopStatus(indexes: seq<int>, previous: int, rest: seq<Token>)
    requires forall k :: 0 <= k < |indexes| ==> InI64(indexes[k])
    ensures var d := DeltasLoop(DeltaTokens(indexes, previous) + rest, |indexes|, previous);
      && (d.status.Ok? <==> forall k :: 0 <= k < |indexes| ==> InI32(indexes[k]))
      && (d.status.Ok? ==> d.status.value == rest)
      && (d.status.Err? ==> |d.adds| < |indexes| && !InI32(indexes[|d.adds|])
                             && d.status.error == InvalidArgument(INDEX_OUT_OF_RANGE))
    decreases |indexes|
  {
    if |indexes| > 0 {
      DeltasLoopStep(indexes, previous, rest);
      if InI32(indexes[0]) {
        DeltasLoopStatus(indexes[1..], indexes[0], rest);
        assert forall k :: 1 <= k < |indexes| ==> indexes[k] == indexes[1..][k - 1];
      }
    }
  }

  /**
   * IndexDeltas: one add of weight 1 per delta, at the running sum of the deltas from 0;
   * InvalidArgument at the first index outside the 32-bit range, nothing added after it.
   */
  lemma {:induction false} DecodeIndexDeltas(indexes: seq<int>, rest: seq<Token>)
    requires forall k :: 0 <= k < |indexes| ==> InI64(indexes[k])
    ensures var d := DecodeAndMergeWith([UVar(|indexes|)] + DeltaTokens(indexes, 0) + rest, IndexDeltas);
      && (forall k :: 0 <= k < |d.adds| ==> d.adds[k] == (indexes[k], 1.0))
      && (d.status.Ok? <==> forall k :: 0 <= k < |indexes| ==> InI32(indexes[k]))
      && (d.status.Ok? ==> |d.adds| == |indexes| && d.status.value == rest)
      && (d.status.Err? ==> |d.adds| < |indexes| && !InI32(indexes[|d.adds|])
                             && d.status.error == InvalidArgument(INDEX_OUT_OF_RANGE))
  {
    var input := [UVar(|indexes|)] + DeltaTokens(indexes, 0) + rest;
    assert input[1..] == DeltaTokens(indexes, 0) + rest;
    DeltasLoopAdds(indexes, 0, rest);
    DeltasLoopStatus(indexes, 0, rest);
    var d := DecodeAndMergeWith(input, IndexDeltas);
    assert forall k :: 0 <= k < |d.adds| ==> d.adds[k] == UnitBins(indexes)[k];
  }

  lemma {:induction false} ContiguousIndexShift(start: int, step: int, k: nat)
    ensures ContiguousIndex(Wrap64(start + step), step, k) == ContiguousIndex(start, step, k + 1)
    decreases k
  {
    if k > 0 {
      ContiguousIndexShift(start, step, k - 1);
    }
  }

  /** One turn of the ContiguousCounts loop over the tokens an encoder wrote for `counts`. */
  lemma {:induction false} ContiguousLoopStep(start: int, step: int, counts: seq<real>, rest: seq<Token>)
    requires |counts| > 0
    ensures var d := ContiguousLoop(CountTokens(counts) + rest, |counts|, start, step);
      var dt := ContiguousLoop(CountTokens(counts[1..]) + rest, |counts| - 1, Wrap64(start + step), step);
      d == if InI32(start) then Decoded([(start, counts[0])] + dt.adds, dt.status)
           else Decoded([], Err(InvalidArgument(INDEX_OUT_OF_RANGE)))
  {
    var input := CountTokens(counts) + rest;
    var tail := CountTokens(counts[1..]) + rest;
    assert input[0] == VarDouble(counts[0]);
    assert input[1..] == tail;
    assert ReadVarDouble(input) == Ok((counts[0], tail));
  }

  lemma {:induction false} ContiguousLoopAdds(start: int, step: int, counts: seq<real>, rest: seq<Token>)
    ensures var d := ContiguousLoop(CountTokens(counts) + rest, |counts|, start, step);
      forall k :: 0 <= k < |d.adds| ==> d.adds[k] == (ContiguousIndex(start, step, k), counts[k])
    decreases |counts|
  {
    if |counts| > 0 {
      ContiguousLoopStep(start, step, counts, rest);
      var d := ContiguousLoop(CountTokens(counts) + rest, |counts|, start, step);
      if InI32(start) {
        var next := Wrap64(start + step);
        ContiguousLoopAdds(next, step, counts[1..], rest);
        var dt := ContiguousLoop(CountTokens(counts[1..]) + rest, |counts| - 1, next, step);
        assert d.adds == [(start, counts[0])] + dt.adds;
        forall k | 0 <= k < |d.adds|
          ensures d.adds[k] == (ContiguousIndex(start, step, k), counts[k])
        {
          if k > 0 {
            ContiguousIndexShift(start, step, k - 1);
            assert d.adds[k] == dt.adds[k - 1];
            assert counts[1..][k - 1] == counts[k];
          }
        }
      } else {
        assert d.adds == [];
      }
    }
  }

  /** The first n indexes of a ContiguousCounts payload all fit in 32 bits. */
  predicate ContiguousFits(start: int, step: int, n: nat)
    decreases n
  {
    n == 0 || (InI32(start) && ContiguousFits(Wrap64(start + step), step, n - 1))
  }

  lemma {:induction false} ContiguousFitsAll(start: int, step: int, n: nat)
    ensures ContiguousFits(start, step, n) <==> forall k :: 0 <= k < n ==> InI32(ContiguousIndex(start, step, k))
    decreases n
  {
    if n > 0 {
      var next := Wrap64(start + step);
      ContiguousFitsAll(next, step, n - 1);
      forall k | 0 <= k < n - 1
        ensures ContiguousIndex(next, step, k) == ContiguousIndex(start, step, k + 1)
      {
        ContiguousIndexShift(start, step, k);
      }
      if InI32(start) && ContiguousFits(next, step, n - 1) {
        assert forall k :: 0 <= k < n - 1 ==> InI32(ContiguousIndex(next, step, k));
        forall k | 0 <= k < n
          ensures InI32(ContiguousIndex(start, step, k))
        {
          if k > 0 {
            assert ContiguousIndex(start, step, k) == ContiguousIndex(next, step, k - 1);
          }
        }
      } else if !InI32(start) {
        assert ContiguousIndex(start, step, 0) == start;
        assert !InI32(ContiguousIndex(start, step, 0));
      } else {
        var k :| 0 <= k < n - 1 && !InI32(ContiguousIndex(next, step, k));
        assert !InI32(ContiguousIndex(start, step, k + 1));
      }
    }
  }

  lemma {:induction false} ContiguousLoopStatus(start: int, step: int, counts: seq<real>, rest: seq<Token>)
    ensures var d := ContiguousLoop(CountTokens(counts) + rest, |counts|, start, step);
      && (d.status.Ok? <==> ContiguousFits(start, step, |counts|))
      && (d.status.Ok? ==> d.status.value == rest)
      && (d.status.Err? ==> |d.adds| < |counts| && !InI32(ContiguousIndex(start, step, |d.adds|))
                             && d.status.error == InvalidArgument(INDEX_OUT_OF_RANGE))
    decreases |counts|
  {
    if |counts| > 0 {
      ContiguousLoopStep(start, step, counts, rest);
      if InI32(start) {
        var next := Wrap64(start + step);
        ContiguousLoopStatus(next, step, counts[1..], rest);
        var dt := ContiguousLoop(CountTokens(counts[1..]) + rest, |counts| - 1, next, step);
        if dt.status.Err? {
          ContiguousIndexShift(start, step, |dt.adds|);
        }
      }
    }
  }

  /** Reading a ContiguousCounts header hands the rest of the input to the loop. */
  lemma {:induction false} ContiguousHeader(n: nat, start: int, step: int, body: seq<Token>)
    ensures DecodeAndMergeWith([UVar(n), SVar(start), SVar(step)] + body, ContiguousCounts)
      == ContiguousLoop(body, n, start, step)
  {
    var input := [UVar(n), SVar(start), SVar(step)] + body;
    assert ReadUnsignedVarLong(input) == Ok((n, input[1..]));
    assert ReadSignedVarLong(input[1..]) == Ok((start, input[2..]));
    assert ReadSignedVarLong(input[2..]) == Ok((step, body));
  }

  /**
   * ContiguousCounts: the k-th count is added at start + k * step (in i64 arithmetic), whatever
   * the step; InvalidArgument at the first such index outside the 32-bit range.
   */
  lemma {:induction false} DecodeContiguousCounts(start: int, step: int, counts: seq<real>, rest: seq<Token>)
    requires InI64(start)
    ensures var d := DecodeAndMergeWith([UVar(|counts|), SVar(start), SVar(step)] + CountTokens(counts) + rest, ContiguousCounts);
      && (forall k :: 0 <= k < |d.adds| ==> d.adds[k] == (ContiguousIndex(start, step, k), counts[k]))
      && (d.status.Ok? <==> forall k :: 0 <= k < |counts| ==> InI32(ContiguousIndex(start, step, k)))
      && (d.status.Ok? ==> |d.adds| == |counts| && d.status.value == rest)
      && (d.status.Err? ==> |d.adds| < |counts| && !InI32(ContiguousIndex(start, step, |d.adds|))
                             && d.status.error == InvalidArgument(INDEX_OUT_OF_RANGE))
  {
    var body := CountTokens(counts) + rest;
    assert [UVar(|counts|), SVar(start), SVar(step)] + CountTokens(counts) + rest
      == [UVar(|counts|), SVar(start), SVar(step)] + body;
    ContiguousHeader(|counts|, start, step, body);
    ContiguousLoopAdds(start, step, counts, rest);
    ContiguousLoopStatus(start, step, counts, rest);
    ContiguousFitsAll(start, step, |counts|);
  }
}
