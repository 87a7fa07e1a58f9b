/**
 * What a decoder makes of what `Store::encode` writes: whichever layout the encoder chose,
 * merging the decoded bins into an empty store reproduces the count of every index.
 */
module StoreRoundTrip {
  import opened Errors
  import opened Flags
  import opened Serde
  import opened BinEncoding
  import opened StoreBins
  import opened StoreCodec
  import opened StoreDecode
  import opened StoreContents

  /** The count the store reports for absolute index `j`: its counter inside [minIndex, maxIndex], 0 outside. */
  function StoreCount(s: StoreSnapshot, j: int): real
    requires s.Valid() && !s.empty
  {
    if s.minIndex <= j <= s.maxIndex then CountAt(s.counts, s.offset, j) else 0.0
  }

  /** With step 1 the k-th index of a ContiguousCounts payload is start + k, as long as no index wraps. */
  lemma {:induction false} ContiguousStepOne(start: int, n: nat)
    requires InI64(start) && InI64(start + n)
    ensures forall k :: 0 <= k < n ==> ContiguousIndex(start, 1, k) == start + k
  {
    forall k | 0 <= k < n
      ensures ContiguousIndex(start, 1, k) == start + k
    {
      ContiguousIndexClosedForm(start, 1, k);
    }
  }

  /** The k-th bin of the range is the k-th counter of the range at index minIndex + k. */
  lemma {:induction false} RangeBinsAt(s: StoreSnapshot)
    requires s.Valid() && !s.empty
    ensures |RangeBins(s)| == |RangeCounts(s)|
    ensures forall k :: 0 <= k < |RangeCounts(s)| ==> RangeBins(s)[k] == (s.minIndex + k, RangeCounts(s)[k])
  {
    AllBinsAt(s.counts, s.offset, s.minIndex, s.maxIndex);
    forall k | 0 <= k < |RangeCounts(s)|
      ensures RangeCounts(s)[k] == CountAt(s.counts, s.offset, s.minIndex + k)
    {
    }
  }

  /** With step 1 and a first index whose range fits, the k-th count is added at first + k. */
  lemma {:induction false} StepOneDecode(first: int, counts: seq<real>, rest: seq<Token>)
    requires InI32(first) && InI32(first + |counts| - 1)
    ensures var d := DecodeAndMergeWith([UVar(|counts|), SVar(first), SVar(1)] + CountTokens(counts) + rest, ContiguousCounts);
      && d.status == Ok(rest) && |d.adds| == |counts|
      && forall k :: 0 <= k < |counts| ==> d.adds[k] == (first + k, counts[k])
  {
    ContiguousStepOne(first, |counts|);
    assert forall k :: 0 <= k < |counts| ==> InI32(ContiguousIndex(first, 1, k));
    DecodeContiguousCounts(first, 1, counts, rest);
  }

  /** A ContiguousCounts payload written with step 1 decodes to every bin of the range, zeros included. */
  lemma {:induction false} DenseRoundTrip(s: StoreSnapshot, rest: seq<Token>)
    requires s.Valid() && !s.empty
    ensures var d := DecodeAndMergeWith(DensePayload(s) + rest, ContiguousCounts);
      d.status == Ok(rest) && d.adds == RangeBins(s)
  {
    var counts := RangeCounts(s);
    assert DensePayload(s) + rest == [UVar(|counts|), SVar(s.minIndex), SVar(1)] + CountTokens(counts) + rest;
    StepOneDecode(s.minIndex, counts, rest);
    RangeBinsAt(s);
  }

  /** An IndexDeltasAndCounts payload decodes to exactly the non-empty bins. */
  lemma {:induction false} SparseRoundTrip(s: StoreSnapshot, rest: seq<Token>)
    requires s.Valid() && !s.empty
    ensures var d := DecodeAndMergeWith(SparsePayload(s) + rest, IndexDeltasAndCounts);
      d.status == Ok(rest) && d.adds == Bins(s)
  {
    var bins := Bins(s);
    NonEmptyBinsSound(s.counts, s.offset, s.minIndex, s.maxIndex);
    forall k | 0 <= k < |bins|
      ensures InI32(bins[k].0)
    {
      assert bins[k] in bins;
    }
    DecodeIndexDeltasAndCounts(bins, rest);
  }

  /**
   * The encoded store opens with a flag of the requested store type naming a known layout, and
   * decoding the rest in that layout consumes exactly the payload: in ContiguousCounts every bin
   * of the range is added, in IndexDeltasAndCounts only the non-empty ones, and in both cases an
   * empty store that receives the bins ends up with the count of every index of the original.
   */
  lemma {:induction false} EncodeDecodeRoundTrip(s: StoreSnapshot, z: Sizer, storeFlagType: FlagType, rest: seq<Token>)
    requires s.Valid() && !s.empty
    ensures var encoded := Encoded(s, z, storeFlagType);
      && |encoded| > 0 && encoded[0].FlagToken?
      && encoded[0].flag.TypeCode() == storeFlagType.Code()
      && OfFlag(encoded[0].flag.marker).Ok?
      && var mode := OfFlag(encoded[0].flag.marker).value;
         var d := DecodeAndMergeWith(encoded[1..] + rest, mode);
         && d.status == Ok(rest)
         && d.adds == (if mode == ContiguousCounts then RangeBins(s) else Bins(s))
         && NonEmpty(d.adds) == Bins(s)
         && forall j :: CountOf(MergeWith(map[], d.adds), j) == StoreCount(s, j)
  {
    var encoded := Encoded(s, z, storeFlagType);
    if DenseSize(s, z) <= SparseSize(s, z) {
      OfFlagToFlag(ContiguousCounts, storeFlagType);
      assert encoded[1..] == DensePayload(s);
      DenseRoundTrip(s, rest);
      NonEmptyOfAllBins(s.counts, s.offset, s.minIndex, s.maxIndex);
      forall j
        ensures SumAt(RangeBins(s), j) == StoreCount(s, j)
      {
        SumAtAllBins(s.counts, s.offset, s.minIndex, s.maxIndex, j);
      }
    } else {
      OfFlagToFlag(IndexDeltasAndCounts, storeFlagType);
      assert encoded[1..] == SparsePayload(s);
      SparseRoundTrip(s, rest);
      NonEmptyBinsSound(s.counts, s.offset, s.minIndex, s.maxIndex);
      forall k | 0 <= k < |Bins(s)|
        ensures Bins(s)[k].1 != 0.0
      {
        assert Bins(s)[k] in Bins(s);
      }
      NonEmptyOfNonZero(Bins(s));
      forall j
        ensures SumAt(Bins(s), j) == StoreCount(s, j)
      {
        SumAtNonEmptyBins(s.counts, s.offset, s.minIndex, s.maxIndex, j);
      }
    }
  }
}
