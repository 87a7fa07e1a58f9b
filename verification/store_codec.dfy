/**
 * The default `encode`, `decode_and_merge_with` and `merge_with` of the `Store` trait.
 * The store is seen through its accessors: the populated range [minIndex, maxIndex], the
 * absolute index of counter slot 0 (`offset`), and the counters. `add` is kept abstract:
 * decoding returns the sequence of `add(index, count)` calls it issues.
 */
module StoreCodec {
  import opened Errors
  import opened Flags
  import opened Serde
  import opened BinEncoding
  import opened StoreBins

  /** What `is_empty`, `get_min_index`, `get_max_index`, `get_offset` and `get_count` return. */
  datatype StoreSnapshot = StoreSnapshot(empty: bool, minIndex: int, maxIndex: int, offset: int, counts: seq<real>) {
    predicate Valid() {
      && InI32(minIndex) && InI32(maxIndex) && InI32(offset)
      && (!empty ==> offset <= minIndex <= maxIndex < offset + |counts|)
    }
  }

  /** The store's bins with a non-zero count, ascending. */
  function Bins(s: StoreSnapshot): seq<Bin>
    requires s.Valid() && !s.empty
  {
    NonEmptyBins(s.counts, s.offset, s.minIndex, s.maxIndex)
  }

  /** Every bin of the populated range, zero counts included, ascending. */
  function RangeBins(s: StoreSnapshot): seq<Bin>
    requires s.Valid() && !s.empty
  {
    AllBins(s.counts, s.offset, s.minIndex, s.maxIndex)
  }

  /** The counters of the populated range. */
  function RangeCounts(s: StoreSnapshot): seq<real>
    requires s.Valid() && !s.empty
  {
    s.counts[s.minIndex - s.offset .. s.maxIndex - s.offset + 1]
  }

  // ---------------------------------------------------------------------------------------
  // Layouts and their size estimates

  function CountTokens(counts: seq<real>): (r: seq<Token>)
    ensures |r| == |counts|
    ensures forall k :: 0 <= k < |counts| ==> r[k] == VarDouble(counts[k])
  {
    seq(|counts|, k requires 0 <= k < |counts| => VarDouble(counts[k]))
  }

  /** Index of the last bin, or `previous` when there is none: where the next delta starts. */
  function LastIndex(bins: seq<Bin>, previous: int): int {
    if |bins| == 0 then previous else bins[|bins| - 1].0
  }

  /** Each bin as (index - previous index, count), the previous index starting at `previous`. */
  function DeltaCountTokens(bins: seq<Bin>, previous: int): seq<Token> {
    if |bins| == 0 then []
    else [SVar(bins[0].0 - previous), VarDouble(bins[0].1)] + DeltaCountTokens(bins[1..], bins[0].0)
  }

  /** Each index as a delta from the previous one: the count-free IndexDeltas layout. */
  function DeltaTokens(indexes: seq<int>, previous: int): seq<Token> {
    if |indexes| == 0 then []
    else [SVar(indexes[0] - previous)] + DeltaTokens(indexes[1..], indexes[0])
  }

  /** ContiguousCounts: number of bins, first index, index step 1, then every count. */
  function DensePayload(s: StoreSnapshot): seq<Token>
    requires s.Valid() && !s.empty
  {
    [UVar(s.maxIndex - s.minIndex + 1), SVar(s.minIndex), SVar(1)] + CountTokens(RangeCounts(s))
  }

  /** IndexDeltasAndCounts: number of non-empty bins, then (delta, count) per non-empty bin. */
  function SparsePayload(s: StoreSnapshot): seq<Token>
    requires s.Valid() && !s.empty
  {
    [UVar(|Bins(s)|)] + DeltaCountTokens(Bins(s), 0)
  }

  function CountsSize(z: Sizer, counts: seq<real>): int {
    if |counts| == 0 then 0
    else CountsSize(z, counts[..|counts| - 1]) + z.doubleLen(counts[|counts| - 1])
  }

  function DeltaCountSize(z: Sizer, bins: seq<Bin>, previous: int): int {
    if |bins| == 0 then 0
    else z.signedLen(bins[0].0 - previous) + z.doubleLen(bins[0].1) + DeltaCountSize(z, bins[1..], bins[0].0)
  }

  /** The dense estimate: header and every count. */
  function DenseSize(s: StoreSnapshot, z: Sizer): int
    requires s.Valid() && !s.empty
  {
    z.unsignedLen(s.maxIndex - s.minIndex + 1) + z.signedLen(s.minIndex) + z.signedLen(1)
      + CountsSize(z, RangeCounts(s))
  }

  /** The sparse estimate: the (delta, count) pairs, without the bin-count header. */
  function SparseSize(s: StoreSnapshot, z: Sizer): int
    requires s.Valid() && !s.empty
  {
    DeltaCountSize(z, Bins(s), 0)
  }

  /**
   * What `encode` writes: nothing for an empty store. Otherwise it compares the dense estimate with
   * a sparse estimate that leaves out the sparse bin-count header, and ties of these estimates go
   * to dense.
   */
  function Encoded(s: StoreSnapshot, z: Sizer, storeFlagType: FlagType): seq<Token>
    requires s.Valid()
  {
    if s.empty then []
    else if DenseSize(s, z) <= SparseSize(s, z) then
      [FlagToken(ToFlag(ContiguousCounts, storeFlagType))] + DensePayload(s)
    else
      [FlagToken(ToFlag(IndexDeltasAndCounts, storeFlagType))] + SparsePayload(s)
  }

  lemma {:induction false} CountsSizeAppend(z: Sizer, counts: seq<real>, x: real)
    ensures CountsSize(z, counts + [x]) == CountsSize(z, counts) + z.doubleLen(x)
  {
    assert (counts + [x])[..|counts|] == counts;
  }

  lemma {:induction false} DeltaCountSizeAppend(z: Sizer, bins: seq<Bin>, previous: int, b: Bin)
    ensures DeltaCountSize(z, bins + [b], previous)
      == DeltaCountSize(z, bins, previous) + z.signedLen(b.0 - LastIndex(bins, previous)) + z.doubleLen(b.1)
    decreases |bins|
  {
    if |bins| > 0 {
      assert (bins + [b])[1..] == bins[1..] + [b];
      DeltaCountSizeAppend(z, bins[1..], bins[0].0, b);
    }
  }

  lemma {:induction false} DeltaCountTokensAppend(bins: seq<Bin>, previous: int, b: Bin)
    ensures DeltaCountTokens(bins + [b], previous)
      == DeltaCountTokens(bins, previous) + [SVar(b.0 - LastIndex(bins, previous)), VarDouble(b.1)]
    decreases |bins|
  {
    if |bins| > 0 {
      assert (bins + [b])[1..] == bins[1..] + [b];
      DeltaCountTokensAppend(bins[1..], bins[0].0, b);
    }
  }

  /** One more counter slot extends the non-empty bins by that slot's bin, if non-zero. */
  lemma {:induction false} NonEmptyBinsStep(s: StoreSnapshot, i: int)
    requires s.Valid() && !s.empty
    requires s.minIndex - s.offset <= i <= s.maxIndex - s.offset
    ensures s.counts[i] == 0.0 ==>
      (NonEmptyBins(s.counts, s.offset, s.minIndex, s.offset + i)
       == NonEmptyBins(s.counts, s.offset, s.minIndex, s.offset + i - 1))
    ensures s.counts[i] != 0.0 ==>
      (NonEmptyBins(s.counts, s.offset, s.minIndex, s.offset + i)
       == NonEmptyBins(s.counts, s.offset, s.minIndex, s.offset + i - 1) + [(s.offset + i, s.counts[i])])
  {
    assert CountAt(s.counts, s.offset, s.offset + i) == s.counts[i];
    if s.counts[i] == 0.0 {
      assert NonEmptyBins(s.counts, s.offset, s.minIndex, s.offset + i)
        == NonEmptyBins(s.counts, s.offset, s.minIndex, s.offset + i - 1) + [];
    }
  }

  lemma {:induction false} CountTokensLength(z: Sizer, counts: seq<real>)
    ensures EncodedLength(z, CountTokens(counts)) == CountsSize(z, counts)
    decreases |counts|
  {
    if |counts| > 0 {
      var n := |counts| - 1;
      CountTokensLength(z, counts[..n]);
      assert CountTokens(counts) == CountTokens(counts[..n]) + [VarDouble(counts[n])];
      EncodedLengthAppend(z, CountTokens(counts[..n]), [VarDouble(counts[n])]);
    }
  }

  lemma {:induction false} DeltaCountTokensLength(z: Sizer, bins: seq<Bin>, previous: int)
    ensures EncodedLength(z, DeltaCountTokens(bins, previous)) == DeltaCountSize(z, bins, previous)
    decreases |bins|
  {
    if |bins| > 0 {
      var head := [SVar(bins[0].0 - previous), VarDouble(bins[0].1)];
      DeltaCountTokensLength(z, bins[1..], bins[0].0);
      EncodedLengthAppend(z, head, DeltaCountTokens(bins[1..], bins[0].0));
    }
  }

  /**
   * The two estimates measure the two layouts, except that the sparse one leaves out its
   * bin-count header; encoding picks ContiguousCounts exactly when the dense payload is no
   * longer than the sparse payload without that header.
   */
  lemma {:induction false} EncodeChoosesByMeasuredSize(s: StoreSnapshot, z: Sizer, storeFlagType: FlagType)
    requires s.Valid() && !s.empty
    ensures EncodedLength(z, DensePayload(s)) == DenseSize(s, z)
    ensures EncodedLength(z, SparsePayload(s)) == z.unsignedLen(|Bins(s)|) + SparseSize(s, z)
    ensures Encoded(s, z, storeFlagType)[0] == FlagToken(ToFlag(ContiguousCounts, storeFlagType))
      <==> EncodedLength(z, DensePayload(s)) <= EncodedLength(z, SparsePayload(s)) - z.unsignedLen(|Bins(s)|)
    ensures Encoded(s, z, storeFlagType)[0] == FlagToken(ToFlag(IndexDeltasAndCounts, storeFlagType))
      <==> EncodedLength(z, DensePayload(s)) > EncodedLength(z, SparsePayload(s)) - z.unsignedLen(|Bins(s)|)
  {
    var header := [UVar(s.maxIndex - s.minIndex + 1), SVar(s.minIndex), SVar(1)];
    assert header[1..] == [SVar(s.minIndex), SVar(1)];
    assert header[1..][1..] == [SVar(1)];
    assert header[1..][1..][1..] == [];
    assert EncodedLength(z, header[1..][1..]) == z.signedLen(1);
    assert EncodedLength(z, header[1..]) == z.signedLen(s.minIndex) + z.signedLen(1);
    assert EncodedLength(z, header)
      == z.unsignedLen(s.maxIndex - s.minIndex + 1) + z.signedLen(s.minIndex) + z.signedLen(1);
    CountTokensLength(z, RangeCounts(s));
    EncodedLengthAppend(z, header, CountTokens(RangeCounts(s)));
    DeltaCountTokensLength(z, Bins(s), 0);
    EncodedLengthAppend(z, [UVar(|Bins(s)|)], DeltaCountTokens(Bins(s), 0));
    OfFlagToFlag(ContiguousCounts, storeFlagType);
    OfFlagToFlag(IndexDeltasAndCounts, storeFlagType);
  }

  // ---------------------------------------------------------------------------------------
  // Encoding

  /** Appending one bin to the running sparse estimate. */
  lemma {:induction false} SparseAppend(z: Sizer, before: seq<Bin>, b: Bin, size: int, previous: int)
    requires size == DeltaCountSize(z, before, 0) && previous == LastIndex(before, 0)
    ensures DeltaCountSize(z, before + [b], 0) == size + z.signedLen(b.0 - previous) + z.doubleLen(b.1)
    ensures LastIndex(before + [b], 0) == b.0
  {
    DeltaCountSizeAppend(z, before, 0, b);
  }

  /** How one counter slot changes the running dense estimate. */
  lemma {:induction false} DenseEstimateStep(s: StoreSnapshot, z: Sizer, i: int)
    requires s.Valid() && !s.empty
    requires s.minIndex - s.offset <= i <= s.maxIndex - s.offset
    ensures CountsSize(z, s.counts[s.minIndex - s.offset .. i + 1])
      == CountsSize(z, s.counts[s.minIndex - s.offset .. i]) + z.doubleLen(s.counts[i])
  {
    assert s.counts[s.minIndex - s.offset .. i + 1] == s.counts[s.minIndex - s.offset .. i] + [s.counts[i]];
    CountsSizeAppend(z, s.counts[s.minIndex - s.offset .. i], s.counts[i]);
  }

  /**
   * The state of the estimating loop once the slots before `i` have been scanned: the counts'
   * share of the dense estimate, the sparse estimate, the non-empty bins seen and the last of them.
   */
  ghost predicate EstimatedBefore(s: StoreSnapshot, z: Sizer, i: int, dense: int, sparse: int, n: int, previous: int)
    requires s.Valid() && !s.empty
    requires s.minIndex - s.offset <= i <= s.maxIndex - s.offset + 1
  {
    var bins := NonEmptyBins(s.counts, s.offset, s.minIndex, s.offset + i - 1);
    && dense == CountsSize(z, s.counts[s.minIndex - s.offset .. i])
    && sparse == DeltaCountSize(z, bins, 0)
    && n == |bins|
    && previous == LastIndex(bins, 0)
  }

  /** One iteration of the estimating loop, from the state before slot `i` to the state after it. */
  lemma {:induction false} EstimateStep(s: StoreSnapshot, z: Sizer, i: int, dense: int, sparse: int, n: int, previous: int,
                     dense': int, sparse': int, n': int, previous': int)
    requires s.Valid() && !s.empty
    requires s.minIndex - s.offset <= i <= s.maxIndex - s.offset
    requires EstimatedBefore(s, z, i, dense, sparse, n, previous)
    requires dense' == dense + z.doubleLen(s.counts[i])
    requires s.counts[i] == 0.0 ==> sparse' == sparse && n' == n && previous' == previous
    requires s.counts[i] != 0.0 ==>
      sparse' == sparse + z.signedLen(s.offset + i - previous) + z.doubleLen(s.counts[i])
      && n' == n + 1 && previous' == s.offset + i
    ensures EstimatedBefore(s, z, i + 1, dense', sparse', n', previous')
  {
    DenseEstimateStep(s, z, i);
    NonEmptyBinsStep(s, i);
    var before := NonEmptyBins(s.counts, s.offset, s.minIndex, s.offset + i - 1);
    var after := NonEmptyBins(s.counts, s.offset, s.minIndex, s.offset + i);
    assert s.offset + (i + 1) - 1 == s.offset + i;
    if s.counts[i] != 0.0 {
      var b := (s.offset + i, s.counts[i]);
      assert after == before + [b];
      SparseAppend(z, before, b, sparse, previous);
      assert DeltaCountSize(z, after, 0) == sparse';
      assert LastIndex(after, 0) == previous';
      assert |after| == n';
    } else {
      assert after == before;
    }
  }

  /** The first loop of `Store::encode`: both size estimates and the number of non-empty bins. */
  method EstimateSizes(s: StoreSnapshot, z: Sizer) returns (denseSize: int, sparseSize: int, numNonEmptyBins: int)
    requires s.Valid() && !s.empty
    ensures denseSize == DenseSize(s, z)
    ensures sparseSize == SparseSize(s, z)
    ensures numNonEmptyBins == |Bins(s)|
  {
    var minIndex, maxIndex, offset := s.minIndex, s.maxIndex, s.offset;
    denseSize := 0;
    var numBins := maxIndex - minIndex + 1;
    denseSize := denseSize + z.unsignedLen(numBins);
    denseSize := denseSize + z.signedLen(minIndex);
    denseSize := denseSize + z.signedLen(1);
    ghost var header := denseSize;

    sparseSize := 0;
    numNonEmptyBins := 0;
    var previousIndex := 0;

    var i := minIndex - offset;
    assert s.counts[minIndex - offset .. i] == [];
    while i < maxIndex - offset + 1
      invariant minIndex - offset <= i <= maxIndex - offset + 1
      invariant EstimatedBefore(s, z, i, denseSize - header, sparseSize, numNonEmptyBins, previousIndex)
    {
      ghost var dense0, sparse0, n0, previous0 := denseSize - header, sparseSize, numNonEmptyBins, previousIndex;
      var count := s.counts[i];
      var countLength := z.doubleLen(count);
      denseSize := denseSize + countLength;
      if count != 0.0 {
        numNonEmptyBins := numNonEmptyBins + 1;
        var index := offset + i;
        sparseSize := sparseSize + z.signedLen(index - previousIndex);
        sparseSize := sparseSize + countLength;
        previousIndex := index;
      }
      EstimateStep(s, z, i, dense0, sparse0, n0, previous0, denseSize - header, sparseSize, numNonEmptyBins, previousIndex);
      i := i + 1;
    }
    assert s.counts[minIndex - offset .. i] == RangeCounts(s);
  }

  /** The ContiguousCounts branch of `Store::encode`, after the flag. */
  method WriteContiguousCounts(s: StoreSnapshot) returns (payload: seq<Token>)
    requires s.Valid() && !s.empty
    ensures payload == DensePayload(s)
  {
    var minIndex, maxIndex, offset := s.minIndex, s.maxIndex, s.offset;
    payload := [UVar(maxIndex - minIndex + 1)];
    payload := payload + [SVar(minIndex)];
    payload := payload + [SVar(1)];
    ghost var header := payload;
    var i := minIndex - offset;
    while i < maxIndex - offset + 1
      invariant minIndex - offset <= i <= maxIndex - offset + 1
      invariant payload == header + CountTokens(s.counts[minIndex - offset .. i])
    {
      assert CountTokens(s.counts[minIndex - offset .. i + 1])
        == CountTokens(s.counts[minIndex - offset .. i]) + [VarDouble(s.counts[i])];
      payload := payload + [VarDouble(s.counts[i])];
      i := i + 1;
    }
  }

  /** The state of the sparse writing loop once the slots before `i` have been scanned. */
  ghost predicate WrittenBefore(s: StoreSnapshot, i: int, body: seq<Token>, previous: int)
    requires s.Valid() && !s.empty
    requires s.minIndex - s.offset <= i <= s.maxIndex - s.offset + 1
  {
    var bins := NonEmptyBins(s.counts, s.offset, s.minIndex, s.offset + i - 1);
    body == DeltaCountTokens(bins, 0) && previous == LastIndex(bins, 0)
  }

  /** One iteration of the sparse writing loop, from the state before slot `i` to the state after it. */
  lemma {:induction false} WriteStep(s: StoreSnapshot, i: int, body: seq<Token>, previous: int, body': seq<Token>, previous': int)
    requires s.Valid() && !s.empty
    requires s.minIndex - s.offset <= i <= s.maxIndex - s.offset
    requires WrittenBefore(s, i, body, previous)
    requires s.counts[i] == 0.0 ==> body' == body && previous' == previous
    requires s.counts[i] != 0.0 ==>
      body' == body + [SVar(s.offset + i - previous), VarDouble(s.counts[i])] && previous' == s.offset + i
    ensures WrittenBefore(s, i + 1, body', previous')
  {
    NonEmptyBinsStep(s, i);
    var before := NonEmptyBins(s.counts, s.offset, s.minIndex, s.offset + i - 1);
    var after := NonEmptyBins(s.counts, s.offset, s.minIndex, s.offset + i);
    assert s.offset + (i + 1) - 1 == s.offset + i;
    if s.counts[i] != 0.0 {
      var b := (s.offset + i, s.counts[i]);
      assert after == before + [b];
      DeltaCountTokensAppend(before, 0, b);
      assert DeltaCountTokens(after, 0) == body';
      assert LastIndex(after, 0) == previous';
    } else {
      assert after == before;
    }
  }

  /** The IndexDeltasAndCounts branch of `Store::encode`, after the flag. */
  method WriteIndexDeltasAndCounts(s: StoreSnapshot, numNonEmptyBins: int) returns (payload: seq<Token>)
    requires s.Valid() && !s.empty
    requires numNonEmptyBins == |Bins(s)|
    ensures payload == SparsePayload(s)
  {
    var minIndex, maxIndex, offset := s.minIndex, s.maxIndex, s.offset;
    payload := [UVar(numNonEmptyBins)];
    ghost var header := payload;
    ghost var body: seq<Token> := [];
    var previousIndex := 0;
    var i := minIndex - offset;
    while i < maxIndex - offset + 1
      invariant minIndex - offset <= i <= maxIndex - offset + 1
      invariant payload == header + body
      invariant WrittenBefore(s, i, body, previousIndex)
    {
      ghost var body0, previous0 := body, previousIndex;
      var count := s.counts[i];
      if count != 0.0 {
        var index := offset + i;
        payload := payload + [SVar(index - previousIndex)];
        payload := payload + [VarDouble(count)];
        body := body + [SVar(index - previousIndex), VarDouble(count)];
        previousIndex := index;
      }
      WriteStep(s, i, body0, previous0, body, previousIndex);
      i := i + 1;
    }
  }

  /** `Store::encode`: nothing for an empty store, else the flag of the chosen layout and its payload. */
  method Encode(s: StoreSnapshot, z: Sizer, storeFlagType: FlagType) returns (output: seq<Token>)
    requires s.Valid()
    ensures output == Encoded(s, z, storeFlagType)
  {
    if s.empty {
      return [];
    }
    var denseSize, sparseSize, numNonEmptyBins := EstimateSizes(s, z);
    if denseSize <= sparseSize {
      var payload := WriteContiguousCounts(s);
      output := [FlagToken(ToFlag(ContiguousCounts, storeFlagType))] + payload;
    } else {
      var payload := WriteIndexDeltasAndCounts(s, numNonEmptyBins);
      output := [FlagToken(ToFlag(IndexDeltasAndCounts, storeFlagType))] + payload;
    }
  }
}
