/**
 * `StoreIter`: a cursor over a store's counter array that yields (index, count) pairs in
 * ascending or descending index order. The bin at the cursor is yielded whatever its count;
 * the cursor then skips every zero count before the next one.
 */
module StoreIterators {
  import opened Errors
  import opened Serde
  import opened StoreBins

  /** The cursor: the indexes still to visit are [minIndex, maxIndex]. */
  datatype StoreIter = StoreIter(minIndex: int, maxIndex: int, offset: int, desc: bool, counts: seq<real>) {

    /** Every index still to visit has a counter. */
    predicate Valid() {
      minIndex <= maxIndex ==> offset <= minIndex && maxIndex < offset + |counts|
    }

    /** How many indexes are still to visit. */
    function Span(): nat {
      if maxIndex < minIndex then 0 else maxIndex - minIndex + 1
    }
  }

  /** The first index in [lo, hi] with a non-zero count, or hi + 1 when there is none. */
  function ScanUp(counts: seq<real>, offset: int, lo: int, hi: int): (r: int)
    requires offset <= lo <= hi + 1 && hi < offset + |counts|
    ensures lo <= r <= hi + 1
    ensures r <= hi ==> CountAt(counts, offset, r) != 0.0
    ensures forall i :: lo <= i < r ==> CountAt(counts, offset, i) == 0.0
    decreases hi - lo
  {
    if lo > hi then lo
    else if CountAt(counts, offset, lo) != 0.0 then lo
    else ScanUp(counts, offset, lo + 1, hi)
  }

  /** The last index in [lo, hi] with a non-zero count, or lo - 1 when there is none. */
  function ScanDown(counts: seq<real>, offset: int, lo: int, hi: int): (r: int)
    requires offset <= lo && lo - 1 <= hi < offset + |counts|
    ensures lo - 1 <= r <= hi
    ensures r >= lo ==> CountAt(counts, offset, r) != 0.0
    ensures forall i :: r < i <= hi ==> CountAt(counts, offset, i) == 0.0
    decreases hi - lo
  {
    if lo > hi then hi
    else if CountAt(counts, offset, hi) != 0.0 then hi
    else ScanDown(counts, offset, lo, hi - 1)
  }

  /**
   * `StoreIter::next`, with unbounded indexes: nothing once the range is empty, otherwise the
   * bin at the near end of the range, the cursor moving on to the next non-zero count.
   */
  function Next(it: StoreIter): (r: (Option<Bin>, StoreIter))
    requires it.Valid()
    ensures r.1.Valid()
    ensures r.0.None? <==> it.Span() == 0
    ensures r.0.None? ==> r.1 == it
    ensures r.0.Some? ==> r.1.Span() < it.Span()
    ensures r.0.Some? ==> r.1.offset == it.offset && r.1.desc == it.desc && r.1.counts == it.counts
    ensures r.0.Some? && !it.desc ==>
      && r.0.value == (it.minIndex, CountAt(it.counts, it.offset, it.minIndex))
      && r.1.maxIndex == it.maxIndex
      && it.minIndex < r.1.minIndex <= it.maxIndex + 1
      && (r.1.minIndex <= it.maxIndex ==> CountAt(it.counts, it.offset, r.1.minIndex) != 0.0)
      && (forall i :: it.minIndex < i < r.1.minIndex ==> CountAt(it.counts, it.offset, i) == 0.0)
    ensures r.0.Some? && it.desc ==>
      && r.0.value == (it.maxIndex, CountAt(it.counts, it.offset, it.maxIndex))
      && r.1.minIndex == it.minIndex
      && it.minIndex - 1 <= r.1.maxIndex < it.maxIndex
      && (r.1.maxIndex >= it.minIndex ==> CountAt(it.counts, it.offset, r.1.maxIndex) != 0.0)
      && (forall i :: r.1.maxIndex < i < it.maxIndex ==> CountAt(it.counts, it.offset, i) == 0.0)
  {
    if it.maxIndex < it.minIndex then (None, it)
    else if it.desc then
      var index := it.maxIndex;
      var next := ScanDown(it.counts, it.offset, it.minIndex, index - 1);
      (Some((index, CountAt(it.counts, it.offset, index))), it.(maxIndex := next))
    else
      var index := it.minIndex;
      var next := ScanUp(it.counts, it.offset, index + 1, it.maxIndex);
      (Some((index, CountAt(it.counts, it.offset, index))), it.(minIndex := next))
  }

  /** Everything the iterator yields, in order: the near end's bin, then the non-empty bins beyond it. */
  function Yields(it: StoreIter): seq<Bin>
    requires it.Valid()
  {
    if it.maxIndex < it.minIndex then []
    else if it.desc then
      [(it.maxIndex, CountAt(it.counts, it.offset, it.maxIndex))]
      + NonEmptyBinsDescending(it.counts, it.offset, it.minIndex, it.maxIndex - 1)
    else
      [(it.minIndex, CountAt(it.counts, it.offset, it.minIndex))]
      + NonEmptyBins(it.counts, it.offset, it.minIndex + 1, it.maxIndex)
  }

  /** Each call to `next` yields the head of the remaining sequence and leaves its tail. */
  lemma {:induction false} NextYieldsHead(it: StoreIter)
    requires it.Valid()
    ensures var (item, rest) := Next(it);
      && (item.None? ==> Yields(it) == [])
      && (item.Some? ==> Yields(it) == [item.value] + Yields(rest))
  {
    var (item, rest) := Next(it);
    if item.Some? {
      var c, off := it.counts, it.offset;
      if it.desc {
        NonEmptyBinsDescendingSkipZeros(c, off, it.minIndex, rest.maxIndex, it.maxIndex - 1);
        if rest.maxIndex >= it.minIndex {
          NonEmptyBinsDescendingBack(c, off, it.minIndex, rest.maxIndex);
          assert NonEmptyBinsDescending(c, off, it.minIndex, rest.maxIndex)
            == [(rest.maxIndex, CountAt(c, off, rest.maxIndex))]
               + NonEmptyBinsDescending(c, off, it.minIndex, rest.maxIndex - 1);
        }
      } else {
        NonEmptyBinsSkipZeros(c, off, it.minIndex + 1, rest.minIndex, it.maxIndex);
        if rest.minIndex <= it.maxIndex {
          NonEmptyBinsFront(c, off, rest.minIndex, it.maxIndex);
        }
      }
    }
  }

  /** Calling `next` until it returns nothing. */
  function Drain(it: StoreIter): (r: seq<Bin>)
    requires it.Valid()
    ensures |r| <= it.Span()
    decreases it.Span()
  {
    var (item, rest) := Next(it);
    match item
    case None => []
    case Some(b) => [b] + Drain(rest)
  }

  /** Draining the iterator yields exactly the sequence `Yields` describes. */
  lemma {:induction false} DrainIsYields(it: StoreIter)
    requires it.Valid()
    ensures Drain(it) == Yields(it)
    decreases it.Span()
  {
    NextYieldsHead(it);
    var (item, rest) := Next(it);
    if item.Some? {
      DrainIsYields(rest);
    }
  }

  /**
   * An ascending iterator that starts on a non-empty bin (as a store's iterator does at its
   * minimum index) yields the store's non-empty bins in ascending order.
   */
  lemma {:induction false} AscendingDrain(it: StoreIter)
    requires it.Valid() && !it.desc && it.minIndex <= it.maxIndex
    requires CountAt(it.counts, it.offset, it.minIndex) != 0.0
    ensures Drain(it) == NonEmptyBins(it.counts, it.offset, it.minIndex, it.maxIndex)
  {
    DrainIsYields(it);
    NonEmptyBinsFront(it.counts, it.offset, it.minIndex, it.maxIndex);
  }

  /** A descending iterator that starts on a non-empty bin yields the same bins in reverse order. */
  lemma {:induction false} DescendingDrain(it: StoreIter)
    requires it.Valid() && it.desc && it.minIndex <= it.maxIndex
    requires CountAt(it.counts, it.offset, it.maxIndex) != 0.0
    ensures Drain(it) == Reverse(NonEmptyBins(it.counts, it.offset, it.minIndex, it.maxIndex))
  {
    DrainIsYields(it);
    DescendingIsReverse(it.counts, it.offset, it.minIndex, it.maxIndex);
  }

  /**
   * The shape of an ascending walk over [lo, hi]: it starts at lo, every bin lies in the range
   * with its own count, every bin after the first is non-empty, and indexes strictly increase.
   */
  ghost predicate AscendingWalk(r: seq<Bin>, counts: seq<real>, offset: int, lo: int, hi: int)
    requires offset <= lo && hi < offset + |counts|
  {
    && |r| > 0 && r[0].0 == lo
    && (forall k :: 0 <= k < |r| ==> lo <= r[k].0 <= hi && r[k].1 == CountAt(counts, offset, r[k].0))
    && (forall k :: 0 < k < |r| ==> r[k].1 != 0.0)
    && StrictlyAscending(r)
  }

  /** The head bin of a non-empty range followed by the non-empty bins above it is an ascending walk. */
  lemma {:induction false} HeadThenNonEmpty(counts: seq<real>, offset: int, lo: int, hi: int)
    requires offset <= lo <= hi < offset + |counts|
    ensures AscendingWalk([(lo, CountAt(counts, offset, lo))] + NonEmptyBins(counts, offset, lo + 1, hi),
                          counts, offset, lo, hi)
  {
    var tail := NonEmptyBins(counts, offset, lo + 1, hi);
    NonEmptyBinsSound(counts, offset, lo + 1, hi);
    var r := [(lo, CountAt(counts, offset, lo))] + tail;
    forall k | 0 < k < |r|
      ensures r[k] == tail[k - 1]
      ensures lo < r[k].0 <= hi && r[k].1 == CountAt(counts, offset, r[k].0) && r[k].1 != 0.0
    {
      assert tail[k - 1] in tail;
    }
    forall j, k | 0 <= j < k < |r|
      ensures r[j].0 < r[k].0
    {
      if j > 0 {
        assert r[j] == tail[j - 1];
      }
    }
  }

  /** What an ascending iterator yields over a non-empty range is an ascending walk of it. */
  lemma {:induction false} AscendingYieldsWalk(it: StoreIter)
    requires it.Valid() && !it.desc && it.minIndex <= it.maxIndex
    ensures AscendingWalk(Yields(it), it.counts, it.offset, it.minIndex, it.maxIndex)
  {
    assert Yields(it) == [(it.minIndex, CountAt(it.counts, it.offset, it.minIndex))]
      + NonEmptyBins(it.counts, it.offset, it.minIndex + 1, it.maxIndex);
    HeadThenNonEmpty(it.counts, it.offset, it.minIndex, it.maxIndex);
  }

  /**
   * Ascending, the first yield is the bin at minIndex whatever its count; every later one is a
   * non-empty bin; all stay inside the range with their own counts, in strictly increasing order.
   */
  lemma {:induction false} AscendingDrainOrdered(it: StoreIter)
    requires it.Valid() && !it.desc
    ensures it.maxIndex < it.minIndex ==> Drain(it) == []
    ensures it.minIndex <= it.maxIndex ==> AscendingWalk(Drain(it), it.counts, it.offset, it.minIndex, it.maxIndex)
  {
    DrainIsYields(it);
    if it.minIndex <= it.maxIndex {
      AscendingYieldsWalk(it);
    }
  }

  /** Descending, the first yield is the bin at maxIndex, then the non-empty bins below it, highest first. */
  lemma {:induction false} DescendingDrainMirror(it: StoreIter)
    requires it.Valid() && it.desc && it.minIndex <= it.maxIndex
    ensures Drain(it) == [(it.maxIndex, CountAt(it.counts, it.offset, it.maxIndex))]
      + Reverse(NonEmptyBins(it.counts, it.offset, it.minIndex, it.maxIndex - 1))
  {
    DrainIsYields(it);
    DescendingIsReverse(it.counts, it.offset, it.minIndex, it.maxIndex - 1);
  }

  // ---------------------------------------------------------------------------------------
  // `next` as written, on i32 indexes

  /** One call to `next` as written: it either returns, or an `i32` increment or decrement overflows. */
  datatype Step = Overflow | Stepped(item: Option<Bin>, rest: StoreIter)

  /** The scanning loop `while min_index <= max_index { ...; min_index += 1 }` on an i32 cursor. */
  function ScanUpI32(counts: seq<real>, offset: int, lo: int, hi: int): (r: Option<int>)
    requires offset <= lo <= hi + 1 && hi < offset + |counts|
    ensures r.Some? ==> lo <= r.value <= hi + 1
    ensures r.Some? && lo <= I32_MAX ==> r.value <= I32_MAX
    decreases hi - lo
  {
    if lo > hi then Some(lo)
    else if CountAt(counts, offset, lo) != 0.0 then Some(lo)
    else if lo + 1 > I32_MAX then None
    else ScanUpI32(counts, offset, lo + 1, hi)
  }

  /** The scanning loop `while max_index >= min_index { ...; max_index -= 1 }` on an i32 cursor. */
  function ScanDownI32(counts: seq<real>, offset: int, lo: int, hi: int): (r: Option<int>)
    requires offset <= lo && lo - 1 <= hi < offset + |counts|
    ensures r.Some? ==> lo - 1 <= r.value <= hi
    ensures r.Some? && hi >= I32_MIN ==> r.value >= I32_MIN
    decreases hi - lo
  {
    if lo > hi then Some(hi)
    else if CountAt(counts, offset, hi) != 0.0 then Some(hi)
    else if hi - 1 < I32_MIN then None
    else ScanDownI32(counts, offset, lo, hi - 1)
  }

  /** `StoreIter::next` with `min_index += 1` and `max_index -= 1` on i32, overflow checked. */
  function NextAsWritten(it: StoreIter): (r: Step)
    requires it.Valid()
    ensures r == Stepped(None, it) <==> it.Span() == 0
    ensures r.Stepped? && r.item.Some? && !it.desc ==>
      && r.item.value == (it.minIndex, CountAt(it.counts, it.offset, it.minIndex))
      && r.rest == it.(minIndex := r.rest.minIndex)
      && it.minIndex < r.rest.minIndex <= I32_MAX
    ensures r.Stepped? && r.item.Some? && it.desc ==>
      && r.item.value == (it.maxIndex, CountAt(it.counts, it.offset, it.maxIndex))
      && r.rest == it.(maxIndex := r.rest.maxIndex)
      && I32_MIN <= r.rest.maxIndex < it.maxIndex
  {
    if it.maxIndex < it.minIndex then Stepped(None, it)
    else if it.desc then
      var index := it.maxIndex;
      if index - 1 < I32_MIN then Overflow
      else
        match ScanDownI32(it.counts, it.offset, it.minIndex, index - 1)
        case None => Overflow
        case Some(next) => Stepped(Some((index, CountAt(it.counts, it.offset, index))), it.(maxIndex := next))
    else
      var index := it.minIndex;
      if index + 1 > I32_MAX then Overflow
      else
        match ScanUpI32(it.counts, it.offset, index + 1, it.maxIndex)
        case None => Overflow
        case Some(next) => Stepped(Some((index, CountAt(it.counts, it.offset, index))), it.(minIndex := next))
  }

  /** The i32 scan fails exactly when the unbounded scan would step past i32::MAX. */
  lemma {:induction false} ScanUpI32Agrees(counts: seq<real>, offset: int, lo: int, hi: int)
    requires offset <= lo <= hi + 1 && hi < offset + |counts|
    requires InI32(lo) && InI32(hi)
    ensures var r := ScanUp(counts, offset, lo, hi);
      ScanUpI32(counts, offset, lo, hi) == if r > I32_MAX then None else Some(r)
    decreases hi - lo
  {
    if lo <= hi && CountAt(counts, offset, lo) == 0.0 && lo + 1 <= I32_MAX {
      ScanUpI32Agrees(counts, offset, lo + 1, hi);
    }
  }

  /** The i32 scan fails exactly when the unbounded scan would step below i32::MIN. */
  lemma {:induction false} ScanDownI32Agrees(counts: seq<real>, offset: int, lo: int, hi: int)
    requires offset <= lo && lo - 1 <= hi < offset + |counts|
    requires InI32(lo) && InI32(hi)
    ensures var r := ScanDown(counts, offset, lo, hi);
      ScanDownI32(counts, offset, lo, hi) == if r < I32_MIN then None else Some(r)
    decreases hi - lo
  {
    if lo <= hi && CountAt(counts, offset, hi) == 0.0 && hi - 1 >= I32_MIN {
      ScanDownI32Agrees(counts, offset, lo, hi - 1);
    }
  }

  /**
   * On i32 cursors, `next` as written overflows exactly when the correct cursor would leave the
   * i32 range (moving past i32::MAX ascending or below i32::MIN descending), and otherwise agrees
   * with `Next`.
   */
  lemma {:induction false} NextAsWrittenOverflows(it: StoreIter)
    requires it.Valid() && InI32(it.minIndex) && InI32(it.maxIndex)
    ensures var (item, rest) := Next(it);
      && (NextAsWritten(it).Overflow? <==> !InI32(rest.minIndex) || !InI32(rest.maxIndex))
      && (!NextAsWritten(it).Overflow? ==> NextAsWritten(it) == Stepped(item, rest))
  {
    if it.minIndex <= it.maxIndex {
      if it.desc {
        if it.maxIndex - 1 >= I32_MIN {
          ScanDownI32Agrees(it.counts, it.offset, it.minIndex, it.maxIndex - 1);
        }
      } else {
        if it.minIndex + 1 <= I32_MAX {
          ScanUpI32Agrees(it.counts, it.offset, it.minIndex + 1, it.maxIndex);
        }
      }
    }
  }

  /** A store whose only bin sits at i32::MAX: its last bin cannot be taken without overflowing. */
  lemma {:induction false} AscendingOverflowAtMax()
    ensures var it := StoreIter(I32_MAX, I32_MAX, I32_MAX, false, [1.0]);
      && it.Valid()
      && NextAsWritten(it) == Overflow
      && Next(it) == (Some((I32_MAX, 1.0)), it.(minIndex := I32_MAX + 1))
  {
  }

  /** The mirror image: a descending iterator over a single bin at i32::MIN. */
  lemma {:induction false} DescendingOverflowAtMin()
    ensures var it := StoreIter(I32_MIN, I32_MIN, I32_MIN, true, [1.0]);
      && it.Valid()
      && NextAsWritten(it) == Overflow
      && Next(it) == (Some((I32_MIN, 1.0)), it.(maxIndex := I32_MIN - 1))
  {
  }
}
