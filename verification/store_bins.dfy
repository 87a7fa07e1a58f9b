/**
 * Reference views of a dense counter array: `CountAt(counts, offset, i)` is the count of absolute
 * index `i`. A bin is an (index, count) pair.
 */
module StoreBins {

  type Bin = (int, real)

  /** The count of absolute index `i`. */
  function CountAt(counts: seq<real>, offset: int, i: int): real
    requires offset <= i < offset + |counts|
  {
    counts[i - offset]
  }

  /** The bins of every index in [lo, hi], zero counts included, ascending. */
  function AllBins(counts: seq<real>, offset: int, lo: int, hi: int): seq<Bin>
    requires offset <= lo && hi < offset + |counts|
    decreases hi - lo
  {
    if hi < lo then [] else AllBins(counts, offset, lo, hi - 1) + [(hi, CountAt(counts, offset, hi))]
  }

  /** The bins with a non-zero count among the indexes in [lo, hi], ascending. */
  function NonEmptyBins(counts: seq<real>, offset: int, lo: int, hi: int): seq<Bin>
    requires offset <= lo && hi < offset + |counts|
    decreases hi - lo
  {
    if hi < lo then [] else
      NonEmptyBins(counts, offset, lo, hi - 1)
      + (if CountAt(counts, offset, hi) != 0.0 then [(hi, CountAt(counts, offset, hi))] else [])
  }

  /** The bins with a non-zero count among the indexes in [lo, hi], descending. */
  function NonEmptyBinsDescending(counts: seq<real>, offset: int, lo: int, hi: int): seq<Bin>
    requires offset <= lo && hi < offset + |counts|
    decreases hi - lo
  {
    if hi < lo then [] else
      (if CountAt(counts, offset, hi) != 0.0 then [(hi, CountAt(counts, offset, hi))] else [])
      + NonEmptyBinsDescending(counts, offset, lo, hi - 1)
  }

  /** The bins of a sequence whose count is non-zero, in their original order. */
  function NonEmpty(bins: seq<Bin>): seq<Bin> {
    if |bins| == 0 then [] else
      NonEmpty(bins[..|bins| - 1])
      + (if bins[|bins| - 1].1 != 0.0 then [bins[|bins| - 1]] else [])
  }

  function Reverse<T>(s: seq<T>): (r: seq<T>)
    ensures |r| == |s|
  {
    if |s| == 0 then [] else Reverse(s[1..]) + [s[0]]
  }

  ghost predicate StrictlyAscending(bins: seq<Bin>) {
    forall j, k :: 0 <= j < k < |bins| ==> bins[j].0 < bins[k].0
  }

  /** AllBins lists every index of the range once, in order, with its count. */
  lemma {:induction false} AllBinsAt(counts: seq<real>, offset: int, lo: int, hi: int)
    requires offset <= lo && hi < offset + |counts|
    ensures |AllBins(counts, offset, lo, hi)| == if hi < lo then 0 else hi - lo + 1
    ensures forall k :: 0 <= k < |AllBins(counts, offset, lo, hi)| ==>
      AllBins(counts, offset, lo, hi)[k] == (lo + k, CountAt(counts, offset, lo + k))
    decreases hi - lo
  {
    if lo <= hi {
      AllBinsAt(counts, offset, lo, hi - 1);
      var prev := AllBins(counts, offset, lo, hi - 1);
      var last := (hi, CountAt(counts, offset, hi));
      assert AllBins(counts, offset, lo, hi) == prev + [last];
      forall k | 0 <= k < |prev| + 1
        ensures (prev + [last])[k] == (lo + k, CountAt(counts, offset, lo + k))
      {
        if k < |prev| {
          assert (prev + [last])[k] == prev[k];
        }
      }
    }
  }

  /** The non-empty bins are strictly ascending, inside the range, and carry their non-zero counts. */
  lemma {:induction false} NonEmptyBinsSound(counts: seq<real>, offset: int, lo: int, hi: int)
    requires offset <= lo && hi < offset + |counts|
    ensures StrictlyAscending(NonEmptyBins(counts, offset, lo, hi))
    ensures forall b :: b in NonEmptyBins(counts, offset, lo, hi) ==>
      lo <= b.0 <= hi && b.1 == CountAt(counts, offset, b.0) && b.1 != 0.0
    decreases hi - lo
  {
    if lo <= hi {
      NonEmptyBinsSound(counts, offset, lo, hi - 1);
      var prev := NonEmptyBins(counts, offset, lo, hi - 1);
      var c := CountAt(counts, offset, hi);
      var last := if c != 0.0 then [(hi, c)] else [];
      var bins := prev + last;
      assert NonEmptyBins(counts, offset, lo, hi) == bins;
      forall b | b in bins
        ensures lo <= b.0 <= hi && b.1 == CountAt(counts, offset, b.0) && b.1 != 0.0
      {
        if b !in prev {
          assert b in last;
        }
      }
      forall j, k | 0 <= j < k < |bins|
        ensures bins[j].0 < bins[k].0
      {
        assert bins[j] == prev[j];
        if k < |prev| {
          assert bins[k] == prev[k];
        } else {
          assert prev[j] in prev;
        }
      }
    }
  }

  /** Every index of the range with a non-zero count appears among the non-empty bins. */
  lemma {:induction false} NonEmptyBinsComplete(counts: seq<real>, offset: int, lo: int, hi: int)
    requires offset <= lo && hi < offset + |counts|
    ensures forall i :: lo <= i <= hi && CountAt(counts, offset, i) != 0.0 ==>
      (i, CountAt(counts, offset, i)) in NonEmptyBins(counts, offset, lo, hi)
    decreases hi - lo
  {
    if lo <= hi {
      NonEmptyBinsComplete(counts, offset, lo, hi - 1);
    }
  }

  /** Filtering the full range down to its non-zero counts gives the non-empty bins. */
  lemma {:induction false} NonEmptyOfAllBins(counts: seq<real>, offset: int, lo: int, hi: int)
    requires offset <= lo && hi < offset + |counts|
    ensures NonEmpty(AllBins(counts, offset, lo, hi)) == NonEmptyBins(counts, offset, lo, hi)
    decreases hi - lo
  {
    if lo <= hi {
      var all := AllBins(counts, offset, lo, hi);
      assert all[..|all| - 1] == AllBins(counts, offset, lo, hi - 1);
      NonEmptyOfAllBins(counts, offset, lo, hi - 1);
    }
  }

  /** Peeling the lowest index off the range. */
  lemma {:induction false} NonEmptyBinsFront(counts: seq<real>, offset: int, lo: int, hi: int)
    requires offset <= lo <= hi && hi < offset + |counts|
    ensures NonEmptyBins(counts, offset, lo, hi)
      == (if CountAt(counts, offset, lo) != 0.0 then [(lo, CountAt(counts, offset, lo))] else [])
         + NonEmptyBins(counts, offset, lo + 1, hi)
    decreases hi - lo
  {
    if lo < hi {
      NonEmptyBinsFront(counts, offset, lo, hi - 1);
    }
  }

  /** Skipping a run of zero counts does not change the non-empty bins. */
  lemma {:induction false} NonEmptyBinsSkipZeros(counts: seq<real>, offset: int, lo: int, mid: int, hi: int)
    requires offset <= lo <= mid <= hi + 1 && hi < offset + |counts|
    requires forall i :: lo <= i < mid ==> CountAt(counts, offset, i) == 0.0
    ensures NonEmptyBins(counts, offset, lo, hi) == NonEmptyBins(counts, offset, mid, hi)
    decreases mid - lo
  {
    if lo < mid {
      NonEmptyBinsFront(counts, offset, lo, hi);
      NonEmptyBinsSkipZeros(counts, offset, lo + 1, mid, hi);
    }
  }

  /** Peeling the highest index off the descending list. */
  lemma {:induction false} NonEmptyBinsDescendingBack(counts: seq<real>, offset: int, lo: int, hi: int)
    requires offset <= lo <= hi && hi < offset + |counts|
    ensures NonEmptyBinsDescending(counts, offset, lo, hi)
      == NonEmptyBinsDescending(counts, offset, lo + 1, hi)
         + (if CountAt(counts, offset, lo) != 0.0 then [(lo, CountAt(counts, offset, lo))] else [])
    decreases hi - lo
  {
    if lo < hi {
      NonEmptyBinsDescendingBack(counts, offset, lo, hi - 1);
    }
  }

  /** Skipping a run of zero counts at the top of the range. */
  lemma {:induction false} NonEmptyBinsDescendingSkipZeros(counts: seq<real>, offset: int, lo: int, mid: int, hi: int)
    requires offset <= lo && lo - 1 <= mid <= hi && hi < offset + |counts|
    requires forall i :: mid < i <= hi ==> CountAt(counts, offset, i) == 0.0
    ensures NonEmptyBinsDescending(counts, offset, lo, hi) == NonEmptyBinsDescending(counts, offset, lo, mid)
    decreases hi - mid
  {
    if mid < hi {
      NonEmptyBinsDescendingSkipZeros(counts, offset, lo, mid, hi - 1);
    }
  }

  lemma {:induction false} ReverseAppend<T>(a: seq<T>, b: seq<T>)
    ensures Reverse(a + b) == Reverse(b) + Reverse(a)
  {
    if |a| == 0 {
      assert a + b == b;
    } else {
      assert (a + b)[1..] == a[1..] + b;
      ReverseAppend(a[1..], b);
    }
  }

  /** The descending list is the ascending one reversed. */
  lemma {:induction false} DescendingIsReverse(counts: seq<real>, offset: int, lo: int, hi: int)
    requires offset <= lo && hi < offset + |counts|
    ensures NonEmptyBinsDescending(counts, offset, lo, hi) == Reverse(NonEmptyBins(counts, offset, lo, hi))
    decreases hi - lo
  {
    if lo <= hi {
      var last := if CountAt(counts, offset, hi) != 0.0 then [(hi, CountAt(counts, offset, hi))] else [];
      DescendingIsReverse(counts, offset, lo, hi - 1);
      ReverseAppend(NonEmptyBins(counts, offset, lo, hi - 1), last);
      assert Reverse(last) == last;
    }
  }

  /** A sequence with no zero count is its own non-empty part. */
  lemma {:induction false} NonEmptyOfNonZero(bins: seq<Bin>)
    requires forall k :: 0 <= k < |bins| ==> bins[k].1 != 0.0
    ensures NonEmpty(bins) == bins
  {
    if |bins| > 0 {
      NonEmptyOfNonZero(bins[..|bins| - 1]);
    }
  }
}
