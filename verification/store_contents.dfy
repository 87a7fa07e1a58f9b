/**
 * What a store holds once bins have been added to it: the total count at each index. This is
 * the effect of `Store::add`, `Store::add_bin` and the default `Store::merge_with`, whatever the
 * store's internal layout.
 */
module StoreContents {
  import opened StoreBins

  /** The total count added at each index; an index that is absent holds 0. */
  type Contents = map<int, real>

  function CountOf(m: Contents, i: int): real {
    if i in m then m[i] else 0.0
  }

  /** `Store::add_bin` (and `add(index, count)`): the count joins whatever the index held. */
  function AddBin(m: Contents, bin: Bin): (r: Contents)
    ensures CountOf(r, bin.0) == CountOf(m, bin.0) + bin.1
    ensures forall j :: j != bin.0 ==> CountOf(r, j) == CountOf(m, j)
  {
    m[bin.0 := CountOf(m, bin.0) + bin.1]
  }

  /** The total count a list of bins carries at index `j`. */
  function SumAt(bins: seq<Bin>, j: int): real {
    if |bins| == 0 then 0.0
    else SumAt(bins[..|bins| - 1], j) + (if bins[|bins| - 1].0 == j then bins[|bins| - 1].1 else 0.0)
  }

  lemma {:induction false} SumAtAppend(a: seq<Bin>, b: seq<Bin>, j: int)
    ensures SumAt(a + b, j) == SumAt(a, j) + SumAt(b, j)
    decreases |b|
  {
    if |b| == 0 {
      assert a + b == a;
    } else {
      assert (a + b)[..|a + b| - 1] == a + b[..|b| - 1];
      SumAtAppend(a, b[..|b| - 1], j);
    }
  }

  /** Peeling the first bin off the list. */
  lemma {:induction false} SumAtCons(bins: seq<Bin>)
    requires |bins| > 0
    ensures forall j :: SumAt(bins, j) == (if bins[0].0 == j then bins[0].1 else 0.0) + SumAt(bins[1..], j)
  {
    var first := [bins[0]];
    assert bins == first + bins[1..];
    assert first[..0] == [];
    forall j
      ensures SumAt(bins, j) == (if bins[0].0 == j then bins[0].1 else 0.0) + SumAt(bins[1..], j)
    {
      SumAtAppend(first, bins[1..], j);
      assert SumAt(first, j) == SumAt(first[..0], j) + (if bins[0].0 == j then bins[0].1 else 0.0);
    }
  }

  /** `Store::merge_with`: every bin is added in turn, so each index gains the bins' total there. */
  function MergeWith(m: Contents, bins: seq<Bin>): (r: Contents)
    ensures forall j :: CountOf(r, j) == CountOf(m, j) + SumAt(bins, j)
    decreases |bins|
  {
    if |bins| == 0 then m
    else
      SumAtCons(bins);
      MergeWith(AddBin(m, bins[0]), bins[1..])
  }

  /** Merging two lists one after the other is merging their concatenation. */
  lemma {:induction false} MergeWithAppend(m: Contents, a: seq<Bin>, b: seq<Bin>)
    ensures forall j :: CountOf(MergeWith(MergeWith(m, a), b), j) == CountOf(MergeWith(m, a + b), j)
  {
    forall j
      ensures CountOf(MergeWith(MergeWith(m, a), b), j) == CountOf(MergeWith(m, a + b), j)
    {
      SumAtAppend(a, b, j);
    }
  }

  /** The full range of a counter array carries each index's own count, and nothing outside it. */
  lemma {:induction false} SumAtAllBins(counts: seq<real>, offset: int, lo: int, hi: int, j: int)
    requires offset <= lo && hi < offset + |counts|
    ensures SumAt(AllBins(counts, offset, lo, hi), j)
      == if lo <= j <= hi then CountAt(counts, offset, j) else 0.0
    decreases hi - lo
  {
    if lo <= hi {
      var prev := AllBins(counts, offset, lo, hi - 1);
      var all := AllBins(counts, offset, lo, hi);
      assert all == prev + [(hi, CountAt(counts, offset, hi))];
      assert all[..|all| - 1] == prev;
      SumAtAllBins(counts, offset, lo, hi - 1, j);
    }
  }

  /** Leaving out the zero counts changes no index's total. */
  lemma {:induction false} SumAtNonEmptyBins(counts: seq<real>, offset: int, lo: int, hi: int, j: int)
    requires offset <= lo && hi < offset + |counts|
    ensures SumAt(NonEmptyBins(counts, offset, lo, hi), j)
      == if lo <= j <= hi then CountAt(counts, offset, j) else 0.0
    decreases hi - lo
  {
    if lo <= hi {
      var prev := NonEmptyBins(counts, offset, lo, hi - 1);
      SumAtNonEmptyBins(counts, offset, lo, hi - 1, j);
      if CountAt(counts, offset, hi) != 0.0 {
        var bins := NonEmptyBins(counts, offset, lo, hi);
        assert bins == prev + [(hi, CountAt(counts, offset, hi))];
        assert bins[..|bins| - 1] == prev;
      } else {
        assert NonEmptyBins(counts, offset, lo, hi) == prev + [];
        assert NonEmptyBins(counts, offset, lo, hi) == prev;
      }
    }
  }
}
