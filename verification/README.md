# sketches-rust store codec and index mapping, in Dafny

This project models two pieces of the DDSketch implementation in `sketches-rust`:

- **The store's default codec and iterator** (`src/store/mod.rs`).
  - `Store::encode` estimates the size of the dense layout (ContiguousCounts) and of the
    sparse one (IndexDeltasAndCounts). The sparse estimate leaves out the sparse layout's own
    bin-count header. The estimates are compared and ties of these estimates go to dense, so the
    sparse layout can be written when both encodings have the same length.
  - `Store::decode_and_merge_with` reads any of the three layouts. It accumulates indexes in
    64 bits and narrows each one to 32 bits with a checked conversion.
  - `Store::merge_with` adds a list of bins one by one.
  - `StoreIter::next` walks the populated range ascending or descending.
  - `BinEncodingMode::of_flag` / `to_flag` map a layout to and from the flag's sub-marker.
- **The discrete part of the logarithmic index mapping** (`src/index_mapping/mod.rs`).
  - The rounding step of `index`.
  - `with_relative_accuracy` and `with_gamma_offset`.
  - The gamma / relative-accuracy conversions.
  - `encode`, and `IndexMappingLayout::of_flag` / `to_flag`.

The byte stream is a sequence of typed tokens: a flag byte, an unsigned or signed varint, a
var-double, or an eight-byte double. The varint codecs' encoded lengths are functions the
caller supplies in a `Sizer`. Counts and the mapping's parameters are exact `real`s.

Integer widths are written out:
- i64 index accumulation wraps in two's complement (`Serde.Wrap64`), which is the behaviour of
  a release build.
- `i64_to_i32_exact` fails instead of truncating.
- The u8 subtraction in `BinEncodingMode::of_flag` wraps, so sub-marker 0 is rejected.
- `as i32` truncates toward zero and saturates at the i32 bounds.

The store is seen through its accessors as a `StoreSnapshot`: `is_empty`, the populated range
[minIndex, maxIndex], `offset` (the absolute index of counter slot 0), and the counters.
Decoding returns the `add(index, count)` calls it issues, in order, together with either the
unread rest of the input or the error that stopped it. `StoreContents` gives those calls their
meaning as a map from index to total count.

Modules follow the source:
- `Errors` (`src/error.rs`);
- `Flags` and `Serde` (the flag byte and the token primitives; `sketch.rs` and `serde.rs` are
  not part of this model);
- `BinEncoding`, `StoreBins`, `StoreCodec`, `StoreDecode`, `StoreContents`, `StoreRoundTrip`
  and `StoreIterators` (`src/store/mod.rs`);
- `IndexMappings` (`src/index_mapping/mod.rs`).

**Flag type codes.**
- The fixed bytes of `src/sketch_test.rs:34` open an index mapping with the byte 2 and a dense
  positive store with 13 (`3 << 2 | 1`), so IndexMapping is 2 and PositiveStore is 1.
- SketchFeatures = 0 and NegativeStore = 3 take the remaining codes. `sketch.rs` is not part of
  this model, so these two are assumptions.

## Model

| member | source | states |
|---|---|---|
| Flags.WithType | src/store/mod.rs:249-252 | The flag's low two bits are the requested field type's code, and its sub-marker (`marker >> 2`) is the sub-flag with the two bits a u8 shift loses dropped |
| BinEncoding.OfFlag | src/store/mod.rs:239-247 | A mode is returned exactly when the sub-marker is 1, 2 or 3, and its discriminant is that sub-marker; sub-marker 0 (u8 underflow) and every sub-marker above 3 give InvalidArgument("Unknown BinEncodingMode.") |
| BinEncoding.ToFlag | src/store/mod.rs:249-252 | The flag of a mode carries the store's type code and the mode's discriminant as sub-marker |
| BinEncoding.OfFlagToFlag | src/store/mod.rs:238-252 | Reading back the flag of a mode gives that mode, whichever store type it tags |
| BinEncoding.ToFlagInjective | src/store/mod.rs:238-252 | Distinct modes get distinct flags under the same store type |
| StoreContents.AddBin | src/store/mod.rs:13-14 | Adding a bin raises the count at its index by its count and leaves every other index unchanged |
| StoreContents.MergeWith | src/store/mod.rs:15-19 | After merging a list of bins, every index holds its previous count plus the total the list carries at that index |
| StoreContents.MergeWithAppend | src/store/mod.rs:15-19 | Merging one list and then another gives every index the same count as merging their concatenation |
| StoreContents.SumAtNonEmptyBins | src/store/mod.rs:76-84 | Leaving out the zero counts of a range changes no index's total: each index of the range keeps its own count and every other index gets 0 |
| StoreBins.NonEmptyBinsSound | src/store/mod.rs:76-84 | The bins a sparse encoding lists are strictly ascending, inside the range, and each carries its index's non-zero count |
| StoreBins.NonEmptyBinsComplete | src/store/mod.rs:76-84 | Every index of the range with a non-zero count appears among those bins |
| StoreBins.NonEmptyOfAllBins | src/store/mod.rs:67-69 | Dropping the zero counts from the dense list of a range gives exactly the sparse list |
| StoreCodec.EstimateSizes | src/store/mod.rs:32-58 | The first loop of `encode` computes the dense estimate (header plus every count of the range), the sparse estimate (a delta and a count per non-zero bin, starting from previous index 0, without the bin-count header) and the number of non-zero bins |
| StoreCodec.WriteContiguousCounts | src/store/mod.rs:64-69 | The dense payload is the bin count max - min + 1, the first index, the step 1, then every count of the range in ascending order, zeros included |
| StoreCodec.WriteIndexDeltasAndCounts | src/store/mod.rs:74-84 | The sparse payload is the number of non-zero bins, then one (delta from the previous written index, count) pair per non-zero bin in ascending order, the previous index starting at 0 |
| StoreCodec.Encode | src/store/mod.rs:27-87 | An empty store writes nothing; otherwise the store-typed ContiguousCounts flag and dense payload when the dense estimate is at most the sparse one, else the IndexDeltasAndCounts flag and sparse payload |
| StoreCodec.EncodeChoosesByMeasuredSize | src/store/mod.rs:36-60 | The estimates are the encoded lengths of the two payloads, except that the sparse one omits its own bin-count header; dense is chosen exactly when its payload is no longer than the sparse payload without that header |
| StoreDecode.DecodeAndMergeWith | src/store/mod.rs:88-137 | Every add the decoder issues has an index inside the i32 range, and in IndexDeltas mode every add has weight 1.0 |
| StoreDecode.DecodeEmptyInput | src/store/mod.rs:93-125 | Every mode first reads a bin count, so an exhausted input issues no add and ends with an end-of-input error |
| StoreDecode.DecodeIndexDeltasAndCounts | src/store/mod.rs:94-107 | Reading (delta, count) pairs adds the bins whose indexes are the running sums of the deltas from 0, in stream order; it succeeds exactly when every index fits in i32, and otherwise stops with InvalidArgument at the first one that does not, keeping the adds before it and issuing none after |
| StoreDecode.DecodeIndexDeltas | src/store/mod.rs:109-120 | Each index, the running sum of the deltas, is added with weight 1.0 in stream order; the same success and failure rule as above |
| StoreDecode.ContiguousIndexClosedForm | src/store/mod.rs:124-132 | The k-th index of a ContiguousCounts payload is first + k * step, wrapped to i64 |
| StoreDecode.DecodeContiguousCounts | src/store/mod.rs:122-135 | The k-th count is added at the k-th index, whatever the step; decoding succeeds exactly when all those indexes fit in i32, and otherwise stops with InvalidArgument at the first one that does not |
| StoreRoundTrip.DenseRoundTrip | src/store/mod.rs:60-135 | Decoding a dense payload consumes exactly that payload and adds every bin of the range, zeros included, in ascending order |
| StoreRoundTrip.SparseRoundTrip | src/store/mod.rs:70-107 | Decoding a sparse payload consumes exactly that payload and adds exactly the non-zero bins in ascending order |
| StoreRoundTrip.EncodeDecodeRoundTrip | src/store/mod.rs:27-137 | What `encode` writes starts with a flag of the store's type naming a known layout; decoding the rest in that layout consumes exactly the payload and never fails to narrow; its non-zero adds are the store's non-zero bins in ascending order; and an empty store that receives them ends with every index's original count |
| StoreIterators.Next | src/store/mod.rs:189-229 | Nothing (and no change) once the range is empty; otherwise the bin at the near end whatever its count, and the cursor moves past it and past every zero count to the next non-zero one or out of the range; the range shrinks |
| StoreIterators.NextYieldsHead | src/store/mod.rs:189-229 | Each call yields the head of the sequence the iterator has left to yield and leaves its tail |
| StoreIterators.Drain | src/store/mod.rs:189-229 | Calling `next` until it returns nothing yields at most max - min + 1 bins |
| StoreIterators.DrainIsYields | src/store/mod.rs:189-229 | Draining yields the bin at the near end, then the non-zero bins beyond it in walking order |
| StoreIterators.AscendingDrainOrdered | src/store/mod.rs:210-228 | Ascending, nothing is yielded for an empty range; otherwise the first yield is at minIndex whatever its count, every later yield has a non-zero count, all lie in the range with their own counts, and indexes strictly increase |
| StoreIterators.AscendingDrain | src/store/mod.rs:210-228 | An ascending iterator starting on a non-zero bin yields exactly the non-zero bins of its range in ascending order |
| StoreIterators.DescendingDrainMirror | src/store/mod.rs:192-209 | Descending, the first yield is at maxIndex, then come the non-zero bins below it, highest first |
| StoreIterators.DescendingDrain | src/store/mod.rs:192-209 | A descending iterator starting on a non-zero bin yields the ascending walk's bins in reverse order |
| StoreIterators.NextAsWritten | src/store/mod.rs:189-229 | `next` on i32 cursors: it yields nothing exactly on an empty range; otherwise, unless an increment overflows, it yields the near end's bin with its count and moves only that end inward, never past the i32 bounds |
| StoreIterators.NextAsWrittenOverflows | src/store/mod.rs:189-229 | On i32 cursors, `next` with its i32 increments overflows exactly when the correct cursor would leave the i32 range, and otherwise agrees with `Next` |
| StoreIterators.AscendingOverflowAtMax | src/store/mod.rs:211-224 | A single bin at i32::MAX: `next` as written overflows where the correct step yields the bin |
| StoreIterators.DescendingOverflowAtMin | src/store/mod.rs:193-206 | A single bin at i32::MIN, walked descending: the same overflow below i32::MIN |
| IndexMappings.CastI32 | src/index_mapping/mod.rs:95-97 | `as i32` on a finite value lands in i32; inside i32's range a non-negative value maps to the largest integer not above it and a negative one to the smallest integer not below it (toward zero); at or past i32::MAX + 1 it gives i32::MAX, at or below i32::MIN - 1 it gives i32::MIN |
| IndexMappings.RoundIndex | src/index_mapping/mod.rs:94-97 | The bucket of a scaled logarithm always lies in i32; where it is inside i32's range is stated by RoundIndexRule and RoundIndexBounds, and saturation by RoundIndexSaturates |
| IndexMappings.RoundIndexRule | src/index_mapping/mod.rs:94-97 | Inside the i32 range the bucket is floor(x) for x >= 0 and for negative non-integers, and x - 1 for a negative integer x |
| IndexMappings.RoundIndexBounds | src/index_mapping/mod.rs:92-99 | The bucket of x lies between ceil(x) - 1 and floor(x) |
| IndexMappings.RoundIndexSaturates | src/index_mapping/mod.rs:94-97 | Outside the i32 range the bucket saturates at the nearer bound |
| IndexMappings.Index | src/index_mapping/mod.rs:92-99 | The bucket of a value, given its logarithm, is an i32, and it lies within one of the scaled and shifted logarithm (between ceil - 1 and floor) |
| IndexMappings.IndexOfOne | src/index_mapping/mod.rs:233-246 | The value 1 lands between ceil(index offset) - 1 and floor(index offset), whatever gamma is |
| IndexMappings.CalculateGamma | src/index_mapping/mod.rs:219-222 | For an accuracy in (0, 1) the gamma is above 1 |
| IndexMappings.CalculateRelativeAccuracy | src/index_mapping/mod.rs:214-217 | For a gamma above 1 the accuracy lies in (0, 1) |
| IndexMappings.AccuracyOfGamma | src/index_mapping/mod.rs:214-222 | The accuracy recomputed from the gamma of an accuracy is that accuracy |
| IndexMappings.GammaOfAccuracy | src/index_mapping/mod.rs:214-222 | The gamma recomputed from the accuracy of a gamma is that gamma |
| IndexMappings.WithRelativeAccuracy | src/index_mapping/mod.rs:141-172 | InvalidArgument exactly when the accuracy is not strictly between 0 and 1; otherwise a LOG mapping with gamma above 1, index offset 0, the multiplier derived from gamma, and an accuracy recomputed from gamma that equals the one given |
| IndexMappings.WithGammaOffset | src/index_mapping/mod.rs:174-192 | Always succeeds, keeping gamma and the index offset as given and deriving the multiplier and the accuracy from gamma; that accuracy gives gamma back, and lies in (0, 1) when gamma is above 1 |
| IndexMappings.RelativeAccuracyIsGammaOffset | src/index_mapping/mod.rs:141-192 | The mapping built from an accuracy is the one `with_gamma_offset` builds from its own gamma and index offset |
| IndexMappings.LayoutToFlag | src/index_mapping/mod.rs:208-211 | The layout flag has the IndexMapping type code and the layout's sub-flag as sub-marker |
| IndexMappings.LayoutOfFlag | src/index_mapping/mod.rs:200-206 | A layout is returned exactly when the sub-marker is 0, whatever the type bits; otherwise InvalidArgument("Unknown Index Flag.") |
| IndexMappings.LayoutFlagRoundTrip | src/index_mapping/mod.rs:195-211 | The LOG flag is the byte 2 and reads back as LOG |
| IndexMappings.EncodeMapping | src/index_mapping/mod.rs:134-139 | A mapping is written as three fields, the first an IndexMapping-typed flag; that the other two are gamma and then the index offset is stated by EncodeDecodeMapping |
| IndexMappings.EncodeDecodeMapping | src/index_mapping/mod.rs:134-139 | For every mapping, the fields read back give the same layout, gamma and index offset, and leave the following input untouched |
| IndexMappings.GammaOffsetRebuilds | src/index_mapping/mod.rs:174-192 | `with_gamma_offset` rebuilds a mapping from its gamma and index offset whenever its multiplier and accuracy are derived from gamma |

## Left out

- Byte-level varint and var-double encoding, and the `Input`/`Output` cursors (`serde.rs`, `input.rs` and `output.rs` are not part of this model). Fields are typed tokens, and the encoded lengths are caller-supplied functions.
- Reading a token of the wrong kind, or past the end, fails with `IoError(InvalidData)` or `IoError(UnexpectedEof)`. This stands in for whatever the byte-level decoders report.
- The text of the narrowing error that `i64_to_i32_exact` raises is not part of this model. The model uses InvalidArgument with a message of its own.
- Serde.Wrap64: i64 accumulation of decoded indexes wraps, as in a release build. A debug build would panic instead.
- Flags.WithType: `Flag::with_type` lives in `sketch.rs`, which is not part of this model. The model assumes it keeps the sub-flag's low six bits, as a u8 shift by two would. Every caller here passes a sub-flag from 0 to 3, so the truncation never takes effect.
- BinEncoding.OfFlag: the u8 subtraction `(marker >> 2) - 1` wraps, as in a release build. A debug build would panic on sub-marker 0 instead of returning the error.
- The encoder's size arithmetic and its `i32` loop bounds (`min_index - offset`, `max_index - offset + 1`, `offset + i`; `src/store/mod.rs:46`, `:67`, `:76`) are unbounded integers. The model assumes what a valid store guarantees: every index lies inside i32 and the counter array has at most i32::MAX slots, so these bounds fit in i32; the sizes cannot come near i64's range.
- Floating point. Counts, gamma, the index offset, the multiplier and the accuracy are exact reals. So there is no rounding in `calculate_gamma` and `calculate_relative_accuracy`, and no NaN or infinity. `index` receives the logarithm of its value rather than computing `ln`.
- The multiplier `ln(e) / ln_1p(gamma - 1)` is given by a caller-supplied function of gamma (`MultiplierOf`), because logarithms are not modelled.
- The correcting factor is fixed at 1, as in the source; `powf(x, 1.0)` is taken to be x.
- IndexMappings.CalculateGamma: requires an accuracy other than 1, where the source divides by zero and gets an infinity.
- IndexMappings.CalculateRelativeAccuracy: requires a gamma other than -1, for the same reason.
- IndexMappings.WithGammaOffset: requires a gamma other than -1. The source accepts any gamma and, for -1, stores the infinite accuracy that the division gives.
- IndexMappings.RelativeAccuracyIsGammaOffset: holds over exact reals only. The two constructors compute the multiplier differently: `ln(e) / ln_1p(gamma - 1)` at `src/index_mapping/mod.rs:162` and `ln(e) / gamma.ln()` at `:181`. These are the same function of gamma, but in f64 they can differ in the last bit, and then the derived equality of the two mappings fails.
- IndexMappings.DecodeMappingFields reads back what `encode` writes. The sketch-level decoder that does this is in `sketch.rs`, which is not part of this model.
- `value`, `lower_bound`, `upper_bound`, `min_indexable_value` and `max_indexable_value` are left out: they are `exp` and `powf` of floats.
- The index table test of `index` depends on f64 `ln`, so it is left out too.
- `Store::get_sum` is a floating-point reduction over `value`, and is left out.
- The concrete `CollapsingLowestDenseStore`, with its capacity and collapsing, is not part of this model (`collapsing_lowest.rs`). Decoding reports the `add` calls it makes; `StoreContents` gives those calls a meaning as a map from index to summed count.
- StoreContents.AddBin: the map models a store that never collapses, i.e. one whose capacity covers every index added; `StoreContents.MergeWith` and the last conjunct of `StoreRoundTrip.EncodeDecodeRoundTrip` rest on this.
- The store's `is_empty` is an explicit flag of the snapshot.
- The sketch (`sketch.rs`): the flag type codes, the field order of a whole sketch, and the ClickHouse envelope.
- Borrow lifetimes and the `Send + Sync` bounds.

## Findings

| source | as written | input that shows it | evidently intended | confidence | as-written member | corrected member |
|---|---|---|---|---|---|---|
| src/store/mod.rs:211-224 | The ascending branch of `StoreIter::next` advances the cursor with `self.min_index += 1` on an `i32`, also after taking the last bin of the range | `StoreIter::new(i32::MAX, i32::MAX, i32::MAX, false, &[1.0]).next()` steps `min_index` past i32::MAX. A debug build panics on the overflow. A release build wraps it to i32::MIN, so `min_index <= max_index` holds again and the next counter read, slot `(i32::MIN - i32::MAX) as usize` = 1, is out of bounds | Yield the bin at i32::MAX and end the iteration; the descending branch (lines 193-206, `max_index -= 1` at i32::MIN) has the mirror problem | not executed | StoreIterators.NextAsWritten (exhibited by StoreIterators.AscendingOverflowAtMax, StoreIterators.DescendingOverflowAtMin, StoreIterators.NextAsWrittenOverflows) | StoreIterators.Next |
