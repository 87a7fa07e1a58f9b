/**
 * The discrete part of the logarithmic `IndexMapping`: rounding a real-valued logarithmic index
 * to an i32 bucket, building a mapping from a relative accuracy or from (gamma, index offset),
 * the gamma/accuracy conversions, the mapping's wire fields and its layout flag. Arithmetic is
 * over exact reals; the natural logarithm is left to the caller (see `Index` and `MultiplierOf`).
 */
module IndexMappings {
  import opened Errors
  import opened Flags
  import opened Serde

  const RELATIVE_ACCURACY_OUT_OF_RANGE: string := "The relative accuracy must be between 0 and 1."
  const UNKNOWN_INDEX_FLAG: string := "Unknown Index Flag."

  /** The only layout; its sub-flag is 0. */
  datatype IndexMappingLayout = LOG {
    function SubFlag(): Byte {
      0
    }
  }

  /** `IndexMapping::LogarithmicMapping(gamma, index_offset, multiplier, relative_accuracy)`. */
  datatype IndexMapping = LogarithmicMapping(gamma: real, indexOffset: real, multiplier: real, relativeAccuracy: real) {
    function Layout(): IndexMappingLayout {
      LOG
    }
  }

  /**
   * How a mapping's multiplier is derived from gamma: `ln(e) / ln_1p(gamma - 1)`, that is
   * 1 / ln(gamma). The logarithm is not modelled, so the caller supplies the derivation.
   */
  type MultiplierOf = real -> real

  // ---------------------------------------------------------------------------------------
  // Rounding a logarithmic index to a bucket

  function Floor(x: real): int {
    x.Floor
  }

  function Ceil(x: real): int {
    -((-x).Floor)
  }

  /** Rounding toward zero: the integer next to x on the side of 0. */
  function Trunc(x: real): (r: int)
    ensures x >= 0.0 ==> r as real <= x < (r + 1) as real
    ensures x < 0.0 ==> (r - 1) as real < x <= r as real
  {
    if x >= 0.0 then x.Floor else -((-x).Floor)
  }

  /** Rust's `f as i32` on a finite value: truncation toward zero, saturating at the i32 bounds. */
  function CastI32(x: real): (r: int)
    ensures InI32(r)
    ensures 0.0 <= x < (I32_MAX + 1) as real ==> r as real <= x < (r + 1) as real
    ensures (I32_MIN - 1) as real < x < 0.0 ==> (r - 1) as real < x <= r as real
    ensures x >= (I32_MAX + 1) as real ==> r == I32_MAX
    ensures x <= (I32_MIN - 1) as real ==> r == I32_MIN
  {
    var t := Trunc(x);
    if t > I32_MAX then I32_MAX else if t < I32_MIN then I32_MIN else t
  }

  /** The rounding step of `IndexMapping::index`: non-negative indexes truncate, negative ones truncate `index - 1`. */
  function RoundIndex(x: real): (r: int)
    ensures InI32(r)
  {
    if x >= 0.0 then CastI32(x) else CastI32(x - 1.0)
  }

  /**
   * Within the i32 range the bucket is floor(x), except that a negative integer x goes to the
   * bucket below it.
   */
  lemma {:induction false} RoundIndexRule(x: real)
    requires I32_MIN as real < x < (I32_MAX + 1) as real
    ensures x >= 0.0 ==> RoundIndex(x) == Floor(x)
    ensures x < 0.0 && x != Floor(x) as real ==> RoundIndex(x) == Floor(x)
    ensures x < 0.0 && x == Floor(x) as real ==> RoundIndex(x) == Floor(x) - 1
  {
    if x < 0.0 {
      assert Trunc(x - 1.0) == Ceil(x - 1.0);
      assert Ceil(x - 1.0) == Ceil(x) - 1;
      if x != Floor(x) as real {
        assert Ceil(x) == Floor(x) + 1;
      } else {
        assert Ceil(x) == Floor(x);
      }
    }
  }

  /** A value on a bucket boundary may land in either neighbouring bucket, and no further away. */
  lemma {:induction false} RoundIndexBounds(x: real)
    requires I32_MIN as real < x < (I32_MAX + 1) as real
    ensures Ceil(x) - 1 <= RoundIndex(x) <= Floor(x)
  {
    RoundIndexRule(x);
    assert Floor(x) <= Ceil(x) <= Floor(x) + 1;
  }

  /** Outside the i32 range the bucket saturates at the nearer bound. */
  lemma {:induction false} RoundIndexSaturates(x: real)
    ensures x >= (I32_MAX + 1) as real ==> RoundIndex(x) == I32_MAX
    ensures x <= I32_MIN as real ==> RoundIndex(x) == I32_MIN
  {
    if x <= I32_MIN as real {
      assert Ceil(x - 1.0) <= I32_MIN - 1;
    }
  }

  /** `IndexMapping::index`, given ln(value): scale and shift the logarithm, then round. */
  function Index(m: IndexMapping, lnValue: real): (r: int)
    ensures InI32(r)
    ensures var x := lnValue * m.multiplier + m.indexOffset;
      I32_MIN as real < x < (I32_MAX + 1) as real ==> Ceil(x) - 1 <= r <= Floor(x)
  {
    var x := lnValue * m.multiplier + m.indexOffset;
    if I32_MIN as real < x < (I32_MAX + 1) as real then
      RoundIndexBounds(x);
      RoundIndex(x)
    else
      RoundIndex(x)
  }

  /** The value 1 (whose logarithm is 0) lands next to the index offset, whatever gamma is. */
  lemma {:induction false} IndexOfOne(m: IndexMapping)
    requires I32_MIN as real < m.indexOffset < (I32_MAX + 1) as real
    ensures Ceil(m.indexOffset) - 1 <= Index(m, 0.0) <= Floor(m.indexOffset)
  {
    assert 0.0 * m.multiplier + m.indexOffset == m.indexOffset;
  }

  // ---------------------------------------------------------------------------------------
  // Gamma and relative accuracy (correcting factor 1)

  /** `calculate_gamma(a, 1.0)`: the bucket growth ratio (1 + a) / (1 - a). */
  function CalculateGamma(relativeAccuracy: real): (gamma: real)
    requires relativeAccuracy != 1.0
    ensures 0.0 < relativeAccuracy < 1.0 ==> gamma > 1.0
    ensures gamma != -1.0
  {
    (1.0 + relativeAccuracy) / (1.0 - relativeAccuracy)
  }

  /** `calculate_relative_accuracy(gamma, 1.0)`: (gamma - 1) / (gamma + 1). */
  function CalculateRelativeAccuracy(gamma: real): (a: real)
    requires gamma != -1.0
    ensures gamma > 1.0 ==> 0.0 < a < 1.0
    ensures a != 1.0
  {
    (gamma - 1.0) / (gamma + 1.0)
  }

  /** The accuracy recomputed from a gamma is the accuracy the gamma was computed from. */
  lemma {:induction false} AccuracyOfGamma(relativeAccuracy: real)
    requires relativeAccuracy != 1.0
    ensures CalculateRelativeAccuracy(CalculateGamma(relativeAccuracy)) == relativeAccuracy
  {
    var a := relativeAccuracy;
    var g := CalculateGamma(a);
    assert g * (1.0 - a) == 1.0 + a;
    assert (g - 1.0) == 2.0 * a / (1.0 - a);
    assert (g + 1.0) == 2.0 / (1.0 - a);
  }

  /** The gamma recomputed from an accuracy is the gamma the accuracy was computed from. */
  lemma {:induction false} GammaOfAccuracy(gamma: real)
    requires gamma != -1.0
    ensures CalculateGamma(CalculateRelativeAccuracy(gamma)) == gamma
  {
    var g := gamma;
    var a := CalculateRelativeAccuracy(g);
    assert a * (g + 1.0) == g - 1.0;
    assert 1.0 + a == 2.0 * g / (g + 1.0);
    assert 1.0 - a == 2.0 / (g + 1.0);
  }

  // ---------------------------------------------------------------------------------------
  // Construction

  /**
   * `IndexMapping::with_relative_accuracy`: InvalidArgument unless 0 < a < 1; otherwise the
   * mapping with gamma (1 + a) / (1 - a), index offset 0, and the accuracy recomputed from gamma.
   */
  function WithRelativeAccuracy(layout: IndexMappingLayout, relativeAccuracy: real, multiplierOf: MultiplierOf)
    : (r: Result<IndexMapping>)
    ensures r.Err? <==> relativeAccuracy <= 0.0 || relativeAccuracy >= 1.0
    ensures r.Err? ==> r.error == InvalidArgument(RELATIVE_ACCURACY_OUT_OF_RANGE)
    ensures r.Ok? ==>
      && r.value.Layout() == layout
      && r.value.gamma > 1.0
      && r.value.indexOffset == 0.0
      && r.value.multiplier == multiplierOf(r.value.gamma)
      && r.value.relativeAccuracy == relativeAccuracy
      && CalculateRelativeAccuracy(r.value.gamma) == relativeAccuracy
  {
    if relativeAccuracy <= 0.0 || relativeAccuracy >= 1.0 then
      Err(InvalidArgument(RELATIVE_ACCURACY_OUT_OF_RANGE))
    else
      match layout
      case LOG =>
        if relativeAccuracy <= 0.0 || relativeAccuracy >= 1.0 then
          Err(InvalidArgument(RELATIVE_ACCURACY_OUT_OF_RANGE))
        else
          var gamma := CalculateGamma(relativeAccuracy);
          var indexOffset := 0.0;
          var multiplier := multiplierOf(gamma);
          AccuracyOfGamma(relativeAccuracy);
          var recomputed := CalculateRelativeAccuracy(gamma);
          Ok(LogarithmicMapping(gamma, indexOffset, multiplier, recomputed))
  }

  /** What `with_gamma_offset` builds: gamma and offset as given, the rest derived from gamma. */
  predicate DerivedFromGamma(m: IndexMapping, multiplierOf: MultiplierOf) {
    && m.gamma != -1.0
    && m.multiplier == multiplierOf(m.gamma)
    && m.relativeAccuracy == CalculateRelativeAccuracy(m.gamma)
  }

  /**
   * `IndexMapping::with_gamma_offset`: always succeeds, keeping gamma and the index offset as
   * given; for gamma > 1 the accuracy lies in (0, 1) and gives gamma back.
   */
  function WithGammaOffset(layout: IndexMappingLayout, gamma: real, indexOffset: real, multiplierOf: MultiplierOf)
    : (r: Result<IndexMapping>)
    requires gamma != -1.0
    ensures r.Ok?
    ensures r.value.Layout() == layout
    ensures r.value.gamma == gamma && r.value.indexOffset == indexOffset
    ensures DerivedFromGamma(r.value, multiplierOf)
    ensures gamma > 1.0 ==> 0.0 < r.value.relativeAccuracy < 1.0
    ensures CalculateGamma(r.value.relativeAccuracy) == gamma
  {
    match layout
    case LOG =>
      var multiplier := multiplierOf(gamma);
      var relativeAccuracy := CalculateRelativeAccuracy(gamma);
      GammaOfAccuracy(gamma);
      Ok(LogarithmicMapping(gamma, indexOffset, multiplier, relativeAccuracy))
  }

  /** A mapping built from an accuracy is the one `with_gamma_offset` builds from its gamma and offset. */
  lemma {:induction false} RelativeAccuracyIsGammaOffset(layout: IndexMappingLayout, relativeAccuracy: real, multiplierOf: MultiplierOf)
    requires 0.0 < relativeAccuracy < 1.0
    ensures var m := WithRelativeAccuracy(layout, relativeAccuracy, multiplierOf).value;
      WithGammaOffset(layout, m.gamma, m.indexOffset, multiplierOf) == Ok(m)
  {
  }

  // ---------------------------------------------------------------------------------------
  // Wire format

  /** `IndexMappingLayout::to_flag`: the layout as the sub-flag of an IndexMapping flag. */
  function LayoutToFlag(layout: IndexMappingLayout): (f: Flag)
    ensures f.TypeCode() == FlagType.IndexMapping.Code()
    ensures f.SubMarker() == layout.SubFlag()
  {
    WithType(FlagType.IndexMapping, layout.SubFlag())
  }

  /** `IndexMappingLayout::of_flag`: only sub-marker 0 names a layout; the type bits are not checked. */
  function LayoutOfFlag(f: Flag): (r: Result<IndexMappingLayout>)
    ensures r.Ok? <==> f.marker < 4
    ensures r.Err? ==> r.error == InvalidArgument(UNKNOWN_INDEX_FLAG)
  {
    var index := f.marker / 4;
    if index == 0 then Ok(LOG) else Err(InvalidArgument(UNKNOWN_INDEX_FLAG))
  }

  /** Reading back the flag of a layout yields that layout; the flag is the single byte 2. */
  lemma {:induction false} LayoutFlagRoundTrip(layout: IndexMappingLayout)
    ensures LayoutToFlag(layout).marker == 2
    ensures LayoutOfFlag(LayoutToFlag(layout)) == Ok(layout)
  {
  }

  /** `IndexMapping::encode`: the layout flag, then gamma and the index offset as little-endian doubles. */
  function EncodeMapping(m: IndexMapping): (r: seq<Token>)
    ensures |r| == 3
    ensures r[0].FlagToken? && r[0].flag.TypeCode() == FlagType.IndexMapping.Code()
  {
    [FlagToken(LayoutToFlag(m.Layout())), DoubleLe(m.gamma), DoubleLe(m.indexOffset)]
  }

  /** A reader for what `encode` writes: the layout flag, gamma and the index offset. */
  function DecodeMappingFields(input: seq<Token>): (r: Result<(IndexMappingLayout, real, real, seq<Token>)>)
    ensures r.Ok? ==> |input| >= 3 && r.value.3 == input[3..]
  {
    var (flag, afterFlag) :- ReadFlag(input);
    var layout :- LayoutOfFlag(flag);
    var (gamma, afterGamma) :- ReadDoubleLe(afterFlag);
    var (indexOffset, rest) :- ReadDoubleLe(afterGamma);
    Ok((layout, gamma, indexOffset, rest))
  }

  /**
   * Encoding writes all a mapping's fields: for every mapping they read back as the same layout,
   * gamma and offset, and the following tokens are left untouched.
   */
  lemma {:induction false} EncodeDecodeMapping(m: IndexMapping, rest: seq<Token>)
    ensures DecodeMappingFields(EncodeMapping(m) + rest) == Ok((m.Layout(), m.gamma, m.indexOffset, rest))
  {
    var input := EncodeMapping(m) + rest;
    assert input[1..][1..][1..] == rest;
    LayoutFlagRoundTrip(m.Layout());
  }

  /**
   * Those fields are all a mapping needs: `with_gamma_offset` rebuilds the same mapping from them
   * when its multiplier and accuracy are derived from gamma.
   */
  lemma {:induction false} GammaOffsetRebuilds(m: IndexMapping, multiplierOf: MultiplierOf)
    requires DerivedFromGamma(m, multiplierOf)
    ensures WithGammaOffset(m.Layout(), m.gamma, m.indexOffset, multiplierOf) == Ok(m)
  {
  }
}
