/** The three layouts a store's bins can be written in, and their flag sub-markers. */
module BinEncoding {
  import opened Errors
  import opened Flags

  const UNKNOWN_MODE: string := "Unknown BinEncodingMode."

  datatype BinEncodingMode = IndexDeltasAndCounts | IndexDeltas | ContiguousCounts

  /** The enum discriminant, `self as u8`. */
  function SubFlag(mode: BinEncodingMode): (b: Byte)
    ensures 1 <= b <= 3
  {
    match mode
    case IndexDeltasAndCounts => 1
    case IndexDeltas => 2
    case ContiguousCounts => 3
  }

  /**
   * `BinEncodingMode::of_flag`: the sub-marker minus one in u8 arithmetic, so a sub-marker
   * of 0 wraps to 255 and is rejected like every sub-marker above 3.
   */
  function OfFlag(marker: Byte): (r: Result<BinEncodingMode>)
    ensures r.Ok? <==> 1 <= marker / 4 <= 3
    ensures r.Ok? ==> SubFlag(r.value) == marker / 4
    ensures r.Err? ==> r.error == InvalidArgument(UNKNOWN_MODE)
  {
    var index := (marker / 4 - 1) % 256;
    if index == 0 then Ok(IndexDeltasAndCounts)
    else if index == 1 then Ok(IndexDeltas)
    else if index == 2 then Ok(ContiguousCounts)
    else Err(InvalidArgument(UNKNOWN_MODE))
  }

  /** `BinEncodingMode::to_flag`: tags the mode with the given store's field type. */
  function ToFlag(mode: BinEncodingMode, storeFlagType: FlagType): (f: Flag)
    ensures f.TypeCode() == storeFlagType.Code()
    ensures f.SubMarker() == SubFlag(mode)
  {
    WithType(storeFlagType, SubFlag(mode))
  }

  /** Reading back the flag of a mode yields that mode, whichever store it tags. */
  lemma {:induction false} OfFlagToFlag(mode: BinEncodingMode, storeFlagType: FlagType)
    ensures OfFlag(ToFlag(mode, storeFlagType).marker) == Ok(mode)
  {
  }

  /** Distinct modes get distinct flags, so the tag determines the layout. */
  lemma {:induction false} ToFlagInjective(m1: BinEncodingMode, m2: BinEncodingMode, storeFlagType: FlagType)
    requires ToFlag(m1, storeFlagType) == ToFlag(m2, storeFlagType)
    ensures m1 == m2
  {
    OfFlagToFlag(m1, storeFlagType);
    OfFlagToFlag(m2, storeFlagType);
  }
}
