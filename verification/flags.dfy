/**
 * The one-byte field tag of the wire format. The low two bits name the field type and the
 * remaining six bits hold a type-specific sub-marker: marker = (sub_marker << 2) | type.
 */
module Flags {

  type Byte = x: int | 0 <= x < 256

  /** Field types with their two-bit codes. IndexMapping is 2 and PositiveStore is 1, as the
      fixed test bytes show (2 opens an index mapping, 13 = 3 << 2 | 1 a dense positive store). */
  datatype FlagType = SketchFeatures | PositiveStore | IndexMapping | NegativeStore {

    function Code(): (c: int)
      ensures 0 <= c < 4
    {
      match this
      case SketchFeatures => 0
      case PositiveStore => 1
      case IndexMapping => 2
      case NegativeStore => 3
    }
  }

  datatype Flag = Flag(marker: Byte) {

    /** The sub-marker, `marker >> 2`. */
    function SubMarker(): int {
      marker / 4
    }

    /** The two-bit type code. */
    function TypeCode(): int {
      marker % 4
    }
  }

  /** `Flag::with_type`: the u8 shift drops the sub-flag's top two bits. */
  function WithType(flagType: FlagType, subFlag: Byte): (f: Flag)
    ensures f.TypeCode() == flagType.Code()
    ensures f.SubMarker() == subFlag % 64
  {
    var kept := subFlag % 64;
    SplitMarker(kept, flagType.Code());
    Flag(kept * 4 + flagType.Code())
  }

  /** A marker built from a sub-marker and a type code splits back into the two. */
  lemma {:induction false} SplitMarker(sub: int, code: int)
    requires 0 <= sub < 64 && 0 <= code < 4
    ensures 0 <= sub * 4 + code < 256
    ensures (sub * 4 + code) / 4 == sub && (sub * 4 + code) % 4 == code
  {
  }
}
