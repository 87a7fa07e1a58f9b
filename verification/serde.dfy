/**
 * The serialization primitives the store codec and the index mapping are written against.
 * The byte-level varint and var-double codecs are abstracted to a stream of typed tokens,
 * and their encoded lengths to functions supplied by the caller in a `Sizer`.
 */
module Serde {
  import opened Errors
  import opened Flags

  const I32_MIN: int := -0x8000_0000
  const I32_MAX: int := 0x7fff_ffff
  const I64_MIN: int := -0x8000_0000_0000_0000
  const I64_MAX: int := 0x7fff_ffff_ffff_ffff
  const TWO_POW_64: int := 0x1_0000_0000_0000_0000

  const INDEX_OUT_OF_RANGE: string := "The index does not fit in 32 bits."

  predicate InI32(x: int) {
    I32_MIN <= x <= I32_MAX
  }

  predicate InI64(x: int) {
    I64_MIN <= x <= I64_MAX
  }

  /** One field written by the codec primitives. */
  datatype Token =
    | FlagToken(flag: Flag)       // one flag byte
    | UVar(u: int)                // unsigned variable-length long
    | SVar(s: int)                // signed variable-length long
    | VarDouble(d: real)          // variable-length double (a bin count)
    | DoubleLe(f: real)           // eight-byte little-endian double

  /** Encoded byte lengths of the variable-length primitives. */
  datatype Sizer = Sizer(unsignedLen: int -> int, signedLen: int -> int, doubleLen: real -> int)

  function TokenLength(z: Sizer, t: Token): int {
    match t
    case FlagToken(_) => 1
    case UVar(n) => z.unsignedLen(n)
    case SVar(n) => z.signedLen(n)
    case VarDouble(x) => z.doubleLen(x)
    case DoubleLe(_) => 8
  }

  /** Number of bytes a token sequence occupies. */
  function EncodedLength(z: Sizer, ts: seq<Token>): int {
    if |ts| == 0 then 0 else TokenLength(z, ts[0]) + EncodedLength(z, ts[1..])
  }

  lemma {:induction false} EncodedLengthAppend(z: Sizer, a: seq<Token>, b: seq<Token>)
    ensures EncodedLength(z, a + b) == EncodedLength(z, a) + EncodedLength(z, b)
  {
    if |a| > 0 {
      assert (a + b)[1..] == a[1..] + b;
      EncodedLengthAppend(z, a[1..], b);
    } else {
      assert a + b == b;
    }
  }

  /** Two's-complement wrap-around of an i64 addition (the release-build behaviour). */
  function Wrap64(x: int): (r: int)
    ensures InI64(r)
    ensures InI64(x) ==> r == x
  {
    (x - I64_MIN) % TWO_POW_64 + I64_MIN
  }

  lemma {:induction false} ModShift(y: int, q: int)
    ensures (y + q * TWO_POW_64) % TWO_POW_64 == y % TWO_POW_64
  {
    var r := y % TWO_POW_64;
    var p := y / TWO_POW_64;
    assert y == p * TWO_POW_64 + r;
    assert y + q * TWO_POW_64 == (p + q) * TWO_POW_64 + r;
  }

  /** Wrapping each partial sum gives the wrap of the whole sum. */
  lemma {:induction false} WrapAddLeft(a: int, b: int)
    ensures Wrap64(Wrap64(a) + b) == Wrap64(a + b)
  {
    var q := (a - I64_MIN) / TWO_POW_64;
    assert Wrap64(a) == a - q * TWO_POW_64;
    ModShift(a + b - I64_MIN, -q);
  }

  /** `i64_to_i32_exact`: a checked narrowing that fails rather than truncates. */
  function I64ToI32Exact(x: int): (r: Result<int>)
    ensures r.Ok? <==> InI32(x)
    ensures r.Ok? ==> r.value == x
    ensures r.Err? ==> r.error == InvalidArgument(INDEX_OUT_OF_RANGE)
  {
    if InI32(x) then Ok(x) else Err(InvalidArgument(INDEX_OUT_OF_RANGE))
  }

  function Mismatch<T>(input: seq<Token>): Result<T> {
    if |input| == 0 then Err(IoError(UnexpectedEof)) else Err(IoError(InvalidData))
  }

  function ReadUnsignedVarLong(input: seq<Token>): (r: Result<(int, seq<Token>)>)
    ensures r.Ok? <==> |input| > 0 && input[0].UVar?
    ensures r.Ok? ==> r.value == (input[0].u, input[1..])
  {
    if |input| > 0 && input[0].UVar? then Ok((input[0].u, input[1..])) else Mismatch(input)
  }

  function ReadSignedVarLong(input: seq<Token>): (r: Result<(int, seq<Token>)>)
    ensures r.Ok? <==> |input| > 0 && input[0].SVar?
    ensures r.Ok? ==> r.value == (input[0].s, input[1..])
  {
    if |input| > 0 && input[0].SVar? then Ok((input[0].s, input[1..])) else Mismatch(input)
  }

  function ReadVarDouble(input: seq<Token>): (r: Result<(real, seq<Token>)>)
    ensures r.Ok? <==> |input| > 0 && input[0].VarDouble?
    ensures r.Ok? ==> r.value == (input[0].d, input[1..])
  {
    if |input| > 0 && input[0].VarDouble? then Ok((input[0].d, input[1..])) else Mismatch(input)
  }

  function ReadDoubleLe(input: seq<Token>): (r: Result<(real, seq<Token>)>)
    ensures r.Ok? <==> |input| > 0 && input[0].DoubleLe?
    ensures r.Ok? ==> r.value == (input[0].f, input[1..])
  {
    if |input| > 0 && input[0].DoubleLe? then Ok((input[0].f, input[1..])) else Mismatch(input)
  }

  function ReadFlag(input: seq<Token>): (r: Result<(Flag, seq<Token>)>)
    ensures r.Ok? <==> |input| > 0 && input[0].FlagToken?
    ensures r.Ok? ==> r.value == (input[0].flag, input[1..])
  {
    if |input| > 0 && input[0].FlagToken? then Ok((input[0].flag, input[1..])) else Mismatch(input)
  }
}
