/**
 * primitive_setter.go: one setter per primitive kind. Each runs the library parser
 * and hands back the value, or the invalid `reflect.Value` (here `None`) when the
 * parser reports any error; a malformed literal and an out-of-range one are not told
 * apart.
 */
module PrimitiveSetter {
  import opened Wrappers
  import opened Strconv
  import opened Shapes

  const TrueTokens: set<string> := {"1", "t", "T", "TRUE", "true", "True"}
  const FalseTokens: set<string> := {"0", "f", "F", "FALSE", "false", "False"}

  /** setStr: the text itself; it never fails. */
  function SetStr(value: string): (r: Option<Value>)
    ensures r.Some? && r.value.StrV? && r.value.s == value
  {
    Some(StrV(value))
  }

  /** setBool: exactly ParseBool's twelve tokens succeed. */
  function SetBool(value: string): (r: Option<Value>)
    ensures r == Some(BoolV(true)) <==> value in TrueTokens
    ensures r == Some(BoolV(false)) <==> value in FalseTokens
    ensures r.None? <==> value !in TrueTokens + FalseTokens
  {
    match ParseBool(value)
    case Ok(b) => Some(BoolV(b))
    case Err(_) => None
  }

  /** setInt(bitSize): an optionally signed decimal within the bit size's range. */
  function SetInt(bitSize: BitSize, value: string): (r: Option<Value>)
    ensures r.Some? <==> IsSignedDecimal(value) && MinInt(bitSize) <= SignedValue(value) <= MaxInt(bitSize)
    ensures r.Some? ==> r.value == IntV(SignedValue(value))
  {
    ParseIntSpec(value, bitSize);
    match ParseInt(value, bitSize)
    case Ok(i) => Some(IntV(i))
    case Err(_) => None
  }

  /** setUint(bitSize): an unsigned decimal, with no sign, of at most 2^w - 1. */
  function SetUint(bitSize: BitSize, value: string): (r: Option<Value>)
    ensures r.Some? <==> IsUnsignedDecimal(value) && DecimalValue(value) <= MaxUint(bitSize)
    ensures r.Some? ==> r.value == UintV(DecimalValue(value))
  {
    ParseUintSpec(value, bitSize);
    match ParseUint(value, bitSize)
    case Ok(n) => Some(UintV(n))
    case Err(_) => None
  }

  /** setFloat(bitSize), over the float parser it is given. */
  function SetFloat(parseFloat: (string, FloatSize) -> Option<real>, bitSize: FloatSize, value: string): Option<Value>
  {
    match parseFloat(value, bitSize)
    case Some(x) => Some(FloatV(x))
    case None => None
  }

  // ---------------------------------------------------------------------------
  // Properties

  /** The decimal rendering of any in-range integer is read back as that integer. */
  lemma SetIntRoundTrip(bitSize: BitSize, i: int)
    requires MinInt(bitSize) <= i <= MaxInt(bitSize)
    ensures SetInt(bitSize, FormatInt(i)) == Some(IntV(i))
  {
    ParseIntFormatInt(i, bitSize);
  }

  lemma SetUintRoundTrip(bitSize: BitSize, n: nat)
    requires n <= MaxUint(bitSize)
    ensures SetUint(bitSize, FormatUint(n)) == Some(UintV(n))
  {
    ParseUintFormatUint(n, bitSize);
  }

  /** A sign is never accepted by the unsigned setter, so "-1" fails. */
  lemma SetUintRejectsSign(bitSize: BitSize, value: string)
    requires value != [] && (value[0] == '-' || value[0] == '+')
    ensures SetUint(bitSize, value).None?
  {
    assert !Text.IsDigit(value[0]);
  }

  /** One past either end of the signed range fails, as the smallest and largest values
      succeed: "-129" for int8, "-32769" for int16, and so on. */
  lemma SetIntBounds(bitSize: BitSize)
    ensures SetInt(bitSize, FormatInt(MinInt(bitSize))).Some?
    ensures SetInt(bitSize, FormatInt(MaxInt(bitSize))).Some?
    ensures SetInt(bitSize, FormatInt(MinInt(bitSize) - 1)).None?
    ensures SetInt(bitSize, FormatInt(MaxInt(bitSize) + 1)).None?
  {
    SetIntRoundTrip(bitSize, MinInt(bitSize));
    SetIntRoundTrip(bitSize, MaxInt(bitSize));
    SetIntOutOfRange(bitSize, MinInt(bitSize) - 1);
    SetIntOutOfRange(bitSize, MaxInt(bitSize) + 1);
  }

  /** The rendering of an integer outside the signed range is refused. */
  lemma SetIntOutOfRange(bitSize: BitSize, i: int)
    requires i < MinInt(bitSize) || MaxInt(bitSize) < i
    ensures SetInt(bitSize, FormatInt(i)).None?
  {
    FormatIntValue(i);
  }

  /** 2^w - 1 succeeds and 2^w fails: "256" for uint8, "65536" for uint16, and so on. */
  lemma SetUintBounds(bitSize: BitSize)
    ensures SetUint(bitSize, FormatUint(MaxUint(bitSize))).Some?
    ensures SetUint(bitSize, FormatUint(MaxUint(bitSize) + 1)).None?
  {
    SetUintRoundTrip(bitSize, MaxUint(bitSize));
    FormatUintValue(MaxUint(bitSize) + 1);
  }
}
