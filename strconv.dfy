/**
 * Go's `strconv.ParseUint`, `strconv.ParseInt` (base 10) and `strconv.ParseBool`,
 * the library parsers behind the primitive setters, with the `*strconv.NumError`
 * they report. The digit loop keeps Go's order of checks: the accumulated value is
 * compared with the bound after every digit, so an overflowing prefix reports a
 * range error even when a non-digit follows it.
 */
module Strconv {
  import opened Wrappers
  import opened Text

  /**
   * The `Err` field of a `*strconv.NumError`: `strconv.ErrSyntax`, `strconv.ErrRange`,
   * or another error with its message (strconv reports an invalid base or bit size
   * this way; the parsers modelled here never do).
   */
  datatype NumCause = ErrSyntax | ErrRange | ErrOther(text: string)

  /** A `*strconv.NumError`: the function that failed, its input and the cause. */
  datatype NumError = NumError(fn: string, num: string, cause: NumCause)

  /** `strconv.IntSize` on the 64-bit platforms the library targets. */
  const IntSize: nat := 64

  /** The bit sizes the setters pass: 0 (the machine word), 8, 16, 32 and 64. */
  predicate ValidBitSize(bitSize: int)
  {
    bitSize == 0 || bitSize == 8 || bitSize == 16 || bitSize == 32 || bitSize == 64
  }

  /** The width a bit size stands for: 0 means `IntSize`. */
  function Width(bitSize: int): (w: nat)
    requires ValidBitSize(bitSize)
    ensures 8 <= w <= 64
  {
    if bitSize == 0 then IntSize else bitSize
  }

  /** 2^(w-1) for the width of the bit size: the first value a signed integer cannot hold. */
  function Cutoff(bitSize: int): (c: nat)
    requires ValidBitSize(bitSize)
    ensures c >= 128
  {
    match Width(bitSize)
    case 8 => 0x80
    case 16 => 0x8000
    case 32 => 0x8000_0000
    case _ => 0x8000_0000_0000_0000
  }

  /** The largest unsigned value of the given bit size, 2^w - 1. */
  function MaxUint(bitSize: int): nat
    requires ValidBitSize(bitSize)
  {
    2 * Cutoff(bitSize) - 1
  }

  /** The smallest and the largest signed values of the given bit size. */
  function MinInt(bitSize: int): int
    requires ValidBitSize(bitSize)
  {
    -(Cutoff(bitSize) as int)
  }

  function MaxInt(bitSize: int): int
    requires ValidBitSize(bitSize)
  {
    Cutoff(bitSize) - 1
  }

  function DigitValue(c: char): nat
    requires IsDigit(c)
  {
    c as int - '0' as int
  }

  /** The value of a string of decimal digits. */
  function DecimalValue(s: string): nat
    requires AllDigits(s)
  {
    if s == [] then 0 else DecimalValue(s[..|s| - 1]) * 10 + DigitValue(s[|s| - 1])
  }

  /** A non-empty string of decimal digits, with no sign. */
  predicate IsUnsignedDecimal(s: string)
  {
    s != [] && AllDigits(s)
  }

  /** A decimal literal with an optional leading `+` or `-`. */
  predicate IsSignedDecimal(s: string)
  {
    s != [] && (if s[0] == '+' || s[0] == '-' then IsUnsignedDecimal(s[1..]) else IsUnsignedDecimal(s))
  }

  /** The value of a signed decimal literal. */
  function SignedValue(s: string): int
    requires IsSignedDecimal(s)
  {
    if s[0] == '-' then -(DecimalValue(s[1..]) as int)
    else if s[0] == '+' then DecimalValue(s[1..])
    else DecimalValue(s)
  }

  /** The digit loop of strconv.ParseUint in base 10, from index i with accumulator n. */
  function ScanDigits(s: string, i: nat, n: nat, maxVal: nat): Result<nat, NumCause>
    requires i <= |s|
    decreases |s| - i
  {
    if i == |s| then Ok(n)
    else if !IsDigit(s[i]) then Err(ErrSyntax)
    else
      var n1 := n * 10 + DigitValue(s[i]);
      if n1 > maxVal then Err(ErrRange) else ScanDigits(s, i + 1, n1, maxVal)
  }

  /** strconv.ParseUint(s, 10, bitSize) */
  function ParseUint(s: string, bitSize: int): Result<nat, NumError>
    requires ValidBitSize(bitSize)
  {
    if s == [] then Err(NumError("ParseUint", s, ErrSyntax))
    else match ScanDigits(s, 0, 0, MaxUint(bitSize))
      case Ok(n) => Ok(n)
      case Err(cause) => Err(NumError("ParseUint", s, cause))
  }

  /** strconv.ParseInt(s, 10, bitSize) */
  function ParseInt(s: string, bitSize: int): Result<int, NumError>
    requires ValidBitSize(bitSize)
  {
    if s == [] then Err(NumError("ParseInt", s, ErrSyntax))
    else
      var neg := s[0] == '-';
      var body := if s[0] == '+' || s[0] == '-' then s[1..] else s;
      var u := ParseUint(body, bitSize);
      if u.Err? && u.error.cause != ErrRange then Err(NumError("ParseInt", s, u.error.cause))
      else
        // on a range error ParseUint hands back its maximum
        var un := if u.Ok? then u.value else MaxUint(bitSize);
        var cutoff: int := Cutoff(bitSize);
        if !neg && un >= cutoff then Err(NumError("ParseInt", s, ErrRange))
        else if neg && un > cutoff then Err(NumError("ParseInt", s, ErrRange))
        else Ok(if neg then -un else un)
  }

  /** strconv.ParseBool */
  function ParseBool(s: string): Result<bool, NumError>
  {
    if s in {"1", "t", "T", "TRUE", "true", "True"} then Ok(true)
    else if s in {"0", "f", "F", "FALSE", "false", "False"} then Ok(false)
    else Err(NumError("ParseBool", s, ErrSyntax))
  }

  /** The decimal rendering of a natural number (strconv.FormatUint in base 10). */
  function FormatUint(n: nat): (s: string)
    ensures IsUnsignedDecimal(s)
  {
    var d := ['0' + (n % 10) as char];
    if n < 10 then d else FormatUint(n / 10) + d
  }

  /** The decimal rendering of an integer (strconv.FormatInt in base 10). */
  function FormatInt(i: int): string
  {
    if i < 0 then "-" + FormatUint(-i) else FormatUint(i)
  }

  // ---------------------------------------------------------------------------
  // Properties

  lemma {:induction false} PrefixDigits(s: string, i: nat)
    requires i <= |s| && AllDigits(s)
    ensures AllDigits(s[..i])
  {
  }

  /** A longer prefix of a digit string never has a smaller value. */
  lemma {:induction false} DecimalPrefixMonotone(s: string, i: nat)
    requires i <= |s| && AllDigits(s)
    ensures DecimalValue(s[..i]) <= DecimalValue(s)
    decreases |s| - i
  {
    if i < |s| {
      var t := s[..|s| - 1];
      assert t[..i] == s[..i];
      DecimalPrefixMonotone(t, i);
    } else {
      assert s[..i] == s;
    }
  }

  /** The digit loop from position i, given the accumulated prefix value. */
  lemma {:induction false} ScanDigitsSpec(s: string, i: nat, n: nat, maxVal: nat)
    requires i <= |s| && AllDigits(s[..i]) && n == DecimalValue(s[..i]) && n <= maxVal
    ensures var r := ScanDigits(s, i, n, maxVal);
      && (r.Ok? <==> AllDigits(s) && DecimalValue(s) <= maxVal)
      && (r.Ok? ==> r.value == DecimalValue(s))
      && (AllDigits(s) && DecimalValue(s) > maxVal ==> r == Err(ErrRange))
    decreases |s| - i
  {
    if i == |s| {
      assert s[..i] == s;
    } else if !IsDigit(s[i]) {
    } else {
      var n1 := n * 10 + DigitValue(s[i]);
      assert s[..i + 1][..i] == s[..i];
      assert AllDigits(s[..i + 1]);
      assert n1 == DecimalValue(s[..i + 1]);
      if n1 > maxVal {
        if AllDigits(s) {
          DecimalPrefixMonotone(s, i + 1);
        }
      } else {
        ScanDigitsSpec(s, i + 1, n1, maxVal);
      }
    }
  }

  /** When a non-digit is reached before the value overflows, the cause is a syntax error. */
  lemma {:induction false} ScanDigitsSyntax(s: string, i: nat, n: nat, maxVal: nat, k: nat)
    requires i <= k < |s| && !IsDigit(s[k]) && AllDigits(s[..k])
    requires AllDigits(s[..i]) && n == DecimalValue(s[..i]) && DecimalValue(s[..k]) <= maxVal
    ensures ScanDigits(s, i, n, maxVal) == Err(ErrSyntax)
    decreases k - i
  {
    if i < k {
      var n1 := n * 10 + DigitValue(s[i]);
      assert s[..i + 1][..i] == s[..i];
      assert s[..k][..i + 1] == s[..i + 1];
      PrefixDigits(s[..k], i + 1);
      assert n1 == DecimalValue(s[..i + 1]);
      DecimalPrefixMonotone(s[..k], i + 1);
      ScanDigitsSyntax(s, i + 1, n1, maxVal, k);
    }
  }

  /** ParseUint succeeds exactly on unsigned decimals within the bit size, with their value. */
  lemma ParseUintSpec(s: string, bitSize: int)
    requires ValidBitSize(bitSize)
    ensures var r := ParseUint(s, bitSize);
      && (r.Ok? <==> IsUnsignedDecimal(s) && DecimalValue(s) <= MaxUint(bitSize))
      && (r.Ok? ==> r.value == DecimalValue(s))
      && (IsUnsignedDecimal(s) && DecimalValue(s) > MaxUint(bitSize) ==> r == Err(NumError("ParseUint", s, ErrRange)))
      && (r.Err? ==> r.error.fn == "ParseUint" && r.error.num == s)
  {
    if s != [] {
      assert s[..0] == [];
      ScanDigitsSpec(s, 0, 0, MaxUint(bitSize));
    }
  }

  /**
   * A literal that is not all digits is a syntax error, unless the digits before the
   * first non-digit already overflow.
   */
  lemma ParseUintSyntax(s: string, bitSize: int, k: nat)
    requires ValidBitSize(bitSize)
    requires k < |s| && !IsDigit(s[k]) && AllDigits(s[..k]) && DecimalValue(s[..k]) <= MaxUint(bitSize)
    ensures ParseUint(s, bitSize) == Err(NumError("ParseUint", s, ErrSyntax))
  {
    assert s[..0] == [];
    ScanDigitsSyntax(s, 0, 0, MaxUint(bitSize), k);
  }

  /**
   * ParseInt succeeds exactly on optionally signed decimals within
   * [-2^(w-1), 2^(w-1)-1], with their value; a well-formed literal outside that
   * range is a range error.
   */
  lemma ParseIntSpec(s: string, bitSize: int)
    requires ValidBitSize(bitSize)
    ensures var r := ParseInt(s, bitSize);
      && (r.Ok? <==> IsSignedDecimal(s) && MinInt(bitSize) <= SignedValue(s) <= MaxInt(bitSize))
      && (r.Ok? ==> r.value == SignedValue(s))
      && (IsSignedDecimal(s) && !(MinInt(bitSize) <= SignedValue(s) <= MaxInt(bitSize)) ==>
            r == Err(NumError("ParseInt", s, ErrRange)))
      && (r.Err? ==> r.error.fn == "ParseInt" && r.error.num == s)
  {
    if s != [] {
      var neg := s[0] == '-';
      var body := if s[0] == '+' || s[0] == '-' then s[1..] else s;
      var cutoff: int := Cutoff(bitSize);
      var maxU: int := MaxUint(bitSize);
      assert MinInt(bitSize) == -cutoff && MaxInt(bitSize) == cutoff - 1;
      var u := ParseUint(body, bitSize);
      ParseUintSpec(body, bitSize);
      assert IsSignedDecimal(s) <==> IsUnsignedDecimal(body);
      if u.Err? && u.error.cause != ErrRange {
        assert ParseInt(s, bitSize) == Err(NumError("ParseInt", s, u.error.cause));
      } else if u.Err? {
        assert ParseInt(s, bitSize) == Err(NumError("ParseInt", s, ErrRange));
        if IsUnsignedDecimal(body) {
          var v: int := DecimalValue(body);
          assert SignedValue(s) == if neg then -v else v;
        }
      } else {
        var v: int := u.value;
        assert IsUnsignedDecimal(body) && v == DecimalValue(body);
        assert SignedValue(s) == if neg then -v else v;
      }
    }
  }

  lemma {:induction false} FormatUintValue(n: nat)
    ensures DecimalValue(FormatUint(n)) == n
  {
    var d := ['0' + (n % 10) as char];
    if n >= 10 {
      FormatUintValue(n / 10);
      var s := FormatUint(n);
      assert s[..|s| - 1] == FormatUint(n / 10);
    }
  }

  /** Round trip: the rendering of an in-range unsigned value parses back to it. */
  lemma ParseUintFormatUint(n: nat, bitSize: int)
    requires ValidBitSize(bitSize) && n <= MaxUint(bitSize)
    ensures ParseUint(FormatUint(n), bitSize) == Ok(n)
  {
    FormatUintValue(n);
    ParseUintSpec(FormatUint(n), bitSize);
  }

  /** Round trip: the rendering of an in-range signed value parses back to it. */
  lemma ParseIntFormatInt(i: int, bitSize: int)
    requires ValidBitSize(bitSize) && MinInt(bitSize) <= i <= MaxInt(bitSize)
    ensures ParseInt(FormatInt(i), bitSize) == Ok(i)
  {
    FormatIntValue(i);
    ParseIntSpec(FormatInt(i), bitSize);
  }

  /** The rendering of any integer is a signed decimal of that value. */
  lemma FormatIntValue(i: int)
    ensures IsSignedDecimal(FormatInt(i)) && SignedValue(FormatInt(i)) == i
  {
    var s := FormatInt(i);
    if i < 0 {
      FormatUintValue(-i);
      assert s[1..] == FormatUint(-i);
    } else {
      FormatUintValue(i);
    }
  }

  /** ParseBool accepts exactly its twelve tokens. */
  lemma ParseBoolSpec(s: string)
    ensures ParseBool(s) == Ok(true) <==> s in {"1", "t", "T", "TRUE", "true", "True"}
    ensures ParseBool(s) == Ok(false) <==> s in {"0", "f", "F", "FALSE", "false", "False"}
    ensures ParseBool(s).Err? ==> ParseBool(s).error == NumError("ParseBool", s, ErrSyntax)
  {
  }
}
