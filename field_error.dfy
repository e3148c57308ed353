/**
 * The error values of the decoder (field_error.go): the package sentinels, the
 * `*FieldError` wrapper that names a field, and the normalisation of strconv
 * number errors into `ErrOutOfRange` / `ErrInvalidValue`.
 * Go errors are modelled as a tree: `Unwrap` follows the `%w` and `Unwrap()` links
 * and `Is` is `errors.Is` over that chain.
 */
module FieldError {
  import opened Wrappers
  import Strconv

  /** Package-level sentinels created with errors.New (including ErrNotPtr of parser.go
      and the two strconv causes, which a *strconv.NumError unwraps to). */
  datatype SentinelId =
    | ErrUnexportedStruct
    | ErrInvalidValue
    | ErrOutOfRange
    | ErrUnsupportedKind
    | ErrNotPtr
    | StrconvErrSyntax
    | StrconvErrRange

  datatype Error =
    | Sentinel(id: SentinelId)
      /** errors.New(msg), or fmt.Errorf without a %w verb: a message and nothing to unwrap */
    | Plain(msg: string)
      /** a *strconv.NumError */
    | Num(num: Strconv.NumError)
      /** fmt.Errorf("%w: " + detail, inner) */
    | Wrapped(inner: Error, detail: string)
      /** &FieldError{FieldName: name, Err: inner} */
    | Field(name: string, inner: Error)

  function SentinelText(id: SentinelId): string
  {
    match id
    case ErrUnexportedStruct => "struct has unexported fields with qp tags"
    case ErrInvalidValue => "invalid value"
    case ErrOutOfRange => "out of range"
    case ErrUnsupportedKind => "unsupported kind"
    case ErrNotPtr => "not a pointer to a struct"
    case StrconvErrSyntax => "invalid syntax"
    case StrconvErrRange => "value out of range"
  }

  /** The error a strconv cause stands for: a strconv sentinel, or another error
      created with errors.New. */
  function CauseError(c: Strconv.NumCause): Error
  {
    match c
    case ErrSyntax => Sentinel(StrconvErrSyntax)
    case ErrRange => Sentinel(StrconvErrRange)
    case ErrOther(text) => Plain(text)
  }

  /** The message of a strconv cause. */
  function CauseText(c: Strconv.NumCause): string
  {
    match c
    case ErrSyntax => SentinelText(StrconvErrSyntax)
    case ErrRange => SentinelText(StrconvErrRange)
    case ErrOther(text) => text
  }

  /** `%q` of a plain ASCII name without quotes or backslashes. */
  function Quote(s: string): string
  {
    "\"" + s + "\""
  }

  /** err.Error() */
  function Message(err: Error): string
  {
    match err
    case Sentinel(id) => SentinelText(id)
    case Plain(msg) => msg
    case Num(e) => "strconv." + e.fn + ": parsing " + Quote(e.num) + ": " + CauseText(e.cause)
    case Wrapped(inner, detail) => Message(inner) + ": " + detail
    case Field(name, inner) =>
      if name != "" then "failed to parse " + Quote(name) + ": " + Message(inner) else Message(inner)
  }

  /** errors.Unwrap(err) */
  function Unwrap(err: Error): Option<Error>
  {
    match err
    case Num(e) => Some(CauseError(e.cause))
    case Wrapped(inner, _) => Some(inner)
    case Field(_, inner) => Some(inner)
    case _ => None
  }

  /** errors.Is(err, target): target is err or on its unwrap chain. */
  predicate Is(err: Error, target: Error)
  {
    err == target ||
    match err
    case Num(e) => CauseError(e.cause) == target
    case Wrapped(inner, _) => Is(inner, target)
    case Field(_, inner) => Is(inner, target)
    case _ => false
  }

  /** wrapFieldError: no error stays no error; an error is wrapped with the field name. */
  function WrapFieldError(fieldName: string, err: Option<Error>): (r: Option<Error>)
    ensures r.None? <==> err.None?
    ensures r.Some? ==> Unwrap(r.value) == err
    ensures r.Some? ==> forall target :: Is(err.value, target) ==> Is(r.value, target)
  {
    if err.None? then None else Some(Field(fieldName, err.value))
  }

  /** strconvNumError: map a strconv range / syntax error to the package sentinel, keep
      any other error (a NumError with another cause too) and append the offending literal. */
  function StrconvNumError(err: Error, value: string): (r: Error)
    ensures Unwrap(r).Some? && Message(r) == Message(Unwrap(r).value) + ": " + value
    ensures Is(r, Unwrap(r).value)
  {
    var e :=
      match err
      case Num(ne) => (match ne.cause
                       case ErrRange => Sentinel(ErrOutOfRange)
                       case ErrSyntax => Sentinel(ErrInvalidValue)
                       case ErrOther(_) => err)
      case _ => err;
    Wrapped(e, value)
  }

  // ---------------------------------------------------------------------------
  // Properties

  /** FieldError.Error: prefixed with the quoted name when there is one. */
  lemma FieldMessage(name: string, inner: Error)
    ensures name != "" ==> Message(Field(name, inner)) == "failed to parse \"" + name + "\": " + Message(inner)
    ensures name == "" ==> Message(Field(name, inner)) == Message(inner)
  {
  }

  /** ErrOutOfRange and ErrInvalidValue are distinct: neither is on the other's chain. */
  lemma SentinelsDistinct()
    ensures !Is(Sentinel(ErrOutOfRange), Sentinel(ErrInvalidValue))
    ensures !Is(Sentinel(ErrInvalidValue), Sentinel(ErrOutOfRange))
  {
  }

  /** The classification of strconvNumError, with the message it builds. */
  lemma StrconvNumErrorSpec(err: Error, value: string)
    ensures err.Num? && err.num.cause == Strconv.ErrRange ==>
      && Is(StrconvNumError(err, value), Sentinel(ErrOutOfRange))
      && !Is(StrconvNumError(err, value), Sentinel(ErrInvalidValue))
      && Message(StrconvNumError(err, value)) == "out of range: " + value
    ensures err.Num? && err.num.cause == Strconv.ErrSyntax ==>
      && Is(StrconvNumError(err, value), Sentinel(ErrInvalidValue))
      && !Is(StrconvNumError(err, value), Sentinel(ErrOutOfRange))
      && Message(StrconvNumError(err, value)) == "invalid value: " + value
    ensures !(err.Num? && err.num.cause in {Strconv.ErrRange, Strconv.ErrSyntax}) ==>
      && Unwrap(StrconvNumError(err, value)) == Some(err)
      && Message(StrconvNumError(err, value)) == Message(err) + ": " + value
  {
  }

  /**
   * A well-formed integer literal too wide for its bit size is classified as out of
   * range and never as an invalid value.
   */
  lemma OverflowIsOutOfRange(s: string, bitSize: int)
    requires Strconv.ValidBitSize(bitSize) && Strconv.IsSignedDecimal(s)
    requires !(Strconv.MinInt(bitSize) <= Strconv.SignedValue(s) <= Strconv.MaxInt(bitSize))
    ensures Strconv.ParseInt(s, bitSize).Err?
    ensures var r := StrconvNumError(Num(Strconv.ParseInt(s, bitSize).error), s);
      Is(r, Sentinel(ErrOutOfRange)) && !Is(r, Sentinel(ErrInvalidValue))
  {
    Strconv.ParseIntSpec(s, bitSize);
  }

  /** The same for unsigned sizes; `-1` is not unsigned and so is an invalid value. */
  lemma UnsignedClassification(s: string, bitSize: int)
    requires Strconv.ValidBitSize(bitSize)
    ensures Strconv.IsUnsignedDecimal(s) && Strconv.DecimalValue(s) > Strconv.MaxUint(bitSize) ==>
      (Strconv.ParseUint(s, bitSize).Err? &&
       var r := StrconvNumError(Num(Strconv.ParseUint(s, bitSize).error), s);
       Is(r, Sentinel(ErrOutOfRange)) && !Is(r, Sentinel(ErrInvalidValue)))
    ensures s == "-1" ==>
      (Strconv.ParseUint(s, bitSize).Err? &&
       var r := StrconvNumError(Num(Strconv.ParseUint(s, bitSize).error), s);
       Is(r, Sentinel(ErrInvalidValue)) && !Is(r, Sentinel(ErrOutOfRange)))
  {
    Strconv.ParseUintSpec(s, bitSize);
    if s == "-1" {
      assert s[..0] == [];
      Strconv.ParseUintSyntax(s, bitSize, 0);
    }
  }
}
