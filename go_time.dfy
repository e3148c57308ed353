/**
 * A fixed-pattern model of Go's `time.Parse` for the layouts the decoder uses.
 * A layout is the sequence of chunks Go's layout scanner splits it into; parsing
 * walks the chunks left to right, consuming the input, and succeeds only when the
 * whole input is consumed and the day exists in its month. The result keeps the
 * wall-clock fields and the zone; instants, locations and formatting are not modelled.
 */
module GoTime {
  import opened Wrappers
  import opened Text
  import Strconv

  /** One chunk of a layout string. */
  datatype Elem =
      /** a literal character; a literal space matches a run of spaces (Go's `skip`) */
    | Lit(c: char)
      /** "2006": four digits */
    | Year
      /** "01": two digits, 1 to 12 */
    | Month
      /** "02": two digits, checked against the month at the end */
    | Day
      /** "15": one or two digits, 0 to 23 */
    | Hour
      /** "04": two digits, 0 to 59 */
    | Minute
      /** "05": two digits, 0 to 59; a fraction right after it is taken even if the layout has none */
    | Second
      /** ".000…": a separator and a slot of exactly `digits` characters, read as Go's
          `atoi` reads it: an optional sign, then digits only */
    | FracFixed(digits: nat)
      /** ".999…": an optional separator followed by any number of digits */
    | FracOpt(digits: nat)
      /** "Z07:00": `Z`, or a signed hh:mm offset */
    | ZuluOffset
      /** "-07:00": a signed hh:mm offset */
    | NumOffset

  type Layout = seq<Elem>

  datatype Zone = UTC | Fixed(offsetSeconds: int)

  /** The fields gathered while parsing; a month or day of -1 has not been seen. */
  datatype Fields = Fields(year: int, month: int, day: int, hour: int, minute: int, second: int,
                           nanos: int, zone: Option<Zone>)

  /** A parsed time: its wall-clock fields and its zone. */
  datatype Stamp = Stamp(year: int, month: int, day: int, hour: int, minute: int, second: int,
                         nanos: int, zone: Zone)

  /** time.Time{}: January 1 of year 1, 00:00:00 UTC. */
  const ZeroTime := Stamp(1, 1, 1, 0, 0, 0, 0, UTC)

  const Start := Fields(0, -1, -1, 0, 0, 0, 0, None)

  // The standard layouts of package time.
  const DatePart: Layout := [Year, Lit('-'), Month, Lit('-'), Day]
  const ClockPart: Layout := [Hour, Lit(':'), Minute, Lit(':'), Second]
  /** A date, a separator, a clock, then the given tail: the shape of every layout but two. */
  function DateClock(sep: char, tail: Layout): Layout
  {
    DatePart + [Lit(sep)] + ClockPart + tail
  }
  /** time.RFC3339, "2006-01-02T15:04:05Z07:00" */
  const RFC3339: Layout := DateClock('T', [ZuluOffset])
  /** time.RFC3339Nano, "2006-01-02T15:04:05.999999999Z07:00" */
  const RFC3339Nano: Layout := DateClock('T', [FracOpt(9), ZuluOffset])
  /** time.DateTime, "2006-01-02 15:04:05" */
  const DateTime: Layout := DateClock(' ', [])
  /** time.DateOnly, "2006-01-02" */
  const DateOnly: Layout := DatePart
  /** time.TimeOnly, "15:04:05" */
  const TimeOnly: Layout := ClockPart

  predicate CommaOrPeriod(c: char)
  {
    c == '.' || c == ','
  }

  /** The number of consecutive digits of v starting at i. */
  function DigitRun(v: string, i: nat): (n: nat)
    requires i <= |v|
    ensures i + n <= |v| && AllDigits(v[i..i + n])
    ensures i + n == |v| || !IsDigit(v[i + n])
    decreases |v| - i
  {
    if i < |v| && IsDigit(v[i]) then
      var m := DigitRun(v, i + 1);
      assert v[i..i + 1 + m] == [v[i]] + v[i + 1..i + 1 + m];
      1 + m
    else 0
  }

  function Pow10(n: nat): (r: nat)
    ensures r >= 1
  {
    if n == 0 then 1 else 10 * Pow10(n - 1)
  }

  /** parseNanoseconds: the first nine fraction digits, scaled to nanoseconds. */
  function Nanos(digits: string): (ns: nat)
    requires AllDigits(digits)
  {
    var k := if |digits| < 9 then |digits| else 9;
    assert AllDigits(digits[..k]);
    Strconv.DecimalValue(digits[..k]) * Pow10(9 - k)
  }

  /** The value of the two digits of v at i. */
  function TwoDigits(v: string, i: nat): (n: nat)
    requires i + 2 <= |v| && IsDigit(v[i]) && IsDigit(v[i + 1])
    ensures n < 100
  {
    Strconv.DigitValue(v[i]) * 10 + Strconv.DigitValue(v[i + 1])
  }

  /** Go's cutspace: drop leading ASCII spaces. */
  function CutSpace(v: string): (r: string)
    ensures |r| <= |v| && r == v[|v| - |r|..]
    ensures r == [] || r[0] != ' '
  {
    if v != [] && v[0] == ' ' then CutSpace(v[1..]) else v
  }

  /** Whether the first non-literal chunk of the rest of the layout is a fraction. */
  predicate NextStdIsFrac(rest: Layout)
  {
    rest != [] && (if rest[0].Lit? then NextStdIsFrac(rest[1..]) else rest[0].FracFixed? || rest[0].FracOpt?)
  }

  /** The fewest input characters a chunk consumes. */
  function MinElem(e: Elem): nat
  {
    match e
    case Lit(c) => if c == ' ' then 0 else 1
    case Year => 4
    case Month => 2
    case Day => 2
    case Hour => 1
    case Minute => 2
    case Second => 2
    case FracFixed(d) => 1 + d
    case FracOpt(_) => 0
    case ZuluOffset => 1
    case NumOffset => 6
  }

  function MinLen(layout: Layout): nat
  {
    if layout == [] then 0 else MinElem(layout[0]) + MinLen(layout[1..])
  }

  /** The zone a signed hh:mm offset at the front of v names; a zero offset is UTC,
      the location time.Parse falls back to. */
  function OffsetZone(v: string): Zone
    requires |v| >= 6 && IsDigit(v[1]) && IsDigit(v[2]) && IsDigit(v[4]) && IsDigit(v[5])
  {
    var secs := (TwoDigits(v, 1) * 60 + TwoDigits(v, 4)) * 60;
    if secs == 0 then UTC else Fixed(if v[0] == '-' then -secs else secs)
  }

  /** A signed hh:mm offset at the front of v, as time.Parse reads "-07:00". */
  function Offset(v: string, f: Fields): (r: Option<(string, Fields)>)
    ensures r.Some? ==> |r.value.0| + 6 <= |v| && r.value.0 == v[|v| - |r.value.0|..]
  {
    if |v| >= 6 && v[3] == ':' && (v[0] == '+' || v[0] == '-')
      && IsDigit(v[1]) && IsDigit(v[2]) && IsDigit(v[4]) && IsDigit(v[5])
    then
      // Go allows offsets of 24 hours and of 60 minutes
      if TwoDigits(v, 1) > 24 || TwoDigits(v, 4) > 60 then None
      else Some((v[6..], f.(zone := Some(OffsetZone(v)))))
    else None
  }

  /** The fraction taken after the seconds when the layout does not ask for one. */
  function ImplicitFraction(rest: Layout, v: string, f: Fields): (r: (string, Fields))
    ensures |r.0| <= |v| && r.0 == v[|v| - |r.0|..]
    ensures r.1 == f.(nanos := r.1.nanos)
  {
    if !NextStdIsFrac(rest) && |v| >= 2 && CommaOrPeriod(v[0]) && IsDigit(v[1]) then
      var n := 1 + DigitRun(v, 1);
      (v[n..], f.(nanos := Nanos(v[1..n])))
    else (v, f)
  }

  /** Two leading digits whose value lies in [lo, hi). */
  predicate TwoDigitsIn(v: string, lo: nat, hi: nat)
  {
    |v| >= 2 && IsDigit(v[0]) && IsDigit(v[1]) && lo <= TwoDigits(v, 0) < hi
  }

  /** A literal layout character; a space matches any run of spaces, or nothing at the end. */
  function StepLit(c: char, v: string, f: Fields): (r: Option<(string, Fields)>)
    ensures r.Some? ==> |r.value.0| + MinElem(Lit(c)) <= |v| && r.value.0 == v[|v| - |r.value.0|..]
  {
    if c == ' ' then (if v != [] && v[0] != ' ' then None else Some((CutSpace(v), f)))
    else if v != [] && v[0] == c then Some((v[1..], f))
    else None
  }

  function StepYear(v: string, f: Fields): (r: Option<(string, Fields)>)
    ensures r.Some? ==> |r.value.0| + 4 <= |v| && r.value.0 == v[|v| - |r.value.0|..]
  {
    if |v| >= 4 && AllDigits(v[..4]) then Some((v[4..], f.(year := Strconv.DecimalValue(v[..4]))))
    else None
  }

  /** "15": two digits, or one digit when the second character is not a digit. */
  function StepHour(v: string, f: Fields): (r: Option<(string, Fields)>)
    ensures r.Some? ==> |r.value.0| + 1 <= |v| && r.value.0 == v[|v| - |r.value.0|..]
  {
    if |v| >= 2 && IsDigit(v[0]) && IsDigit(v[1]) then
      (if TwoDigits(v, 0) < 24 then Some((v[2..], f.(hour := TwoDigits(v, 0)))) else None)
    else if |v| >= 1 && IsDigit(v[0]) then Some((v[1..], f.(hour := Strconv.DigitValue(v[0]))))
    else None
  }

  /** Go's atoi: an optional `+` or `-`, then nothing but digits (none at all reads as 0). */
  function Atoi(s: string): (r: Option<int>)
    ensures AllDigits(s) ==> r == Some(Strconv.DecimalValue(s))
  {
    var neg := |s| > 0 && s[0] == '-';
    var u := if |s| > 0 && (s[0] == '+' || s[0] == '-') then s[1..] else s;
    if !AllDigits(u) then None
    else
      var x: int := Strconv.DecimalValue(u);
      Some(if neg then -x else x)
  }

  /** stdFracSecond0 through parseNanoseconds: the separator, then the slot of d
      characters, of which the first nine are read by atoi and scaled to nanoseconds;
      a negative value is the "fractional second" range error. */
  function StepFracFixed(d: nat, v: string, f: Fields): (r: Option<(string, Fields)>)
    ensures r.Some? ==> |r.value.0| + 1 + d <= |v| && r.value.0 == v[|v| - |r.value.0|..]
  {
    if |v| >= 1 + d && CommaOrPeriod(v[0]) then
      var k := if d < 9 then d else 9;
      match Atoi(v[1..1 + k])
      case None => None
      case Some(n) => if n < 0 then None else Some((v[1 + d..], f.(nanos := n * Pow10(9 - k))))
    else None
  }

  function StepFracOpt(v: string, f: Fields): (r: Option<(string, Fields)>)
    ensures r.Some? ==> |r.value.0| <= |v| && r.value.0 == v[|v| - |r.value.0|..]
  {
    if |v| < 2 || !CommaOrPeriod(v[0]) || !IsDigit(v[1]) then Some((v, f))
    else
      var n := 1 + DigitRun(v, 1);
      Some((v[n..], f.(nanos := Nanos(v[1..n]))))
  }

  function StepMonth(v: string, f: Fields): (r: Option<(string, Fields)>)
    ensures r.Some? ==> |r.value.0| + 2 <= |v| && r.value.0 == v[|v| - |r.value.0|..]
  {
    if TwoDigitsIn(v, 1, 13) then Some((v[2..], f.(month := TwoDigits(v, 0)))) else None
  }

  /** Any two-digit day is read; the month, day and year are checked together at the end. */
  function StepDay(v: string, f: Fields): (r: Option<(string, Fields)>)
    ensures r.Some? ==> |r.value.0| + 2 <= |v| && r.value.0 == v[|v| - |r.value.0|..]
  {
    if TwoDigitsIn(v, 0, 100) then Some((v[2..], f.(day := TwoDigits(v, 0)))) else None
  }

  function StepMinute(v: string, f: Fields): (r: Option<(string, Fields)>)
    ensures r.Some? ==> |r.value.0| + 2 <= |v| && r.value.0 == v[|v| - |r.value.0|..]
  {
    if TwoDigitsIn(v, 0, 60) then Some((v[2..], f.(minute := TwoDigits(v, 0)))) else None
  }

  /** `Z` for UTC, or a numeric offset. */
  function StepZulu(v: string, f: Fields): (r: Option<(string, Fields)>)
    ensures r.Some? ==> |r.value.0| + 1 <= |v| && r.value.0 == v[|v| - |r.value.0|..]
  {
    if |v| >= 1 && v[0] == 'Z' then Some((v[1..], f.(zone := Some(UTC)))) else Offset(v, f)
  }

  /** Two-digit seconds, then a fraction the layout does not ask for. */
  function StepSecond(rest: Layout, v: string, f: Fields): (r: Option<(string, Fields)>)
    ensures r.Some? ==> |r.value.0| + 2 <= |v| && r.value.0 == v[|v| - |r.value.0|..]
  {
    if TwoDigitsIn(v, 0, 60) then Some(ImplicitFraction(rest, v[2..], f.(second := TwoDigits(v, 0))))
    else None
  }

  /** Parse one chunk at the front of v; rest is the layout after the chunk. */
  function Step(e: Elem, rest: Layout, v: string, f: Fields): (r: Option<(string, Fields)>)
    ensures r.Some? ==> |r.value.0| + MinElem(e) <= |v| && r.value.0 == v[|v| - |r.value.0|..]
  {
    match e
    case Lit(c) => StepLit(c, v, f)
    case Year => StepYear(v, f)
    case Month => StepMonth(v, f)
    case Day => StepDay(v, f)
    case Hour => StepHour(v, f)
    case Minute => StepMinute(v, f)
    case Second => StepSecond(rest, v, f)
    case FracFixed(d) => StepFracFixed(d, v, f)
    case FracOpt(_) => StepFracOpt(v, f)
    case ZuluOffset => StepZulu(v, f)
    case NumOffset => Offset(v, f)
  }

  /** Walk the layout; the input must be used up exactly. */
  function Run(layout: Layout, v: string, f: Fields): Option<Fields>
  {
    if layout == [] then (if v == [] then Some(f) else None)
    else match Step(layout[0], layout[1..], v, f)
      case None => None
      case Some((v', f')) => Run(layout[1..], v', f')
  }

  predicate IsLeap(year: int)
  {
    year % 4 == 0 && (year % 100 != 0 || year % 400 == 0)
  }

  function DaysIn(month: int, year: int): int
  {
    if month == 2 then (if IsLeap(year) then 29 else 28)
    else if month == 4 || month == 6 || month == 9 || month == 11 then 30
    else 31
  }

  /** Fill in the defaults (January, day 1, UTC) and reject a day its month does not have. */
  function Finish(f: Fields): Option<Stamp>
  {
    var month := if f.month < 0 then 1 else f.month;
    var day := if f.day < 0 then 1 else f.day;
    if day < 1 || day > DaysIn(month, f.year) then None
    else Some(Stamp(f.year, month, day, f.hour, f.minute, f.second, f.nanos,
                    if f.zone.Some? then f.zone.value else UTC))
  }

  /** time.Parse(layout, v), reduced to success with the parsed fields or failure. */
  function Parse(layout: Layout, v: string): Option<Stamp>
  {
    match Run(layout, v, Start)
    case None => None
    case Some(f) => Finish(f)
  }

  /** The first layout of the list that parses v, in list order. */
  function FirstParse(layouts: seq<Layout>, v: string): (r: Option<Stamp>)
    ensures r.None? <==> forall i | 0 <= i < |layouts| :: Parse(layouts[i], v).None?
    ensures r.Some? ==> exists i | 0 <= i < |layouts| ::
      && Parse(layouts[i], v) == r
      && forall j | 0 <= j < i :: Parse(layouts[j], v).None?
  {
    if layouts == [] then None
    else if Parse(layouts[0], v).Some? then Parse(layouts[0], v)
    else
      var r := FirstParse(layouts[1..], v);
      assert forall i | 1 <= i < |layouts| :: layouts[1..][i - 1] == layouts[i];
      r
  }

  // ---------------------------------------------------------------------------
  // Properties

  /** No layout parses an input shorter than the least it consumes. */
  lemma {:induction false} RunNeedsMinLen(layout: Layout, v: string, f: Fields)
    requires Run(layout, v, f).Some?
    ensures |v| >= MinLen(layout)
  {
    if layout != [] {
      var s := Step(layout[0], layout[1..], v, f);
      RunNeedsMinLen(layout[1..], s.value.0, s.value.1);
    }
  }

  lemma ParseNeedsMinLen(layout: Layout, v: string)
    requires Parse(layout, v).Some?
    ensures |v| >= MinLen(layout)
  {
    RunNeedsMinLen(layout, v, Start);
  }

  lemma {:induction false} MinLenAppend(a: Layout, b: Layout)
    ensures MinLen(a + b) == MinLen(a) + MinLen(b)
  {
    if a != [] {
      assert (a + b)[1..] == a[1..] + b;
      MinLenAppend(a[1..], b);
    } else {
      assert a + b == b;
    }
  }

  /** Every date-and-clock layout needs at least seventeen characters. */
  lemma DateClockNeedsLength(sep: char, tail: Layout, v: string)
    requires Parse(DateClock(sep, tail), v).Some?
    ensures |v| >= 17
  {
    ParseNeedsMinLen(DateClock(sep, tail), v);
    MinLenAppend(DatePart + [Lit(sep)] + ClockPart, tail);
    MinLenAppend(DatePart + [Lit(sep)], ClockPart);
    MinLenAppend(DatePart, [Lit(sep)]);
  }

  /** A layout that opens with the year needs digits at the front: a `:` at index 2 fails it. */
  lemma YearFirstRejectsClock(layout: Layout, v: string)
    requires layout != [] && layout[0] == Year && |v| > 2 && v[2] == ':'
    ensures Parse(layout, v).None?
  {
    if |v| >= 4 {
      assert v[..4][2] == ':';
    }
  }

  /** "yyyy-mm-dd" with a month from 1 to 12. */
  predicate DateText(d: string)
  {
    && |d| == 10 && AllDigits(d[..4]) && d[4] == '-' && IsDigit(d[5]) && IsDigit(d[6])
    && d[7] == '-' && IsDigit(d[8]) && IsDigit(d[9]) && 1 <= TwoDigits(d, 5) <= 12
  }

  /** "hh:mm:ss" with an hour below 24 and minutes and seconds below 60. */
  predicate ClockText(c: string)
  {
    && |c| == 8 && IsDigit(c[0]) && IsDigit(c[1]) && c[2] == ':' && IsDigit(c[3]) && IsDigit(c[4])
    && c[5] == ':' && IsDigit(c[6]) && IsDigit(c[7])
    && TwoDigits(c, 0) < 24 && TwoDigits(c, 3) < 60 && TwoDigits(c, 6) < 60
  }

  function WithDate(f: Fields, d: string): Fields
    requires DateText(d)
  {
    f.(year := Strconv.DecimalValue(d[..4]), month := TwoDigits(d, 5), day := TwoDigits(d, 8))
  }

  function WithClock(f: Fields, c: string): Fields
    requires ClockText(c)
  {
    f.(hour := TwoDigits(c, 0), minute := TwoDigits(c, 3), second := TwoDigits(c, 6))
  }

  /** One chunk of a successful step. */
  lemma RunStep(L: Layout, v: string, f: Fields, v': string, f': Fields)
    requires L != [] && Step(L[0], L[1..], v, f) == Some((v', f'))
    ensures Run(L, v, f) == Run(L[1..], v', f')
  {
  }

  /** The year and the dash after it. */
  lemma RunDateHead(rest: Layout, d: string, v: string, f: Fields)
    requires DateText(d)
    ensures Run([Year, Lit('-')] + rest, d + v, f)
         == Run(rest, d[5..] + v, f.(year := Strconv.DecimalValue(d[..4])))
  {
    var L := [Year, Lit('-')] + rest;
    var x0, x1, x2 := d + v, d[4..] + v, d[5..] + v;
    var f1 := f.(year := Strconv.DecimalValue(d[..4]));
    assert x0[..4] == d[..4] && x0[4..] == x1;
    RunStep(L, x0, f, x1, f1);
    assert x1[1..] == x2;
    assert L[2..] == rest;
    RunStep(L[1..], x1, f1, x2, f1);
  }

  /** The month, the dash and the day. */
  lemma RunDateTail(rest: Layout, d: string, v: string, f: Fields)
    requires DateText(d)
    ensures Run([Month, Lit('-'), Day] + rest, d[5..] + v, f)
         == Run(rest, v, f.(month := TwoDigits(d, 5), day := TwoDigits(d, 8)))
  {
    var L := [Month, Lit('-'), Day] + rest;
    var x2, x3, x4 := d[5..] + v, d[7..] + v, d[8..] + v;
    var f2 := f.(month := TwoDigits(d, 5));
    assert TwoDigits(x2, 0) == TwoDigits(d, 5) && x2[2..] == x3;
    RunStep(L, x2, f, x3, f2);
    assert x3[1..] == x4;
    RunStep(L[1..], x3, f2, x4, f2);
    assert TwoDigits(x4, 0) == TwoDigits(d, 8) && x4[2..] == v;
    assert L[3..] == rest;
    RunStep(L[2..], x4, f2, v, f2.(day := TwoDigits(d, 8)));
  }

  /** The date chunks read a well-formed date as its year, month and day. */
  lemma RunDatePart(rest: Layout, d: string, v: string, f: Fields)
    requires DateText(d)
    ensures Run(DatePart + rest, d + v, f) == Run(rest, v, WithDate(f, d))
  {
    assert DatePart + rest == [Year, Lit('-')] + ([Month, Lit('-'), Day] + rest);
    RunDateHead([Month, Lit('-'), Day] + rest, d, v, f);
    RunDateTail(rest, d, v, f.(year := Strconv.DecimalValue(d[..4])));
  }

  /** The hour, a colon and the minute of a well-formed clock. */
  lemma RunClockHead(rest: Layout, c: string, v: string, f: Fields)
    requires ClockText(c)
    ensures Run([Hour, Lit(':'), Minute] + rest, c + v, f)
         == Run(rest, c[5..] + v, f.(hour := TwoDigits(c, 0), minute := TwoDigits(c, 3)))
  {
    var L := [Hour, Lit(':'), Minute] + rest;
    var x0, x1 := c + v, c[2..] + v;
    var f1 := f.(hour := TwoDigits(c, 0));
    assert TwoDigits(x0, 0) == TwoDigits(c, 0) && x0[2..] == x1;
    RunStep(L, x0, f, x1, f1);
    assert L[1..] == [Lit(':'), Minute] + rest;
    RunMinute(rest, c, v, f1);
  }

  /** The colon and the minute of a well-formed clock. */
  lemma RunMinute(rest: Layout, c: string, v: string, f: Fields)
    requires ClockText(c)
    ensures Run([Lit(':'), Minute] + rest, c[2..] + v, f)
         == Run(rest, c[5..] + v, f.(minute := TwoDigits(c, 3)))
  {
    var L := [Lit(':'), Minute] + rest;
    var x1, x2, x3 := c[2..] + v, c[3..] + v, c[5..] + v;
    assert x1[1..] == x2;
    RunStep(L, x1, f, x2, f);
    assert TwoDigits(x2, 0) == TwoDigits(c, 3) && x2[2..] == x3;
    assert L[2..] == rest;
    RunStep(L[1..], x2, f, x3, f.(minute := TwoDigits(c, 3)));
  }

  /** A colon and the second of a well-formed clock, and the fraction after it. */
  lemma RunClockTail(rest: Layout, c: string, v: string, f: Fields)
    requires ClockText(c)
    ensures Run([Lit(':'), Second] + rest, c[5..] + v, f)
         == Run(rest, ImplicitFraction(rest, v, f.(second := TwoDigits(c, 6))).0,
                      ImplicitFraction(rest, v, f.(second := TwoDigits(c, 6))).1)
  {
    var L := [Lit(':'), Second] + rest;
    var x3, x4 := c[5..] + v, c[6..] + v;
    assert x3[1..] == x4;
    RunStep(L, x3, f, x4, f);
    assert L[1..] == [Second] + rest;
    RunSecond(rest, c, v, f);
  }

  /** The seconds of a clock text, then an implicit fraction. */
  lemma RunSecond(rest: Layout, c: string, v: string, f: Fields)
    requires ClockText(c)
    ensures Run([Second] + rest, c[6..] + v, f)
         == Run(rest, ImplicitFraction(rest, v, f.(second := TwoDigits(c, 6))).0,
                      ImplicitFraction(rest, v, f.(second := TwoDigits(c, 6))).1)
  {
    var L := [Second] + rest;
    var x4 := c[6..] + v;
    assert TwoDigits(x4, 0) == TwoDigits(c, 6) && x4[2..] == v;
    assert L[1..] == rest;
    var r := ImplicitFraction(rest, v, f.(second := TwoDigits(c, 6)));
    RunStep(L, x4, f, r.0, r.1);
  }

  /** The clock chunks read a well-formed clock as its hour, minute and second; a
      fraction right after it is taken when the layout asks for none. */
  lemma RunClockPart(rest: Layout, c: string, v: string, f: Fields)
    requires ClockText(c)
    ensures Run(ClockPart + rest, c + v, f)
         == Run(rest, ImplicitFraction(rest, v, WithClock(f, c)).0, ImplicitFraction(rest, v, WithClock(f, c)).1)
  {
    assert ClockPart + rest == [Hour, Lit(':'), Minute] + ([Lit(':'), Second] + rest);
    var f2 := f.(hour := TwoDigits(c, 0), minute := TwoDigits(c, 3));
    RunClockHead([Lit(':'), Second] + rest, c, v, f);
    RunClockTail(rest, c, v, f2);
    assert f2.(second := TwoDigits(c, 6)) == WithClock(f, c);
  }

  /** A date-and-clock layout reads its date, separator and clock, then the tail. */
  lemma RunDateClock(sep: char, tail: Layout, d: string, c: string, v: string)
    requires DateText(d) && ClockText(c)
    ensures Run(DateClock(sep, tail), d + [sep] + c + v, Start)
         == Run(tail, ImplicitFraction(tail, v, WithClock(WithDate(Start, d), c)).0,
                      ImplicitFraction(tail, v, WithClock(WithDate(Start, d), c)).1)
  {
    var rest := [Lit(sep)] + (ClockPart + tail);
    assert DateClock(sep, tail) == DatePart + rest;
    assert d + [sep] + c + v == d + ([sep] + c + v);
    RunDatePart(rest, d, [sep] + c + v, Start);
    RunSeparator(sep, ClockPart + tail, c, v, WithDate(Start, d));
    RunClockPart(tail, c, v, WithDate(Start, d));
  }

  /** The separator between a date and a clock. */
  lemma RunSeparator(sep: char, rest: Layout, c: string, v: string, f: Fields)
    requires ClockText(c)
    ensures Run([Lit(sep)] + rest, [sep] + c + v, f) == Run(rest, c + v, f)
  {
    assert ([sep] + c + v)[1..] == c + v;
    if sep == ' ' {
      assert CutSpace([sep] + c + v) == CutSpace(c + v);
      assert (c + v)[0] == c[0];
    }
    assert ([Lit(sep)] + rest)[1..] == rest;
    RunStep([Lit(sep)] + rest, [sep] + c + v, f, c + v, f);
  }

  /** The time a well-formed date and clock name, in the given zone. */
  function LocalStamp(d: string, c: string, zone: Zone): Stamp
    requires DateText(d) && ClockText(c)
  {
    Stamp(Strconv.DecimalValue(d[..4]), TwoDigits(d, 5), TwoDigits(d, 8),
          TwoDigits(c, 0), TwoDigits(c, 3), TwoDigits(c, 6), 0, zone)
  }

  /** The day of a well-formed date exists in its month. */
  predicate DayFits(d: string)
    requires DateText(d)
  {
    1 <= TwoDigits(d, 8) <= DaysIn(TwoDigits(d, 5), Strconv.DecimalValue(d[..4]))
  }

  /** Nothing, or a period and one to nine digits. */
  predicate FracText(s: string)
  {
    s == [] || (2 <= |s| <= 10 && s[0] == '.' && AllDigits(s[1..]))
  }

  /** A signed hh:mm offset of at most 24 hours and 60 minutes. */
  predicate OffsetText(z: string)
  {
    && |z| == 6 && (z[0] == '+' || z[0] == '-') && IsDigit(z[1]) && IsDigit(z[2]) && z[3] == ':'
    && IsDigit(z[4]) && IsDigit(z[5]) && TwoDigits(z, 1) <= 24 && TwoDigits(z, 4) <= 60
  }

  lemma {:induction false} DigitRunStops(s: string, i: nat, n: nat)
    requires i + n <= |s| && AllDigits(s[i..i + n]) && (i + n == |s| || !IsDigit(s[i + n]))
    ensures DigitRun(s, i) == n
    decreases n
  {
    if n > 0 {
      assert s[i..i + n][0] == s[i];
      assert s[i + 1..i + n] == s[i..i + n][1..];
      DigitRunStops(s, i + 1, n - 1);
    }
  }

  /** A fraction the layout does not ask for is taken whole after the seconds, up to
      the next non-digit. */
  lemma ImplicitFractionTakes(tail: Layout, fr: string, z: string, f: Fields)
    requires FracText(fr) && !NextStdIsFrac(tail) && (z == [] || (!IsDigit(z[0]) && !CommaOrPeriod(z[0])))
    ensures ImplicitFraction(tail, fr + z, f).0 == z
  {
    if fr != [] {
      var v := fr + z;
      assert v[1..|fr|] == fr[1..];
      assert |fr| == |v| || v[|fr|] == z[0];
      DigitRunStops(v, 1, |fr| - 1);
      assert v[|fr|..] == z;
    } else {
      assert fr + z == z;
    }
  }

  /** Fields read from a valid date and clock always finish into a time. */
  lemma FinishDateClock(d: string, c: string, g: Fields)
    requires DateText(d) && DayFits(d) && ClockText(c)
    requires g == WithClock(WithDate(Start, d), c).(nanos := g.nanos, zone := g.zone)
    ensures Finish(g).Some?
  {
  }

  lemma FinishDate(f: Fields, d: string)
    requires DateText(d) && DayFits(d)
    ensures Finish(WithDate(f, d)).Some?
  {
  }

  /** DateOnly accepts every well-formed date whose day exists. */
  lemma ParsesDateOnly(d: string)
    requires DateText(d) && DayFits(d)
    ensures Parse(DateOnly, d).Some?
  {
    assert DatePart + [] == DatePart && d + [] == d;
    RunDatePart([], d, [], Start);
    FinishDate(Start, d);
  }

  /** TimeOnly accepts every well-formed clock. */
  lemma ParsesTimeOnly(c: string)
    requires ClockText(c)
    ensures Parse(TimeOnly, c).Some?
  {
    assert ClockPart + [] == ClockPart && c + [] == c;
    RunClockPart([], c, [], Start);
  }

  lemma RunDateClockFraction(sep: char, d: string, c: string, fr: string)
    requires DateText(d) && ClockText(c) && FracText(fr)
    ensures Run(DateClock(sep, []), d + [sep] + c + fr, Start)
         == Some(ImplicitFraction([], fr, WithClock(WithDate(Start, d), c)).1)
  {
    RunDateClock(sep, [], d, c, fr);
    ImplicitFractionTakes([], fr, [], WithClock(WithDate(Start, d), c));
  }

  /** A date, a separator and a clock, with or without a fraction, parse under the
      layout with nothing after the seconds. */
  lemma ParsesDateClock(sep: char, d: string, c: string, fr: string)
    requires DateText(d) && DayFits(d) && ClockText(c) && FracText(fr)
    ensures Parse(DateClock(sep, []), d + [sep] + c + fr).Some?
  {
    RunDateClockFraction(sep, d, c, fr);
    FinishDateClock(d, c, ImplicitFraction([], fr, WithClock(WithDate(Start, d), c)).1);
  }

  /** The fixed fraction slot of a date-and-clock layout is read by atoi: a sign may
      stand in its first place, a `+` is ignored, and a `-` fails the parse unless
      the digits after it are all zero. */
  lemma ParsesSignedFraction(d: string, c: string, sign: char, ds: string, k: nat)
    requires DateText(d) && DayFits(d) && ClockText(c)
    requires 1 <= k <= 9 && |ds| == k - 1 && AllDigits(ds) && (sign == '+' || sign == '-')
    ensures Parse(DateClock('T', [FracFixed(k)]), d + ['T'] + c + (['.', sign] + ds))
         == if sign == '-' && Strconv.DecimalValue(ds) != 0 then None
            else Some(LocalStamp(d, c, UTC).(nanos := Strconv.DecimalValue(ds) * Pow10(9 - k)))
  {
    var fr := ['.', sign] + ds;
    var g := WithClock(WithDate(Start, d), c);
    RunDateClock('T', [FracFixed(k)], d, c, fr);
    assert fr[1..1 + k] == [sign] + ds && ([sign] + ds)[1..] == ds;
    assert fr[1 + k..] == [];
  }

  /** The date and clock of the examples below. */
  lemma ExampleDateClock()
    ensures DateText("2025-07-04") && DayFits("2025-07-04") && ClockText("17:12:32")
    ensures LocalStamp("2025-07-04", "17:12:32", UTC) == Stamp(2025, 7, 4, 17, 12, 32, 0, UTC)
  {
    var d := "2025-07-04";
    assert d[..4] == "2025" && "2025"[..3] == "202" && "202"[..2] == "20" && "20"[..1] == "2" && "2"[..0] == [];
    assert Strconv.DecimalValue(d[..4]) == 2025;
  }

  /** Under "2006-01-02T15:04:05.000", "2025-07-04T17:12:32.+12" is 12 ms past the second. */
  lemma PlusFractionExample()
    ensures Parse(DateClock('T', [FracFixed(3)]), "2025-07-04T17:12:32" + ".+12")
         == Some(Stamp(2025, 7, 4, 17, 12, 32, 12_000_000, UTC))
  {
    var d, c := "2025-07-04", "17:12:32";
    ExampleDateClock();
    assert "12"[..1] == "1" && "1"[..0] == [] && Strconv.DecimalValue("12") == 12;
    ParsesSignedFraction(d, c, '+', "12", 3);
    assert d + ['T'] + c + (['.', '+'] + "12") == "2025-07-04T17:12:32" + ".+12";
  }

  /** Under the same layout "2025-07-04T17:12:32.-00" parses with no fraction. */
  lemma MinusZeroFractionExample()
    ensures Parse(DateClock('T', [FracFixed(3)]), "2025-07-04T17:12:32" + ".-00")
         == Some(Stamp(2025, 7, 4, 17, 12, 32, 0, UTC))
  {
    var d, c := "2025-07-04", "17:12:32";
    ExampleDateClock();
    assert "00"[..1] == "0" && "0"[..0] == [] && Strconv.DecimalValue("00") == 0;
    ParsesSignedFraction(d, c, '-', "00", 3);
    assert d + ['T'] + c + (['.', '-'] + "00") == "2025-07-04T17:12:32" + ".-00";
  }

  /** "2025-07-04T17:12:32.-12" is the "fractional second" range error. */
  lemma MinusFractionExample()
    ensures Parse(DateClock('T', [FracFixed(3)]), "2025-07-04T17:12:32" + ".-12").None?
  {
    var d, c := "2025-07-04", "17:12:32";
    ExampleDateClock();
    assert "12"[..1] == "1" && "1"[..0] == [] && Strconv.DecimalValue("12") == 12;
    ParsesSignedFraction(d, c, '-', "12", 3);
    assert d + ['T'] + c + (['.', '-'] + "12") == "2025-07-04T17:12:32" + ".-12";
  }

  /** `Z` or a numeric offset is the whole of what the zone chunk reads. */
  lemma RunZulu(z: string, g: Fields)
    requires z == "Z" || OffsetText(z)
    ensures Run([ZuluOffset], z, g).Some?
    ensures Run([ZuluOffset], z, g).value == g.(zone := Run([ZuluOffset], z, g).value.zone)
  {
    var s := Step(ZuluOffset, [], z, g);
    assert s.Some? && s.value.0 == [];
  }

  lemma RunRFC3339(d: string, c: string, fr: string, z: string)
    requires DateText(d) && ClockText(c) && FracText(fr) && (z == "Z" || OffsetText(z))
    ensures Run(RFC3339, d + ['T'] + c + (fr + z), Start).Some?
    ensures Run(RFC3339, d + ['T'] + c + (fr + z), Start).value
         == WithClock(WithDate(Start, d), c).(nanos := Run(RFC3339, d + ['T'] + c + (fr + z), Start).value.nanos,
                                               zone := Run(RFC3339, d + ['T'] + c + (fr + z), Start).value.zone)
  {
    var f := WithClock(WithDate(Start, d), c);
    var r := ImplicitFraction([ZuluOffset], fr + z, f);
    ImplicitFractionTakes([ZuluOffset], fr, z, f);
    assert r.0 == z;
    RunZulu(z, r.1);
    assert Run([ZuluOffset], r.0, r.1).Some?;
    RunDateClock('T', [ZuluOffset], d, c, fr + z);
  }

  /** RFC 3339 text (with `Z` or a numeric offset, and an optional fraction) parses
      under time.RFC3339. */
  lemma ParsesRFC3339(d: string, c: string, fr: string, z: string)
    requires DateText(d) && DayFits(d) && ClockText(c) && FracText(fr) && (z == "Z" || OffsetText(z))
    ensures Parse(RFC3339, d + ['T'] + c + (fr + z)).Some?
  {
    RunRFC3339(d, c, fr, z);
    FinishDateClock(d, c, Run(RFC3339, d + ['T'] + c + (fr + z), Start).value);
  }

  /** The chunks of a literal text without spaces. */
  function Literal(s: string): (L: Layout)
    ensures |L| == |s| && forall i | 0 <= i < |s| :: L[i] == Lit(s[i])
  {
    if s == [] then [] else [Lit(s[0])] + Literal(s[1..])
  }

  /** Literal layout text matches exactly itself and records nothing. */
  lemma {:induction false} RunLiteral(s: string, v: string, f: Fields)
    requires forall i | 0 <= i < |s| :: s[i] != ' '
    ensures Run(Literal(s), v, f) == if v == s then Some(f) else None
  {
    if s != [] {
      var L := Literal(s);
      assert L[0] == Lit(s[0]) && L[1..] == Literal(s[1..]);
      if v != [] && v[0] == s[0] {
        RunLiteral(s[1..], v[1..], f);
        assert v == s <==> v[1..] == s[1..] by {
          if v[1..] == s[1..] { assert v == [v[0]] + v[1..] && s == [s[0]] + s[1..]; }
        }
      }
    }
  }

  lemma RunNumOffset(z: string, g: Fields)
    requires OffsetText(z)
    ensures Run([NumOffset], z, g) == Some(g.(zone := Some(OffsetZone(z))))
  {
    assert Step(NumOffset, [], z, g) == Some(([], g.(zone := Some(OffsetZone(z)))));
  }

  lemma FinishLocal(d: string, c: string, zone: Zone)
    requires DateText(d) && DayFits(d) && ClockText(c)
    ensures Finish(WithClock(WithDate(Start, d), c).(zone := Some(zone))) == Some(LocalStamp(d, c, zone))
  {
  }

  /** A space-separated date and clock followed by a numeric offset keep that offset. */
  lemma ParsesSpacedOffset(d: string, c: string, z: string)
    requires DateText(d) && DayFits(d) && ClockText(c) && OffsetText(z)
    ensures Parse(DateClock(' ', [NumOffset]), d + [' '] + c + z) == Some(LocalStamp(d, c, OffsetZone(z)))
  {
    var f := WithClock(WithDate(Start, d), c);
    var r := ImplicitFraction([NumOffset], z, f);
    assert r == (z, f);
    RunNumOffset(z, f);
    assert Run([NumOffset], r.0, r.1) == Some(f.(zone := Some(OffsetZone(z))));
    RunDateClock(' ', [NumOffset], d, c, z);
    FinishLocal(d, c, OffsetZone(z));
  }

  /** A layout ending in literal text accepts only that text, and sets no zone. */
  lemma ParsesSpacedLiteral(d: string, c: string, z: string, lit: string)
    requires DateText(d) && DayFits(d) && ClockText(c) && OffsetText(z)
    requires forall i | 0 <= i < |lit| :: lit[i] != ' '
    ensures Parse(DateClock(' ', Literal(lit)), d + [' '] + c + z)
         == if z == lit then Some(LocalStamp(d, c, UTC)) else None
  {
    RunSpacedLiteral(d, c, z, lit);
    if z == lit {
      FinishUnzoned(d, c);
    }
  }

  lemma RunSpacedLiteral(d: string, c: string, z: string, lit: string)
    requires DateText(d) && ClockText(c) && OffsetText(z)
    requires forall i | 0 <= i < |lit| :: lit[i] != ' '
    ensures Run(DateClock(' ', Literal(lit)), d + [' '] + c + z, Start)
         == if z == lit then Some(WithClock(WithDate(Start, d), c)) else None
  {
    var f := WithClock(WithDate(Start, d), c);
    assert !CommaOrPeriod(z[0]);
    assert ImplicitFraction(Literal(lit), z, f) == (z, f);
    RunDateClock(' ', Literal(lit), d, c, z);
    RunLiteral(lit, z, f);
  }

  lemma FinishUnzoned(d: string, c: string)
    requires DateText(d) && DayFits(d) && ClockText(c)
    ensures Finish(WithClock(WithDate(Start, d), c)) == Some(LocalStamp(d, c, UTC))
  {
  }

  /** A date followed by a character other than the layout's separator fails. */
  lemma DateClockRejectsSeparator(sep: char, tail: Layout, d: string, x: char, rest: string)
    requires DateText(d) && x != sep
    ensures Run(DateClock(sep, tail), d + [x] + rest, Start).None?
  {
    var L := [Lit(sep)] + ClockPart + tail;
    assert DateClock(sep, tail) == DatePart + L;
    assert d + [x] + rest == d + ([x] + rest);
    RunDatePart(L, d, [x] + rest, Start);
    assert Step(L[0], L[1..], [x] + rest, WithDate(Start, d)).None?;
  }

  /** Text left after the seconds, not a fraction, makes a layout that ends there fail. */
  lemma DateClockRejectsExtra(sep: char, d: string, c: string, z: string)
    requires DateText(d) && ClockText(c) && z != [] && !CommaOrPeriod(z[0])
    ensures Run(DateClock(sep, []), d + [sep] + c + z, Start).None?
  {
    RunDateClock(sep, [], d, c, z);
  }

  /** DateOnly fails on a date with anything after it. */
  lemma DateOnlyRejectsExtra(d: string, z: string)
    requires DateText(d) && z != []
    ensures Run(DateOnly, d + z, Start).None?
  {
    assert DateOnly == DatePart + [];
    RunDatePart([], d, z, Start);
  }

  /** TimeOnly fails when the two leading digits are not followed by `:`. */
  lemma TimeOnlyRejectsDate(v: string)
    requires |v| >= 3 && IsDigit(v[0]) && IsDigit(v[1]) && v[2] != ':'
    ensures Run(TimeOnly, v, Start).None?
  {
    var s := Step(Hour, TimeOnly[1..], v, Start);
    if s.Some? {
      assert s.value.0 == v[2..];
      assert Step(Lit(':'), TimeOnly[2..], v[2..], s.value.1).None?;
    }
  }

  /** FirstParse returns the first parse in list order, and a list that starts with
      failing layouts gives the same answer as its tail. */
  lemma {:induction false} FirstParseSkips(layouts: seq<Layout>, k: nat, v: string)
    requires k <= |layouts|
    requires forall j | 0 <= j < k :: Parse(layouts[j], v).None?
    ensures FirstParse(layouts, v) == FirstParse(layouts[k..], v)
  {
    if k > 0 {
      assert layouts[1..][k - 1..] == layouts[k..];
      FirstParseSkips(layouts[1..], k - 1, v);
    }
  }
}
