/**
 * time_parser.go: turning a query string into a time. The value is trimmed, a
 * timezone offset that URL decoding separated with a space is joined back on, a few
 * layouts are tried first when the text looks like them, and then every known
 * layout is tried in order.
 */
module TimeParser {
  import opened Wrappers
  import opened Text
  import opened TimeRegex
  import opened GoTime
  import FieldError

  // ---------------------------------------------------------------------------
  // fixTimezoneOffset

  /** The anchored repair pattern matches with the date-time before index k and the
      separating whitespace at k. */
  predicate SplitAt(value: string, k: nat)
  {
    k < |value| && IsStamp(value[..k]) && IsRegexSpace(value[k]) && IsOffset(value[k + 1..])
  }

  predicate Matches(value: string)
  {
    exists k | 0 <= k < |value| :: SplitAt(value, k)
  }

  /** The offset with `+` put in front when it has no sign. */
  function Signed(offset: string): (r: string)
    requires IsOffset(offset)
    ensures |r| == 6 && IsSign(r[0]) && r[1..] == (if IsClock(offset) then offset else offset[1..])
  {
    if IsSign(offset[0]) then offset else "+" + offset
  }

  /** fixTimezoneOffset: a whole-string match becomes the date-time joined to the
      signed offset; anything else is returned as it is. */
  function FixTimezoneOffset(value: string): string
  {
    var n := |value|;
    if n >= 6 && SplitAt(value, n - 6) then value[..n - 6] + Signed(value[n - 5..])
    else if n >= 7 && SplitAt(value, n - 7) then value[..n - 7] + Signed(value[n - 6..])
    else value
  }

  /** A match at k is the only one: the repair joins the date-time before k to the
      signed offset after it. */
  lemma FixTimezoneOffsetSpec(value: string, k: nat)
    requires SplitAt(value, k)
    ensures FixTimezoneOffset(value) == value[..k] + Signed(value[k + 1..])
  {
    var n := |value|;
    assert |value[k + 1..]| == 5 || |value[k + 1..]| == 6;
    if k == n - 7 {
      assert IsSign(value[k + 1..][0]);
      assert !SplitAt(value, n - 6);
    }
  }

  /** A value the pattern does not match is returned as it is. */
  lemma FixUnmatched(value: string)
    requires !Matches(value)
    ensures FixTimezoneOffset(value) == value
  {
  }

  lemma NoSpaceNoMatch(v: string)
    requires NoRegexSpace(v)
    ensures !Matches(v)
  {
    forall k | 0 <= k < |v|
      ensures !SplitAt(v, k)
    {
      assert !IsRegexSpace(v[k]);
    }
  }

  /** The repair is idempotent: a repaired value holds no whitespace left to match. */
  lemma FixTimezoneOffsetIdempotent(value: string)
    ensures FixTimezoneOffset(FixTimezoneOffset(value)) == FixTimezoneOffset(value)
  {
    if Matches(value) {
      var k :| 0 <= k < |value| && SplitAt(value, k);
      RepairedHasNoSpace(value, k);
      NoSpaceNoMatch(FixTimezoneOffset(value));
      FixUnmatched(FixTimezoneOffset(value));
    } else {
      FixUnmatched(value);
    }
  }

  lemma RepairedHasNoSpace(value: string, k: nat)
    requires SplitAt(value, k)
    ensures NoRegexSpace(FixTimezoneOffset(value))
  {
    FixTimezoneOffsetSpec(value, k);
    var o := Signed(value[k + 1..]);
    StampNoSpace(value[..k]);
    assert NoRegexSpace(o);
    ConcatNoSpace(value[..k], o);
  }

  /** The signs of a signed offset are kept, only the whitespace goes. */
  lemma FixKeepsSign(t: string, w: char, o: string)
    requires IsStamp(t) && IsRegexSpace(w) && |o| == 6 && IsSign(o[0]) && IsClock(o[1..])
    ensures FixTimezoneOffset(t + [w] + o) == t + o
  {
    var v := t + [w] + o;
    assert v[..|t|] == t && v[|t|] == w && v[|t| + 1..] == o;
    FixTimezoneOffsetSpec(v, |t|);
  }

  /** An unsigned offset gains a `+`. */
  lemma FixAddsPlus(t: string, w: char, o: string)
    requires IsStamp(t) && IsRegexSpace(w) && IsClock(o)
    ensures FixTimezoneOffset(t + [w] + o) == t + "+" + o
  {
    var v := t + [w] + o;
    assert v[..|t|] == t && v[|t|] == w && v[|t| + 1..] == o;
    FixTimezoneOffsetSpec(v, |t|);
    assert Signed(o) == "+" + o;
    assert t + ("+" + o) == t + "+" + o;
  }

  // ---------------------------------------------------------------------------
  // parseTime

  /** timeFormats, in the order parseTime falls back to them. */
  const TimeFormats: seq<Layout> := [
    RFC3339,
    RFC3339Nano,
    DateTime,
    DateClock('T', []),
    DateClock('T', [FracFixed(3)]),
    DateClock('T', [FracFixed(6)]),
    DateClock('T', [FracOpt(9)]),
    DateClock('T', [NumOffset]),
    DateClock('T', [FracFixed(3), NumOffset]),
    DateClock('T', [FracFixed(6), NumOffset]),
    DateClock('T', [FracOpt(9), NumOffset]),
    DateClock(' ', [NumOffset]),
    DateClock(' ', [FracFixed(3), NumOffset]),
    DateClock(' ', [FracFixed(6), NumOffset]),
    DateClock(' ', [FracOpt(9), NumOffset]),
    DateClock('T', [Lit(' '), NumOffset]),
    DateClock('T', [FracFixed(3), Lit(' '), NumOffset]),
    DateClock('T', [FracFixed(6), Lit(' '), NumOffset]),
    DateClock('T', [FracOpt(9), Lit(' '), NumOffset]),
    DateOnly,
    TimeOnly
  ]

  /** The text the layouts see: trimmed, and repaired when it holds a space. */
  function Prepare(value: string): (v: string)
    ensures v == TrimSpace(value) || (ContainsChar(TrimSpace(value), ' ') && v == FixTimezoneOffset(TrimSpace(value)))
    ensures !ContainsChar(TrimSpace(value), ' ') ==> v == TrimSpace(value)
  {
    var v := TrimSpace(value);
    if ContainsChar(v, ' ') then FixTimezoneOffset(v) else v
  }

  /** The guard of the RFC 3339 fast path. */
  predicate LooksLikeRFC3339(v: string)
  {
    && |v| >= 19
    && v[4] == '-' && v[7] == '-' && v[10] == 'T' && v[13] == ':' && v[16] == ':'
    && (v[|v| - 1] == 'Z' || (|v| >= 20 && IsSign(v[19])))
  }

  predicate LooksLikeDate(v: string)
  {
    |v| == 10 && v[4] == '-' && v[7] == '-'
  }

  predicate LooksLikeClock(v: string)
  {
    |v| >= 8 && v[2] == ':' && v[5] == ':'
  }

  function NoFormatError(v: string): FieldError.Error
  {
    FieldError.Wrapped(FieldError.Sentinel(FieldError.ErrInvalidValue),
                       "unable to parse with any known date format: " + v)
  }

  /** parseTime: prepare the text, then dispatch it. */
  function ParseTime(value: string): (r: Result<Stamp, FieldError.Error>)
    ensures r.Err? ==> r.error == NoFormatError(Prepare(value))
  {
    ParsePrepared(Prepare(value))
  }

  /** The fast paths, then every layout in order. */
  function ParsePrepared(v: string): (r: Result<Stamp, FieldError.Error>)
    ensures r.Err? ==> r.error == NoFormatError(v)
  {
    if LooksLikeRFC3339(v) && Parse(RFC3339, v).Some? then Ok(Parse(RFC3339, v).value)
    else if LooksLikeRFC3339(v) && Parse(RFC3339Nano, v).Some? then Ok(Parse(RFC3339Nano, v).value)
    else if LooksLikeDate(v) && Parse(DateOnly, v).Some? then Ok(Parse(DateOnly, v).value)
    else if LooksLikeClock(v) && Parse(TimeOnly, v).Some? then Ok(Parse(TimeOnly, v).value)
    else
      match FirstParse(TimeFormats, v)
      case Some(t) => Ok(t)
      case None => Err(NoFormatError(v))
  }

  /** Without the fast paths: the first layout of the list that parses. */
  function ParseInOrder(v: string): Result<Stamp, FieldError.Error>
  {
    match FirstParse(TimeFormats, v)
    case Some(t) => Ok(t)
    case None => Err(NoFormatError(v))
  }

  /** The fast paths only save time: parseTime gives what the plain first-match
      search over timeFormats gives. */
  lemma ParseTimeIsFirstMatch(value: string)
    ensures ParseTime(value) == ParseInOrder(Prepare(value))
  {
    FastPathsAgree(Prepare(value));
  }

  lemma FastPathsAgree(v: string)
    ensures ParsePrepared(v) == ParseInOrder(v)
  {
    if LooksLikeRFC3339(v) && (Parse(RFC3339, v).Some? || Parse(RFC3339Nano, v).Some?) {
      RFC3339Leads(v);
    } else if LooksLikeDate(v) && Parse(DateOnly, v).Some? {
      DateOnlyFirst(v);
    } else if LooksLikeClock(v) && Parse(TimeOnly, v).Some? {
      TimeOnlyFirst(v);
    }
  }

  /** RFC 3339 heads the list, its nanosecond form second. */
  lemma RFC3339Leads(v: string)
    ensures Parse(RFC3339, v).Some? ==> FirstParse(TimeFormats, v) == Parse(RFC3339, v)
    ensures Parse(RFC3339, v).None? ==> FirstParse(TimeFormats, v) == FirstParse(TimeFormats[1..], v)
    ensures Parse(RFC3339, v).None? && Parse(RFC3339Nano, v).Some? ==> FirstParse(TimeFormats, v) == Parse(RFC3339Nano, v)
  {
    assert TimeFormats[0] == RFC3339 && TimeFormats[1..][0] == RFC3339Nano;
  }

  /** A bare date that DateOnly reads is read by no layout before it. */
  lemma DateOnlyFirst(v: string)
    requires LooksLikeDate(v) && Parse(DateOnly, v).Some?
    ensures FirstParse(TimeFormats, v) == Parse(DateOnly, v)
  {
    LongLayoutsRejectShort(v);
    FirstParseSkips(TimeFormats, 19, v);
    assert TimeFormats[19..][0] == DateOnly;
  }

  /** A bare clock that TimeOnly reads is read by no layout before it. */
  lemma TimeOnlyFirst(v: string)
    requires LooksLikeClock(v) && Parse(TimeOnly, v).Some?
    ensures FirstParse(TimeFormats, v) == Parse(TimeOnly, v)
  {
    DatedLayoutsRejectClock(v);
    FirstParseSkips(TimeFormats, 20, v);
    assert TimeFormats[20..][0] == TimeOnly;
  }

  /** Text too short for a date and a clock fails every layout before DateOnly. */
  lemma LongLayoutsRejectShort(v: string)
    requires |v| < 17
    ensures forall j | 0 <= j < 19 :: Parse(TimeFormats[j], v).None?
  {
    forall j | 0 <= j < 19
      ensures Parse(TimeFormats[j], v).None?
    {
      if Parse(TimeFormats[j], v).Some? {
        match j
        case 0 => DateClockNeedsLength('T', [ZuluOffset], v);
        case 1 => DateClockNeedsLength('T', [FracOpt(9), ZuluOffset], v);
        case 2 => DateClockNeedsLength(' ', [], v);
        case 3 => DateClockNeedsLength('T', [], v);
        case 4 => DateClockNeedsLength('T', [FracFixed(3)], v);
        case 5 => DateClockNeedsLength('T', [FracFixed(6)], v);
        case 6 => DateClockNeedsLength('T', [FracOpt(9)], v);
        case 7 => DateClockNeedsLength('T', [NumOffset], v);
        case 8 => DateClockNeedsLength('T', [FracFixed(3), NumOffset], v);
        case 9 => DateClockNeedsLength('T', [FracFixed(6), NumOffset], v);
        case 10 => DateClockNeedsLength('T', [FracOpt(9), NumOffset], v);
        case 11 => DateClockNeedsLength(' ', [NumOffset], v);
        case 12 => DateClockNeedsLength(' ', [FracFixed(3), NumOffset], v);
        case 13 => DateClockNeedsLength(' ', [FracFixed(6), NumOffset], v);
        case 14 => DateClockNeedsLength(' ', [FracOpt(9), NumOffset], v);
        case 15 => DateClockNeedsLength('T', [Lit(' '), NumOffset], v);
        case 16 => DateClockNeedsLength('T', [FracFixed(3), Lit(' '), NumOffset], v);
        case 17 => DateClockNeedsLength('T', [FracFixed(6), Lit(' '), NumOffset], v);
        case 18 => DateClockNeedsLength('T', [FracOpt(9), Lit(' '), NumOffset], v);
      }
    }
  }

  /** Text with a `:` at index 2 fails every layout that opens with the year. */
  lemma DatedLayoutsRejectClock(v: string)
    requires |v| > 2 && v[2] == ':'
    ensures forall j | 0 <= j < 20 :: Parse(TimeFormats[j], v).None?
  {
    forall j | 0 <= j < 20
      ensures Parse(TimeFormats[j], v).None?
    {
      YearFirstRejectsClock(TimeFormats[j], v);
    }
  }

  /** Surrounding whitespace never matters. */
  lemma ParseTimeIgnoresSurroundingSpace(value: string)
    ensures ParseTime(value) == ParseTime(TrimSpace(value))
  {
    PrepareIgnoresSurroundingSpace(value);
  }

  lemma PrepareIgnoresSurroundingSpace(value: string)
    ensures Prepare(value) == Prepare(TrimSpace(value))
  {
    TrimSpaceIdempotent(value);
  }

  /** parseTime fails exactly when no layout of timeFormats accepts the prepared text. */
  lemma ParseTimeFails(value: string)
    ensures ParseTime(value).Err? <==> forall i | 0 <= i < |TimeFormats| :: Parse(TimeFormats[i], Prepare(value)).None?
  {
    ParseTimeIsFirstMatch(value);
  }

  lemma PreparedAccepts(v: string, i: nat)
    requires i < |TimeFormats| && Parse(TimeFormats[i], v).Some?
    ensures ParsePrepared(v).Ok?
  {
    FastPathsAgree(v);
  }

  /** Any layout of the list that accepts the prepared text makes parseTime succeed. */
  lemma ParseTimeAccepts(value: string, i: nat)
    requires i < |TimeFormats| && Parse(TimeFormats[i], Prepare(value)).Some?
    ensures ParseTime(value).Ok?
  {
    ParseTimeFails(value);
  }

  // ---------------------------------------------------------------------------
  // The timestamp shapes the repository's tests feed to parseTime

  /** Text without whitespace inside or at its ends reaches the layouts unchanged. */
  lemma PrepareKeeps(v: string)
    requires v != [] && NoRegexSpace(v) && !IsSpace(v[0]) && !IsSpace(v[|v| - 1])
    ensures Prepare(v) == v
  {
    TrimSpaceKeeps(v);
    assert !ContainsChar(v, ' ');
  }

  /** "17:12:32": a clock alone parses. */
  lemma AcceptsClock(c: string)
    requires ClockText(c)
    ensures ParseTime(c).Ok?
  {
    PiecesNoSpace("2006-01-02", c, []);
    PrepareKeeps(c);
    ParsesTimeOnly(c);
    ParseTimeAccepts(c, 20);
  }

  /** "2025-07-04": a date alone parses. */
  lemma AcceptsDate(d: string)
    requires DateText(d) && DayFits(d)
    ensures ParseTime(d).Ok?
  {
    PiecesNoSpace(d, "15:04:05", []);
    PrepareKeeps(d);
    ParsesDateOnly(d);
    ParseTimeAccepts(d, 19);
  }

  /** "2025-07-04T17:12:32" with or without a fraction parses. */
  lemma AcceptsLocalDateTime(d: string, c: string, fr: string)
    requires DateText(d) && DayFits(d) && ClockText(c) && FracText(fr)
    ensures ParseTime(d + ['T'] + c + fr).Ok?
  {
    var v := d + ['T'] + c + fr;
    DateClockNoSpace(d, c, fr, []);
    assert v + [] == v;
    assert v[0] == d[0];
    assert v[|v| - 1] == if fr == [] then c[7] else fr[|fr| - 1];
    PrepareKeeps(v);
    ParsesDateClock('T', d, c, fr);
    ParseTimeAccepts(v, 3);
  }

  /** "2025-07-04 17:12:32": the space-separated form parses. */
  lemma AcceptsSpacedDateTime(d: string, c: string)
    requires DateText(d) && DayFits(d) && ClockText(c)
    ensures ParseTime(d + [' '] + c).Ok?
  {
    var v := d + [' '] + c;
    assert v[0] == d[0] && v[|v| - 1] == c[7];
    TrimSpaceKeeps(v);
    assert !Matches(v);
    assert Prepare(v) == v;
    assert d + [' '] + c + [] == v;
    ParsesDateClock(' ', d, c, []);
    ParseTimeAccepts(v, 2);
  }

  /** "2025-07-04T17:12:32Z" and "2025-07-04T17:12:32.123+07:00": zoned forms parse. */
  lemma AcceptsZoned(d: string, c: string, fr: string, z: string)
    requires DateText(d) && DayFits(d) && ClockText(c) && FracText(fr) && (z == "Z" || OffsetText(z))
    ensures ParseTime(d + ['T'] + c + fr + z).Ok?
  {
    var v := d + ['T'] + c + fr + z;
    assert v == d + ['T'] + c + (fr + z);
    assert NoRegexSpace(z);
    DateClockNoSpace(d, c, fr, z);
    assert v[0] == d[0] && v[|v| - 1] == z[|z| - 1];
    PrepareKeeps(v);
    ParsesRFC3339(d, c, fr, z);
    ParseTimeAccepts(v, 0);
  }

  /** The repair puts back the `+` that URL decoding turned into a space. */
  lemma PrepareSpacedOffset(d: string, c: string, fr: string, o: string)
    requires DateText(d) && ClockText(c) && FracText(fr) && IsClock(o)
    ensures Prepare(d + ['T'] + c + fr + [' '] + o) == d + ['T'] + c + (fr + ("+" + o))
  {
    var t := d + ['T'] + c + fr;
    DateClockIsStamp(d, c, fr);
    PrepareRepairs(t, o);
    Regroup(d + ['T'] + c, fr, "+", o);
  }

  lemma PrepareRepairs(t: string, o: string)
    requires IsStamp(t) && IsClock(o)
    ensures Prepare(t + [' '] + o) == t + "+" + o
  {
    var v := t + [' '] + o;
    SpacedStampTrimmed(t, o);
    assert v[|t|] == ' ';
    FixAddsPlus(t, ' ', o);
  }

  /** A date-time, a space and an offset have no white space at either end. */
  lemma SpacedStampTrimmed(t: string, o: string)
    requires IsStamp(t) && IsClock(o)
    ensures TrimSpace(t + [' '] + o) == t + [' '] + o
  {
    var v := t + [' '] + o;
    assert t[0..4][0] == t[0];
    assert v[0] == t[0] && v[|v| - 1] == o[4];
    assert IsDigit(v[0]) && IsDigit(v[|v| - 1]);
    TrimSpaceKeeps(v);
  }

  /** "2025-07-04T17:12:32.123456 07:00": an offset whose `+` became a space is
      repaired and parses. */
  lemma AcceptsSpacedOffset(d: string, c: string, fr: string, o: string)
    requires DateText(d) && DayFits(d) && ClockText(c) && FracText(fr)
    requires IsClock(o) && TwoDigits(o, 0) <= 24 && TwoDigits(o, 3) <= 60
    ensures ParseTime(d + ['T'] + c + fr + [' '] + o).Ok?
  {
    PrepareSpacedOffset(d, c, fr, o);
    PlusOffset(o);
    ParsesRFC3339(d, c, fr, "+" + o);
    PreparedAccepts(d + ['T'] + c + (fr + ("+" + o)), 0);
  }
}
