/**
 * time_setter.go: the older time setter. A trailing unsigned offset that URL decoding
 * separated with a space gets its `+` back, then the layouts are tried in order and
 * the first that parses wins.
 */
module TimeSetter {
  import opened Wrappers
  import opened Text
  import opened TimeRegex
  import opened GoTime

  // ---------------------------------------------------------------------------
  // fixTimezoneOffset

  /** A date-time of the pattern starts at k and ends six characters before the end. */
  predicate StampAt(value: string, k: nat)
  {
    k + 6 <= |value| && IsStamp(value[k..|value| - 6])
  }

  /** The end-anchored pattern matches: a date-time ending six characters before the
      end, then one whitespace character, then an unsigned hh:mm. */
  predicate EndMatch(value: string)
  {
    && |value| >= 6 && IsRegexSpace(value[|value| - 6]) && IsClock(value[|value| - 5..])
    && exists k | 0 <= k <= |value| - 6 :: StampAt(value, k)
  }

  /** fixTimezoneOffset: the matched whitespace becomes `+`; nothing else changes. */
  function FixTimezoneOffset(value: string): (r: string)
    ensures |r| == |value|
    ensures EndMatch(value) ==> r[|r| - 6] == '+' && forall i | 0 <= i < |r| && i != |r| - 6 :: r[i] == value[i]
    ensures !EndMatch(value) ==> r == value
  {
    if EndMatch(value) then value[..|value| - 6] + "+" + value[|value| - 5..] else value
  }

  /** Text before the date-time is kept verbatim, and the space before an unsigned
      offset becomes `+`. */
  lemma FixAddsPlus(p: string, t: string, w: char, o: string)
    requires IsStamp(t) && IsRegexSpace(w) && IsClock(o)
    ensures FixTimezoneOffset(p + t + [w] + o) == p + t + "+" + o
  {
    var v := p + t + [w] + o;
    assert v[|v| - 5..] == o && v[|v| - 6] == w;
    assert v[|p|..|v| - 6] == t;
    assert StampAt(v, |p|);
    assert v[..|v| - 6] == p + t;
  }

  /** An offset already written with a sign does not match, and is left alone. */
  lemma FixKeepsSigned(p: string, t: string, w: char, o: string)
    requires IsStamp(t) && IsRegexSpace(w) && |o| == 6 && IsSign(o[0]) && IsClock(o[1..])
    ensures FixTimezoneOffset(p + t + [w] + o) == p + t + [w] + o
  {
    var v := p + t + [w] + o;
    assert v[|v| - 6] == o[0];
  }

  /** The repair is idempotent: the whitespace it matched is gone. */
  lemma FixTimezoneOffsetIdempotent(value: string)
    ensures FixTimezoneOffset(FixTimezoneOffset(value)) == FixTimezoneOffset(value)
  {
    var r := FixTimezoneOffset(value);
    if EndMatch(value) {
      assert !IsRegexSpace(r[|r| - 6]);
    }
  }

  // ---------------------------------------------------------------------------
  // setTime

  /** The text "+07:00". In a Go layout it is literal text, not an offset directive. */
  const PlusSeven: string := "+07:00"

  /** timeFormats exactly as listed: the two "+07:00" layouts read a literal "+07:00". */
  const TimeFormatsAsWritten: seq<Layout> := [
    DateTime,
    DateOnly,
    TimeOnly,
    RFC3339,
    RFC3339Nano,
    DateClock('T', Literal(PlusSeven)),
    DateClock('T', []),
    DateClock('T', [FracFixed(3)]),
    DateClock('T', [FracFixed(6)]),
    DateClock(' ', []),
    DateClock(' ', Literal(PlusSeven))
  ]

  /** timeFormats with the two timezone layouts reading an offset, as their comments
      describe them ("Alternative timezone format", "Space separator with timezone").
      Every other entry is the same layout as in the list as written. */
  const CorrectedTimeFormats: seq<Layout> := [
    DateTime,
    DateOnly,
    TimeOnly,
    RFC3339,
    RFC3339Nano,
    DateClock('T', [NumOffset]),
    DateClock('T', []),
    DateClock('T', [FracFixed(3)]),
    DateClock('T', [FracFixed(6)]),
    DateClock(' ', []),
    DateClock(' ', [NumOffset])
  ]

  /** The setter as written: repair, then the first listed layout that parses. */
  function SetTimeAsWritten(value: string): (r: Option<Stamp>)
    ensures r.None? <==> forall i | 0 <= i < |TimeFormatsAsWritten| ::
      Parse(TimeFormatsAsWritten[i], FixTimezoneOffset(value)).None?
  {
    FirstParse(TimeFormatsAsWritten, FixTimezoneOffset(value))
  }

  /** The setter with the corrected layouts. */
  function SetTimeCorrected(value: string): (r: Option<Stamp>)
    ensures r.None? <==> forall i | 0 <= i < |CorrectedTimeFormats| ::
      Parse(CorrectedTimeFormats[i], FixTimezoneOffset(value)).None?
  {
    FirstParse(CorrectedTimeFormats, FixTimezoneOffset(value))
  }

  /** The setter: always repair first, then try each listed layout in order and return
      the first time that parses; None stands for the invalid reflect.Value. */
  method SetTime(value: string) returns (r: Option<Stamp>)
    ensures r == SetTimeAsWritten(value)
  {
    var v := FixTimezoneOffset(value);
    var i := 0;
    while i < |TimeFormatsAsWritten|
      invariant 0 <= i <= |TimeFormatsAsWritten|
      invariant forall j | 0 <= j < i :: Parse(TimeFormatsAsWritten[j], v).None?
    {
      var t := Parse(TimeFormatsAsWritten[i], v);
      if t.Some? {
        FirstParseSkips(TimeFormatsAsWritten, i, v);
        return t;
      }
      i := i + 1;
    }
    FirstParseSkips(TimeFormatsAsWritten, i, v);
    return None;
  }

  // ---------------------------------------------------------------------------
  // The "+07:00" layouts

  /** A space-separated date and clock with a numeric offset fails every layout before
      the last, in both lists: the first ten entries of the two lists agree in kind. */
  lemma SpacedOffsetFailsEarly(d: string, c: string, z: string)
    requires DateText(d) && ClockText(c) && OffsetText(z)
    ensures forall j | 0 <= j < 10 :: Parse(CorrectedTimeFormats[j], d + [' '] + c + z).None?
    ensures forall j | 0 <= j < 10 :: Parse(TimeFormatsAsWritten[j], d + [' '] + c + z).None?
  {
    SpacedOffsetFailsKinds(d, c, z);
    forall j | 0 <= j < 10
      ensures Parse(CorrectedTimeFormats[j], d + [' '] + c + z).None?
      ensures Parse(TimeFormatsAsWritten[j], d + [' '] + c + z).None?
    {
      if 3 <= j < 9 {
        assert CorrectedTimeFormats[j] == DateClock('T', CorrectedTimeFormats[j][|DatePart| + 1 + |ClockPart|..]);
        assert TimeFormatsAsWritten[j] == DateClock('T', TimeFormatsAsWritten[j][|DatePart| + 1 + |ClockPart|..]);
      }
    }
  }

  /** The kinds of layout among those ten: a space-separated date and clock with
      nothing after the seconds, a date alone, a clock alone, and any `T`-separated
      layout. */
  lemma SpacedOffsetFailsKinds(d: string, c: string, z: string)
    requires DateText(d) && ClockText(c) && OffsetText(z)
    ensures Parse(DateTime, d + [' '] + c + z).None?
    ensures Parse(DateOnly, d + [' '] + c + z).None?
    ensures Parse(TimeOnly, d + [' '] + c + z).None?
    ensures forall tail: Layout :: Parse(DateClock('T', tail), d + [' '] + c + z).None?
  {
    var v := d + [' '] + c + z;
    DateClockRejectsExtra(' ', d, c, z);
    assert v == d + ([' '] + c + z);
    DateOnlyRejectsExtra(d, [' '] + c + z);
    assert d[..4][1] == d[1] && d[..4][2] == d[2];
    TimeOnlyRejectsDate(v);
    assert v == d + [' '] + (c + z);
    forall tail: Layout
      ensures Run(DateClock('T', tail), v, Start).None?
    {
      DateClockRejectsSeparator('T', tail, d, ' ', c + z);
    }
  }

  /** The repair leaves a signed offset alone. */
  lemma FixKeepsSpacedOffset(d: string, c: string, z: string)
    requires OffsetText(z)
    ensures FixTimezoneOffset(d + [' '] + c + z) == d + [' '] + c + z
  {
    var v := d + [' '] + c + z;
    assert v[|v| - 6] == z[0];
  }

  /** As written, the space-separated timezone layout reads "+07:00" as literal text:
      any other offset fails every layout, and "+07:00" itself is dropped, giving UTC. */
  lemma AsWrittenDropsOffset(d: string, c: string, z: string)
    requires DateText(d) && DayFits(d) && ClockText(c) && OffsetText(z)
    ensures SetTimeAsWritten(d + [' '] + c + z) == if z == PlusSeven then Some(LocalStamp(d, c, UTC)) else None
  {
    var v := d + [' '] + c + z;
    FixKeepsSpacedOffset(d, c, z);
    SpacedOffsetFailsEarly(d, c, z);
    FirstParseSkips(TimeFormatsAsWritten, 10, v);
    ParsesSpacedLiteral(d, c, z, PlusSeven);
    assert TimeFormatsAsWritten[10..] == [DateClock(' ', Literal(PlusSeven))];
  }

  /** "2025-07-04 17:12:32+05:00" is not a time to the setter as written. */
  lemma AsWrittenRejectsExample()
    ensures SetTimeAsWritten("2025-07-04 17:12:32+05:00").None?
  {
    var d, c, z := "2025-07-04", "17:12:32", "+05:00";
    assert DateText(d) && DayFits(d) && ClockText(c) && OffsetText(z);
    assert d + [' '] + c + z == "2025-07-04 17:12:32+05:00";
    AsWrittenDropsOffset(d, c, z);
  }

  /** With the offset read as an offset, the same text keeps its zone. */
  lemma SetTimeKeepsOffset(d: string, c: string, z: string)
    requires DateText(d) && DayFits(d) && ClockText(c) && OffsetText(z)
    ensures SetTimeCorrected(d + [' '] + c + z) == Some(LocalStamp(d, c, OffsetZone(z)))
  {
    var v := d + [' '] + c + z;
    FixKeepsSpacedOffset(d, c, z);
    SpacedOffsetFailsEarly(d, c, z);
    FirstParseSkips(CorrectedTimeFormats, 10, v);
    ParsesSpacedOffset(d, c, z);
    assert CorrectedTimeFormats[10..] == [DateClock(' ', [NumOffset])];
  }

  // ---------------------------------------------------------------------------
  // The shapes the setter is meant to accept

  /** One layout that parses the repaired text is enough for the setter to succeed. */
  lemma SetTimeAccepts(value: string, i: nat)
    requires i < |TimeFormatsAsWritten| && Parse(TimeFormatsAsWritten[i], FixTimezoneOffset(value)).Some?
    ensures SetTimeAsWritten(value).Some?
  {
  }

  /** Text whose sixth-last character is not whitespace is not repaired. */
  lemma FixKeeps(v: string)
    requires |v| >= 6 && !IsRegexSpace(v[|v| - 6])
    ensures FixTimezoneOffset(v) == v
  {
  }

  /** "17:12:32" */
  lemma SetterAcceptsClock(c: string)
    requires ClockText(c)
    ensures SetTimeAsWritten(c).Some?
  {
    FixKeeps(c);
    ParsesTimeOnly(c);
    SetTimeAccepts(c, 2);
  }

  /** "2025-07-04" */
  lemma SetterAcceptsDate(d: string)
    requires DateText(d) && DayFits(d)
    ensures SetTimeAsWritten(d).Some?
  {
    FixKeeps(d);
    ParsesDateOnly(d);
    SetTimeAccepts(d, 1);
  }

  /** "2025-07-04T17:12:32" with no fraction or with 3, 6 or 9 digits of it. */
  lemma SetterAcceptsLocalDateTime(d: string, c: string, fr: string)
    requires DateText(d) && DayFits(d) && ClockText(c) && FracText(fr)
    ensures SetTimeAsWritten(d + ['T'] + c + fr).Some?
  {
    var v := d + ['T'] + c + fr;
    DateClockNoSpace(d, c, fr, []);
    assert v + [] == v;
    FixKeeps(v);
    ParsesDateClock('T', d, c, fr);
    SetTimeAccepts(v, 6);
  }

  /** "2025-07-04 17:12:32" */
  lemma SetterAcceptsSpacedDateTime(d: string, c: string)
    requires DateText(d) && DayFits(d) && ClockText(c)
    ensures SetTimeAsWritten(d + [' '] + c).Some?
  {
    var v := d + [' '] + c;
    assert v[|v| - 6] == c[2];
    FixKeeps(v);
    assert d + [' '] + c + [] == v;
    ParsesDateClock(' ', d, c, []);
    SetTimeAccepts(v, 0);
  }

  /** "2025-07-04T17:12:32Z" and "2025-07-04T17:12:32.123+07:00" */
  lemma SetterAcceptsZoned(d: string, c: string, fr: string, z: string)
    requires DateText(d) && DayFits(d) && ClockText(c) && FracText(fr) && (z == "Z" || OffsetText(z))
    ensures SetTimeAsWritten(d + ['T'] + c + fr + z).Some?
  {
    var v := d + ['T'] + c + fr + z;
    assert NoRegexSpace(z);
    DateClockNoSpace(d, c, fr, z);
    FixKeeps(v);
    assert v == d + ['T'] + c + (fr + z);
    ParsesRFC3339(d, c, fr, z);
    SetTimeAccepts(v, 3);
  }

  /** The repair puts back the `+` that URL decoding turned into a space. */
  lemma FixSpacedOffset(t: string, o: string)
    requires IsStamp(t) && IsClock(o)
    ensures FixTimezoneOffset(t + [' '] + o) == t + "+" + o
  {
    FixAddsPlus([], t, ' ', o);
    assert [] + t + [' '] + o == t + [' '] + o;
    assert [] + t + "+" + o == t + "+" + o;
  }

  /** "2025-07-04T17:12:32 07:00": the offset whose `+` became a space is repaired. */
  lemma SetterAcceptsSpacedOffset(d: string, c: string, fr: string, o: string)
    requires DateText(d) && DayFits(d) && ClockText(c) && FracText(fr)
    requires IsClock(o) && TwoDigits(o, 0) <= 24 && TwoDigits(o, 3) <= 60
    ensures SetTimeAsWritten(d + ['T'] + c + fr + [' '] + o).Some?
  {
    DateClockIsStamp(d, c, fr);
    PlusOffset(o);
    Regroup(d + ['T'] + c, fr, "+", o);
    ParsesRFC3339(d, c, fr, "+" + o);
    SetterRepairs(d + ['T'] + c + fr, o, 3);
  }

  /** The repaired text is tried against every layout: one that reads it suffices. */
  lemma SetterRepairs(t: string, o: string, i: nat)
    requires IsStamp(t) && IsClock(o)
    requires i < |TimeFormatsAsWritten| && Parse(TimeFormatsAsWritten[i], t + "+" + o).Some?
    ensures SetTimeAsWritten(t + [' '] + o).Some?
  {
    FixSpacedOffset(t, o);
    SetTimeAccepts(t + [' '] + o, i);
  }
}
