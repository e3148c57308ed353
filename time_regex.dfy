/**
 * The pieces of the two timezone-repair patterns (time_parser.go and time_setter.go):
 * Go's regexp `\d` is an ASCII digit and `\s` is one of tab, newline, form feed,
 * carriage return and space.
 */
module TimeRegex {
  import opened Text
  import opened GoTime

  /** `\s` in Go's regexp syntax. */
  predicate IsRegexSpace(c: char)
  {
    c == '\t' || c == '\n' || c == '\U{000C}' || c == '\r' || c == ' '
  }

  predicate NoRegexSpace(s: string)
  {
    forall i | 0 <= i < |s| :: !IsRegexSpace(s[i])
  }

  /** `\d{4}-\d{2}-\d{2}T\d{2}:\d{2}:\d{2}(?:\.\d{1,9})?` matched by the whole of t. */
  predicate IsStamp(t: string)
  {
    && |t| >= 19
    && AllDigits(t[0..4]) && t[4] == '-' && AllDigits(t[5..7]) && t[7] == '-' && AllDigits(t[8..10])
    && t[10] == 'T' && AllDigits(t[11..13]) && t[13] == ':' && AllDigits(t[14..16]) && t[16] == ':'
    && AllDigits(t[17..19])
    && (|t| == 19 || (21 <= |t| <= 29 && t[19] == '.' && AllDigits(t[20..])))
  }

  /** `\d{2}:\d{2}` matched by the whole of o. */
  predicate IsClock(o: string)
  {
    |o| == 5 && IsDigit(o[0]) && IsDigit(o[1]) && o[2] == ':' && IsDigit(o[3]) && IsDigit(o[4])
  }

  predicate IsSign(c: char)
  {
    c == '+' || c == '-'
  }

  /** `[+-]?\d{2}:\d{2}` matched by the whole of o. */
  predicate IsOffset(o: string)
  {
    IsClock(o) || (|o| == 6 && IsSign(o[0]) && IsClock(o[1..]))
  }

  /** A matched date-time or offset never holds a regexp space. */
  lemma StampNoSpace(t: string)
    requires IsStamp(t)
    ensures NoRegexSpace(t)
  {
    forall i | 0 <= i < |t|
      ensures !IsRegexSpace(t[i])
    {
      if i < 4 { assert t[0..4][i] == t[i]; }
      else if 5 <= i < 7 { assert t[5..7][i - 5] == t[i]; }
      else if 8 <= i < 10 { assert t[8..10][i - 8] == t[i]; }
      else if 11 <= i < 13 { assert t[11..13][i - 11] == t[i]; }
      else if 14 <= i < 16 { assert t[14..16][i - 14] == t[i]; }
      else if 17 <= i < 19 { assert t[17..19][i - 17] == t[i]; }
      else if 20 <= i { assert t[20..][i - 20] == t[i]; }
    }
  }

  lemma ConcatNoSpace(a: string, b: string)
    requires NoRegexSpace(a) && NoRegexSpace(b)
    ensures NoRegexSpace(a + b)
  {
    forall i | 0 <= i < |a + b|
      ensures !IsRegexSpace((a + b)[i])
    {
      if i < |a| { assert (a + b)[i] == a[i]; } else { assert (a + b)[i] == b[i - |a|]; }
    }
  }

  lemma PiecesNoSpace(d: string, c: string, fr: string)
    requires DateText(d) && ClockText(c) && FracText(fr)
    ensures NoRegexSpace(d) && NoRegexSpace(c) && NoRegexSpace(fr)
  {
    forall i | 0 <= i < 4
      ensures IsDigit(d[i])
    {
      assert d[..4][i] == d[i];
    }
    if fr != [] {
      forall i | 1 <= i < |fr|
        ensures IsDigit(fr[i])
      {
        assert fr[1..][i - 1] == fr[i];
      }
    }
  }

  /** A date, `T`, a clock and a fraction make the date-time group of the repair pattern. */
  lemma DateClockIsStamp(d: string, c: string, fr: string)
    requires DateText(d) && ClockText(c) && FracText(fr)
    ensures IsStamp(d + ['T'] + c + fr)
  {
    var t := d + ['T'] + c + fr;
    assert t[0..4] == d[..4];
    assert t[5..7] == d[5..7] && AllDigits(d[5..7]);
    assert t[8..10] == d[8..10] && AllDigits(d[8..10]);
    assert t[11..13] == c[0..2] && AllDigits(c[0..2]);
    assert t[14..16] == c[3..5] && AllDigits(c[3..5]);
    assert t[17..19] == c[6..8] && AllDigits(c[6..8]);
    if fr != [] {
      assert t[19] == fr[0] && t[20..] == fr[1..];
    }
  }

  /** A `T`-separated date-time and what follows hold no whitespace when neither part does. */
  lemma DateClockNoSpace(d: string, c: string, fr: string, z: string)
    requires DateText(d) && ClockText(c) && FracText(fr) && NoRegexSpace(z)
    ensures NoRegexSpace(d + ['T'] + c + fr + z)
  {
    PiecesNoSpace(d, c, fr);
    ConcatNoSpace(d, ['T']);
    ConcatNoSpace(d + ['T'], c);
    ConcatNoSpace(d + ['T'] + c, fr);
    ConcatNoSpace(d + ['T'] + c + fr, z);
  }

  /** An unsigned hh:mm offset within range, given a `+`, is a signed offset. */
  lemma PlusOffset(o: string)
    requires IsClock(o) && TwoDigits(o, 0) <= 24 && TwoDigits(o, 3) <= 60
    ensures OffsetText("+" + o)
  {
    var z := "+" + o;
    assert TwoDigits(z, 1) == TwoDigits(o, 0) && TwoDigits(z, 4) == TwoDigits(o, 3);
  }
}
