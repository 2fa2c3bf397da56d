/**
 * Wall-clock "HH:MM" times of the night and the cross-midnight
 * normalisation that makes them sort in order: a time before noon belongs
 * to the early morning after the evening, so it is shifted by one day
 * (1440 minutes). `FormatMin` folds a normalised value back into a
 * zero-padded "HH:MM".
 */
module Clock {
  import opened Wrappers
  import opened Strings

  const MinutesPerDay: nat := 24 * 60
  const NoonHour: nat := 12

  datatype HourMinute = HourMinute(hour: nat, minute: nat)

  /** `s.split(':')[0]`: everything before the first colon. */
  function FirstField(s: string): (f: string)
    ensures |f| <= |s| && f == s[..|f|]
    ensures ':' !in f
    ensures |f| < |s| ==> s[|f|] == ':'
    decreases |s|
  {
    if s == [] || s[0] == ':' then [] else [s[0]] + FirstField(s[1..])
  }

  /**
   * `Number(field)` for the fields a time is made of: the empty field reads
   * as 0, a run of decimal digits as its value; anything else is `None`
   * (JavaScript gives NaN, or a value this model does not cover).
   */
  function FieldNumber(f: string): (r: Option<nat>)
    ensures f == [] ==> r == Some(0)
    ensures r.Some? <==> AllDigits(f)
    ensures r.Some? && |f| <= 2 ==> r.value < 100
  {
    if AllDigits(f) then
      if |f| == 2 then TwoDigitsValue(f); Some(DigitsValue(f))
      else if |f| == 1 then assert f[..0] == [] && DigitsValue(f) == DigitsValue(f[..0]) * 10 + DigitValue(f[0]); Some(DigitsValue(f))
      else Some(DigitsValue(f))
    else None
  }

  /**
   * `const [h, m] = t.split(':').map(Number)`: the first two colon-separated
   * fields; a third field (seconds) is ignored. Without a colon there is no
   * minute field and the result is `None`.
   */
  function ParseTime(t: string): (r: Option<HourMinute>)
    ensures ':' !in t ==> r.None?
    ensures r.Some? ==> AllDigits(FirstField(t)) && r.value.hour == DigitsValue(FirstField(t))
  {
    var hf := FirstField(t);
    if |hf| == |t| then None
    else
      var mf := FirstField(t[|hf| + 1..]);
      match (FieldNumber(hf), FieldNumber(mf))
      case (Some(h), Some(m)) => Some(HourMinute(h, m))
      case _ => None
  }

  /** `h < 12 ? h * 60 + m + 24 * 60 : h * 60 + m`. */
  function Normalize(t: HourMinute): (r: nat)
    ensures r >= NoonHour * 60
    ensures t.hour < NoonHour ==> r >= MinutesPerDay
    ensures t.minute < 60 ==> r % 60 == t.minute
  {
    if t.hour < NoonHour then t.hour * 60 + t.minute + MinutesPerDay else t.hour * 60 + t.minute
  }

  function NormalizeTime(t: string): nat
    requires ParseTime(t).Some?
  {
    Normalize(ParseTime(t).value)
  }

  /** `formatMin`: subtract one day once if the value reaches a day, then "HH:MM" zero-padded. */
  function FormatMin(m: nat): (r: string)
    ensures |r| >= 5
    ensures m < 2 * MinutesPerDay ==> IsClockString(r)
  {
    var folded := if m >= MinutesPerDay then m - MinutesPerDay else m;
    if folded < MinutesPerDay then
      ClockTextIsClockString(folded / 60, folded % 60);
      ClockText(folded / 60, folded % 60)
    else
      Pad2(folded / 60) + ":" + Pad2(folded % 60)
  }

  /** "HH:MM" with two digits each, hour 00-23 and minute 00-59. */
  predicate IsClockString(t: string) {
    && |t| == 5 && t[2] == ':'
    && IsDigit(t[0]) && IsDigit(t[1]) && IsDigit(t[3]) && IsDigit(t[4])
    && DigitValue(t[0]) * 10 + DigitValue(t[1]) <= 23
    && DigitValue(t[3]) * 10 + DigitValue(t[4]) <= 59
  }

  function ClockHour(t: string): nat
    requires IsClockString(t)
  {
    DigitValue(t[0]) * 10 + DigitValue(t[1])
  }

  function ClockMinute(t: string): nat
    requires IsClockString(t)
  {
    DigitValue(t[3]) * 10 + DigitValue(t[4])
  }

  /** The zero-padded text of an hour and a minute, as the source's template literals build it. */
  function ClockText(h: nat, m: nat): (r: string)
    ensures h < 100 && m < 100 ==> r == [DigitChar(h / 10), DigitChar(h % 10), ':', DigitChar(m / 10), DigitChar(m % 10)]
  {
    if h < 100 && m < 100 then
      Pad2Small(h);
      Pad2Small(m);
      Pad2(h) + ":" + Pad2(m)
    else
      Pad2(h) + ":" + Pad2(m)
  }

  lemma TwoDigitsValue(s: string)
    requires |s| == 2 && AllDigits(s)
    ensures DigitsValue(s) == DigitValue(s[0]) * 10 + DigitValue(s[1])
  {
    var first := s[..1];
    assert first[..0] == [] && first[0] == s[0];
    assert DigitsValue(first) == DigitValue(s[0]);
    assert s[..|s| - 1] == first;
  }

  /** Every valid hour and minute has a clock string, and that string reads back as them. */
  lemma ClockTextIsClockString(h: nat, m: nat)
    requires h <= 23 && m <= 59
    ensures IsClockString(ClockText(h, m))
    ensures ClockHour(ClockText(h, m)) == h && ClockMinute(ClockText(h, m)) == m
  {
    Pad2Small(h);
    Pad2Small(m);
  }

  /** A clock string is the text of its own hour and minute. */
  lemma ClockStringIsClockText(t: string)
    requires IsClockString(t)
    ensures t == ClockText(ClockHour(t), ClockMinute(t))
  {
    var h, m := ClockHour(t), ClockMinute(t);
    Pad2Small(h);
    Pad2Small(m);
    assert h / 10 == DigitValue(t[0]) && h % 10 == DigitValue(t[1]);
    assert m / 10 == DigitValue(t[3]) && m % 10 == DigitValue(t[4]);
    assert DigitChar(DigitValue(t[0])) == t[0];
    assert DigitChar(DigitValue(t[1])) == t[1];
    assert DigitChar(DigitValue(t[3])) == t[3];
    assert DigitChar(DigitValue(t[4])) == t[4];
  }

  /** A clock string parses into its hour and minute. */
  lemma ParseClockString(t: string)
    requires IsClockString(t)
    ensures ParseTime(t) == Some(HourMinute(ClockHour(t), ClockMinute(t)))
  {
    assert FirstField(t[2..]) == [];
    assert FirstField(t[1..]) == [t[1]] + FirstField(t[2..]);
    assert FirstField(t) == t[..2];
    var rest := t[3..];
    assert FirstField(rest[2..]) == [];
    assert FirstField(rest[1..]) == [rest[1]] + FirstField(rest[2..]);
    assert FirstField(rest) == rest;
    TwoDigitsValue(t[..2]);
    TwoDigitsValue(rest);
  }

  /** A "HH:MM:SS" value from the database reads as its "HH:MM" part: the seconds are lost. */
  lemma ParseDropsSeconds(t: string, seconds: string)
    requires IsClockString(t)
    ensures ParseTime(t + ":" + seconds) == ParseTime(t)
  {
    var u := t + ":" + seconds;
    assert FirstField(u[2..]) == [];
    assert FirstField(u[1..]) == [u[1]] + FirstField(u[2..]);
    assert FirstField(u) == t[..2];
    var rest := u[3..];
    assert FirstField(rest[2..]) == [];
    assert FirstField(rest[1..]) == [rest[1]] + FirstField(rest[2..]);
    assert FirstField(rest) == rest[..2] == t[3..];
    ParseClockString(t);
    TwoDigitsValue(t[..2]);
    TwoDigitsValue(t[3..]);
  }

  /** Normalised clock strings lie in 12:00 (720) .. 11:59 of the next morning (2159). */
  lemma NormalizeRange(t: string)
    requires IsClockString(t)
    ensures ParseTime(t).Some? && 720 <= NormalizeTime(t) <= 2159
    ensures ClockHour(t) < NoonHour ==> NormalizeTime(t) == ClockHour(t) * 60 + ClockMinute(t) + MinutesPerDay
    ensures ClockHour(t) >= NoonHour ==> NormalizeTime(t) == ClockHour(t) * 60 + ClockMinute(t)
  {
    ParseClockString(t);
  }

  /** Round trip: formatting the normalised value of a clock string gives that string back. */
  lemma FormatNormalizeRoundTrip(t: string)
    requires IsClockString(t)
    ensures ParseTime(t).Some? && FormatMin(NormalizeTime(t)) == t
  {
    ParseClockString(t);
    var h, m := ClockHour(t), ClockMinute(t);
    var folded := h * 60 + m;
    assert folded / 60 == h && folded % 60 == m;
    assert FormatMin(NormalizeTime(t)) == ClockText(h, m);
    ClockStringIsClockText(t);
  }

  /**
   * The other direction: every value of the normalised range 720..2159
   * formats to a clock string (hour 00-23) that normalises back to it.
   */
  lemma NormalizeFormatRoundTrip(v: nat)
    requires 720 <= v <= 2159
    ensures IsClockString(FormatMin(v))
    ensures ParseTime(FormatMin(v)).Some? && NormalizeTime(FormatMin(v)) == v
  {
    var folded := if v >= MinutesPerDay then v - MinutesPerDay else v;
    var h, m := folded / 60, folded % 60;
    assert h <= 23 && m <= 59;
    ClockTextIsClockString(h, m);
    ParseClockString(FormatMin(v));
  }

  /** Concrete values: 23:00 is 1380, 01:00 is 1500, 00:00 is 1440, 11:59 is 2159, 12:00 is 720. */
  lemma NormalizeExamples()
    ensures ParseTime("23:00").Some? && NormalizeTime("23:00") == 1380
    ensures ParseTime("01:00").Some? && NormalizeTime("01:00") == 1500
    ensures ParseTime("00:00").Some? && NormalizeTime("00:00") == 1440
    ensures ParseTime("11:59").Some? && NormalizeTime("11:59") == 2159
    ensures ParseTime("12:00").Some? && NormalizeTime("12:00") == 720
  {
    NormalizeClockExample("23:00", 23, 0);
    NormalizeClockExample("01:00", 1, 0);
    NormalizeClockExample("00:00", 0, 0);
    NormalizeClockExample("11:59", 11, 59);
    NormalizeClockExample("12:00", 12, 0);
  }

  lemma NormalizeClockExample(t: string, h: nat, m: nat)
    requires |t| == 5 && t[2] == ':' && h <= 23 && m <= 59
    requires t[0] == DigitChar(h / 10) && t[1] == DigitChar(h % 10)
    requires t[3] == DigitChar(m / 10) && t[4] == DigitChar(m % 10)
    ensures ParseTime(t).Some? && NormalizeTime(t) == Normalize(HourMinute(h, m))
  {
    assert IsClockString(t) && ClockHour(t) == h && ClockMinute(t) == m;
    ParseClockString(t);
  }

  /**
   * Evening times sort before early-morning times, and two clock times that
   * straddle midnight 30 minutes apart normalise 30 minutes apart.
   */
  lemma NormalizeCrossesMidnight(evening: string, morning: string)
    requires IsClockString(evening) && IsClockString(morning)
    requires ClockHour(evening) >= NoonHour && ClockHour(morning) < NoonHour
    ensures ParseTime(evening).Some? && ParseTime(morning).Some?
    ensures NormalizeTime(evening) < NormalizeTime(morning)
    ensures NormalizeTime(morning) - NormalizeTime(evening)
         == ClockHour(morning) * 60 + ClockMinute(morning) + MinutesPerDay
          - (ClockHour(evening) * 60 + ClockMinute(evening))
  {
    NormalizeRange(evening);
    NormalizeRange(morning);
  }
}
