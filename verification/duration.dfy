/**
 * The duration calculator: two "HH:MM" time-of-day strings to fractional
 * hours. The app carries four copies of this rule that compute the same
 * thing (the service, both page components and the form, whose copy reads
 * its own state instead of taking arguments); the model defines it once
 * and every caller uses this definition.
 */
module Duration {
  import opened Types

  predicate IsDigit(c: char)
  {
    '0' <= c <= '9'
  }

  function DigitValue(c: char): (d: nat)
    requires IsDigit(c)
    ensures d < 10
  {
    c as int - '0' as int
  }

  function DigitChar(d: nat): (c: char)
    requires d < 10
    ensures IsDigit(c) && DigitValue(c) == d
  {
    ('0' as int + d) as char
  }

  /** The value a browser time input produces: two-digit hours, ':', two-digit minutes. */
  predicate IsClockText(t: string)
  {
    && |t| == 5
    && IsDigit(t[0]) && IsDigit(t[1])
    && t[2] == ':'
    && IsDigit(t[3]) && IsDigit(t[4])
  }

  /** A time field of the form is either still empty or holds a clock reading. */
  predicate TimeField(t: string)
  {
    t == "" || IsClockText(t)
  }

  /** The number before the colon. */
  function Hour(t: string): (h: nat)
    requires IsClockText(t)
    ensures h < 100
  {
    10 * DigitValue(t[0]) + DigitValue(t[1])
  }

  /** The number after the colon. */
  function Minute(t: string): (m: nat)
    requires IsClockText(t)
    ensures m < 100
  {
    10 * DigitValue(t[3]) + DigitValue(t[4])
  }

  /** Minutes since midnight, computed as the source does: hours * 60 + minutes. */
  function MinutesOf(t: string): (m: nat)
    requires IsClockText(t)
    ensures m <= 99 * 60 + 99
    ensures Minute(t) < 60 ==> m / 60 == Hour(t) && m % 60 == Minute(t)
  {
    Hour(t) * 60 + Minute(t)
  }

  /** Writes an hour and a minute below 100 in the time input's format. */
  function ClockText(h: nat, m: nat): (t: string)
    requires h < 100 && m < 100
    ensures IsClockText(t)
    ensures Hour(t) == h && Minute(t) == m
  {
    [DigitChar(h / 10), DigitChar(h % 10), ':', DigitChar(m / 10), DigitChar(m % 10)]
  }

  /** Every clock text is the writing of its own hour and minute. */
  lemma ClockTextRoundTrip(t: string)
    requires IsClockText(t)
    ensures ClockText(Hour(t), Minute(t)) == t
  {
  }

  /**
   * calculateDuration: 0 when either field is empty or the end is not after
   * the start (overnight ranges collapse to 0); otherwise the minute
   * difference over 60, exactly.
   */
  function CalculateDuration(heureDebut: string, heureFin: string): (r: real)
    requires TimeField(heureDebut) && TimeField(heureFin)
    ensures r >= 0.0
    ensures heureDebut == "" || heureFin == "" ==> r == 0.0
    ensures r > 0.0 <==> heureDebut != "" && heureFin != "" && MinutesOf(heureDebut) < MinutesOf(heureFin)
    ensures r > 0.0 ==> r * 60.0 == (MinutesOf(heureFin) - MinutesOf(heureDebut)) as real
  {
    if heureDebut == "" || heureFin == "" then 0.0
    else
      var startMinutes := Hour(heureDebut) * 60 + Minute(heureDebut);
      var endMinutes := Hour(heureFin) * 60 + Minute(heureFin);
      if endMinutes <= startMinutes then 0.0
      else (endMinutes - startMinutes) as real / 60.0
  }

  /** The duration between two written clock readings, in terms of the numbers written. */
  lemma DurationOfClockTexts(h1: nat, m1: nat, h2: nat, m2: nat)
    requires h1 < 100 && m1 < 100 && h2 < 100 && m2 < 100
    ensures var start, end := h1 * 60 + m1, h2 * 60 + m2;
      CalculateDuration(ClockText(h1, m1), ClockText(h2, m2))
        == if end <= start then 0.0 else (end - start) as real / 60.0
  {
  }

  /** 08:00 to 09:30 is one and a half hours; 10:00 to 09:00 and an empty start give 0. */
  lemma DurationExamples()
    ensures CalculateDuration("08:00", "09:30") == 1.5
    ensures CalculateDuration("10:00", "09:00") == 0.0
    ensures CalculateDuration("", "09:00") == 0.0
  {
  }

  /** Consecutive sessions add up: the duration is additive over a split point. */
  lemma DurationAdditive(a: string, b: string, c: string)
    requires IsClockText(a) && IsClockText(b) && IsClockText(c)
    requires MinutesOf(a) <= MinutesOf(b) <= MinutesOf(c)
    ensures CalculateDuration(a, c) == CalculateDuration(a, b) + CalculateDuration(b, c)
  {
  }
}
