/**
  Wall-clock times as minute offsets from local midnight, their 24-hour
  "HH:MM" rendering (the app's `toHHMM`) and the reading of the "HH:MM"
  strings of the weekly template.
 */
module Clock {
  import opened Common

  const MinutesPerHour: nat := 60
  const HoursPerDay: nat := 24
  const MinutesPerDay: nat := MinutesPerHour * HoursPerDay

  predicate IsDigit(c: char) {
    '0' <= c <= '9'
  }

  function DigitChar(n: nat): (c: char)
    requires n < 10
    ensures IsDigit(c)
    ensures DigitValue(c) == n
  {
    "0123456789"[n]
  }

  function DigitValue(c: char): nat
    requires IsDigit(c)
  {
    (c as int) - ('0' as int)
  }

  /** `String(n).padStart(2, "0")` for a number below 100. */
  function Pad2(n: nat): (r: string)
    requires n < 100
    ensures |r| == 2 && IsDigit(r[0]) && IsDigit(r[1])
    ensures DigitValue(r[0]) * 10 + DigitValue(r[1]) == n
  {
    [DigitChar(n / 10), DigitChar(n % 10)]
  }

  /** A string of the form "DD:DD". */
  predicate WellFormed(s: string) {
    && |s| == 5
    && IsDigit(s[0]) && IsDigit(s[1])
    && s[2] == ':'
    && IsDigit(s[3]) && IsDigit(s[4])
  }

  /** The hour field of a well-formed "DD:DD" string. */
  function HourField(s: string): nat
    requires WellFormed(s)
  {
    DigitValue(s[0]) * 10 + DigitValue(s[1])
  }

  /** The minute field of a well-formed "DD:DD" string. */
  function MinuteField(s: string): nat
    requires WellFormed(s)
  {
    DigitValue(s[3]) * 10 + DigitValue(s[4])
  }

  /**
    The 24-hour reading of a minute offset from local midnight. An offset at
    or past midnight of the next day reads as that day's time, as a `Date`
    that steps past midnight does.
   */
  function ToHHMM(m: nat): (r: string)
    ensures WellFormed(r)
    ensures HourField(r) == (m / MinutesPerHour) % HoursPerDay
    ensures MinuteField(r) == m % MinutesPerHour
  {
    Pad2((m / MinutesPerHour) % HoursPerDay) + ":" + Pad2(m % MinutesPerHour)
  }

  /**
    The template's `rule.start.split(":").map(Number)` followed by
    `setHours(h, m)`: the offset is `h * 60 + m`, also when the fields are
    out of range (`setHours` rolls them over). Only the two-digit form is
    read; any other string reads as no time at all.
   */
  function ParseClock(s: string): (r: Option<nat>)
    ensures r.Some? <==> WellFormed(s)
  {
    if WellFormed(s) then Some(HourField(s) * MinutesPerHour + MinuteField(s)) else None
  }

  /** Reading back a rendered time gives the same offset within one day. */
  lemma ParseToHHMM(m: nat)
    requires m < MinutesPerDay
    ensures ParseClock(ToHHMM(m)) == Some(m)
  {
  }

  /** Rendering a parsed in-range time gives back the same string. */
  lemma ToHHMMOfParse(s: string)
    requires WellFormed(s)
    requires HourField(s) < HoursPerDay && MinuteField(s) < MinutesPerHour
    ensures ParseClock(s).Some?
    ensures ToHHMM(ParseClock(s).value) == s
  {
    var m := ParseClock(s).value;
    DivModOf(HourField(s), MinuteField(s), MinutesPerHour);
    var r := ToHHMM(m);
    assert HourField(r) == HourField(s) && MinuteField(r) == MinuteField(s);
    DigitsDetermineString(r, s);
  }

  /** Euclidean division recovers quotient and remainder. */
  lemma DivModOf(q: nat, r: nat, d: nat)
    requires r < d
    ensures (q * d + r) / d == q
    ensures (q * d + r) % d == r
  {
    var x := q * d + r;
    var q', r' := x / d, x % d;
    assert q' * d + r' == q * d + r;
    assert (q' - q) * d == r - r';
    if q' > q {
      MulAtLeast(q' - q, d);
    } else if q' < q {
      MulAtLeast(q - q', d);
    }
  }

  lemma MulAtLeast(a: int, d: nat)
    requires a >= 1
    ensures a * d >= d
  {
  }

  /** Two well-formed strings with equal fields are equal. */
  lemma DigitsDetermineString(a: string, b: string)
    requires WellFormed(a) && WellFormed(b)
    requires HourField(a) == HourField(b) && MinuteField(a) == MinuteField(b)
    ensures a == b
  {
  }

  /** Different times of one day render differently. */
  lemma ToHHMMInjective(a: nat, b: nat)
    requires a < MinutesPerDay && b < MinutesPerDay
    requires ToHHMM(a) == ToHHMM(b)
    ensures a == b
  {
    ParseToHHMM(a);
    ParseToHHMM(b);
  }

  /** An offset one day later renders as the same wall-clock time. */
  lemma ToHHMMNextDay(m: nat)
    ensures ToHHMM(m + MinutesPerDay) == ToHHMM(m)
  {
    var h, mm := m / MinutesPerHour, m % MinutesPerHour;
    assert m == h * MinutesPerHour + mm;
    assert m + MinutesPerDay == (h + HoursPerDay) * MinutesPerHour + mm;
    DivModOf(h + HoursPerDay, mm, MinutesPerHour);
    assert (h + HoursPerDay) % HoursPerDay == h % HoursPerDay by {
      DivModOf(h / HoursPerDay, h % HoursPerDay, HoursPerDay);
      DivModOf(h / HoursPerDay + 1, h % HoursPerDay, HoursPerDay);
      assert h == (h / HoursPerDay) * HoursPerDay + h % HoursPerDay;
      assert h + HoursPerDay == (h / HoursPerDay + 1) * HoursPerDay + h % HoursPerDay;
    }
  }
}
