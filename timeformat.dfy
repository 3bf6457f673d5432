/**
 * The time strings the clock and the alarm compare. Go's layout "1504" gives
 * the two-digit 24-hour hour and the two-digit minute; "15042" appends the
 * day of the month, unpadded ("2" is Go's day verb, not seconds).
 */
module TimeFormat {

  const MinutesPerDay := 1440

  type Hour = h: int | 0 <= h < 24
  type Minute = m: int | 0 <= m < 60
  type Day = d: int | 1 <= d <= 31 witness 1
  type MinuteOfDay = m: int | 0 <= m < MinutesPerDay

  /** The local wall-clock reading the coordinator works from. */
  datatype Instant = Instant(hour: Hour, minute: Minute, day: Day)

  function MinuteOf(n: Instant): MinuteOfDay
  {
    n.hour * 60 + n.minute
  }

  function Digit(d: int): (c: char)
    requires 0 <= d < 10
    ensures '0' <= c <= '9'
  {
    ('0' as int + d) as char
  }

  function DigitValue(c: char): int
  {
    c as int - '0' as int
  }

  /**
   * `Format("1504")` of a minute of the day: the zero-padded hour 00..23
   * followed by the zero-padded minute 00..59.
   */
  function Hhmm(m: MinuteOfDay): (s: string)
    ensures |s| == 4
    ensures forall k :: 0 <= k < 4 ==> '0' <= s[k] <= '9'
  {
    var h, mm := m / 60, m % 60;
    [Digit(h / 10), Digit(h % 10), Digit(mm / 10), Digit(mm % 10)]
  }

  /** The first two digits are the hour 00..23 and the last two the minute 00..59. */
  lemma HhmmFields(m: MinuteOfDay)
    ensures var s := Hhmm(m);
      10 * DigitValue(s[0]) + DigitValue(s[1]) == m / 60 < 24 &&
      10 * DigitValue(s[2]) + DigitValue(s[3]) == m % 60 < 60
  {
  }

  /** Reads an "HHMM" string back as minutes since midnight. */
  function ReadHhmm(s: string): int
    requires |s| == 4
  {
    (10 * DigitValue(s[0]) + DigitValue(s[1])) * 60 + 10 * DigitValue(s[2]) + DigitValue(s[3])
  }

  /** Reading what Hhmm wrote gives the minute back. */
  lemma HhmmRoundTrip(m: MinuteOfDay)
    ensures ReadHhmm(Hhmm(m)) == m
  {
    HhmmFields(m);
    assert m == (m / 60) * 60 + m % 60;
  }

  /** Two minutes of the day format alike exactly when they are the same minute. */
  lemma HhmmInjective(m: MinuteOfDay, n: MinuteOfDay)
    ensures Hhmm(m) == Hhmm(n) <==> m == n
  {
    HhmmRoundTrip(m);
    HhmmRoundTrip(n);
  }

  /** The "2" verb: the day of the month without padding. */
  function DayString(d: Day): (s: string)
    ensures |s| == (if d < 10 then 1 else 2)
  {
    if d < 10 then [Digit(d)] else [Digit(d / 10), Digit(d % 10)]
  }

  function ReadDay(s: string): int
  {
    if |s| == 1 then DigitValue(s[0])
    else if |s| == 2 then 10 * DigitValue(s[0]) + DigitValue(s[1])
    else 0
  }

  lemma DayStringRoundTrip(d: Day)
    ensures ReadDay(DayString(d)) == d
  {
  }

  /** `Format("15042")`: the alarm's occurrence marker. */
  function Marker(n: Instant): string
  {
    Hhmm(MinuteOf(n)) + DayString(n.day)
  }

  /** A marker's first four characters read back as the minute of the day and the rest as the day. */
  lemma MarkerDecodes(n: Instant)
    ensures |Marker(n)| > 4
    ensures ReadHhmm(Marker(n)[..4]) == MinuteOf(n) && ReadDay(Marker(n)[4..]) == n.day
  {
    var s := Marker(n);
    assert s[..4] == Hhmm(MinuteOf(n)) && s[4..] == DayString(n.day);
    HhmmRoundTrip(MinuteOf(n));
    DayStringRoundTrip(n.day);
  }

  /** Markers agree exactly when the instants share their minute of the day and their day of the month. */
  lemma MarkerInjective(n: Instant, n': Instant)
    ensures Marker(n) == Marker(n') <==> MinuteOf(n) == MinuteOf(n') && n.day == n'.day
  {
    if Marker(n) == Marker(n') {
      MarkerDecodes(n);
      MarkerDecodes(n');
    }
  }
}
