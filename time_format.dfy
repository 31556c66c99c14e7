/** The time text of the watch face: what `strftime` writes for "%H:%M"
    (24-hour display) or "%I:%M" (12-hour display) into the 6-byte static
    buffer, following section 7.27.3.5 of ISO C11: %H is the hour of a
    24-hour clock as two digits 00-23, %I the hour of a 12-hour clock as two
    digits 01-12, %M the minute as two digits 00-59. */
module TimeFormat {
  import opened Options

  /** sizeof("00:00"): the capacity of the buffer, terminating NUL included. */
  const BufferSize: nat := 6

  predicate IsDigit(c: char) {
    '0' <= c <= '9'
  }

  function DigitValue(c: char): int {
    (c as int) - ('0' as int)
  }

  /** The character of a decimal digit. */
  function DigitChar(d: int): (c: char)
    requires 0 <= d < 10
    ensures IsDigit(c) && DigitValue(c) == d
  {
    (('0' as int) + d) as char
  }

  /** A number below 100 written as exactly two decimal digits, zero-padded. */
  function TwoDigits(n: int): (s: string)
    requires 0 <= n < 100
    ensures |s| == 2 && IsDigit(s[0]) && IsDigit(s[1])
    ensures DigitValue(s[0]) * 10 + DigitValue(s[1]) == n
  {
    [DigitChar(n / 10), DigitChar(n % 10)]
  }

  /** The hour of a 12-hour clock, as %I shows it: midnight and noon are 12. */
  function Hour12(hour: int): (h: int)
    requires 0 <= hour < 24
    ensures 1 <= h <= 12
    ensures h % 12 == hour % 12
  {
    if hour % 12 == 0 then 12 else hour % 12
  }

  /** The hour as the display preference shows it. */
  function ShownHour(hour: int, is24h: bool): int
    requires 0 <= hour < 24
  {
    if is24h then hour else Hour12(hour)
  }

  /** The text update_time puts on the time layer. */
  function FormatTime(hour: int, minute: int, is24h: bool): (s: string)
    requires 0 <= hour < 24 && 0 <= minute < 60
    ensures |s| == 5 && |s| < BufferSize
    ensures s[2] == ':'
    ensures forall k :: 0 <= k < 5 && k != 2 ==> IsDigit(s[k])
    ensures DigitValue(s[0]) * 10 + DigitValue(s[1]) == ShownHour(hour, is24h)
    ensures DigitValue(s[3]) * 10 + DigitValue(s[4]) == minute
  {
    TwoDigits(ShownHour(hour, is24h)) + ":" + TwoDigits(minute)
  }

  /** Reads back a two-digit field. */
  function ParseTwoDigits(s: string): Option<int> {
    if |s| == 2 && IsDigit(s[0]) && IsDigit(s[1])
    then Some(DigitValue(s[0]) * 10 + DigitValue(s[1]))
    else None
  }

  /** Reads back an "hh:mm" text into its hour and minute fields. */
  function ParseTime(s: string): Option<(int, int)> {
    if |s| != 5 || s[2] != ':' then None
    else match (ParseTwoDigits(s[..2]), ParseTwoDigits(s[3..]))
      case (Some(h), Some(m)) => Some((h, m))
      case _ => None
  }

  /** Reading the text back gives the hour as %H or %I shows it and the minute. */
  lemma ParseFormatTime(hour: int, minute: int, is24h: bool)
    requires 0 <= hour < 24 && 0 <= minute < 60
    ensures ParseTime(FormatTime(hour, minute, is24h)) == Some((ShownHour(hour, is24h), minute))
  {
    var s := FormatTime(hour, minute, is24h);
    assert s[..2] == [s[0], s[1]];
    assert s[3..] == [s[3], s[4]];
  }

  /** In 24-hour display the text determines the time: distinct (hour, minute)
      pairs give distinct texts. */
  lemma FormatTime24Injective(h1: int, m1: int, h2: int, m2: int)
    requires 0 <= h1 < 24 && 0 <= m1 < 60 && 0 <= h2 < 24 && 0 <= m2 < 60
    ensures FormatTime(h1, m1, true) == FormatTime(h2, m2, true) <==> h1 == h2 && m1 == m2
  {
    if FormatTime(h1, m1, true) == FormatTime(h2, m2, true) {
      ParseFormatTime(h1, m1, true);
      ParseFormatTime(h2, m2, true);
    }
  }

  /** In 12-hour display two times show the same text exactly when their
      hours agree modulo 12 and their minutes agree. */
  lemma FormatTime12SameText(h1: int, m1: int, h2: int, m2: int)
    requires 0 <= h1 < 24 && 0 <= m1 < 60 && 0 <= h2 < 24 && 0 <= m2 < 60
    ensures FormatTime(h1, m1, false) == FormatTime(h2, m2, false) <==> h1 % 12 == h2 % 12 && m1 == m2
  {
    if FormatTime(h1, m1, false) == FormatTime(h2, m2, false) {
      ParseFormatTime(h1, m1, false);
      ParseFormatTime(h2, m2, false);
    }
    if h1 % 12 == h2 % 12 && m1 == m2 {
      assert Hour12(h1) == Hour12(h2);
    }
  }

  /** Sample readings: 07:00 in 24-hour display; just after midnight and
      early afternoon in 12-hour display. */
  lemma FormatTimeExamples()
    ensures FormatTime(7, 0, true) == "07:00"
    ensures FormatTime(0, 5, false) == "12:05"
    ensures FormatTime(13, 45, false) == "01:45"
  {
  }
}
