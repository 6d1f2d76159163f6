/**
 * Time formatting and conversion helpers of the Pomodoro timer, on whole
 * numbers of seconds and minutes, and the display names of session types.
 */
module TimerUtils {
  import opened Text

  /** `Math.floor(a / 60)`: Dafny's division by a positive divisor already rounds down. */
  function FloorDiv60(a: int): int {
    a / 60
  }

  /** JavaScript's `a % 60`: the remainder takes the sign of the dividend. */
  function JsRem60(a: int): (r: int)
    ensures a >= 0 ==> 0 <= r < 60
    ensures a < 0 ==> -60 < r <= 0
    ensures FloorDiv60(a) * 60 + (if r < 0 then r + 60 else r) == a
  {
    if a >= 0 then a % 60 else -((-a) % 60)
  }

  /** Two characters at least, left-padded with '0'. */
  function TwoDigits(n: int): string {
    PadStart(IntToString(n), 2, '0')
  }

  /** `formatTime(seconds)`: `mm:ss`. */
  function FormatTime(seconds: int): string {
    TwoDigits(FloorDiv60(seconds)) + ":" + TwoDigits(JsRem60(seconds))
  }

  /** A number below 100 is written as exactly two digits that read back as it. */
  lemma TwoDigitsOfSmall(n: int)
    requires 0 <= n < 100
    ensures |TwoDigits(n)| == 2
    ensures IsDigit(TwoDigits(n)[0]) && IsDigit(TwoDigits(n)[1])
    ensures DecimalValue(TwoDigits(n)) == n
  {
    var digits := NatToString(n);
    NatToStringRoundTrip(n);
    if n < 10 {
      assert TwoDigits(n) == ['0'] + digits;
      LeadingZero(digits);
    } else {
      assert TwoDigits(n) == digits;
    }
  }

  lemma MinutesAndSeconds(seconds: int)
    requires 0 <= seconds < 6000
    ensures 0 <= FloorDiv60(seconds) < 100 && 0 <= JsRem60(seconds) < 60
    ensures FloorDiv60(seconds) * 60 + JsRem60(seconds) == seconds
  {
  }

  /** `a:b` for two two-digit fields. */
  lemma ClockShape(a: string, b: string)
    requires |a| == 2 && |b| == 2 && IsDigit(a[0]) && IsDigit(a[1]) && IsDigit(b[0]) && IsDigit(b[1])
    ensures var r := a + ":" + b;
      && |r| == 5 && r[2] == ':'
      && (forall i :: 0 <= i < 5 && i != 2 ==> IsDigit(r[i]))
      && r[..2] == a && r[3..] == b
  {
    var r := a + ":" + b;
    assert r[..2] == a;
    assert r[3..] == b;
  }

  /**
   * Below 100 minutes, `formatTime` gives five characters `mm:ss`: two
   * digits, a colon, two digits.
   */
  lemma FormatTimeLayout(seconds: int)
    requires 0 <= seconds < 6000
    ensures var r := FormatTime(seconds);
      && |r| == 5 && r[2] == ':'
      && (forall i :: 0 <= i < 5 && i != 2 ==> IsDigit(r[i]))
      && r[..2] == TwoDigits(FloorDiv60(seconds)) && r[3..] == TwoDigits(JsRem60(seconds))
  {
    MinutesAndSeconds(seconds);
    TwoDigitsOfSmall(FloorDiv60(seconds));
    TwoDigitsOfSmall(JsRem60(seconds));
    ClockShape(TwoDigits(FloorDiv60(seconds)), TwoDigits(JsRem60(seconds)));
  }

  /** The two fields of `mm:ss` read back as the minutes and the seconds (below 60) of the input. */
  lemma FormatTimeValue(seconds: int)
    requires 0 <= seconds < 6000
    ensures var r := FormatTime(seconds);
      && |r| == 5 && r[2] == ':' && AllDigits(r[..2]) && AllDigits(r[3..])
      && DecimalValue(r[..2]) * 60 + DecimalValue(r[3..]) == seconds
      && DecimalValue(r[3..]) < 60
  {
    var mm, ss := FloorDiv60(seconds), JsRem60(seconds);
    MinutesAndSeconds(seconds);
    FormatTimeLayout(seconds);
    TwoDigitsOfSmall(mm);
    TwoDigitsOfSmall(ss);
    var r := FormatTime(seconds);
    assert AllDigits(r[..2]) && AllDigits(r[3..]);
    assert DecimalValue(r[..2]) == mm;
    assert DecimalValue(r[3..]) == ss;
  }

  /** The examples the helpers are documented with. */
  lemma FormatTimeExamples()
    ensures FormatTime(0) == "00:00"
    ensures FormatTime(59) == "00:59"
    ensures FormatTime(60) == "01:00"
    ensures FormatTime(65) == "01:05"
    ensures FormatTime(3600) == "60:00"
  {
    assert TwoDigits(0) == "00" && TwoDigits(1) == "01" && TwoDigits(5) == "05";
    assert TwoDigits(59) == "59" by {
      assert NatToString(59) == NatToString(5) + [DigitChar(9)];
    }
    assert TwoDigits(60) == "60" by {
      assert NatToString(60) == NatToString(6) + [DigitChar(0)];
    }
  }

  /** `secondsToMinutes(seconds)`: `Math.ceil(seconds / 60)`. */
  function SecondsToMinutes(seconds: int): (m: int)
    ensures 60 * (m - 1) < seconds <= 60 * m
  {
    -((-seconds) / 60)
  }

  /** `minutesToSeconds(minutes)` */
  function MinutesToSeconds(minutes: int): int {
    minutes * 60
  }

  lemma ConversionExamples()
    ensures SecondsToMinutes(60) == 1 && SecondsToMinutes(90) == 2 && SecondsToMinutes(0) == 0
    ensures MinutesToSeconds(1) == 60 && MinutesToSeconds(0) == 0
  {
  }

  /** Rounding up to whole minutes and back adds less than a minute. */
  lemma MinutesRoundTrip(seconds: int)
    ensures seconds <= MinutesToSeconds(SecondsToMinutes(seconds)) < seconds + 60
  {
  }

  /** Whole minutes survive the trip through seconds. */
  lemma SecondsRoundTrip(minutes: int)
    ensures SecondsToMinutes(MinutesToSeconds(minutes)) == minutes
  {
  }

  /** `validateDuration(value, min, max)` for a whole-number value. */
  function ValidateDuration(value: int, min: int, max: int): (r: int)
    ensures min <= max ==> min <= r <= max
    ensures min <= value <= max ==> r == value
  {
    if value < min then min else if value > max then max else value
  }

  /** Clamping twice is clamping once; the documented examples hold. */
  lemma ValidateDurationIdempotent(value: int, min: int, max: int)
    requires min <= max
    ensures ValidateDuration(ValidateDuration(value, min, max), min, max) == ValidateDuration(value, min, max)
    ensures value < min ==> ValidateDuration(value, min, max) == min
    ensures value > max ==> ValidateDuration(value, min, max) == max
  {
  }

  lemma ValidateDurationExamples()
    ensures ValidateDuration(10, 5, 20) == 10 && ValidateDuration(1, 5, 20) == 5 && ValidateDuration(100, 5, 20) == 20
  {
  }

  /** The Tailwind text colour of a session type name; unknown names get the neutral colour. */
  function SessionColor(sessionType: string): string {
    if sessionType == "work" then "text-primary-600"
    else if sessionType == "shortBreak" then "text-accent-600"
    else if sessionType == "longBreak" then "text-secondary-600"
    else "text-text-50"
  }

  /** The label of a session type name; unknown names get the empty label. */
  function SessionLabel(sessionType: string): string {
    if sessionType == "work" then "Work"
    else if sessionType == "shortBreak" then "Short Break"
    else if sessionType == "longBreak" then "Long Break"
    else ""
  }

  predicate KnownSession(sessionType: string) {
    sessionType == "work" || sessionType == "shortBreak" || sessionType == "longBreak"
  }

  /**
   * Each of the three session types has its own non-empty label and its own
   * colour; any other name gets the empty label and the neutral colour.
   */
  lemma SessionNamesDistinct(a: string, b: string)
    ensures KnownSession(a) <==> SessionLabel(a) != ""
    ensures !KnownSession(a) ==> SessionColor(a) == "text-text-50"
    ensures KnownSession(a) && KnownSession(b) && a != b ==> SessionLabel(a) != SessionLabel(b) && SessionColor(a) != SessionColor(b)
  {
  }
}
