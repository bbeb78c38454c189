/** Clock times written as text: moment's `HH:mm` format and the dialog's time pattern. */
module Clock {
  import opened Text

  /** Minutes in a day. */
  const DayMinutes: int := 1440

  function Digit(n: int): char
    requires 0 <= n <= 9
  {
    ('0' as int + n) as char
  }

  /** moment's `format('HH:mm')` of a minute count, which wraps around at midnight. */
  function Format(m: int): (r: string)
    ensures |r| == 5 && r[2] == ':'
  {
    var t := m % DayMinutes;
    var h := t / 60;
    var mm := t % 60;
    [Digit(h / 10), Digit(h % 10), ':', Digit(mm / 10), Digit(mm % 10)]
  }

  /** The dialog's time pattern `^([0-1]?[0-9]|2[0-3]):[0-5][0-9]$`. */
  function MatchesTimePattern(s: string): (b: bool)
    ensures b <==>
      && (|s| == 4 || |s| == 5) && s[|s| - 3] == ':'
      && (forall i | 0 <= i < |s| && i != |s| - 3 :: IsDigit(s[i]))
      && (if |s| == 5 then DigitValue(s[0]) * 10 else 0) + DigitValue(s[|s| - 4]) <= 23
      && DigitValue(s[|s| - 2]) <= 5
  {
    || (|s| == 4 && IsDigit(s[0]) && s[1] == ':' && '0' <= s[2] <= '5' && IsDigit(s[3]))
    || (&& |s| == 5
        && (('0' <= s[0] <= '1' && IsDigit(s[1])) || (s[0] == '2' && '0' <= s[1] <= '3'))
        && s[2] == ':' && '0' <= s[3] <= '5' && IsDigit(s[4]))
  }

  /** `message.split(':').map(Number)` read as minutes since midnight. */
  function Minutes(s: string): (m: int)
    requires MatchesTimePattern(s)
    ensures 0 <= m < DayMinutes
  {
    if |s| == 4 then DigitValue(s[0]) * 60 + DigitValue(s[2]) * 10 + DigitValue(s[3])
    else (DigitValue(s[0]) * 10 + DigitValue(s[1])) * 60 + DigitValue(s[3]) * 10 + DigitValue(s[4])
  }

  /** Every formatted time matches the pattern and reads back as the same clock time. */
  lemma FormatThenRead(m: int)
    ensures MatchesTimePattern(Format(m))
    ensures Minutes(Format(m)) == m % DayMinutes
  {
    var t := m % DayMinutes;
    var h := t / 60;
    var mm := t % 60;
    assert h < 24;
    assert h / 10 <= 2;
    assert h / 10 == 2 ==> h % 10 <= 3;
    assert DigitValue(Digit(h / 10)) * 10 + DigitValue(Digit(h % 10)) == h;
    assert DigitValue(Digit(mm / 10)) * 10 + DigitValue(Digit(mm % 10)) == mm;
  }

  /** A two-digit number splits back into its digits. */
  lemma TwoDigits(a: int, b: int)
    requires 0 <= a <= 9 && 0 <= b <= 9
    ensures (a * 10 + b) / 10 == a && (a * 10 + b) % 10 == b
  {
  }

  /** Hours and minutes split back out of a minute count. */
  lemma HoursMinutes(h: int, mm: int)
    requires 0 <= h < 24 && 0 <= mm < 60
    ensures (h * 60 + mm) % DayMinutes == h * 60 + mm
    ensures (h * 60 + mm) / 60 == h && (h * 60 + mm) % 60 == mm
  {
  }

  /** A five-character time that matches the pattern is the format of what it reads as. */
  lemma ReadThenFormat(s: string)
    requires MatchesTimePattern(s) && |s| == 5
    ensures Format(Minutes(s)) == s
  {
    var a, b, c, d := DigitValue(s[0]), DigitValue(s[1]), DigitValue(s[3]), DigitValue(s[4]);
    var h, mm := a * 10 + b, c * 10 + d;
    assert Minutes(s) == h * 60 + mm;
    assert h < 24 && mm < 60;
    HoursMinutes(h, mm);
    TwoDigits(a, b);
    TwoDigits(c, d);
    assert Digit(a) == s[0] && Digit(b) == s[1] && Digit(c) == s[3] && Digit(d) == s[4];
    assert Format(Minutes(s)) == [s[0], s[1], ':', s[3], s[4]];
  }
}
