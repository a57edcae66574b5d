/**
 * The session start time accepted by the monolith's session schemas:
 * the pattern `^([0-1]?[0-9]|2[0-3]):[0-5][0-9]$`, and what it means as a clock reading.
 */
module TimeFormat {

  predicate IsDigit(c: char) {
    '0' <= c <= '9'
  }

  function DigitValue(c: char): (n: int)
    requires IsDigit(c)
    ensures 0 <= n <= 9
  {
    c as int - '0' as int
  }

  function DigitChar(n: int): (c: char)
    requires 0 <= n <= 9
    ensures IsDigit(c) && DigitValue(c) == n
  {
    ('0' as int + n) as char
  }

  /** The hour alternative `[0-1]?[0-9]|2[0-3]`, matched against the whole field. */
  predicate HourField(h: string) {
    || (|h| == 1 && IsDigit(h[0]))
    || (|h| == 2 && '0' <= h[0] <= '1' && IsDigit(h[1]))
    || (|h| == 2 && h[0] == '2' && '0' <= h[1] <= '3')
  }

  /** The minute part `[0-5][0-9]`. */
  predicate MinuteField(m: string) {
    |m| == 2 && '0' <= m[0] <= '5' && IsDigit(m[1])
  }

  /** The whole pattern, anchored at both ends: an hour field of one or two characters, ':' and a minute field. */
  predicate MatchesTimePattern(s: string) {
    || (|s| >= 2 && s[1] == ':' && HourField(s[..1]) && MinuteField(s[2..]))
    || (|s| >= 3 && s[2] == ':' && HourField(s[..2]) && MinuteField(s[3..]))
  }

  /** Two decimal digits, zero-padded. */
  function TwoDigits(n: int): (s: string)
    requires 0 <= n < 100
    ensures |s| == 2 && IsDigit(s[0]) && IsDigit(s[1])
    ensures DigitValue(s[0]) * 10 + DigitValue(s[1]) == n
  {
    [DigitChar(n / 10), DigitChar(n % 10)]
  }

  /** The reading h:m written with a zero-padded hour, or with a one-digit hour when `padded` is false. */
  function Clock(h: int, m: int, padded: bool): string
    requires 0 <= h < 24 && 0 <= m < 60
    requires padded || h < 10
  {
    (if padded then TwoDigits(h) else [DigitChar(h)]) + ":" + TwoDigits(m)
  }

  /** Every clock reading, in either hour form, matches the pattern. */
  lemma ClockMatches(h: int, m: int, padded: bool)
    requires 0 <= h < 24 && 0 <= m < 60
    requires padded || h < 10
    ensures MatchesTimePattern(Clock(h, m, padded))
  {
    var s := Clock(h, m, padded);
    if padded {
      assert s[..2] == TwoDigits(h) && s[2] == ':' && s[3..] == TwoDigits(m);
    } else {
      assert s[..1] == [DigitChar(h)] && s[1] == ':' && s[2..] == TwoDigits(m);
    }
  }

  /** The clock reading a matching string denotes: hour, minute, and whether the hour has two digits. */
  function ReadClock(s: string): (c: (int, int, bool))
    requires MatchesTimePattern(s)
    ensures 0 <= c.0 < 24 && 0 <= c.1 < 60 && (c.2 || c.0 < 10)
    ensures s == Clock(c.0, c.1, c.2)
  {
    if |s| == 4 then
      assert s[1] == ':' && HourField(s[..1]) && MinuteField(s[2..]);
      assert s[..1][0] == s[0] && s[2..][0] == s[2] && s[2..][1] == s[3];
      assert IsDigit(s[0]) && IsDigit(s[2]) && IsDigit(s[3]);
      var h := DigitValue(s[0]);
      var m := DigitValue(s[2]) * 10 + DigitValue(s[3]);
      assert s == [s[0]] + ":" + [s[2], s[3]];
      assert [DigitChar(h)] == [s[0]];
      assert TwoDigits(m) == [s[2], s[3]];
      (h, m, false)
    else
      assert |s| == 5 && s[2] == ':' && HourField(s[..2]) && MinuteField(s[3..]);
      assert s[..2][0] == s[0] && s[..2][1] == s[1] && s[3..][0] == s[3] && s[3..][1] == s[4];
      assert IsDigit(s[0]) && IsDigit(s[1]) && IsDigit(s[3]) && IsDigit(s[4]);
      var h := DigitValue(s[0]) * 10 + DigitValue(s[1]);
      var m := DigitValue(s[3]) * 10 + DigitValue(s[4]);
      assert s == [s[0], s[1]] + ":" + [s[3], s[4]];
      assert TwoDigits(h) == [s[0], s[1]];
      assert TwoDigits(m) == [s[3], s[4]];
      (h, m, true)
  }

  /** The pattern accepts exactly the clock readings 0:00 to 23:59, with a one- or two-digit hour. */
  lemma PatternIsClockReading(s: string)
    ensures MatchesTimePattern(s) <==>
      exists h, m, padded | 0 <= h < 24 && 0 <= m < 60 && (padded || h < 10) :: s == Clock(h, m, padded)
  {
    if MatchesTimePattern(s) {
      var c := ReadClock(s);
      assert s == Clock(c.0, c.1, c.2);
    }
    if exists h, m, padded | 0 <= h < 24 && 0 <= m < 60 && (padded || h < 10) :: s == Clock(h, m, padded) {
      var h, m, padded :| 0 <= h < 24 && 0 <= m < 60 && (padded || h < 10) && s == Clock(h, m, padded);
      ClockMatches(h, m, padded);
    }
  }

  /** "9:05" and "23:59" are accepted; "24:00", "9:5" and "12:60" are not. */
  lemma PatternExamples()
    ensures MatchesTimePattern("9:05")
    ensures MatchesTimePattern("23:59")
    ensures !MatchesTimePattern("24:00")
    ensures !MatchesTimePattern("9:5")
    ensures !MatchesTimePattern("12:60")
  {
    assert "9:05"[..1] == "9" && "9:05"[2..] == "05";
    assert "23:59"[..2] == "23" && "23:59"[3..] == "59";
    assert "24:00"[..2] == "24";
    assert "9:5"[2..] == "5";
    assert "12:60"[3..] == "60";
  }
}
