/** The text formats the event model checks, and the case-insensitive
    substring match its name filters use. */
module Formats {
  import opened JsValues

  predicate IsDigit(c: char) {
    '0' <= c <= '9'
  }

  /** `/^\d{4}-\d{2}-\d{2}$/`: four digits, a hyphen, two digits, a hyphen,
      two digits, nothing else. No calendar check. */
  predicate DateShape(s: string) {
    && |s| == 10
    && IsDigit(s[0]) && IsDigit(s[1]) && IsDigit(s[2]) && IsDigit(s[3])
    && s[4] == '-'
    && IsDigit(s[5]) && IsDigit(s[6])
    && s[7] == '-'
    && IsDigit(s[8]) && IsDigit(s[9])
  }

  /** `/^([01]\d|2[0-3]):([0-5]\d)$/`. */
  predicate TimeShape(s: string) {
    && |s| == 5
    && ((('0' <= s[0] <= '1') && IsDigit(s[1])) || (s[0] == '2' && '0' <= s[1] <= '3'))
    && s[2] == ':'
    && '0' <= s[3] <= '5' && IsDigit(s[4])
  }

  /** `dateRegex.test(v)`. The regex is matched against `String(v)`; for
      `undefined`, `null`, a boolean or a number that text has no hyphen
      after four leading digits, so only strings can match. */
  predicate DateTest(v: JsValue) {
    v.Str? && DateShape(v.s)
  }

  /** `timeRegex.test(v)`; likewise only a string holds a colon. */
  predicate TimeTest(v: JsValue) {
    v.Str? && TimeShape(v.s)
  }

  /** The decimal digit for `d`. */
  function Digit(d: int): (c: char)
    requires 0 <= d < 10
    ensures IsDigit(c)
  {
    ('0' as int + d) as char
  }

  /** A number below 100 written with exactly two digits. */
  function TwoDigits(n: int): (s: string)
    requires 0 <= n < 100
    ensures |s| == 2 && IsDigit(s[0]) && IsDigit(s[1])
  {
    [Digit(n / 10), Digit(n % 10)]
  }

  function FourDigits(n: int): (s: string)
    requires 0 <= n < 10000
    ensures |s| == 4 && forall i :: 0 <= i < 4 ==> IsDigit(s[i])
  {
    TwoDigits(n / 100) + TwoDigits(n % 100)
  }

  /** The clock reading `HH:MM`. */
  function Clock(h: int, m: int): string
    requires 0 <= h < 24 && 0 <= m < 60
  {
    TwoDigits(h) + ":" + TwoDigits(m)
  }

  function DigitValue(c: char): int
    requires IsDigit(c)
  {
    c as int - '0' as int
  }

  /** A time passes the check exactly when it is a clock reading from
      00:00 to 23:59. */
  lemma TimeShapeIsClock(s: string)
    ensures TimeShape(s) <==> exists h, m :: 0 <= h < 24 && 0 <= m < 60 && s == Clock(h, m)
  {
    if TimeShape(s) {
      var h := DigitValue(s[0]) * 10 + DigitValue(s[1]);
      var m := DigitValue(s[3]) * 10 + DigitValue(s[4]);
      assert h / 10 == DigitValue(s[0]) && h % 10 == DigitValue(s[1]);
      assert m / 10 == DigitValue(s[3]) && m % 10 == DigitValue(s[4]);
      assert s == Clock(h, m);
    }
    if exists h, m :: 0 <= h < 24 && 0 <= m < 60 && s == Clock(h, m) {
      var h, m :| 0 <= h < 24 && 0 <= m < 60 && s == Clock(h, m);
      assert s[0] == Digit(h / 10) && s[1] == Digit(h % 10);
      assert h / 10 == 2 ==> h % 10 <= 3;
      assert s[3] == Digit(m / 10);
    }
  }

  /** A date passes the check exactly when it is four, two and two digits
      joined by hyphens, whatever the month and day. */
  lemma DateShapeIsDigitGroups(s: string)
    ensures DateShape(s) <==>
      exists y, mo, d :: 0 <= y < 10000 && 0 <= mo < 100 && 0 <= d < 100 &&
        s == FourDigits(y) + "-" + TwoDigits(mo) + "-" + TwoDigits(d)
  {
    if DateShape(s) {
      var hi := DigitPair(s[0], s[1]);
      var lo := DigitPair(s[2], s[3]);
      var mo := DigitPair(s[5], s[6]);
      var d := DigitPair(s[8], s[9]);
      var y := hi * 100 + lo;
      assert y / 100 == hi && y % 100 == lo;
      assert FourDigits(y) == [s[0], s[1], s[2], s[3]];
      assert s == [s[0], s[1], s[2], s[3]] + "-" + [s[5], s[6]] + "-" + [s[8], s[9]];
    }
  }

  /** Two digit characters read as a number below 100, which prints back
      as the same two characters. */
  lemma DigitPair(a: char, b: char) returns (n: int)
    requires IsDigit(a) && IsDigit(b)
    ensures n == DigitValue(a) * 10 + DigitValue(b)
    ensures 0 <= n < 100 && TwoDigits(n) == [a, b]
  {
    n := DigitValue(a) * 10 + DigitValue(b);
    assert n / 10 == DigitValue(a) && n % 10 == DigitValue(b);
  }

  /** Oracle's calendar is Julian up to 4 October 1582 and Gregorian from
      15 October 1582, so a year before 1583 is a leap year when it is
      divisible by four. */
  predicate IsLeapYear(y: int) {
    if y < 1583 then y % 4 == 0 else y % 4 == 0 && (y % 100 != 0 || y % 400 == 0)
  }

  function DaysInMonth(y: int, m: int): int
    requires 1 <= m <= 12
  {
    if m == 2 then (if IsLeapYear(y) then 29 else 28)
    else if m == 4 || m == 6 || m == 9 || m == 11 then 30
    else 31
  }

  /** What `TO_TIMESTAMP(s, 'YYYY-MM-DD')` accepts of a date of the checked
      shape: year 0 does not exist, the month is 1 to 12, the day lies
      within that month, and 5 to 14 October 1582, which the change of
      calendar skipped, do not exist. */
  predicate IsCalendarDate(s: string) {
    && DateShape(s)
    && var y := DigitValue(s[0]) * 1000 + DigitValue(s[1]) * 100 + DigitValue(s[2]) * 10 + DigitValue(s[3]);
       var m := DigitValue(s[5]) * 10 + DigitValue(s[6]);
       var d := DigitValue(s[8]) * 10 + DigitValue(s[9]);
       && 1 <= y && 1 <= m <= 12 && 1 <= d <= DaysInMonth(y, m)
       && !(y == 1582 && m == 10 && 5 <= d <= 14)
  }

  /** The instant `toISOString` writes, YYYY-MM-DDTHH:MM:SS.FFFZ, which the
      mask 'YYYY-MM-DD"T"HH24:MI:SS.FF3"Z"' reads in full. */
  predicate IsIsoInstant(s: string) {
    && |s| == 24
    && IsCalendarDate(s[..10])
    && s[10] == 'T' && TimeShape(s[11..16]) && s[16] == ':'
    && '0' <= s[17] <= '5' && IsDigit(s[18])
    && s[19] == '.' && IsDigit(s[20]) && IsDigit(s[21]) && IsDigit(s[22])
    && s[23] == 'Z'
  }

  /** The shape check lets an impossible calendar date through; the
      conversion to a timestamp refuses it. */
  lemma ImpossibleDatePasses()
    ensures DateShape("2023-13-45") && DateTest(Str("2023-13-45"))
    ensures !IsCalendarDate("2023-13-45")
  {
  }

  lemma LeapDay()
    ensures IsCalendarDate("2024-02-29") && !IsCalendarDate("2023-02-29")
    ensures IsCalendarDate("2000-02-29") && !IsCalendarDate("1900-02-29")
  {
  }

  /** Before the change of calendar every fourth year is a leap year, and
      the ten days it skipped do not exist. */
  lemma CalendarChange()
    ensures IsCalendarDate("1500-02-29") && !IsCalendarDate("1582-10-10")
    ensures IsCalendarDate("1582-10-04") && IsCalendarDate("1582-10-15")
  {
  }

  /** ASCII upper case, as `UPPER` treats Latin letters. */
  function UpperChar(c: char): char {
    if 'a' <= c <= 'z' then (c as int - 32) as char else c
  }

  function Upper(s: string): (u: string)
    ensures |u| == |s| && forall i :: 0 <= i < |s| ==> u[i] == UpperChar(s[i])
  {
    seq(|s|, i requires 0 <= i < |s| => UpperChar(s[i]))
  }

  predicate IsSubstring(p: string, s: string) {
    exists i :: 0 <= i <= |s| && p <= s[i..]
  }

  /** `UPPER(text) LIKE UPPER('%' || p || '%')`, for a pattern without
      wildcard characters of its own. */
  predicate ContainsIgnoringCase(text: string, p: string) {
    IsSubstring(Upper(p), Upper(text))
  }

  lemma EmptyPatternMatchesAll(text: string)
    ensures ContainsIgnoringCase(text, "")
  {
    assert Upper("") <= Upper(text)[0..];
  }
}
