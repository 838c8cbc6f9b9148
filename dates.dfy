/**
 * The pieces of Go's `time` package the core relies on: `%d` and the `2006-01-02` /
 * `2006-01-02 15:04:05` layouts when formatting, `time.Parse` with the `2006-01-02`
 * layout, and the `Add(24*time.Hour - time.Second)` that moves a parsed date to the
 * last second of its day.
 */
module Dates {
  import opened Git
  import opened Results

  /* ---------- Formatting ---------- */

  function Digit(d: nat): char
    requires d < 10
  {
    ('0' as int + d) as char
  }

  /** `%d` of a non-negative number. */
  function NatText(n: nat): string
    decreases n
  {
    if n < 10 then [Digit(n)] else NatText(n / 10) + [Digit(n % 10)]
  }

  /** `n` in decimal, left-padded with zeros to `width` digits. */
  function Pad(n: nat, width: nat): string
  {
    var t := NatText(n);
    if |t| >= width then t else seq(width - |t|, _ => '0') + t
  }

  /** The `2006` field: four digits at least, with a leading minus sign before year 0. */
  function YearText(year: int): string
  {
    if year < 0 then "-" + Pad(-year, 4) else Pad(year, 4)
  }

  /** `Format("2006-01-02")`. */
  function DateText(d: DateTime): string
  {
    YearText(d.year) + "-" + Pad(d.month, 2) + "-" + Pad(d.day, 2)
  }

  /** `Format("2006-01-02 15:04:05")`. */
  function DateTimeText(d: DateTime): string
  {
    DateText(d) + " " + Pad(d.hour, 2) + ":" + Pad(d.minute, 2) + ":" + Pad(d.second, 2)
  }

  /** Two-digit padding spells the tens digit and then the units digit. */
  lemma Pad2(n: nat)
    requires n < 100
    ensures Pad(n, 2) == [Digit(n / 10), Digit(n % 10)]
  {
    if n >= 10 {
      assert NatText(n / 10) == [Digit(n / 10)];
    }
  }

  /** Four-digit padding spells the four decimal digits, most significant first. */
  lemma Pad4(n: nat)
    requires n < 10000
    ensures Pad(n, 4) == [Digit(n / 1000), Digit(n / 100 % 10), Digit(n / 10 % 10), Digit(n % 10)]
  {
    if n >= 1000 {
      assert NatText(n / 10) == NatText(n / 100) + [Digit(n / 10 % 10)];
      assert NatText(n / 100) == NatText(n / 1000) + [Digit(n / 100 % 10)];
      assert NatText(n / 1000) == [Digit(n / 1000)];
    } else if n >= 100 {
      assert NatText(n / 10) == NatText(n / 100) + [Digit(n / 10 % 10)];
      assert NatText(n / 100) == [Digit(n / 100)];
    } else if n >= 10 {
      assert NatText(n / 10) == [Digit(n / 10)];
    }
  }

  /* ---------- Parsing the `2006-01-02` layout ---------- */

  predicate IsDigit(c: char)
  {
    '0' <= c <= '9'
  }

  function DigitValue(c: char): nat
    requires IsDigit(c)
  {
    c as int - '0' as int
  }

  /** Go's `isLeap`. */
  predicate IsLeap(year: int)
  {
    year % 4 == 0 && (year % 100 != 0 || year % 400 == 0)
  }

  /** Go's `daysIn`: the number of days of a month in a given year. */
  function DaysIn(month: Month, year: int): (n: nat)
    ensures 28 <= n <= 31
  {
    if month == 2 then (if IsLeap(year) then 29 else 28)
    else if month == 4 || month == 6 || month == 9 || month == 11 then 30
    else 31
  }

  /** Digits at positions `0..3`, a dash, digits at `5..6`, a dash, digits at `8..9`, and nothing else. */
  predicate DateShaped(s: string)
  {
    |s| == 10 && IsDigit(s[0]) && IsDigit(s[1]) && IsDigit(s[2]) && IsDigit(s[3]) && s[4] == '-' &&
    IsDigit(s[5]) && IsDigit(s[6]) && s[7] == '-' && IsDigit(s[8]) && IsDigit(s[9])
  }

  /** The first seven characters are four digits, a dash and two digits: the year and month fields. */
  predicate MonthShaped(s: string)
  {
    |s| >= 7 && IsDigit(s[0]) && IsDigit(s[1]) && IsDigit(s[2]) && IsDigit(s[3]) && s[4] == '-' &&
    IsDigit(s[5]) && IsDigit(s[6])
  }

  /** The value of the month field. */
  function MonthField(s: string): nat
    requires MonthShaped(s)
  {
    DigitValue(s[5]) * 10 + DigitValue(s[6])
  }

  /** The failures `time.Parse` reports for this layout: the text does not have its shape, or a field is out of range. */
  datatype ParseError = BadShape | MonthOutOfRange | DayOutOfRange

  /**
   * `time.Parse("2006-01-02", s)`: exactly four year digits, two month digits and two day
   * digits separated by dashes, a month in 1..12 and a day that exists in that month; the
   * result is midnight of that day. The month's range is checked as soon as the month field
   * is read, before the rest of the text; the day's range only once the whole text is read.
   */
  function ParseDate(s: string): (r: Result<DateTime, ParseError>)
    ensures r.Ok? ==> DateShaped(s)
    ensures r.Ok? ==> r.value.hour == 0 && r.value.minute == 0 && r.value.second == 0
    ensures r.Ok? ==> 0 <= r.value.year <= 9999 && r.value.day <= DaysIn(r.value.month, r.value.year)
    ensures r == Err(MonthOutOfRange) <==> MonthShaped(s) && (MonthField(s) < 1 || 12 < MonthField(s))
  {
    if MonthShaped(s) && (MonthField(s) < 1 || 12 < MonthField(s)) then Err(MonthOutOfRange)
    else if !DateShaped(s) then Err(BadShape)
    else
      var year := ((DigitValue(s[0]) * 10 + DigitValue(s[1])) * 10 + DigitValue(s[2])) * 10 + DigitValue(s[3]);
      var month := MonthField(s);
      var day := DigitValue(s[8]) * 10 + DigitValue(s[9]);
      if day < 1 || day > DaysIn(month, year) then Err(DayOutOfRange)
      else Ok(DateTime(year, month, day, 0, 0, 0))
  }

  /** A digit character is the digit of its own value. */
  lemma DigitOfValue(c: char)
    requires IsDigit(c)
    ensures Digit(DigitValue(c)) == c
  {
  }

  /** The decimal digits of a four-digit number are recovered by division. */
  lemma FourDigits(a: nat, b: nat, c: nat, d: nat)
    requires a < 10 && b < 10 && c < 10 && d < 10
    ensures var n := ((a * 10 + b) * 10 + c) * 10 + d;
      n < 10000 && n / 1000 == a && n / 100 % 10 == b && n / 10 % 10 == c && n % 10 == d
  {
    var n := ((a * 10 + b) * 10 + c) * 10 + d;
    assert n == a * 1000 + (b * 100 + c * 10 + d);
    assert n / 10 == (a * 10 + b) * 10 + c;
    assert n / 100 == a * 10 + b;
    assert n / 1000 == a;
  }

  /** The decimal digits of a two-digit number are recovered by division. */
  lemma TwoDigits(a: nat, b: nat)
    requires a < 10 && b < 10
    ensures (a * 10 + b) / 10 == a && (a * 10 + b) % 10 == b
  {
  }

  /** Every text `ParseDate` accepts formats back to itself. */
  lemma {:induction false} ParseThenFormat(s: string)
    requires ParseDate(s).Ok?
    ensures DateText(ParseDate(s).value) == s
  {
    var d := ParseDate(s).value;
    var y0, y1, y2, y3 := DigitValue(s[0]), DigitValue(s[1]), DigitValue(s[2]), DigitValue(s[3]);
    FourDigits(y0, y1, y2, y3);
    TwoDigits(DigitValue(s[5]), DigitValue(s[6]));
    TwoDigits(DigitValue(s[8]), DigitValue(s[9]));
    DigitOfValue(s[0]); DigitOfValue(s[1]); DigitOfValue(s[2]); DigitOfValue(s[3]);
    DigitOfValue(s[5]); DigitOfValue(s[6]); DigitOfValue(s[8]); DigitOfValue(s[9]);
    DateTextDisplay(d);
    assert s == [s[0], s[1], s[2], s[3], s[4], s[5], s[6], s[7], s[8], s[9]];
  }

  /** The text of a date of the years 0..9999, character by character. */
  lemma DateTextDisplay(d: DateTime)
    requires 0 <= d.year <= 9999
    ensures DateText(d) == [Digit(d.year / 1000), Digit(d.year / 100 % 10), Digit(d.year / 10 % 10), Digit(d.year % 10), '-',
                            Digit(d.month / 10), Digit(d.month % 10), '-', Digit(d.day / 10), Digit(d.day % 10)]
  {
    Pad4(d.year);
    Pad2(d.month);
    Pad2(d.day);
  }

  /** Midnight of a timestamp's day. */
  function Midnight(d: DateTime): DateTime
  {
    d.(hour := 0, minute := 0, second := 0)
  }

  /** The ten characters of a date's text for a year in 0..9999. */
  lemma DateTextChars(d: DateTime)
    requires 0 <= d.year <= 9999
    ensures var s := DateText(d);
      |s| == 10 && s[4] == '-' && s[7] == '-' &&
      s[0] == Digit(d.year / 1000) && s[1] == Digit(d.year / 100 % 10) &&
      s[2] == Digit(d.year / 10 % 10) && s[3] == Digit(d.year % 10) &&
      s[5] == Digit(d.month / 10) && s[6] == Digit(d.month % 10) &&
      s[8] == Digit(d.day / 10) && s[9] == Digit(d.day % 10)
  {
    Pad4(d.year);
    Pad2(d.month);
    Pad2(d.day);
  }

  /** A number below 10000 is the value of its four decimal digits. */
  lemma DigitsValue(n: nat)
    requires n < 10000
    ensures ((n / 1000 * 10 + n / 100 % 10) * 10 + n / 10 % 10) * 10 + n % 10 == n
  {
    assert n / 1000 * 10 + n / 100 % 10 == n / 100;
    assert n / 100 * 10 + n / 10 % 10 == n / 10;
  }

  /** Every date of the years 0..9999 formats to a text that parses back to midnight of that date. */
  lemma {:induction false} FormatThenParse(d: DateTime)
    requires 0 <= d.year <= 9999 && d.day <= DaysIn(d.month, d.year)
    ensures ParseDate(DateText(d)) == Ok(Midnight(d))
  {
    var s := DateText(d);
    DateTextChars(d);
    assert DateShaped(s);
    DigitsValue(d.year);
    assert DigitValue(s[0]) == d.year / 1000 && DigitValue(s[1]) == d.year / 100 % 10;
    assert DigitValue(s[2]) == d.year / 10 % 10 && DigitValue(s[3]) == d.year % 10;
    assert DigitValue(s[5]) * 10 + DigitValue(s[6]) == d.month;
    assert DigitValue(s[8]) * 10 + DigitValue(s[9]) == d.day;
  }

  /** Inputs the layout refuses, and the leap day it accepts. */
  lemma ParseDateExamples()
    ensures ParseDate("2024-02-29") == Ok(DateTime(2024, 2, 29, 0, 0, 0))
    ensures ParseDate("2023-02-29") == Err(DayOutOfRange)
    ensures ParseDate("2024-13-01") == Err(MonthOutOfRange)
    ensures ParseDate("2024-00-10") == Err(MonthOutOfRange)
    ensures ParseDate("2024-1-05") == Err(BadShape)
    ensures ParseDate(" 2024-01-05") == Err(BadShape)
    ensures ParseDate("abcd-ef-gh") == Err(BadShape)
    ensures ParseDate("2024-13-ab") == Err(MonthOutOfRange)
    ensures ParseDate("2024-13") == Err(MonthOutOfRange)
  {
    assert DateShaped("2024-02-29");
    assert DateShaped("2023-02-29");
    assert DateShaped("2024-13-01");
    assert DateShaped("2024-00-10");
    assert !IsDigit("2024-1-05"[6]);
    assert !IsDigit("abcd-ef-gh"[0]);
    assert MonthShaped("2024-13-ab");
    assert MonthShaped("2024-13");
  }

  /* ---------- The end of a day ---------- */

  /** Seconds since midnight. */
  function SecondOfDay(d: DateTime): nat
  {
    (d.hour * 60 + d.minute) * 60 + d.second
  }

  /**
   * `t.Add(24*time.Hour - time.Second)` for a `t` at midnight: the same date at 23:59:59.
   * One second short of a day never leaves the day, so no calendar carry is needed.
   */
  function EndOfDay(d: DateTime): (r: DateTime)
    requires SecondOfDay(d) == 0
    ensures r.year == d.year && r.month == d.month && r.day == d.day
    ensures SecondOfDay(r) == 24 * 60 * 60 - 1
    ensures Ordinal(r) == Ordinal(d) + 24 * 60 * 60 - 1
  {
    d.(hour := 23, minute := 59, second := 59)
  }

  /** Every timestamp of the same date lies between midnight and the end of the day. */
  lemma EndOfDayBounds(d: DateTime)
    requires SecondOfDay(d) == 0
    ensures forall t: DateTime {:trigger Ordinal(t)} :: t.year == d.year && t.month == d.month && t.day == d.day ==>
      !Before(t, d) && !Before(EndOfDay(d), t)
  {
    forall t: DateTime | t.year == d.year && t.month == d.month && t.day == d.day
      ensures !Before(t, d) && !Before(EndOfDay(d), t)
    {
      assert Ordinal(t) == Ordinal(d) + SecondOfDay(t);
    }
  }
}
