/**
 * Calendar dates as Python's `datetime.date` has them: the proleptic Gregorian calendar,
 * years 1 to 9999, ordered as (year, month, day) tuples, with `toordinal`, `isoformat`
 * and `datetime.strptime(s, "%Y-%m-%d")`.
 */
module Dates {
  import opened Wrappers
  import opened Text

  datatype Date = Date(year: int, month: int, day: int)

  const MinYear := 1
  const MaxYear := 9999

  predicate IsLeapYear(y: int) { y % 4 == 0 && (y % 100 != 0 || y % 400 == 0) }

  function DaysInMonth(y: int, m: int): (n: int)
    requires 1 <= m <= 12
    ensures 28 <= n <= 31
  {
    if m == 2 then (if IsLeapYear(y) then 29 else 28)
    else if m == 4 || m == 6 || m == 9 || m == 11 then 30
    else 31
  }

  predicate IsValid(d: Date)
  {
    MinYear <= d.year <= MaxYear && 1 <= d.month <= 12 && 1 <= d.day <= DaysInMonth(d.year, d.month)
  }

  /** A value of Python's `date` type: it cannot hold an impossible date. */
  type CalendarDate = d: Date | IsValid(d) witness Date(1, 1, 1)

  /** Python's `date` comparison `a <= b`: tuples (year, month, day) compared lexicographically. */
  predicate DateLe(a: Date, b: Date)
  {
    a.year < b.year || (a.year == b.year && (a.month < b.month || (a.month == b.month && a.day <= b.day)))
  }

  predicate DateLt(a: Date, b: Date) { DateLe(a, b) && a != b }

  /** Python's `_days_before_year`: days in the years before `y`. */
  function DaysBeforeYear(y: int): int
    requires y >= 1
  {
    var p := y - 1;
    p * 365 + p / 4 - p / 100 + p / 400
  }

  function YearLength(y: int): int { if IsLeapYear(y) then 366 else 365 }

  /** Python's `_DAYS_BEFORE_MONTH` table, for a year that is not a leap year. */
  const CumulativeDays: seq<int> := [0, 31, 59, 90, 120, 151, 181, 212, 243, 273, 304, 334, 365]

  /** Python's `_days_before_month`: days in the months of year `y` before month `m` (13 means the whole year). */
  function DaysBeforeMonth(y: int, m: int): int
    requires 1 <= m <= 13
  {
    CumulativeDays[m - 1] + (if m > 2 && IsLeapYear(y) then 1 else 0)
  }

  /** Python's `date.toordinal()`: 0001-01-01 is day 1. */
  function Ordinal(d: CalendarDate): int
  {
    DaysBeforeYear(d.year) + DaysBeforeMonth(d.year, d.month) + d.day
  }

  /** `(b - a).days` for two Python dates. */
  function DaysBetween(a: CalendarDate, b: CalendarDate): int
  {
    Ordinal(b) - Ordinal(a)
  }

  /** The closed form of `_days_before_year` adds one year's length per year. */
  lemma DaysBeforeNextYear(y: int)
    requires y >= 1
    ensures DaysBeforeYear(y + 1) == DaysBeforeYear(y) + YearLength(y)
  {
    QuotientStep4(y);
    QuotientStep100(y);
    QuotientStep400(y);
    MultiplesNest(y);
  }

  /** Euclidean division by a positive constant is determined by quotient and remainder. */
  lemma DivisionByParts(y: int, k: int, q: int, r: int)
    requires k in {4, 100, 400} && 0 <= r < k && y == k * q + r
    ensures y / k == q && y % k == r
  {
  }

  lemma QuotientStep4(y: int)
    ensures y / 4 - (y - 1) / 4 == if y % 4 == 0 then 1 else 0
  {
    var q, r := (y - 1) / 4, (y - 1) % 4;
    if r == 3 {
      DivisionByParts(y, 4, q + 1, 0);
    } else {
      DivisionByParts(y, 4, q, r + 1);
    }
  }

  lemma QuotientStep100(y: int)
    ensures y / 100 - (y - 1) / 100 == if y % 100 == 0 then 1 else 0
  {
    var q, r := (y - 1) / 100, (y - 1) % 100;
    if r == 99 {
      DivisionByParts(y, 100, q + 1, 0);
    } else {
      DivisionByParts(y, 100, q, r + 1);
    }
  }

  lemma QuotientStep400(y: int)
    ensures y / 400 - (y - 1) / 400 == if y % 400 == 0 then 1 else 0
  {
    var q, r := (y - 1) / 400, (y - 1) % 400;
    if r == 399 {
      DivisionByParts(y, 400, q + 1, 0);
    } else {
      DivisionByParts(y, 400, q, r + 1);
    }
  }

  /** A multiple of 400 is a multiple of 100, and a multiple of 100 one of 4. */
  lemma MultiplesNest(y: int)
    ensures y % 400 == 0 ==> y % 100 == 0
    ensures y % 100 == 0 ==> y % 4 == 0
  {
    if y % 400 == 0 {
      DivisionByParts(y, 100, 4 * (y / 400), 0);
    }
    if y % 100 == 0 {
      DivisionByParts(y, 4, 25 * (y / 100), 0);
    }
  }

  lemma {:induction false} DaysBeforeYearGrows(y1: int, y2: int)
    requires 1 <= y1 < y2
    ensures DaysBeforeYear(y1) + YearLength(y1) <= DaysBeforeYear(y2)
    decreases y2 - y1
  {
    DaysBeforeNextYear(y1);
    if y1 + 1 < y2 {
      DaysBeforeYearGrows(y1 + 1, y2);
    }
  }

  lemma DaysBeforeNextMonth(y: int, m: int)
    requires 1 <= m <= 12
    ensures DaysBeforeMonth(y, m + 1) == DaysBeforeMonth(y, m) + DaysInMonth(y, m)
  {
  }

  lemma DaysBeforeMonthGrows(y: int, m1: int, m2: int)
    requires 1 <= m1 < m2 <= 13
    ensures DaysBeforeMonth(y, m1) + DaysInMonth(y, m1) <= DaysBeforeMonth(y, m2)
  {
  }

  /** An earlier date has a smaller ordinal. */
  lemma OrdinalStrictlyMonotone(a: CalendarDate, b: CalendarDate)
    requires DateLt(a, b)
    ensures Ordinal(a) < Ordinal(b)
  {
    if a.year < b.year {
      DaysBeforeMonthGrows(a.year, a.month, 13);
      DaysBeforeYearGrows(a.year, b.year);
    } else if a.month < b.month {
      DaysBeforeMonthGrows(a.year, a.month, b.month);
    }
  }

  /** The tuple order of Python dates is the order of their ordinals; equal ordinals mean equal dates. */
  lemma OrdinalOrder(a: CalendarDate, b: CalendarDate)
    ensures DateLe(a, b) <==> Ordinal(a) <= Ordinal(b)
    ensures a == b <==> Ordinal(a) == Ordinal(b)
  {
    if DateLt(a, b) {
      OrdinalStrictlyMonotone(a, b);
    } else if DateLt(b, a) {
      OrdinalStrictlyMonotone(b, a);
    }
  }

  /** `(b - a).days` is never negative when `a <= b`, and zero only on the same day. */
  lemma DaysBetweenNonNegative(a: CalendarDate, b: CalendarDate)
    requires DateLe(a, b)
    ensures DaysBetween(a, b) >= 0
    ensures DaysBetween(a, b) == 0 <==> a == b
  {
    OrdinalOrder(a, b);
  }

  /** The two-digit, zero-padded rendering `%02d` of a number below 100. */
  function Pad2(n: nat): (s: string)
    requires n < 100
    ensures |s| == 2 && AllDigits(s)
  {
    [DigitChar(n / 10), DigitChar(n % 10)]
  }

  /** The four-digit, zero-padded rendering `%04d` of a number below 10000. */
  function Pad4(n: nat): (s: string)
    requires n < 10000
    ensures |s| == 4 && AllDigits(s)
  {
    [DigitChar(n / 1000), DigitChar(n / 100 % 10), DigitChar(n / 10 % 10), DigitChar(n % 10)]
  }

  /** Python's `date.isoformat()`: `YYYY-MM-DD`. */
  function IsoFormat(d: CalendarDate): (s: string)
    ensures |s| == 10 && s[4] == '-' && s[7] == '-'
  {
    Pad4(d.year) + "-" + Pad2(d.month) + "-" + Pad2(d.day)
  }

  /**
   * The `%m` field of `strptime`: the regular expression `1[0-2]|0[1-9]|[1-9]`, whose first
   * matching alternative wins. The result is the month and the number of characters read.
   */
  function MonthField(s: string): (r: Option<(int, nat)>)
    ensures r.Some? ==> 1 <= r.value.0 <= 12 && 1 <= r.value.1 <= 2 && r.value.1 <= |s|
  {
    if |s| >= 2 && s[0] == '1' && '0' <= s[1] <= '2' then Some((10 + DigitValue(s[1]), 2))
    else if |s| >= 2 && s[0] == '0' && '1' <= s[1] <= '9' then Some((DigitValue(s[1]), 2))
    else if |s| >= 1 && '1' <= s[0] <= '9' then Some((DigitValue(s[0]), 1))
    else None
  }

  /**
   * The `%d` field of `strptime`: the regular expression `3[01]|[12]\d|0[1-9]|[1-9]| [1-9]`,
   * first matching alternative first (a space before a single digit is accepted).
   */
  function DayField(s: string): (r: Option<(int, nat)>)
    ensures r.Some? ==> 1 <= r.value.0 <= 31 && 1 <= r.value.1 <= 2 && r.value.1 <= |s|
  {
    if |s| >= 2 && s[0] == '3' && '0' <= s[1] <= '1' then Some((30 + DigitValue(s[1]), 2))
    else if |s| >= 2 && '1' <= s[0] <= '2' && IsDigit(s[1]) then Some((DigitValue(s[0]) * 10 + DigitValue(s[1]), 2))
    else if |s| >= 2 && s[0] == '0' && '1' <= s[1] <= '9' then Some((DigitValue(s[1]), 2))
    else if |s| >= 1 && '1' <= s[0] <= '9' then Some((DigitValue(s[0]), 1))
    else if |s| >= 2 && s[0] == ' ' && '1' <= s[1] <= '9' then Some((DigitValue(s[1]), 2))
    else None
  }

  /** Python's `datetime.strptime(s, "%Y-%m-%d").date()`; `None` stands for its ValueError. */
  function ParseDate(s: string): (r: Option<CalendarDate>)
    ensures r.Some? ==> 8 <= |s| <= 10 && s[4] == '-' && AllDigits(s[..4]) && r.value.year == DigitsValue(s[..4])
  {
    if |s| < 5 || !AllDigits(s[..4]) || s[4] != '-' then None
    else
      match MonthField(s[5..])
      case None => None
      case Some((month, monthLength)) =>
        var k := 5 + monthLength;
        if k >= |s| || s[k] != '-' then None
        else
          match DayField(s[k + 1..])
          case None => None
          case Some((day, dayLength)) =>
            // strptime refuses "unconverted data remains" as well as impossible dates
            var d := Date(DigitsValue(s[..4]), month, day);
            if k + 1 + dayLength == |s| && IsValid(d) then Some(d) else None
  }

  lemma Pad2Fields(n: nat)
    requires n < 100
    ensures n >= 10 ==> Pad2(n)[0] != '0'
    ensures DigitValue(Pad2(n)[0]) * 10 + DigitValue(Pad2(n)[1]) == n
  {
  }

  lemma Pad4Value(n: nat)
    requires n < 10000
    ensures DigitsValue(Pad4(n)) == n
  {
    var d0, d1, d2, d3 := n / 1000, n / 100 % 10, n / 10 % 10, n % 10;
    FourDigitsValue(DigitChar(d0), DigitChar(d1), DigitChar(d2), DigitChar(d3));
    DecimalSplit(n);
  }

  lemma DecimalSplit(n: nat)
    requires n < 10000
    ensures n == ((n / 1000 * 10 + n / 100 % 10) * 10 + n / 10 % 10) * 10 + n % 10
  {
    assert n / 100 == n / 1000 * 10 + n / 100 % 10;
    assert n / 10 == n / 100 * 10 + n / 10 % 10;
  }

  lemma FourDigitsValue(a: char, b: char, c: char, d: char)
    requires IsDigit(a) && IsDigit(b) && IsDigit(c) && IsDigit(d)
    ensures DigitsValue([a, b, c, d])
         == ((DigitValue(a) * 10 + DigitValue(b)) * 10 + DigitValue(c)) * 10 + DigitValue(d)
  {
    var s := [a, b, c, d];
    assert s[..3] == [a, b, c] && s[..3][..2] == [a, b] && s[..3][..2][..1] == [a];
    assert [a][..0] == [];
    assert DigitsValue([a]) == DigitValue(a);
    assert DigitsValue([a, b]) == DigitValue(a) * 10 + DigitValue(b);
    assert DigitsValue([a, b, c]) == (DigitValue(a) * 10 + DigitValue(b)) * 10 + DigitValue(c);
  }

  lemma MonthFieldOfPad2(m: int, rest: string)
    requires 1 <= m <= 12
    ensures MonthField(Pad2(m) + rest) == Some((m, 2))
  {
    Pad2Fields(m);
  }

  lemma DayFieldOfPad2(d: int, rest: string)
    requires 1 <= d <= 31
    ensures DayField(Pad2(d) + rest) == Some((d, 2))
  {
    Pad2Fields(d);
  }

  /** `strptime` reads back what `isoformat` writes. */
  lemma ParseIsoFormat(d: CalendarDate)
    ensures ParseDate(IsoFormat(d)) == Some(d)
  {
    var s := IsoFormat(d);
    var rest := "-" + Pad2(d.day);
    assert s == Pad4(d.year) + "-" + (Pad2(d.month) + rest);
    assert s[..4] == Pad4(d.year);
    Pad4Value(d.year);
    assert s[5..] == Pad2(d.month) + rest;
    MonthFieldOfPad2(d.month, rest);
    assert s[8..] == Pad2(d.day) + "";
    DayFieldOfPad2(d.day, "");
  }

  /** `strptime` also accepts an unpadded month and day. */
  lemma ParseDateUnpadded()
    ensures ParseDate("2024-1-5") == Some(Date(2024, 1, 5))
    ensures ParseDate("2024-02-30") == None
    ensures ParseDate("2024-01-05x") == None
  {
    assert "2024-1-5"[..4] == "2024";
    assert "2024-1-5"[5..] == "1-5";
    assert "2024-1-5"[7..] == "5";
    assert DigitsValue("2024") == 2024 by {
      assert "2024"[..3] == "202" && "202"[..2] == "20" && "20"[..1] == "2" && "2"[..0] == [];
    }
    assert "2024-02-30"[5..] == "02-30";
    assert "2024-02-30"[8..] == "30";
    assert "2024-02-30"[..4] == "2024";
    assert "2024-01-05x"[5..] == "01-05x";
    assert "2024-01-05x"[8..] == "05x";
  }
}
