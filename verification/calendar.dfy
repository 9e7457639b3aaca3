/** Proleptic Gregorian dates as Python's `datetime.date` holds them
    (years 1 to 9999), the strict `dd.mm.yyyy` parse the importer applies with
    `strptime(text, "%d.%m.%Y")`, and `date + timedelta(days=1)`.
 */
module Calendar {
  import opened Wrappers

  datatype Date = Date(year: int, month: int, day: int)

  const MinYear: int := 1
  const MaxYear: int := 9999

  predicate IsLeapYear(y: int) {
    y % 4 == 0 && (y % 100 != 0 || y % 400 == 0)
  }

  function DaysInMonth(y: int, m: int): (n: int)
    requires 1 <= m <= 12
    ensures 28 <= n <= 31
  {
    if m == 2 then (if IsLeapYear(y) then 29 else 28)
    else if m == 4 || m == 6 || m == 9 || m == 11 then 30
    else 31
  }

  function DaysInYear(y: int): int {
    if IsLeapYear(y) then 366 else 365
  }

  /** A value `datetime.date` accepts. */
  predicate Valid(d: Date) {
    && MinYear <= d.year <= MaxYear
    && 1 <= d.month <= 12
    && 1 <= d.day <= DaysInMonth(d.year, d.month)
  }

  // ---------------------------------------------------------------------------
  // Day numbers: the reference against which the next-day step is proved.

  /** Days in the months of year `y` before month `m`. */
  function DaysBeforeMonth(y: int, m: int): (n: int)
    requires 1 <= m <= 13
    ensures n >= 28 * (m - 1)
  {
    if m == 1 then 0 else DaysBeforeMonth(y, m - 1) + DaysInMonth(y, m - 1)
  }

  /** Days in the years before year `y`, counting from year 1. */
  function DaysBeforeYear(y: int): int
    requires y >= 1
  {
    if y == 1 then 0 else DaysBeforeYear(y - 1) + DaysInYear(y - 1)
  }

  /** The day's ordinal, as `date.toordinal()`: 1 for 01.01.0001. */
  function DayNumber(d: Date): int
    requires Valid(d)
  {
    DaysBeforeYear(d.year) + DaysBeforeMonth(d.year, d.month) + d.day
  }

  lemma {:induction false} MonthsFillYear(y: int)
    ensures DaysBeforeMonth(y, 13) == DaysInYear(y)
  {
    var feb := DaysInMonth(y, 2);
    assert DaysBeforeMonth(y, 2) == 31;
    assert DaysBeforeMonth(y, 3) == 31 + feb;
    assert DaysBeforeMonth(y, 4) == 62 + feb;
    assert DaysBeforeMonth(y, 5) == 92 + feb;
    assert DaysBeforeMonth(y, 6) == 123 + feb;
    assert DaysBeforeMonth(y, 7) == 153 + feb;
    assert DaysBeforeMonth(y, 8) == 184 + feb;
    assert DaysBeforeMonth(y, 9) == 215 + feb;
    assert DaysBeforeMonth(y, 10) == 245 + feb;
    assert DaysBeforeMonth(y, 11) == 276 + feb;
    assert DaysBeforeMonth(y, 12) == 306 + feb;
    assert DaysBeforeMonth(y, 13) == 337 + feb;
  }

  // ---------------------------------------------------------------------------
  // date + timedelta(days=1)

  /** `d + timedelta(days=1)`; raises `OverflowError` past 31.12.9999. */
  function NextDay(d: Date): (r: Result<Date, Error>)
    requires Valid(d)
    ensures r.Err? <==> d == Date(MaxYear, 12, 31)
    ensures r.Err? ==> r.error == DateOverflow
    ensures r.Ok? ==> Valid(r.value)
  {
    if d.day < DaysInMonth(d.year, d.month) then Ok(Date(d.year, d.month, d.day + 1))
    else if d.month < 12 then Ok(Date(d.year, d.month + 1, 1))
    else if d.year < MaxYear then Ok(Date(d.year + 1, 1, 1))
    else Err(DateOverflow)
  }

  /** The next day is exactly one day later: its ordinal is one more. */
  lemma {:induction false} NextDayIsOneDayLater(d: Date)
    requires Valid(d) && NextDay(d).Ok?
    ensures DayNumber(NextDay(d).value) == DayNumber(d) + 1
  {
    if d.day == DaysInMonth(d.year, d.month) && d.month == 12 {
      MonthsFillYear(d.year);
    }
  }

  /** Ordinals respect the calendar order of valid dates. */
  lemma {:induction false} DaysBeforeMonthMonotone(y: int, m: int, n: int)
    requires 1 <= m < n <= 13
    ensures DaysBeforeMonth(y, m) + DaysInMonth(y, m) <= DaysBeforeMonth(y, n)
    decreases n - m
  {
    if m + 1 < n {
      DaysBeforeMonthMonotone(y, m + 1, n);
    }
  }

  lemma {:induction false} DaysBeforeYearMonotone(y: int, z: int)
    requires 1 <= y < z
    ensures DaysBeforeYear(y) + DaysInYear(y) <= DaysBeforeYear(z)
    decreases z - y
  {
    if y + 1 < z {
      DaysBeforeYearMonotone(y + 1, z);
    }
  }

  predicate Before(a: Date, b: Date) {
    a.year < b.year || (a.year == b.year && (a.month < b.month || (a.month == b.month && a.day < b.day)))
  }

  lemma {:induction false} OrdinalOrder(a: Date, b: Date)
    requires Valid(a) && Valid(b) && Before(a, b)
    ensures DayNumber(a) < DayNumber(b)
  {
    if a.year < b.year {
      DaysBeforeYearMonotone(a.year, b.year);
      MonthsFillYear(a.year);
      if a.month < 12 {
        DaysBeforeMonthMonotone(a.year, a.month, 13);
      }
      assert DaysBeforeMonth(a.year, a.month) + a.day <= DaysInYear(a.year);
    } else if a.month < b.month {
      DaysBeforeMonthMonotone(a.year, a.month, b.month);
    }
  }

  /** `NextDay(d)` is the immediate successor of `d`: later than `d`, and no
      valid date lies strictly between the two. */
  lemma {:induction false} NextDayIsSuccessor(d: Date, e: Date)
    requires Valid(d) && NextDay(d).Ok? && Valid(e)
    ensures Before(d, NextDay(d).value)
    ensures !(Before(d, e) && Before(e, NextDay(d).value))
  {
    var n := NextDay(d).value;
    NextDayIsOneDayLater(d);
    if Before(d, e) && Before(e, n) {
      OrdinalOrder(d, e);
      OrdinalOrder(e, n);
    }
  }

  // ---------------------------------------------------------------------------
  // strptime(text, "%d.%m.%Y") in its strict two-digit form, and its inverse.

  predicate IsDigit(c: char) {
    '0' <= c <= '9'
  }

  function DigitChar(n: int): char
    requires 0 <= n <= 9
  {
    (('0' as int) + n) as char
  }

  function DigitValue(c: char): int
    requires IsDigit(c)
  {
    (c as int) - ('0' as int)
  }

  /** The number written by the decimal digits `s`. */
  function DigitsValue(s: string): int
    requires forall i :: 0 <= i < |s| ==> IsDigit(s[i])
  {
    if |s| == 0 then 0 else 10 * DigitsValue(s[..|s| - 1]) + DigitValue(s[|s| - 1])
  }

  /** `n` written with exactly `width` decimal digits, zero-padded. */
  function PadDigits(n: int, width: nat): (s: string)
    requires 0 <= n
    ensures |s| == width
    ensures forall i :: 0 <= i < |s| ==> IsDigit(s[i])
  {
    if width == 0 then [] else PadDigits(n / 10, width - 1) + [DigitChar(n % 10)]
  }

  function Pow10(k: nat): nat {
    if k == 0 then 1 else 10 * Pow10(k - 1)
  }

  lemma {:induction false} PadDigitsValue(n: int, width: nat)
    requires 0 <= n < Pow10(width)
    ensures DigitsValue(PadDigits(n, width)) == n
  {
    if width > 0 {
      var s := PadDigits(n, width);
      PadDigitsValue(n / 10, width - 1);
      assert s[..|s| - 1] == PadDigits(n / 10, width - 1);
    }
  }

  lemma {:induction false} DigitsValueRange(s: string)
    requires forall i :: 0 <= i < |s| ==> IsDigit(s[i])
    ensures 0 <= DigitsValue(s) < Pow10(|s|)
  {
    if |s| > 0 {
      DigitsValueRange(s[..|s| - 1]);
    }
  }

  lemma {:induction false} DigitsValuePad(s: string)
    requires forall i :: 0 <= i < |s| ==> IsDigit(s[i])
    ensures DigitsValue(s) >= 0 && PadDigits(DigitsValue(s), |s|) == s
  {
    if |s| > 0 {
      var init := s[..|s| - 1];
      DigitsValuePad(init);
      DigitsValueRange(init);
      var v := DigitsValue(s);
      assert v / 10 == DigitsValue(init) && v % 10 == DigitValue(s[|s| - 1]);
      assert s == init + [s[|s| - 1]];
    }
  }

  /** `date.strftime("%d.%m.%Y")` */
  function FormatDate(d: Date): (s: string)
    requires Valid(d)
    ensures |s| == 10
  {
    PadDigits(d.day, 2) + "." + PadDigits(d.month, 2) + "." + PadDigits(d.year, 4)
  }

  /** A formatted date starts and ends with a decimal digit. */
  lemma {:induction false} FormatDateEnds(d: Date)
    requires Valid(d)
    ensures IsDigit(FormatDate(d)[0]) && IsDigit(FormatDate(d)[9])
  {
    var dd := PadDigits(d.day, 2);
    var yyyy := PadDigits(d.year, 4);
    assert FormatDate(d)[0] == dd[0];
    assert FormatDate(d)[9] == yyyy[3];
  }

  /** `s` has the shape `dd.mm.yyyy` with decimal digits. */
  predicate IsDateShape(s: string) {
    && |s| == 10 && s[2] == '.' && s[5] == '.'
    && (forall i :: 0 <= i < 2 ==> IsDigit(s[i]))
    && (forall i :: 3 <= i < 5 ==> IsDigit(s[i]))
    && (forall i :: 6 <= i < 10 ==> IsDigit(s[i]))
  }

  /** `datetime.strptime(s, "%d.%m.%Y").date()`, without the one-digit day and
      month forms `strptime` also accepts. */
  function ParseDate(s: string): (r: Result<Date, Error>)
    ensures r.Ok? ==> Valid(r.value) && FormatDate(r.value) == s
    ensures r.Err? ==> r.error == BadDate(s)
  {
    if !IsDateShape(s) then Err(BadDate(s))
    else
      var d := Date(DigitsValue(s[6..10]), DigitsValue(s[3..5]), DigitsValue(s[0..2]));
      if !Valid(d) then Err(BadDate(s))
      else
        DigitsValuePad(s[0..2]);
        DigitsValuePad(s[3..5]);
        DigitsValuePad(s[6..10]);
        assert s == s[0..2] + "." + s[3..5] + "." + s[6..10];
        Ok(d)
  }

  /** Every valid date parses back from its `dd.mm.yyyy` text: together with
      the contract of `ParseDate`, the parse fails exactly on texts that are
      not the format of a valid date. */
  lemma {:induction false} ParseFormatRoundTrip(d: Date)
    requires Valid(d)
    ensures ParseDate(FormatDate(d)) == Ok(d)
  {
    var s := FormatDate(d);
    assert s[0..2] == PadDigits(d.day, 2);
    assert s[3..5] == PadDigits(d.month, 2);
    assert s[6..10] == PadDigits(d.year, 4);
    assert Pow10(2) == 100 && Pow10(4) == 10000;
    PadDigitsValue(d.day, 2);
    PadDigitsValue(d.month, 2);
    PadDigitsValue(d.year, 4);
  }

  /** A text is accepted exactly when it is the `dd.mm.yyyy` text of a valid date. */
  lemma {:induction false} ParseDateAccepts(s: string)
    ensures ParseDate(s).Ok? <==> exists d :: Valid(d) && FormatDate(d) == s
  {
    if d :| Valid(d) && FormatDate(d) == s {
      ParseFormatRoundTrip(d);
    }
  }
}
