/**
 * Gregorian calendar dates as Python's `datetime.date` has them: the month lengths
 * of `calendar.monthrange`, the ordering of `date` comparisons, `date - timedelta(days=1)`,
 * `date.replace` and `date.isoformat` / `date.fromisoformat`, and the month and quarter
 * arithmetic of the revenue schedule generator
 * (app/ASC606/revenue_schedule.py, `_add_months`, `_get_quarter_end`, `_get_next_quarter_start`).
 */
module Calendar {
  import opened Common
  import opened Text

  datatype Date = Date(year: int, month: int, day: int)

  /** Gregorian leap years, as `calendar.isleap` decides them. */
  predicate IsLeapYear(y: int) {
    y % 4 == 0 && (y % 100 != 0 || y % 400 == 0)
  }

  /** `calendar.monthrange(y, m)[1]`: the number of days in month `m` of year `y`. */
  function DaysInMonth(y: int, m: int): (n: int)
    requires 1 <= m <= 12
    ensures 28 <= n <= 31
    ensures n == 29 <==> m == 2 && IsLeapYear(y)
    ensures n == 28 <==> m == 2 && !IsLeapYear(y)
    ensures n == 30 <==> m == 4 || m == 6 || m == 9 || m == 11
  {
    if m == 2 then (if IsLeapYear(y) then 29 else 28)
    else if m == 4 || m == 6 || m == 9 || m == 11 then 30
    else 31
  }

  /** The dates `datetime.date(year, month, day)` accepts (the upper bound 9999 is not modelled). */
  predicate ValidDate(d: Date) {
    d.year >= 1 && 1 <= d.month <= 12 && 1 <= d.day <= DaysInMonth(d.year, d.month)
  }

  /** Python's `a < b` on dates: year, then month, then day. */
  predicate Before(a: Date, b: Date) {
    a.year < b.year || (a.year == b.year && (a.month < b.month || (a.month == b.month && a.day < b.day)))
  }

  /** Python's `a <= b` on dates. */
  predicate NotAfter(a: Date, b: Date) {
    Before(a, b) || a == b
  }

  /** The earlier of two dates: what Python's `if x > end: x = end` leaves in `x`. */
  function Earlier(a: Date, b: Date): (r: Date)
    ensures NotAfter(r, a) && NotAfter(r, b) && (r == a || r == b)
  {
    if Before(b, a) then b else a
  }

  /** Months elapsed since January of year 0: one step per calendar month. */
  function MonthIndex(d: Date): int {
    d.year * 12 + d.month - 1
  }

  /** A date in an earlier month is earlier. */
  lemma MonthIndexOrder(a: Date, b: Date)
    requires 1 <= a.month <= 12 && 1 <= b.month <= 12
    ensures MonthIndex(a) < MonthIndex(b) ==> Before(a, b)
  {
    if a.year > b.year {
      assert a.year * 12 >= b.year * 12 + 12;
    }
  }

  /** A date that is not after another is not in a later month. */
  lemma {:induction false} NotAfterMonthIndex(a: Date, b: Date)
    requires 1 <= a.month <= 12 && 1 <= b.month <= 12
    requires NotAfter(a, b)
    ensures MonthIndex(a) <= MonthIndex(b)
  {
    if a.year < b.year {
      assert a.year * 12 + 12 <= b.year * 12;
    }
  }

  /**
   * `_add_months(date_obj, months)`: the same day `months` calendar months later,
   * clamped to the last day of the target month.
   */
  function AddMonths(d: Date, months: nat): (r: Date)
    requires ValidDate(d)
    ensures ValidDate(r)
    ensures MonthIndex(r) == MonthIndex(d) + months
    ensures r.day == Min(d.day, DaysInMonth(r.year, r.month))
    ensures months >= 1 ==> Before(d, r)
  {
    var monthIndex := d.month - 1 + months;
    var year := d.year + monthIndex / 12;
    var month := monthIndex % 12 + 1;
    var r := Date(year, month, Min(d.day, DaysInMonth(year, month)));
    MonthIndexOrder(d, r);
    r
  }

  /** `date + timedelta(days=1)`. */
  function NextDay(d: Date): (r: Date)
    requires ValidDate(d)
    ensures ValidDate(r) && Before(d, r)
  {
    if d.day < DaysInMonth(d.year, d.month) then Date(d.year, d.month, d.day + 1)
    else if d.month < 12 then Date(d.year, d.month + 1, 1)
    else Date(d.year + 1, 1, 1)
  }

  /** `date - timedelta(days=1)`; Python raises on `date.min`, which the precondition excludes. */
  function PrevDay(d: Date): (r: Date)
    requires ValidDate(d) && d != Date(1, 1, 1)
    ensures ValidDate(r) && Before(r, d)
    ensures NextDay(r) == d
  {
    if d.day > 1 then Date(d.year, d.month, d.day - 1)
    else if d.month > 1 then Date(d.year, d.month - 1, DaysInMonth(d.year, d.month - 1))
    else Date(d.year - 1, 12, 31)
  }

  /**
   * `_add_months(date_obj, months)` for a month count of either sign: `None` when the
   * target year is before 1, where `date(year, month, day)` raises `ValueError`.
   */
  function AddMonthsBy(d: Date, months: int): (r: Option<Date>)
    requires ValidDate(d)
    ensures r.Some? <==> MonthIndex(d) + months >= 12
    ensures r.Some? ==> ValidDate(r.value) && MonthIndex(r.value) == MonthIndex(d) + months
    ensures months >= 0 ==> r == Some(AddMonths(d, months))
    ensures r.Some? && months < 0 ==> Before(r.value, d)
  {
    var monthIndex := d.month - 1 + months;
    var year := d.year + monthIndex / 12;
    var month := monthIndex % 12 + 1;
    if year < 1 then None
    else
      var r := Date(year, month, Min(d.day, DaysInMonth(year, month)));
      MonthIndexOrder(r, d);
      Some(r)
  }

  /** February 29, the one day `date.replace(year=...)` can lose. */
  predicate IsLeapDay(d: Date) {
    d.month == 2 && d.day == 29
  }

  /** The day after a date is the earliest date after it: nothing lies strictly between. */
  lemma NextDayIsSuccessor(a: Date, b: Date)
    requires ValidDate(a) && ValidDate(b) && Before(a, b)
    ensures NotAfter(NextDay(a), b)
  {
  }

  /** The day before a date is the latest date before it. */
  lemma PrevDayIsPredecessor(a: Date, b: Date)
    requires ValidDate(a) && ValidDate(b) && b != Date(1, 1, 1) && Before(a, b)
    ensures NotAfter(a, PrevDay(b))
  {
  }

  lemma BeforeTransitive(a: Date, b: Date, c: Date)
    requires Before(a, b) && NotAfter(b, c)
    ensures Before(a, c)
  {
  }

  /** The quarter (1 to 4) that a month falls in: `(month - 1) // 3 + 1`. */
  function QuarterOf(d: Date): (q: int)
    ensures 1 <= d.month <= 12 ==> 1 <= q <= 4 && 3 * q - 2 <= d.month <= 3 * q
  {
    (d.month - 1) / 3 + 1
  }

  /** `_get_quarter_end`: the last day of the quarter containing `d`, in the same year. */
  function QuarterEnd(d: Date): (r: Date)
    requires ValidDate(d)
    ensures ValidDate(r) && r.year == d.year && NotAfter(d, r)
    ensures QuarterOf(r) == QuarterOf(d) && r.month == 3 * QuarterOf(d)
    ensures r.day == DaysInMonth(r.year, r.month)
  {
    var q := QuarterOf(d);
    if q == 1 then Date(d.year, 3, 31)
    else if q == 2 then Date(d.year, 6, 30)
    else if q == 3 then Date(d.year, 9, 30)
    else Date(d.year, 12, 31)
  }

  /** `_get_next_quarter_start`: the first day of the next quarter; January 1 of the next year after Q4. */
  function NextQuarterStart(d: Date): (r: Date)
    requires ValidDate(d)
    ensures ValidDate(r) && Before(d, r) && r.day == 1
    ensures QuarterOf(d) < 4 ==> r.year == d.year && r.month == 3 * QuarterOf(d) + 1
    ensures QuarterOf(d) == 4 ==> r.year == d.year + 1 && r.month == 1
  {
    var q := QuarterOf(d);
    if q == 1 then Date(d.year, 4, 1)
    else if q == 2 then Date(d.year, 7, 1)
    else if q == 3 then Date(d.year, 10, 1)
    else Date(d.year + 1, 1, 1)
  }

  /** The quarter end is the day before the next quarter starts, so quarters tile the calendar. */
  lemma QuarterEndPrecedesNextQuarter(d: Date)
    requires ValidDate(d)
    ensures NextDay(QuarterEnd(d)) == NextQuarterStart(d)
  {
  }

  /** `date.replace(year=...)`: `None` when the day does not exist in that year (February 29). */
  function ReplaceYear(d: Date, year: int): (r: Option<Date>)
    requires ValidDate(d) && year >= 1
    ensures r.Some? <==> !(d.month == 2 && d.day == 29 && !IsLeapYear(year))
    ensures r.Some? ==> ValidDate(r.value) && r.value == Date(year, d.month, d.day)
  {
    if d.day <= DaysInMonth(year, d.month) then Some(Date(year, d.month, d.day)) else None
  }

  /** `date.replace(month=12, day=31)`: the last day of the date's year. */
  function YearEnd(d: Date): (r: Date)
    requires ValidDate(d)
    ensures ValidDate(r) && NotAfter(d, r) && r.year == d.year
    ensures NextDay(r) == Date(d.year + 1, 1, 1)
  {
    Date(d.year, 12, 31)
  }

  /** Two-digit, zero-padded rendering of `0 <= n < 100`. */
  function Digits2(n: nat): (s: string)
    requires n < 100
    ensures |s| == 2 && IsDigit(s[0]) && IsDigit(s[1])
  {
    [DigitChar(n / 10), DigitChar(n % 10)]
  }

  /** Four-digit, zero-padded rendering of `0 <= n < 10000`. */
  function Digits4(n: nat): (s: string)
    requires n < 10000
    ensures |s| == 4 && forall i :: 0 <= i < 4 ==> IsDigit(s[i])
  {
    Digits2(n / 100) + Digits2(n % 100)
  }

  /** `date.isoformat()`: `YYYY-MM-DD`. Years past 9999 do not exist in Python; they print unpadded here. */
  function IsoFormat(d: Date): (s: string)
    requires ValidDate(d)
    ensures d.year < 10000 ==> |s| == 10 && s[4] == '-' && s[7] == '-'
  {
    (if d.year < 10000 then Digits4(d.year) else NatToString(d.year))
      + "-" + Digits2(d.month) + "-" + Digits2(d.day)
  }

  /**
   * `fromisoformat(s)` for the `YYYY-MM-DD` form the engine writes: `None` is the `ValueError`
   * raised for a date that does not exist. Date-times and the basic `YYYYMMDD` form are also
   * `None` here, although `datetime.fromisoformat` accepts them.
   */
  function ParseIsoDate(s: string): (r: Option<Date>)
    ensures r.Some? ==> ValidDate(r.value)
  {
    if |s| == 10 && s[4] == '-' && s[7] == '-' && AllDigits(s[..4]) && AllDigits(s[5..7]) && AllDigits(s[8..]) then
      var d := Date(DigitsValue(s[..4]), DigitsValue(s[5..7]), DigitsValue(s[8..]));
      if ValidDate(d) then Some(d) else None
    else None
  }

  lemma Digits2Value(n: nat)
    requires n < 100
    ensures DigitsValue(Digits2(n)) == n
  {
    var s := Digits2(n);
    assert s[..1] == [DigitChar(n / 10)];
    assert DigitsValue(s[..1]) == n / 10;
  }

  lemma Digits4Value(n: nat)
    requires n < 10000
    ensures DigitsValue(Digits4(n)) == n
  {
    var s := Digits4(n);
    var hi, lo := Digits2(n / 100), Digits2(n % 100);
    Digits2Value(n / 100);
    Digits2Value(n % 100);
    assert s[..3] == hi + [lo[0]] && s[..3][..2] == hi;
    assert DigitsValue(s[..3]) == DigitsValue(hi) * 10 + DigitValue(lo[0]);
    assert DigitsValue(s) == (DigitsValue(hi) * 10 + DigitValue(lo[0])) * 10 + DigitValue(lo[1]);
    assert lo[..1] == [lo[0]];
    assert DigitsValue(lo) == DigitValue(lo[0]) * 10 + DigitValue(lo[1]);
  }

  /** What `isoformat` writes, `fromisoformat` reads back, for every date of years 1 to 9999. */
  lemma IsoRoundTrip(d: Date)
    requires ValidDate(d) && d.year < 10000
    ensures ParseIsoDate(IsoFormat(d)) == Some(d)
  {
    var s := IsoFormat(d);
    assert s[..4] == Digits4(d.year) && s[5..7] == Digits2(d.month) && s[8..] == Digits2(d.day);
    Digits4Value(d.year);
    Digits2Value(d.month);
    Digits2Value(d.day);
  }
}
