/**
 * The parts of Python's `datetime.date` the bot uses: the proleptic Gregorian calendar,
 * `toordinal()` (so that `(a - b).days == a.toordinal() - b.toordinal()`), `weekday()`
 * (0 = Monday .. 6 = Sunday) and the `strftime` directives `%d` and `%b` in the C locale.
 */
module Calendar {
  import Text

  datatype CivilDate = CivilDate(year: int, month: int, day: int)

  predicate IsLeapYear(y: int) {
    y % 4 == 0 && (y % 100 != 0 || y % 400 == 0)
  }

  function DaysInMonth(y: int, m: int): (n: int)
    requires 1 <= m <= 12
    ensures 28 <= n <= 31
  {
    if m == 2 then (if IsLeapYear(y) then 29 else 28)
    else if m == 4 || m == 6 || m == 9 || m == 11 then 30
    else 31
  }

  function DaysInYear(y: int): int {
    if IsLeapYear(y) then 366 else 365
  }

  /** Python's `date`: years 1 through 9999 (MINYEAR, MAXYEAR), valid month and day. */
  predicate ValidDate(d: CivilDate) {
    1 <= d.year <= 9999 && 1 <= d.month <= 12 && 1 <= d.day <= DaysInMonth(d.year, d.month)
  }

  type Date = d: CivilDate | ValidDate(d) witness CivilDate(2022, 12, 2)

  const LastDate: CivilDate := CivilDate(9999, 12, 31)

  /** Days in the years before `y` (Python's `_days_before_year`); floor division, `y >= 1`. */
  function DaysBeforeYear(y: int): int
    requires y >= 1
  {
    var p := y - 1;
    p * 365 + p / 4 - p / 100 + p / 400
  }

  /** Days in the months of year `y` before month `m` (Python's `_days_before_month`). */
  function DaysBeforeMonth(y: int, m: int): int
    requires 1 <= m <= 12
  {
    if m == 1 then 0 else DaysBeforeMonth(y, m - 1) + DaysInMonth(y, m - 1)
  }

  /** `date.toordinal()`: 0001-01-01 is day 1. */
  function Ordinal(d: Date): int {
    DaysBeforeYear(d.year) + DaysBeforeMonth(d.year, d.month) + d.day
  }

  /** `date.weekday()`: 0 = Monday, 6 = Sunday (0001-01-01 was a Monday). */
  function Weekday(d: Date): (w: int)
    ensures 0 <= w < 7
  {
    (Ordinal(d) + 6) % 7
  }

  /** `d + timedelta(days=1)`; Python raises OverflowError past 9999-12-31. */
  function NextDay(d: Date): Date
    requires d != LastDate
  {
    if d.day < DaysInMonth(d.year, d.month) then CivilDate(d.year, d.month, d.day + 1)
    else if d.month < 12 then CivilDate(d.year, d.month + 1, 1)
    else CivilDate(d.year + 1, 1, 1)
  }

  lemma DaysInFullYear(y: int)
    ensures DaysBeforeMonth(y, 12) + DaysInMonth(y, 12) == DaysInYear(y)
  {
    var leap := if IsLeapYear(y) then 1 else 0;
    assert DaysBeforeMonth(y, 2) == 31;
    assert DaysBeforeMonth(y, 3) == 59 + leap;
    assert DaysBeforeMonth(y, 4) == 90 + leap;
    assert DaysBeforeMonth(y, 5) == 120 + leap;
    assert DaysBeforeMonth(y, 6) == 151 + leap;
    assert DaysBeforeMonth(y, 7) == 181 + leap;
    assert DaysBeforeMonth(y, 8) == 212 + leap;
    assert DaysBeforeMonth(y, 9) == 243 + leap;
    assert DaysBeforeMonth(y, 10) == 273 + leap;
    assert DaysBeforeMonth(y, 11) == 304 + leap;
    assert DaysBeforeMonth(y, 12) == 334 + leap;
  }

  lemma {:induction false} LeapDayIsCounted(y: int)
    requires y >= 1
    ensures DaysBeforeYear(y + 1) == DaysBeforeYear(y) + DaysInYear(y)
  {
    FloorStep4(y);
    FloorStep100(y);
    FloorStep400(y);
  }

  lemma FloorStep4(y: int)
    ensures y / 4 == (y - 1) / 4 + (if y % 4 == 0 then 1 else 0)
  {
  }

  lemma FloorStep100(y: int)
    ensures y / 100 == (y - 1) / 100 + (if y % 100 == 0 then 1 else 0)
  {
  }

  lemma FloorStep400(y: int)
    ensures y / 400 == (y - 1) / 400 + (if y % 400 == 0 then 1 else 0)
  {
  }

  /** The ordinal of the next day is one more: consecutive dates are consecutive day numbers. */
  lemma NextDayOrdinal(d: Date)
    requires d != LastDate
    ensures Ordinal(NextDay(d)) == Ordinal(d) + 1
  {
    if d.day == DaysInMonth(d.year, d.month) && d.month == 12 {
      DaysInFullYear(d.year);
      LeapDayIsCounted(d.year);
    }
  }

  /** The weekday advances by one, cyclically, from each day to the next. */
  lemma NextDayWeekday(d: Date)
    requires d != LastDate
    ensures Weekday(NextDay(d)) == (Weekday(d) + 1) % 7
  {
    NextDayOrdinal(d);
    SuccessorMod7(Ordinal(d) + 6);
  }

  /** Days a whole number of weeks apart fall on the same weekday. */
  lemma WeekdayPeriodic(a: Date, b: Date, q: int)
    requires Ordinal(b) == Ordinal(a) + 7 * q
    ensures Weekday(a) == Weekday(b)
  {
    AddWeeks(Ordinal(a) + 6, q);
  }

  lemma {:induction false} AddWeeks(x: int, q: int)
    ensures (x + 7 * q) % 7 == x % 7
    decreases if q < 0 then -q else q
  {
    if q > 0 {
      AddWeeks(x, q - 1);
      assert x + 7 * q == (x + 7 * (q - 1)) + 7;
    } else if q < 0 {
      AddWeeks(x, q + 1);
      assert x + 7 * q == (x + 7 * (q + 1)) - 7;
    }
  }

  lemma SuccessorMod7(a: int)
    ensures (a + 1) % 7 == (a % 7 + 1) % 7
  {
  }

  /** `strftime('%b')` in the C locale. */
  function MonthAbbreviation(m: int): (r: string)
    requires 1 <= m <= 12
    ensures |r| == 3
  {
    ["Jan", "Feb", "Mar", "Apr", "May", "Jun", "Jul", "Aug", "Sep", "Oct", "Nov", "Dec"][m - 1]
  }

  /** `strftime('%d')`: the day of the month as two zero-padded digits. */
  function TwoDigits(n: nat): (r: string)
    requires n < 100
    ensures |r| == 2
  {
    [Text.DigitChar(n / 10), Text.DigitChar(n % 10)]
  }
}
