/** Proleptic Gregorian calendar dates, as Python's `datetime.date` holds them,
    with the two pieces of arithmetic the due-date jobs use:
    `date + timedelta(days = n)` (AddDays) and
    `date + relativedelta(months = k)` from dateutil (AddMonths). */
module Calendar {
  import opened Wrappers

  /** `datetime.MINYEAR` and `datetime.MAXYEAR`. */
  const MinYear := 1
  const MaxYear := 9999

  /** Ordinal of 9999-12-31, the last day a `date` can hold. */
  const MaxOrdinal := 3652059

  datatype Date = Date(year: int, month: int, day: int)

  function Min(a: int, b: int): int {
    if a <= b then a else b
  }

  /** The Gregorian leap-year rule (`calendar.isleap`). */
  predicate IsLeapYear(y: int) {
    y % 4 == 0 && (y % 100 != 0 || y % 400 == 0)
  }

  function DaysInMonth(y: int, m: int): (n: int)
    requires 1 <= m <= 12
    ensures 28 <= n <= 31
    ensures m == 2 ==> (n == 29 <==> IsLeapYear(y))
  {
    if m == 2 then (if IsLeapYear(y) then 29 else 28)
    else if m == 4 || m == 6 || m == 9 || m == 11 then 30
    else 31
  }

  function DaysInYear(y: int): int {
    if IsLeapYear(y) then 366 else 365
  }

  /** A date a `datetime.date` object can represent. */
  predicate Valid(d: Date) {
    && MinYear <= d.year <= MaxYear
    && 1 <= d.month <= 12
    && 1 <= d.day <= DaysInMonth(d.year, d.month)
  }

  /** Python's date comparison: lexicographic on (year, month, day). */
  predicate Before(a: Date, b: Date) {
    || a.year < b.year
    || (a.year == b.year && a.month < b.month)
    || (a.year == b.year && a.month == b.month && a.day < b.day)
  }

  // ---------------------------------------------------------------------
  // Ordinals: day 1 is 0001-01-01, as in `date.toordinal`.
  // ---------------------------------------------------------------------

  /** Days in the years strictly before `y`. */
  function DaysBeforeYear(y: int): int
    requires y >= 1
  {
    var p := y - 1;
    p * 365 + p / 4 - p / 100 + p / 400
  }

  /** Days in the months of year `y` strictly before month `m`. */
  function DaysBeforeMonth(y: int, m: int): int
    requires 1 <= m <= 12
  {
    var cumulative := [0, 31, 59, 90, 120, 151, 181, 212, 243, 273, 304, 334];
    cumulative[m - 1] + (if m > 2 && IsLeapYear(y) then 1 else 0)
  }

  /** `date.toordinal`: the day's position counted from 0001-01-01. */
  function ToOrdinal(d: Date): (n: int)
    requires Valid(d)
    ensures DaysBeforeYear(d.year) < n <= DaysBeforeYear(d.year) + DaysInYear(d.year)
    ensures 1 <= n <= MaxOrdinal
  {
    assert DaysBeforeMonth(d.year, d.month) + d.day <= DaysInYear(d.year) by {
      DaysBeforeMonthStep(d.year, 12);
      if d.month < 12 {
        DaysBeforeMonthGrows(d.year, d.month, 12);
      }
    }
    assert DaysBeforeYear(d.year) + DaysInYear(d.year) <= MaxOrdinal by {
      if d.year < MaxYear {
        DaysBeforeYearGrows(d.year, MaxYear + 1);
      } else {
        DaysBeforeYearStep(d.year);
      }
    }
    DaysBeforeYear(d.year) + DaysBeforeMonth(d.year, d.month) + d.day
  }

  lemma DaysBeforeYearStep(y: int)
    requires y >= 1
    ensures DaysBeforeYear(y + 1) == DaysBeforeYear(y) + DaysInYear(y)
  {
    assert y / 4 == (y - 1) / 4 + (if y % 4 == 0 then 1 else 0);
    assert y / 100 == (y - 1) / 100 + (if y % 100 == 0 then 1 else 0);
    assert y / 400 == (y - 1) / 400 + (if y % 400 == 0 then 1 else 0);
  }

  lemma {:induction false} DaysBeforeYearGrows(a: int, b: int)
    requires 1 <= a < b
    ensures DaysBeforeYear(a) + DaysInYear(a) <= DaysBeforeYear(b)
    decreases b - a
  {
    DaysBeforeYearStep(a);
    if a + 1 < b {
      DaysBeforeYearGrows(a + 1, b);
    }
  }

  lemma DaysBeforeMonthStep(y: int, m: int)
    requires 1 <= m <= 12
    ensures m < 12 ==> DaysBeforeMonth(y, m + 1) == DaysBeforeMonth(y, m) + DaysInMonth(y, m)
    ensures m == 12 ==> DaysBeforeMonth(y, m) + DaysInMonth(y, m) == DaysInYear(y)
  {
  }

  lemma {:induction false} DaysBeforeMonthGrows(y: int, m1: int, m2: int)
    requires 1 <= m1 < m2 <= 12
    ensures DaysBeforeMonth(y, m1) + DaysInMonth(y, m1) <= DaysBeforeMonth(y, m2)
    decreases m2 - m1
  {
    DaysBeforeMonthStep(y, m1);
    if m1 + 1 < m2 {
      DaysBeforeMonthGrows(y, m1 + 1, m2);
    }
  }

  /** The ordinal of a valid date falls inside its own year's block of days. */
  lemma OrdinalWithinYear(d: Date)
    requires Valid(d)
    ensures DaysBeforeYear(d.year) < ToOrdinal(d) <= DaysBeforeYear(d.year) + DaysInYear(d.year)
  {
    DaysBeforeMonthStep(d.year, 12);
    if d.month < 12 {
      DaysBeforeMonthGrows(d.year, d.month, 12);
    }
  }

  lemma BeforeHasSmallerOrdinal(a: Date, b: Date)
    requires Valid(a) && Valid(b) && Before(a, b)
    ensures ToOrdinal(a) < ToOrdinal(b)
  {
    if a.year < b.year {
      OrdinalWithinYear(a);
      OrdinalWithinYear(b);
      DaysBeforeYearGrows(a.year, b.year);
    } else if a.month < b.month {
      DaysBeforeMonthGrows(a.year, a.month, b.month);
    }
  }

  /** Date order and ordinal order agree: `toordinal` is an order embedding. */
  lemma BeforeIffOrdinalLess(a: Date, b: Date)
    requires Valid(a) && Valid(b)
    ensures Before(a, b) <==> ToOrdinal(a) < ToOrdinal(b)
    ensures a == b <==> ToOrdinal(a) == ToOrdinal(b)
  {
    if Before(a, b) {
      BeforeHasSmallerOrdinal(a, b);
    } else if Before(b, a) {
      BeforeHasSmallerOrdinal(b, a);
    }
  }

  // ---------------------------------------------------------------------
  // From an ordinal back to a date (`date.fromordinal`).
  // ---------------------------------------------------------------------

  /** The year holding day `k`, searching upwards from year `y`. */
  function YearFrom(k: int, y: int): (yr: int)
    requires 1 <= y && DaysBeforeYear(y) < k
    ensures y <= yr
    ensures DaysBeforeYear(yr) < k <= DaysBeforeYear(yr) + DaysInYear(yr)
    decreases k - DaysBeforeYear(y)
  {
    if k <= DaysBeforeYear(y) + DaysInYear(y) then y
    else
      DaysBeforeYearStep(y);
      YearFrom(k, y + 1)
  }

  /** The month of year `y` holding its `r`-th day, searching upwards from month `m`. */
  function MonthFrom(y: int, r: int, m: int): (mo: int)
    requires 1 <= m <= 12
    requires DaysBeforeMonth(y, m) < r <= DaysInYear(y)
    ensures m <= mo <= 12
    ensures DaysBeforeMonth(y, mo) < r <= DaysBeforeMonth(y, mo) + DaysInMonth(y, mo)
    decreases 12 - m
  {
    DaysBeforeMonthStep(y, m);
    if r <= DaysBeforeMonth(y, m) + DaysInMonth(y, m) then m
    else MonthFrom(y, r, m + 1)
  }

  /** `date.fromordinal(k)`: the one valid date whose ordinal is `k`. */
  function FromOrdinal(k: int): (d: Date)
    requires 1 <= k <= MaxOrdinal
    ensures Valid(d) && ToOrdinal(d) == k
  {
    var y := YearFrom(k, 1);
    assert y <= MaxYear by {
      if y > MaxYear {
        DaysBeforeYearGrows(MaxYear + 1, y);
      }
    }
    var r := k - DaysBeforeYear(y);
    var m := MonthFrom(y, r, 1);
    Date(y, m, r - DaysBeforeMonth(y, m))
  }

  /** Every valid date has an ordinal `date.fromordinal` accepts. */
  lemma OrdinalInRange(d: Date)
    requires Valid(d)
    ensures 1 <= ToOrdinal(d) <= MaxOrdinal
  {
    OrdinalWithinYear(d);
    if d.year < MaxYear {
      DaysBeforeYearGrows(d.year, MaxYear + 1);
    }
  }

  /** Both round trips between dates and ordinals. */
  lemma OrdinalRoundTrip(d: Date, k: int)
    requires Valid(d) && 1 <= k <= MaxOrdinal
    ensures FromOrdinal(ToOrdinal(d)) == d
    ensures ToOrdinal(FromOrdinal(k)) == k
  {
    OrdinalInRange(d);
    BeforeIffOrdinalLess(FromOrdinal(ToOrdinal(d)), d);
  }

  // ---------------------------------------------------------------------
  // date + timedelta(days = n)
  // ---------------------------------------------------------------------

  /** `d + timedelta(days = n)`. CPython adds `n` to the ordinal and raises
      OverflowError when the sum leaves 1 .. MaxOrdinal; that error is `None`. */
  function AddDays(d: Date, n: int): (r: Option<Date>)
    requires Valid(d)
    ensures r.Some? <==> 1 <= ToOrdinal(d) + n <= MaxOrdinal
    ensures r.Some? ==> Valid(r.value) && ToOrdinal(r.value) == ToOrdinal(d) + n
  {
    var k := ToOrdinal(d) + n;
    if 1 <= k <= MaxOrdinal then Some(FromOrdinal(k)) else None
  }

  /** The calendar rule for "tomorrow", written independently of ordinals. */
  function NextDay(d: Date): Option<Date>
    requires Valid(d)
  {
    if d.day < DaysInMonth(d.year, d.month) then Some(Date(d.year, d.month, d.day + 1))
    else if d.month < 12 then Some(Date(d.year, d.month + 1, 1))
    else if d.year < MaxYear then Some(Date(d.year + 1, 1, 1))
    else None
  }

  lemma AddDaysZero(d: Date)
    requires Valid(d)
    ensures AddDays(d, 0) == Some(d)
  {
    OrdinalInRange(d);
    BeforeIffOrdinalLess(d, AddDays(d, 0).value);
  }

  /** Adding one day is exactly the calendar's "tomorrow". */
  lemma AddOneDayIsNextDay(d: Date)
    requires Valid(d)
    ensures AddDays(d, 1) == NextDay(d)
  {
    OrdinalInRange(d);
    DaysBeforeMonthStep(d.year, d.month);
    if d.day == DaysInMonth(d.year, d.month) && d.month == 12 {
      DaysBeforeYearStep(d.year);
    }
    match NextDay(d)
    case None =>
    case Some(e) =>
      BeforeIffOrdinalLess(AddDays(d, 1).value, e);
  }

  /** Moving `m` days and then `n` more is moving `m + n` days. */
  lemma AddDaysCompose(d: Date, m: int, n: int)
    requires Valid(d) && AddDays(d, m).Some?
    ensures AddDays(d, m + n) == AddDays(AddDays(d, m).value, n)
  {
  }

  /** A positive offset lands strictly later, a negative one strictly earlier. */
  lemma AddDaysMovesInDirection(d: Date, n: int)
    requires Valid(d) && AddDays(d, n).Some?
    ensures n > 0 ==> Before(d, AddDays(d, n).value)
    ensures n < 0 ==> Before(AddDays(d, n).value, d)
    ensures n == 0 <==> AddDays(d, n).value == d
  {
    BeforeIffOrdinalLess(d, AddDays(d, n).value);
  }

  /** Different offsets from the same day never reach the same date. */
  lemma AddDaysInjective(d: Date, m: int, n: int)
    requires Valid(d) && m != n
    ensures AddDays(d, m).Some? ==> AddDays(d, m) != AddDays(d, n)
  {
  }

  // ---------------------------------------------------------------------
  // date + relativedelta(months = k)
  // ---------------------------------------------------------------------

  /** Months since January of year 0; consecutive calendar months differ by one. */
  function MonthIndex(d: Date): int {
    d.year * 12 + d.month - 1
  }

  /** `d + relativedelta(months = k)` from dateutil. relativedelta folds
      `k / 12` into years and keeps `k % 12` as months; adding moves the
      month on, wraps past December into the next year, and clamps the day to
      the length of the target month. A year past MaxYear makes
      `date.replace` raise ValueError, which is `None` here. */
  function AddMonths(d: Date, k: nat): (r: Option<Date>)
    requires Valid(d)
    ensures r.Some? <==> MonthIndex(d) + k <= MaxYear * 12 + 11
    ensures r.Some? ==> Valid(r.value) && MonthIndex(r.value) == MonthIndex(d) + k
    ensures r.Some? ==> r.value.day <= d.day
    ensures r.Some? ==> r.value.day == d.day || r.value.day == DaysInMonth(r.value.year, r.value.month)
  {
    var year := d.year + k / 12;
    var month := d.month + k % 12;
    var y := if month > 12 then year + 1 else year;
    var m := if month > 12 then month - 12 else month;
    if y > MaxYear then None
    else Some(Date(y, m, Min(d.day, DaysInMonth(y, m))))
  }

  lemma LaterMonthIsLater(a: Date, b: Date)
    requires Valid(a) && Valid(b) && MonthIndex(a) < MonthIndex(b)
    ensures Before(a, b)
  {
  }

  /** Adding at least one month always lands strictly later. */
  lemma AddMonthsIsLater(d: Date, k: nat)
    requires Valid(d) && k >= 1 && AddMonths(d, k).Some?
    ensures Before(d, AddMonths(d, k).value)
  {
    LaterMonthIsLater(d, AddMonths(d, k).value);
  }

  /** One month on: the month advances by one, December wraps to January of
      the next year, the day is clamped, and only December 9999 fails. */
  lemma AddOneMonth(d: Date)
    requires Valid(d)
    ensures d.month < 12 ==>
      AddMonths(d, 1) == Some(Date(d.year, d.month + 1, Min(d.day, DaysInMonth(d.year, d.month + 1))))
    ensures d.month == 12 && d.year < MaxYear ==> AddMonths(d, 1) == Some(Date(d.year + 1, 1, d.day))
    ensures d.month == 12 && d.year == MaxYear ==> AddMonths(d, 1) == None
  {
  }

  /** Two single-month steps never end later in the month than one two-month
      jump, and agree with it whenever the first step did not clamp. */
  lemma TwoStepsVersusJump(d: Date)
    requires Valid(d) && AddMonths(d, 2).Some?
    ensures AddMonths(d, 1).Some? && AddMonths(AddMonths(d, 1).value, 1).Some?
    ensures
      var twice := AddMonths(AddMonths(d, 1).value, 1).value;
      var jump := AddMonths(d, 2).value;
      && MonthIndex(twice) == MonthIndex(jump)
      && twice.day <= jump.day
      && (AddMonths(d, 1).value.day == d.day ==> twice == jump)
  {
  }

  // Worked examples of month addition.

  lemma AddOneMonthExamples()
    ensures AddMonths(Date(2024, 1, 31), 1) == Some(Date(2024, 2, 29))
    ensures AddMonths(Date(2025, 1, 31), 1) == Some(Date(2025, 2, 28))
    ensures AddMonths(Date(2025, 5, 15), 1) == Some(Date(2025, 6, 15))
    ensures AddMonths(Date(2024, 12, 31), 1) == Some(Date(2025, 1, 31))
  {
  }

  lemma ClampingMakesStepsDiffer()
    ensures AddMonths(Date(2025, 1, 31), 2) == Some(Date(2025, 3, 31))
    ensures AddMonths(Date(2025, 2, 28), 1) == Some(Date(2025, 3, 28))
  {
  }

  lemma AddDaysExample()
    ensures AddDays(Date(2025, 6, 7), 3) == Some(Date(2025, 6, 10))
  {
    var d, e := Date(2025, 6, 7), Date(2025, 6, 10);
    assert ToOrdinal(e) == ToOrdinal(d) + 3;
    BeforeIffOrdinalLess(AddDays(d, 3).value, e);
  }
}
