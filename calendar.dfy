/**
 * Local calendar dates at day granularity, as a JavaScript `Date` presents
 * them through `getFullYear`, `getMonth` (0 = January) and `getDate` (1-based).
 *
 * Day numbers count days from 1970-01-01 (day 0) in the proleptic Gregorian
 * calendar, following the `DayFromYear` and `MakeDay` abstract operations of
 * the ECMAScript language specification (ECMA-262). `MakeDay` accepts any
 * month and any day of the month and lets them roll over, which is what the
 * `Date` setters do.
 */
module Calendar {

  predicate IsLeapYear(y: int)
  {
    y % 4 == 0 && (y % 100 != 0 || y % 400 == 0)
  }

  function DaysInYear(y: int): (n: int)
    ensures n == 365 || n == 366
    ensures n == 366 <==> IsLeapYear(y)
  {
    if IsLeapYear(y) then 366 else 365
  }

  /** Length of month `m` (0 = January) of year `y`. */
  function DaysInMonth(y: int, m: int): (n: int)
    requires 0 <= m < 12
    ensures 28 <= n <= 31
    ensures m == 1 ==> (n == 29 <==> IsLeapYear(y))
  {
    if m == 1 then (if IsLeapYear(y) then 29 else 28)
    else [31, 28, 31, 30, 31, 30, 31, 31, 30, 31, 30, 31][m]
  }

  /** Days of year `y` that come before the first of month `m`; `m == 12` gives the whole year. */
  function DaysBeforeMonth(y: int, m: int): (n: int)
    requires 0 <= m <= 12
    ensures 0 <= n <= DaysInYear(y)
    ensures m == 12 ==> n == DaysInYear(y)
    ensures m < 12 ==> n + DaysInMonth(y, m) <= DaysInYear(y)
  {
    [0, 31, 59, 90, 120, 151, 181, 212, 243, 273, 304, 334, 365][m] + (if m >= 2 && IsLeapYear(y) then 1 else 0)
  }

  /** Day number of 1 January of year `y`: whole years counted from 1970, forwards or backwards. */
  function DayFromYear(y: int): (day: int)
    ensures day == 0 <==> y == 1970
    ensures day > 0 <==> y > 1970
    decreases if y < 1970 then 1970 - y else y - 1970
  {
    if y == 1970 then 0
    else if y > 1970 then DayFromYear(y - 1) + DaysInYear(y - 1)
    else DayFromYear(y + 1) - DaysInYear(y)
  }

  /** Day number of day `date` (which may overflow) of month `m` of year `y`. */
  function DayOf(y: int, m: int, date: int): int
    requires 0 <= m < 12
  {
    DayFromYear(y) + DaysBeforeMonth(y, m) + date - 1
  }

  /** Day number of day `date` of month `month` of year `year`; both may overflow their range. */
  function MakeDay(year: int, month: int, date: int): (day: int)
    ensures 0 <= month < 12 ==> day == DayOf(year, month, date)
    ensures -12 <= month < 0 ==> day == DayOf(year - 1, month + 12, date)
  {
    DayOf(year + month / 12, month % 12, date)
  }

  /** Length of month `month` counted from January of `year`, for any `month`. */
  function MonthLength(year: int, month: int): (n: int)
    ensures 28 <= n <= 31
  {
    DaysInMonth(year + month / 12, month % 12)
  }

  /**
   * Length of the year that starts on the current day of month `m` of year `y`:
   * it holds 29 February of `y` when `m` is January or February, and that of
   * `y + 1` otherwise.
   */
  function YearLengthFrom(y: int, m: int): (n: int)
    ensures n == 365 || n == 366
  {
    if m < 2 then DaysInYear(y) else DaysInYear(y + 1)
  }

  /** Each month starts where the previous one ends. */
  lemma DaysBeforeMonthStep(y: int, m: int)
    requires 0 <= m < 12
    ensures DaysBeforeMonth(y, m + 1) == DaysBeforeMonth(y, m) + DaysInMonth(y, m)
  {
  }

  /** The count of multiples of 4 below a year grows by one exactly at a multiple of 4. */
  lemma QuadrennialStep(y: int)
    ensures (y - 1968) / 4 == (y - 1969) / 4 + (if y % 4 == 0 then 1 else 0)
  {
    var q, r := (y - 1969) / 4, (y - 1969) % 4;
    if r == 3 {
      assert y - 1968 == 4 * (q + 1) && y == 4 * (q + 493);
    } else {
      assert y - 1968 == 4 * q + (r + 1) && y == 4 * (q + 492) + (r + 1);
    }
  }

  /** The same for centuries. */
  lemma CenturyStep(y: int)
    ensures (y - 1900) / 100 == (y - 1901) / 100 + (if y % 100 == 0 then 1 else 0)
  {
    var q, r := (y - 1901) / 100, (y - 1901) % 100;
    if r == 99 {
      assert y - 1900 == 100 * (q + 1) && y == 100 * (q + 20);
    } else {
      assert y - 1900 == 100 * q + (r + 1) && y == 100 * (q + 19) + (r + 1);
    }
  }

  /** The same for 400-year cycles. */
  lemma CycleStep(y: int)
    ensures (y - 1600) / 400 == (y - 1601) / 400 + (if y % 400 == 0 then 1 else 0)
  {
    var q, r := (y - 1601) / 400, (y - 1601) % 400;
    if r == 399 {
      assert y - 1600 == 400 * (q + 1) && y == 400 * (q + 5);
    } else {
      assert y - 1600 == 400 * q + (r + 1) && y == 400 * (q + 4) + (r + 1);
    }
  }

  /** Consecutive years start `DaysInYear` days apart. */
  lemma DayFromYearStep(y: int)
    ensures DayFromYear(y + 1) == DayFromYear(y) + DaysInYear(y)
  {
  }

  /** The closed form of ECMA-262 `DayFromYear`, which counts leap years with three floor divisions. */
  function DayFromYearFormula(y: int): int
  {
    365 * (y - 1970) + (y - 1969) / 4 - (y - 1901) / 100 + (y - 1601) / 400
  }

  /** Every fourth century year is a century year. */
  lemma CycleYearIsCentury(y: int)
    requires y % 400 == 0
    ensures y % 100 == 0
  {
    var q := y / 400;
    assert y == 400 * q;
    assert y / 100 == 4 * q;
  }

  /** Every century year is a fourth year. */
  lemma CenturyYearIsQuadrennial(y: int)
    requires y % 100 == 0
    ensures y % 4 == 0
  {
    var q := y / 100;
    assert y == 100 * q;
    assert y / 4 == 25 * q;
  }

  /** A year's length counted by the three leap-year rules. */
  lemma DaysInYearByRules(y: int)
    ensures DaysInYear(y) == 365 + (if y % 4 == 0 then 1 else 0) - (if y % 100 == 0 then 1 else 0) + (if y % 400 == 0 then 1 else 0)
  {
    if y % 400 == 0 {
      CycleYearIsCentury(y);
    }
    if y % 100 == 0 {
      CenturyYearIsQuadrennial(y);
    }
  }

  /** The closed form grows by one year's length per year, as the year count does. */
  lemma DayFromYearFormulaStep(y: int)
    ensures DayFromYearFormula(y + 1) == DayFromYearFormula(y) + DaysInYear(y)
  {
    QuadrennialStep(y);
    CenturyStep(y);
    CycleStep(y);
    DaysInYearByRules(y);
    assert y + 1 - 1969 == y - 1968 && y + 1 - 1901 == y - 1900 && y + 1 - 1601 == y - 1600;
  }

  /** Counting years one by one agrees with the closed form of ECMA-262. */
  lemma {:induction false} DayFromYearClosedForm(y: int)
    ensures DayFromYear(y) == DayFromYearFormula(y)
    decreases if y < 1970 then 1970 - y else y - 1970
  {
    if y > 1970 {
      DayFromYearClosedForm(y - 1);
      DayFromYearFormulaStep(y - 1);
    } else if y < 1970 {
      DayFromYearClosedForm(y + 1);
      DayFromYearFormulaStep(y);
    }
  }

  /** Moving to the next month moves a day forward by the length of the current month. */
  lemma MakeDayNextMonth(year: int, month: int, date: int)
    ensures MakeDay(year, month + 1, date) == MakeDay(year, month, date) + MonthLength(year, month)
  {
    var y, m := year + month / 12, month % 12;
    if m == 11 {
      assert (month + 1) / 12 == month / 12 + 1 && (month + 1) % 12 == 0;
      DayFromYearStep(y);
    } else {
      assert (month + 1) / 12 == month / 12 && (month + 1) % 12 == m + 1;
    }
  }

  /** Moving to the same month of the next year moves a day forward by a year's length. */
  lemma MakeDayNextYear(year: int, month: int, date: int)
    requires 0 <= month < 12
    ensures MakeDay(year + 1, month, date) == MakeDay(year, month, date) + YearLengthFrom(year, month)
  {
    DayFromYearStep(year);
  }

  /** A month index out of `0..11` is the same day in a month of another year. */
  lemma MakeDayMonthCarry(year: int, month: int, date: int)
    ensures MakeDay(year, month, date) == DayOf(year + month / 12, month % 12, date)
    ensures 0 <= month < 12 ==> MakeDay(year, month, date) == DayOf(year, month, date)
  {
  }

  /** Rolling a month's overflow into the next month names the same day. */
  lemma DayOfCarry(year: int, month: int, date: int)
    requires 0 <= month < 12
    ensures month < 11 ==> DayOf(year, month + 1, date - DaysInMonth(year, month)) == DayOf(year, month, date)
    ensures month == 11 ==> DayOf(year + 1, 0, date - DaysInMonth(year, month)) == DayOf(year, month, date)
  {
    if month == 11 {
      DayFromYearStep(year);
    } else {
      DaysBeforeMonthStep(year, month);
    }
  }

  /** Later years start at least a whole year later. */
  lemma {:induction false} DayFromYearIncreasing(y: int, z: int)
    requires y < z
    ensures DayFromYear(y) + DaysInYear(y) <= DayFromYear(z)
    decreases z - y
  {
    DayFromYearStep(y);
    if y + 1 < z {
      DayFromYearIncreasing(y + 1, z);
    }
  }

  /** Later months of a year start at least a whole month later. */
  lemma {:induction false} DaysBeforeMonthIncreasing(y: int, m: int, n: int)
    requires 0 <= m < n <= 12
    ensures DaysBeforeMonth(y, m) + DaysInMonth(y, m) <= DaysBeforeMonth(y, n)
    decreases n - m
  {
    DaysBeforeMonthStep(y, m);
    if m + 1 < n {
      DaysBeforeMonthIncreasing(y, m + 1, n);
    }
  }

  /** Fields in range name a day of their own year. */
  lemma DayOfWithinYear(y: int, m: int, d: int)
    requires 0 <= m < 12 && 1 <= d <= DaysInMonth(y, m)
    ensures DayFromYear(y) <= DayOf(y, m, d) < DayFromYear(y) + DaysInYear(y)
  {
  }

  /** Fields in range are determined by the day they name: no two valid dates share a day number. */
  lemma DayOfInjective(y1: int, m1: int, d1: int, y2: int, m2: int, d2: int)
    requires 0 <= m1 < 12 && 1 <= d1 <= DaysInMonth(y1, m1)
    requires 0 <= m2 < 12 && 1 <= d2 <= DaysInMonth(y2, m2)
    requires DayOf(y1, m1, d1) == DayOf(y2, m2, d2)
    ensures y1 == y2 && m1 == m2 && d1 == d2
  {
    DayOfWithinYear(y1, m1, d1);
    DayOfWithinYear(y2, m2, d2);
    if y1 < y2 {
      DayFromYearIncreasing(y1, y2);
      assert false;
    } else if y2 < y1 {
      DayFromYearIncreasing(y2, y1);
      assert false;
    }
    if m1 < m2 {
      DaysBeforeMonthIncreasing(y1, m1, m2);
      assert false;
    } else if m2 < m1 {
      DaysBeforeMonthIncreasing(y1, m2, m1);
      assert false;
    }
  }

  /**
   * The fields of the same day with the day of the month brought into
   * `1..DaysInMonth`: whole months are borrowed while it is below 1 and
   * carried while it exceeds the month's length.
   */
  method RollOver(y0: int, m0: int, d0: int) returns (y: int, m: int, d: int)
    requires 0 <= m0 < 12
    ensures 0 <= m < 12 && 1 <= d <= DaysInMonth(y, m)
    ensures DayOf(y, m, d) == DayOf(y0, m0, d0)
  {
    y, m, d := y0, m0, d0;
    while d < 1
      invariant 0 <= m < 12
      invariant DayOf(y, m, d) == DayOf(y0, m0, d0)
      decreases -d
    {
      if m == 0 {
        y, m := y - 1, 11;
      } else {
        m := m - 1;
      }
      DayOfCarry(y, m, d + DaysInMonth(y, m));
      d := d + DaysInMonth(y, m);
    }
    while d > DaysInMonth(y, m)
      invariant 0 <= m < 12 && 1 <= d
      invariant DayOf(y, m, d) == DayOf(y0, m0, d0)
      decreases d
    {
      DayOfCarry(y, m, d);
      d := d - DaysInMonth(y, m);
      if m == 11 {
        y, m := y + 1, 0;
      } else {
        m := m + 1;
      }
    }
  }

  /**
   * A local date as a JavaScript `Date` holds it, reduced to its calendar
   * fields. `Valid` says that the fields name a real day; the setters store
   * what they are given and then roll any overflow into the next or previous
   * months, as `Date` does.
   */
  class LocalDate {
    var year: int
    var month: int
    var date: int

    ghost predicate Valid()
      reads this
    {
      0 <= month < 12 && 1 <= date <= DaysInMonth(year, month)
    }

    /** The day number this date names. */
    function DayNumber(): int
      requires Valid()
      reads this
    {
      DayOf(year, month, date)
    }

    /** `new Date(other)`: an independent copy. */
    constructor Copy(other: LocalDate)
      requires other.Valid()
      ensures Valid() && year == other.year && month == other.month && date == other.date
    {
      year, month, date := other.year, other.month, other.date;
    }

    /** Rolls a day of the month outside `1..DaysInMonth` into the neighbouring months. */
    method Normalize()
      requires 0 <= month < 12
      modifies this
      ensures Valid() && DayNumber() == old(DayOf(year, month, date))
      ensures old(1 <= date <= DaysInMonth(year, month)) ==> year == old(year) && month == old(month) && date == old(date)
    {
      if !(1 <= date <= DaysInMonth(year, month)) {
        year, month, date := RollOver(year, month, date);
      }
    }

    /** `setDate(n)`: day `n` of the current month, rolled over when out of range. */
    method SetDate(n: int)
      requires Valid()
      modifies this
      ensures Valid() && DayNumber() == DayOf(old(year), old(month), n)
      ensures 1 <= n <= DaysInMonth(old(year), old(month)) ==> year == old(year) && month == old(month) && date == n
    {
      date := n;
      Normalize();
    }

    /** `setMonth(m)`: the current day of month `m` of the current year, `m` rolling into other years. */
    method SetMonth(m: int)
      requires Valid()
      modifies this
      ensures Valid() && DayNumber() == MakeDay(old(year), m, old(date))
      ensures old(date) <= DaysInMonth(old(year) + m / 12, m % 12) ==>
                year == old(year) + m / 12 && month == m % 12 && date == old(date)
    {
      MakeDayMonthCarry(year, m, date);
      year, month := year + m / 12, m % 12;
      Normalize();
    }

    /** `setFullYear(y)`: the current month and day of year `y`; 29 February rolls to 1 March. */
    method SetFullYear(y: int)
      requires Valid()
      modifies this
      ensures Valid() && DayNumber() == DayOf(y, old(month), old(date))
      ensures old(date) <= DaysInMonth(y, old(month)) ==> year == y && month == old(month) && date == old(date)
    {
      year := y;
      Normalize();
    }
  }
}
