/** Proleptic Gregorian calendar dates, as Python's `datetime.date` keeps them:
    a (year, month, day) triple, compared as a tuple, and a day number
    ("ordinal", 0001-01-01 is day 1) used for `timedelta` arithmetic and
    for `weekday()`. */
module Calendar {

  datatype Date = Date(year: int, month: int, day: int)

  predicate IsLeapYear(y: int) {
    y % 4 == 0 && (y % 100 != 0 || y % 400 == 0)
  }

  function DaysInYear(y: int): int {
    if IsLeapYear(y) then 366 else 365
  }

  function DaysInMonth(y: int, m: int): (n: int)
    requires 1 <= m <= 12
    ensures 28 <= n <= 31
    ensures n == 29 <==> m == 2 && IsLeapYear(y)
    ensures n == 28 <==> m == 2 && !IsLeapYear(y)
  {
    if m == 2 then (if IsLeapYear(y) then 29 else 28)
    else if m == 4 || m == 6 || m == 9 || m == 11 then 30
    else 31
  }

  /** Days of year `y` that come before the first of month `m`. */
  function DaysBeforeMonth(y: int, m: int): int
    requires 1 <= m <= 12
  {
    [0, 31, 59, 90, 120, 151, 181, 212, 243, 273, 304, 334][m - 1]
      + (if m > 2 && IsLeapYear(y) then 1 else 0)
  }

  /** Days before January 1st of year `y`, counting from 0001-01-01. */
  function DaysBeforeYear(y: int): int {
    var p := y - 1;
    p * 365 + p / 4 - p / 100 + p / 400
  }

  /** A date `datetime.date` accepts (its upper year bound is not modelled). */
  predicate IsValid(d: Date) {
    d.year >= 1 && 1 <= d.month <= 12 && 1 <= d.day <= DaysInMonth(d.year, d.month)
  }

  /** `date.toordinal()`. */
  function Ordinal(d: Date): int
    requires IsValid(d)
  {
    DaysBeforeYear(d.year) + DaysBeforeMonth(d.year, d.month) + d.day
  }

  /** `date.weekday()` of the date with ordinal `n`: Monday is 0, Sunday is 6. */
  function Weekday(n: int): (w: int)
    ensures 0 <= w < 7
  {
    (n + 6) % 7
  }

  /** `a <= b` on dates: tuple comparison of (year, month, day). */
  predicate OnOrBefore(a: Date, b: Date) {
    a.year < b.year
    || (a.year == b.year && (a.month < b.month || (a.month == b.month && a.day <= b.day)))
  }

  // ---------------------------------------------------------------------------
  // Months counted as one integer, so that "the next month" is "+ 1"

  /** The number of the month of `d`, counting every month since year 0. */
  function MonthIndex(d: Date): int {
    12 * d.year + d.month - 1
  }

  function YearOf(k: int): int {
    k / 12
  }

  function MonthOf(k: int): (m: int)
    ensures 1 <= m <= 12
  {
    k % 12 + 1
  }

  /** The length of month number `k`. */
  function MonthLength(k: int): (n: int)
    ensures 28 <= n <= 31
  {
    DaysInMonth(YearOf(k), MonthOf(k))
  }

  lemma MonthIndexParts(d: Date)
    requires 1 <= d.month <= 12
    ensures YearOf(MonthIndex(d)) == d.year && MonthOf(MonthIndex(d)) == d.month
  {
    var k := MonthIndex(d);
    assert k == 12 * d.year + (d.month - 1);
    assert 0 <= d.month - 1 < 12;
  }

  lemma MonthIndexOf(k: int)
    ensures MonthIndex(Date(YearOf(k), MonthOf(k), 1)) == k
  {
  }

  /** `d.replace(month=d.month + 1)`, or `d.replace(year=d.year + 1, month=1)`
      in December; `datetime` rejects the result unless it `IsValid`. */
  function NextMonth(d: Date): (n: Date)
    requires 1 <= d.month <= 12
    ensures MonthIndex(n) == MonthIndex(d) + 1 && n.day == d.day
    ensures 1 <= n.month <= 12
  {
    if d.month == 12 then Date(d.year + 1, 1, d.day) else Date(d.year, d.month + 1, d.day)
  }

  // ---------------------------------------------------------------------------
  // Ordinals and tuple order agree

  /** Dividing by a positive constant: going from `p` to `p + 1` adds one to
      the quotient exactly when `p + 1` is a multiple. */
  lemma DivStep(p: int, d: int)
    requires d == 4 || d == 100 || d == 400
    ensures (p + 1) / d == p / d + (if (p + 1) % d == 0 then 1 else 0)
  {
    if d == 4 {
      var q, r := p / 4, p % 4;
      assert p == 4 * q + r;
      if r == 3 { assert p + 1 == 4 * (q + 1); } else { assert p + 1 == 4 * q + (r + 1); }
    } else if d == 100 {
      var q, r := p / 100, p % 100;
      assert p == 100 * q + r;
      if r == 99 { assert p + 1 == 100 * (q + 1); } else { assert p + 1 == 100 * q + (r + 1); }
    } else {
      var q, r := p / 400, p % 400;
      assert p == 400 * q + r;
      if r == 399 { assert p + 1 == 400 * (q + 1); } else { assert p + 1 == 400 * q + (r + 1); }
    }
  }

  /** A multiple of 400 is a multiple of 100, and a multiple of 100 one of 4. */
  lemma MultiplesNest(y: int)
    ensures y % 400 == 0 ==> y % 100 == 0
    ensures y % 100 == 0 ==> y % 4 == 0
  {
    if y % 400 == 0 {
      var t := 4 * (y / 400);
      assert y == 100 * t;
      assert y / 100 == t;
    }
    if y % 100 == 0 {
      var t := 25 * (y / 100);
      assert y == 4 * t;
      assert y / 4 == t;
    }
  }

  lemma DaysBeforeYearStep(y: int)
    ensures DaysBeforeYear(y + 1) == DaysBeforeYear(y) + DaysInYear(y)
  {
    DivStep(y - 1, 4);
    DivStep(y - 1, 100);
    DivStep(y - 1, 400);
    MultiplesNest(y);
  }

  lemma DaysBeforeMonthStep(y: int, m: int)
    requires 1 <= m <= 12
    ensures m < 12 ==> DaysBeforeMonth(y, m + 1) == DaysBeforeMonth(y, m) + DaysInMonth(y, m)
    ensures m == 12 ==> DaysBeforeMonth(y, m) + DaysInMonth(y, m) == DaysInYear(y)
  {
  }

  /** The last day of a month comes before the first day of any later month of the same year. */
  lemma {:induction false} DaysBeforeMonthMonotone(y: int, m1: int, m2: int)
    requires 1 <= m1 < m2 <= 12
    ensures DaysBeforeMonth(y, m1) + DaysInMonth(y, m1) <= DaysBeforeMonth(y, m2)
    decreases m2 - m1
  {
    DaysBeforeMonthStep(y, m1);
    if m1 + 1 < m2 {
      DaysBeforeMonthMonotone(y, m1 + 1, m2);
      DaysBeforeMonthStep(y, m1 + 1);
    }
  }

  /** The last day of a year comes before the first day of any later year. */
  lemma {:induction false} DaysBeforeYearMonotone(y1: int, y2: int)
    requires y1 < y2
    ensures DaysBeforeYear(y1) + DaysInYear(y1) <= DaysBeforeYear(y2)
    decreases y2 - y1
  {
    DaysBeforeYearStep(y1);
    if y1 + 1 < y2 {
      DaysBeforeYearMonotone(y1 + 1, y2);
      DaysBeforeYearStep(y1 + 1);
    }
  }

  /** Every day of a year lies inside that year's span of ordinals. */
  lemma OrdinalWithinYear(d: Date)
    requires IsValid(d)
    ensures DaysBeforeYear(d.year) < Ordinal(d) <= DaysBeforeYear(d.year) + DaysInYear(d.year)
  {
    if d.month < 12 {
      DaysBeforeMonthMonotone(d.year, d.month, 12);
    }
    DaysBeforeMonthStep(d.year, 12);
  }

  /** Tuple order on valid dates is strict ordinal order. */
  lemma OrdinalStrictOrder(a: Date, b: Date)
    requires IsValid(a) && IsValid(b)
    requires OnOrBefore(a, b) && a != b
    ensures Ordinal(a) < Ordinal(b)
  {
    if a.year < b.year {
      OrdinalWithinYear(a);
      OrdinalWithinYear(b);
      DaysBeforeYearMonotone(a.year, b.year);
    } else if a.month < b.month {
      DaysBeforeMonthMonotone(a.year, a.month, b.month);
    }
  }

  /** Comparing two valid dates as tuples is comparing their ordinals. */
  lemma OrdinalOrder(a: Date, b: Date)
    requires IsValid(a) && IsValid(b)
    ensures OnOrBefore(a, b) <==> Ordinal(a) <= Ordinal(b)
    ensures a == b <==> Ordinal(a) == Ordinal(b)
  {
    if a != b {
      if OnOrBefore(a, b) {
        OrdinalStrictOrder(a, b);
      } else {
        OrdinalStrictOrder(b, a);
      }
    }
  }

  /** `get_purchase_dates` finds the length of a month as the day-of-month of the day
      before the first of the next month; that is the number of days from the
      first of this month to the first of the next. */
  function LastDayOfMonth(y: int, m: int): (n: int)
    requires y >= 1 && 1 <= m <= 12
    ensures n == DaysInMonth(y, m)
  {
    var first := Date(y, m, 1);
    var next := NextMonth(first);
    NextFirstOrdinal(y, m);
    Ordinal(next) - Ordinal(first)
  }

  lemma NextFirstOrdinal(y: int, m: int)
    requires y >= 1 && 1 <= m <= 12
    ensures IsValid(NextMonth(Date(y, m, 1)))
    ensures Ordinal(NextMonth(Date(y, m, 1))) == Ordinal(Date(y, m, 1)) + DaysInMonth(y, m)
  {
    DaysBeforeMonthStep(y, m);
    if m == 12 {
      DaysBeforeYearStep(y);
      assert NextMonth(Date(y, m, 1)) == Date(y + 1, 1, 1);
    } else {
      assert NextMonth(Date(y, m, 1)) == Date(y, m + 1, 1);
    }
  }
}
