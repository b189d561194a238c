/** The purchase-date generator (`get_purchase_dates`): from a start date, an
    end date and a frequency, the sorted list of distinct buy dates, as day
    numbers (`Calendar.Ordinal`). */
module PurchaseDates {
  import opened Calendar
  import opened Sorting

  /** The `ValueError` that `date.replace` raises for a day its month does not have. */
  datatype DateError = DayOutOfRange

  datatype Result<T> = Ok(value: T) | Err(error: DateError)

  const Daily: string := "Diaria"
  const Weekly: string := "Semanal"
  const Monthly: string := "Mensual"

  // ---------------------------------------------------------------------------
  // Daily and weekly: step one day at a time from the first to the last day

  method DailyDates(first: int, last: int) returns (dates: seq<int>)
    ensures |dates| == if first <= last then last - first + 1 else 0
    ensures forall i :: 0 <= i < |dates| ==> dates[i] == first + i
  {
    dates := [];
    var current := first;
    while current <= last
      invariant first <= current && (current <= last + 1 || current == first)
      invariant |dates| == current - first
      invariant forall i :: 0 <= i < |dates| ==> dates[i] == first + i
    {
      dates := dates + [current];
      current := current + 1;
    }
  }

  method WeeklyDates(first: int, last: int, dayOfWeek: int) returns (dates: seq<int>)
    ensures forall x :: x in dates <==> first <= x <= last && Weekday(x) == dayOfWeek
    ensures StrictlyIncreasing(dates)
  {
    dates := [];
    var current := first;
    while current <= last
      invariant first <= current && (current <= last + 1 || current == first)
      invariant forall x :: x in dates <==> first <= x < current && Weekday(x) == dayOfWeek
      invariant StrictlyIncreasing(dates)
      invariant forall i :: 0 <= i < |dates| ==> dates[i] < current
    {
      if Weekday(current) == dayOfWeek {
        dates := dates + [current];
      }
      current := current + 1;
    }
  }

  // ---------------------------------------------------------------------------
  // Monthly: one target per month, walking months from the start date's month

  /** The day asked for in month number `k`: `dayOfMonth`, except that 31
      stands for the month's last day. */
  function TargetDay(dayOfMonth: int, k: int): int {
    if dayOfMonth == 31 then MonthLength(k) else dayOfMonth
  }

  function TargetDate(dayOfMonth: int, k: int): Date {
    Date(YearOf(k), MonthOf(k), TargetDay(dayOfMonth, k))
  }

  /** The walk keeps the start date's day of the month and stops at the first
      month whose such date is after the end date, so the end date's month is
      visited only when the start day is not after the end day. */
  function LastVisitedMonth(start: Date, end: Date): int {
    if start.day <= end.day then MonthIndex(end) else MonthIndex(end) - 1
  }

  /** Moving from month `k` to the next keeps the start day, which the next
      month must have. */
  predicate AdvanceFits(start: Date, k: int) {
    start.day <= MonthLength(k + 1)
  }

  /** The walk never tries a date its next month does not have. */
  ghost predicate MonthlyCompletes(start: Date, end: Date) {
    forall k :: MonthIndex(start) <= k <= LastVisitedMonth(start, end) ==> AdvanceFits(start, k)
  }

  /** Month `k` contributes its target date: it exists and lies in [start, end]. */
  predicate BuysInMonth(start: Date, end: Date, dayOfMonth: int, k: int) {
    var t := TargetDate(dayOfMonth, k);
    IsValid(t) && OnOrBefore(start, t) && OnOrBefore(t, end)
  }

  /** `x` is the target date of one of the months from the start date's
      month up to, but not including, month `k`. */
  ghost predicate BoughtBefore(start: Date, end: Date, dayOfMonth: int, k: int, x: int) {
    exists j :: MonthIndex(start) <= j < k && Contributes(start, end, dayOfMonth, j, x)
  }

  /** Month `j` buys, and on day `x`. */
  ghost predicate Contributes(start: Date, end: Date, dayOfMonth: int, j: int, x: int) {
    BuysInMonth(start, end, dayOfMonth, j) && x == Ordinal(TargetDate(dayOfMonth, j))
  }

  /** `x` is the target date of a month the walk visits. */
  ghost predicate IsMonthlyDate(start: Date, end: Date, dayOfMonth: int, x: int) {
    BoughtBefore(start, end, dayOfMonth, LastVisitedMonth(start, end) + 1, x)
  }

  lemma BoughtBeforeStep(start: Date, end: Date, dayOfMonth: int, k: int, x: int)
    requires MonthIndex(start) <= k
    ensures BoughtBefore(start, end, dayOfMonth, k + 1, x) <==>
      (BoughtBefore(start, end, dayOfMonth, k, x) || Contributes(start, end, dayOfMonth, k, x))
  {
    if BoughtBefore(start, end, dayOfMonth, k + 1, x) {
      var j :| MonthIndex(start) <= j < k + 1 && Contributes(start, end, dayOfMonth, j, x);
      if j < k {
        assert BoughtBefore(start, end, dayOfMonth, k, x);
      }
    }
    if BoughtBefore(start, end, dayOfMonth, k, x) {
      var j :| MonthIndex(start) <= j < k && Contributes(start, end, dayOfMonth, j, x);
      assert MonthIndex(start) <= j < k + 1;
    }
  }

  /** The date the walk tries in the month of `d`. */
  lemma TryDateIsTarget(d: Date, dayOfMonth: int)
    requires IsValid(d)
    ensures Date(d.year, d.month, if dayOfMonth == 31 then DaysInMonth(d.year, d.month) else dayOfMonth)
      == TargetDate(dayOfMonth, MonthIndex(d))
  {
    MonthIndexParts(d);
  }

  /** Visiting month `k` adds its target date when it buys, and nothing else. */
  lemma {:induction false} VisitAddsTarget(start: Date, end: Date, dayOfMonth: int, k: int, dates: seq<int>, dates': seq<int>)
    requires MonthIndex(start) <= k
    requires forall x :: x in dates <==> BoughtBefore(start, end, dayOfMonth, k, x)
    requires dates' == if BuysInMonth(start, end, dayOfMonth, k) then dates + [Ordinal(TargetDate(dayOfMonth, k))] else dates
    ensures forall x :: x in dates' <==> BoughtBefore(start, end, dayOfMonth, k + 1, x)
  {
    forall x ensures x in dates' <==> BoughtBefore(start, end, dayOfMonth, k + 1, x) {
      BoughtBeforeStep(start, end, dayOfMonth, k, x);
    }
  }

  /** The walk's loop test `month_date <= end_date`, in month numbers. */
  lemma VisitTest(start: Date, end: Date, d: Date)
    requires IsValid(end) && 1 <= d.month <= 12 && d.day == start.day
    ensures OnOrBefore(d, end) <==> MonthIndex(d) <= LastVisitedMonth(start, end)
  {
  }

  /** One step of the walk: `NextMonth` moves to the next month number, and
      `datetime` accepts it exactly when the next month has the start day. */
  lemma AdvanceStep(start: Date, d: Date)
    requires IsValid(d) && d.day == start.day
    ensures MonthIndex(NextMonth(d)) == MonthIndex(d) + 1 && NextMonth(d).day == start.day
    ensures NextMonth(d).year >= 1 && 1 <= NextMonth(d).month <= 12
    ensures IsValid(NextMonth(d)) <==> AdvanceFits(start, MonthIndex(d))
  {
    MonthIndexParts(NextMonth(d));
  }

  /** The body of the walk's `try` for the month of `monthDate`: the target
      day (31 read as the month's last day), and the purchase when that date
      exists and lies in [start, end]. */
  method TryMonth(start: Date, end: Date, dayOfMonth: int, monthDate: Date, dates: seq<int>) returns (dates': seq<int>)
    requires IsValid(monthDate)
    ensures BuysInMonth(start, end, dayOfMonth, MonthIndex(monthDate)) ==>
      dates' == dates + [Ordinal(TargetDate(dayOfMonth, MonthIndex(monthDate)))]
    ensures !BuysInMonth(start, end, dayOfMonth, MonthIndex(monthDate)) ==> dates' == dates
  {
    var targetDay := if dayOfMonth == 31 then LastDayOfMonth(monthDate.year, monthDate.month) else dayOfMonth;
    var purchaseDate := Date(monthDate.year, monthDate.month, targetDay);
    TryDateIsTarget(monthDate, dayOfMonth);
    dates' := dates;
    if IsValid(purchaseDate) && OnOrBefore(start, purchaseDate) && OnOrBefore(purchaseDate, end) {
      dates' := dates + [Ordinal(purchaseDate)];
    }
  }

  method MonthlyDates(start: Date, end: Date, dayOfMonth: int) returns (r: Result<seq<int>>)
    requires IsValid(start) && IsValid(end)
    ensures r.Ok? <==> MonthlyCompletes(start, end)
    ensures r.Ok? ==> forall x :: x in r.value <==> IsMonthlyDate(start, end, dayOfMonth, x)
  {
    var dates: seq<int> := [];
    var monthDate := start;
    ghost var k := MonthIndex(start);
    VisitTest(start, end, monthDate);
    while OnOrBefore(monthDate, end)
      invariant IsValid(monthDate) && monthDate.day == start.day && k == MonthIndex(monthDate)
      invariant MonthIndex(start) <= k && (k <= LastVisitedMonth(start, end) + 1 || monthDate == start)
      invariant OnOrBefore(monthDate, end) <==> k <= LastVisitedMonth(start, end)
      invariant forall j :: MonthIndex(start) <= j < k ==> AdvanceFits(start, j)
      invariant forall x :: x in dates <==> BoughtBefore(start, end, dayOfMonth, k, x)
      decreases LastVisitedMonth(start, end) + 1 - k
    {
      ghost var before := dates;
      dates := TryMonth(start, end, dayOfMonth, monthDate, dates);
      VisitAddsTarget(start, end, dayOfMonth, k, before, dates);
      var next := NextMonth(monthDate);
      AdvanceStep(start, monthDate);
      if !IsValid(next) {
        return Err(DayOutOfRange);
      }
      monthDate := next;
      k := k + 1;
      VisitTest(start, end, monthDate);
    }
    if monthDate != start || MonthIndex(start) <= LastVisitedMonth(start, end) + 1 {
      assert k == LastVisitedMonth(start, end) + 1;
    } else {
      forall x ensures !BoughtBefore(start, end, dayOfMonth, k, x) && !IsMonthlyDate(start, end, dayOfMonth, x) {
      }
    }
    return Ok(dates);
  }

  // ---------------------------------------------------------------------------
  // The generator

  /** What `get_purchase_dates` puts on the schedule, per frequency. */
  ghost predicate IsScheduled(start: Date, end: Date, frequency: string, dayOfWeek: int, dayOfMonth: int, x: int)
    requires IsValid(start) && IsValid(end)
  {
    if frequency == Daily then Ordinal(start) <= x <= Ordinal(end)
    else if frequency == Weekly then Ordinal(start) <= x <= Ordinal(end) && Weekday(x) == dayOfWeek
    else if frequency == Monthly then IsMonthlyDate(start, end, dayOfMonth, x)
    else false
  }

  /** The uncaught `ValueError` of the monthly walk. */
  ghost predicate ScheduleRaises(start: Date, end: Date, frequency: string) {
    frequency == Monthly && !MonthlyCompletes(start, end)
  }

  method GetPurchaseDates(start: Date, end: Date, frequency: string, dayOfWeek: int, dayOfMonth: int)
    returns (r: Result<seq<int>>)
    requires IsValid(start) && IsValid(end)
    ensures r.Err? <==> ScheduleRaises(start, end, frequency)
    ensures r.Ok? ==> StrictlyIncreasing(r.value)
    ensures r.Ok? ==> forall x :: x in r.value <==> IsScheduled(start, end, frequency, dayOfWeek, dayOfMonth, x)
    ensures frequency == Daily ==> r.Ok?
    ensures frequency == Daily && r.Ok? ==>
      |r.value| == (if Ordinal(start) <= Ordinal(end) then Ordinal(end) - Ordinal(start) + 1 else 0)
    ensures frequency == Daily && r.Ok? ==>
      forall i :: 0 <= i < |r.value| ==> r.value[i] == Ordinal(start) + i
  {
    var first, last := Ordinal(start), Ordinal(end);
    var dates: seq<int> := [];
    if frequency == Daily {
      dates := DailyDates(first, last);
      assert StrictlyIncreasing(dates);
      forall x | first <= x <= last ensures x in dates {
        assert dates[x - first] == x;
      }
      SortedUniqueKeepsIncreasing(dates);
    } else if frequency == Weekly {
      dates := WeeklyDates(first, last, dayOfWeek);
    } else if frequency == Monthly {
      var monthly := MonthlyDates(start, end, dayOfMonth);
      if monthly.Err? {
        return Err(monthly.error);
      }
      dates := monthly.value;
    }
    return Ok(SortedUnique(dates));
  }

  // ---------------------------------------------------------------------------
  // Properties of the schedule

  /** Every scheduled day lies in [start, end], whatever the frequency. */
  lemma ScheduledWithinRange(start: Date, end: Date, frequency: string, dayOfWeek: int, dayOfMonth: int, x: int)
    requires IsValid(start) && IsValid(end)
    requires IsScheduled(start, end, frequency, dayOfWeek, dayOfMonth, x)
    ensures Ordinal(start) <= x <= Ordinal(end)
  {
    if frequency == Monthly {
      var k :| MonthIndex(start) <= k < LastVisitedMonth(start, end) + 1
        && Contributes(start, end, dayOfMonth, k, x);
      OrdinalOrder(start, TargetDate(dayOfMonth, k));
      OrdinalOrder(TargetDate(dayOfMonth, k), end);
    }
  }

  /** Day 31 is read as "the last day of the month": a visited month whose
      last day lies in [start, end] buys on that last day (the 30th of a
      30-day month, the 28th or 29th of February). */
  lemma EndOfMonthPolicy(start: Date, end: Date, k: int)
    requires IsValid(start) && IsValid(end)
    requires MonthIndex(start) <= k <= LastVisitedMonth(start, end)
    requires OnOrBefore(start, Date(YearOf(k), MonthOf(k), MonthLength(k)))
    requires OnOrBefore(Date(YearOf(k), MonthOf(k), MonthLength(k)), end)
    ensures YearOf(k) >= 1
    ensures IsMonthlyDate(start, end, 31, Ordinal(Date(YearOf(k), MonthOf(k), MonthLength(k))))
  {
    assert Contributes(start, end, 31, k, Ordinal(Date(YearOf(k), MonthOf(k), MonthLength(k))));
  }

  /** Any other day that a month does not have (the 30th in February, say)
      makes that month contribute no date at all. */
  lemma MissingDaySkipsMonth(start: Date, end: Date, dayOfMonth: int, k: int, x: int)
    requires IsValid(start) && IsValid(end)
    requires dayOfMonth != 31 && !(1 <= dayOfMonth <= MonthLength(k)) && YearOf(k) >= 1
    requires IsMonthlyDate(start, end, dayOfMonth, x)
    ensures x < Ordinal(Date(YearOf(k), MonthOf(k), 1)) || x > Ordinal(Date(YearOf(k), MonthOf(k), MonthLength(k)))
  {
    var j :| MonthIndex(start) <= j < LastVisitedMonth(start, end) + 1
      && Contributes(start, end, dayOfMonth, j, x);
    var t := TargetDate(dayOfMonth, j);
    var first, lastDay := Date(YearOf(k), MonthOf(k), 1), Date(YearOf(k), MonthOf(k), MonthLength(k));
    MonthIndexOf(j);
    MonthIndexOf(k);
    if j < k {
      OrdinalStrictOrder(t, first);
    } else {
      assert j != k;
      OrdinalStrictOrder(lastDay, t);
    }
  }

  /** A start day of 28 or less never makes the monthly walk raise. */
  lemma EarlyStartDayCompletes(start: Date, end: Date)
    requires start.day <= 28
    ensures MonthlyCompletes(start, end)
  {
  }

  /** The walk raises when a visited month is followed by one too short for
      the start day: from 2021-01-30 to 2021-01-31 it tries 2021-02-30. */
  lemma ShortNextMonthRaises()
    ensures ScheduleRaises(Date(2021, 1, 30), Date(2021, 1, 31), Monthly)
  {
    var start := Date(2021, 1, 30);
    var k := MonthIndex(start);
    assert MonthLength(k + 1) == 28;
    assert !AdvanceFits(start, k);
  }

  /** Because the walk keeps the start day, a target in the end month that
      comes before the end date is missed when the start day is later than
      the end day: from 2020-01-15 to 2020-03-10 on day 5, the 5th of March
      lies in the range but is not scheduled. */
  lemma EndMonthTargetMissed()
    ensures Ordinal(Date(2020, 1, 15)) <= Ordinal(Date(2020, 3, 5)) <= Ordinal(Date(2020, 3, 10))
    ensures !IsMonthlyDate(Date(2020, 1, 15), Date(2020, 3, 10), 5, Ordinal(Date(2020, 3, 5)))
  {
    var start, end, missed := Date(2020, 1, 15), Date(2020, 3, 10), Date(2020, 3, 5);
    forall j | MonthIndex(start) <= j < LastVisitedMonth(start, end) + 1
      ensures !Contributes(start, end, 5, j, Ordinal(missed))
    {
      if BuysInMonth(start, end, 5, j) {
        MonthIndexOf(j);
        OrdinalStrictOrder(TargetDate(5, j), missed);
      }
    }
  }
}
