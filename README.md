# Bitcoin dollar-cost-averaging engine, modelled in Dafny

This project models the simulation engine of a Streamlit app that compares two ways of
buying bitcoin. The app buys a fixed dollar amount on a schedule over historical prices.
It then values the bitcoin at a future price in two scenarios: scenario A pays a 25% tax
on the gross value, scenario B pays none.

The model has five modules:

- `Calendar` (`calendar.dfy`): the proleptic Gregorian dates of Python's `datetime.date`.
  - A date is a `(year, month, day)` triple compared as a tuple.
  - Each date has a day number (`Ordinal`, where 0001-01-01 is day 1) and a weekday (Monday is 0).
  - Months are counted by one integer, so "the next month" is "+ 1".
- `Sorting` (`sorting.dfy`): `sorted(set(xs))` on day numbers, as the strictly increasing
  sequence of the distinct elements.
- `PurchaseDates` (`purchase_dates.dfy`): `get_purchase_dates`. It covers the daily and weekly
  day-by-day loops and the monthly walk. The monthly walk has its end-of-month policy for day 31,
  skips months that lack the asked day, and fails when the start day does not fit the next month.
  Dates are day numbers.
- `Dca` (`dca.dfy`): `calculate_dca`. Prices are a `map<int, real>` from day number to closing
  price. The module has:
  - an independent specification of the price a day is bought at (`ResolvedPrice`);
  - the app's exact-match / reverse-scan / first-key lookup, proved against that specification;
  - the purchase loop, with its running totals.
- `Scenarios` (`scenarios.dfy`): the scenario A/B arithmetic, the ROI formula and the guard of
  `calculate_cagr`.

Methods model the code that works step by step: the loops that build the schedule, the lookup,
and the accumulation. Each is proved against a specification. Lemmas state the
properties that relate several calls.

How the monthly walk behaves at the edges of a month:

- Day-of-month clamping. Only day 31 is clamped, to the month's last day. Any other day
  that a month lacks skips that month (`PurchaseDates.MissingDaySkipsMonth`).
- Which months are visited. The walk advances a date that keeps the start date's day, and stops
  once that date is after the end date. So when the start day is later than the end day, the end
  month is never visited (`PurchaseDates.EndMonthTargetMissed`).
- Start days the following month lacks. After each visited month, the last one included, the walk
  advances to the month after it. When that month lacks the start day (30 January, then February),
  advancing raises a `ValueError` that nothing catches, even when that month itself would not be
  visited. The model
  returns `Err(DayOutOfRange)` in that case (`PurchaseDates.ShortNextMonthRaises`).

## Model

| member | source | states |
|---|---|---|
| Calendar.OrdinalOrder | app.py:257 | Comparing two valid dates as tuples, as the loops do, is comparing their day numbers, in both directions; equal dates have equal day numbers and conversely |
| Calendar.NextMonth | app.py:284-287 | Advancing the walk moves to the next month number and keeps the day of the month |
| Calendar.LastDayOfMonth | app.py:271-275 | The distance from the first of a month to the first of the next month is that month's length (28 to 31, 29 in a leap February) |
| Sorting.SortedUnique | app.py:295 | `sorted(set(dates))` is strictly increasing and holds exactly the elements of its input |
| Sorting.SortedUniqueKeepsIncreasing | app.py:295 | Sorting and de-duplicating a list that is already strictly increasing returns it unchanged |
| Sorting.SameElementsSameSequence | app.py:295 | Two strictly increasing lists with the same elements are equal, so the sorted de-duplicated schedule is unique |
| PurchaseDates.DailyDates | app.py:256-259 | The daily loop yields every day from start to end, in order: `end - start + 1` days, or none when start is after end |
| PurchaseDates.WeeklyDates | app.py:261-265 | The weekly loop yields exactly the days in [start, end] whose weekday is the asked one, in strictly increasing order |
| PurchaseDates.TryMonth | app.py:270-282 | A visited month adds its target date exactly when that date exists and lies in [start, end]; 31 stands for the month's last day |
| PurchaseDates.AdvanceStep | app.py:284-293 | Advancing the walk goes to the next month number, and the new date is valid exactly when the next month has the start day |
| PurchaseDates.VisitTest | app.py:269 | The loop test `month_date <= end_date` holds exactly for the months up to the last visited one |
| PurchaseDates.MonthlyDates | app.py:267-293 | The monthly walk succeeds exactly when every visited month's successor has the start day; it then yields exactly the target dates of the visited months that exist and lie in [start, end] |
| PurchaseDates.GetPurchaseDates | app.py:250-295 | The schedule fails only for a monthly walk that raises; otherwise it is strictly increasing and holds exactly the scheduled days of the frequency (none for an unknown frequency); daily is never an error, and day i is start + i |
| PurchaseDates.ScheduledWithinRange | app.py:250-295 | Every scheduled day lies in [start, end], whatever the frequency |
| PurchaseDates.EndOfMonthPolicy | app.py:271-275 | With day 31, a visited month whose last day lies in [start, end] buys on that last day (the 30th of a 30-day month, the 28th or 29th of February) |
| PurchaseDates.MissingDaySkipsMonth | app.py:277-293 | Any other day that a month lacks makes that month contribute no date |
| PurchaseDates.EarlyStartDayCompletes | app.py:284-293 | A start day of 28 or less never makes the walk raise |
| PurchaseDates.ShortNextMonthRaises | app.py:284-293 | From 2021-01-30 to 2021-01-31 the monthly walk raises, because it tries 2021-02-30 |
| PurchaseDates.EndMonthTargetMissed | app.py:268-269 | From 2020-01-15 to 2020-03-10 on day 5, the 5th of March lies in the range but is not scheduled |
| Dca.LatestIsUnique | app.py:323-328 | A day with an earlier or same-day price resolves to the price of the latest such day |
| Dca.EarliestIsUnique | app.py:330-331 | A day before every price resolves to the earliest price |
| Dca.ExactPriceWins | app.py:321-322 | A day with its own price is bought at that price |
| Dca.SinglePriceEverywhere | app.py:315-332 | With a one-entry table, every day resolves to that one price, before, on or after its day |
| Dca.ResolvesIffPrices | app.py:330-331 | A day resolves to some price exactly when the table is not empty, and that price is one of the table's prices |
| Dca.SortedKeys | app.py:315 | `sorted(bitcoin_prices.keys())` is strictly increasing and holds exactly the table's days |
| Dca.LookupPrice | app.py:318-332 | The exact-match, reverse-scan and first-key lookup finds the resolved price of the day: the latest price not after it, else the earliest, else none |
| Dca.PurchaseAt | app.py:334-344 | A looked-up price records at most one purchase, exactly when it is positive; that purchase is for the day, at the looked-up price, spending the configured amount, and its price times its bitcoin is that amount |
| Dca.Record | app.py:334-344 | One iteration appends the day's purchase, if any, and keeps both running totals equal to the sums over the purchases |
| Dca.SimulatePurchases | app.py:310-346 | The loop records the planned purchase of every scheduled day in schedule order; the totals are the sums of the bitcoin bought and of the amounts spent |
| Dca.CalculateDca | app.py:297-346 | No prices give (0, 0, []); otherwise it fails exactly when the schedule raises; every purchase is for a scheduled day at its resolved positive price with `btc = amount / price`; purchases are in ascending date order; the totals are the sums over the purchases; the days bought are exactly the scheduled days whose resolved price is positive; with a non-negative amount the bitcoin total is non-negative |
| Dca.InvestedIsAmountTimesCount | app.py:338 | When every purchase spends the same amount, the total invested is that amount times the number of purchases |
| Dca.TotalBtcNonNegative | app.py:337 | Purchases of non-negative bitcoin give a non-negative bitcoin total |
| Dca.PurchasesFollowSchedule | app.py:317-344 | Every recorded purchase is for a scheduled day, at that day's resolved positive price, with the configured amount and `amount / price` bitcoin |
| Dca.PurchasesInOrder | app.py:317-344 | Purchases keep the order of a strictly increasing schedule |
| Dca.PurchasesOnSchedule | app.py:305-346 | The purchases, stated against the schedule's definition: ascending, each on a scheduled day and well priced, bought on exactly the scheduled days with a positive resolved price, and with a non-negative bitcoin total for a non-negative amount |
| Dca.BoughtDays | app.py:317-344 | A day is bought exactly when it is in the schedule and its resolved price is positive |
| Dca.WellPricedBtcNonNegative | app.py:334-337 | Purchases at positive prices for a non-negative amount buy a non-negative bitcoin total |
| Dca.PositivePricesBuyEveryDay | app.py:335 | With a non-empty table of positive prices, the purchase dates are exactly the schedule |
| Dca.NoPricesNoPurchases | app.py:302-303 | An empty table records no purchase |
| Dca.SinglePriceBuysAll | app.py:315-332 | With one positive price, every scheduled day is bought at that price, for `amount / price` bitcoin |
| Scenarios.CalculateCagr | app.py:348-352 | The guard returns 0 exactly when the initial value or the number of years is not positive; otherwise the rate is taken of the ratio final / initial (ratio × initial = final) over the given number of years |
| Scenarios.Roi | app.py:507 | ROI is 0 with nothing invested; otherwise the net value is the investment plus ROI percent of it |
| Scenarios.RoiSign | app.py:507 | With a positive investment, ROI is positive exactly on a gain and zero exactly on break-even |
| Scenarios.RoiMonotone | app.py:514 | On the same positive investment, a net value at least as large gives an ROI at least as large, and a strictly larger net value a strictly larger ROI |
| Scenarios.ScenarioA | app.py:504-509 | The gross value is the bitcoin times the future price; the tax is 25% of it and net plus tax is gross; ROI and CAGR are taken of the net value |
| Scenarios.ScenarioB | app.py:511-515 | The gross value is the bitcoin times the future price; no tax: the net value is the gross value; ROI and CAGR are taken of it |
| Scenarios.Difference | app.py:562 | What scenario B keeps over scenario A is exactly scenario A's tax |
| Scenarios.DifferenceIsTax | app.py:504-515 | Both scenarios have the same gross value; the difference is a quarter and A's net three quarters of it |
| Scenarios.UntaxedNeverWorse | app.py:504-515 | With non-negative bitcoin and future price, scenario B's net value, ROI and growth ratio are never below scenario A's, and both have a growth rate or neither has |

## Left out

- The Streamlit page is not modelled, because it is UI only: page setup, CSS, widgets, metrics, the purchase table and the email form (app.py:9-166, 356-675).
- `get_bitcoin_prices` (app.py:169-248) is not modelled, because it is a network download parsed with pandas. The price table is a parameter. `Dca.AllPositive` states the downloader's promise that every price is positive, and the table may be empty.
- Floating point is not modelled: prices, amounts and totals are exact `real` numbers, without IEEE rounding.
- The fractional power of `calculate_cagr` (app.py:352) is not modelled, because Dafny has no real exponentiation. `Scenarios.CalculateCagr` keeps the ratio and the number of years it would be taken of.
- `years = days / 365.25` (app.py:508) is not modelled: the number of years is a parameter.
- The display threshold `btc_accumulated > 0.0001` (app.py:502) is not modelled, because it only gates what the page shows.
- `datetime`'s upper year bound (9999) is not modelled, nor the `OverflowError` past it. The UI caps dates at 2050. `Calendar.IsValid` keeps the lower bound, year 1.
- The unused cadence parameter is not modelled as `None`: the caller passes `None` for the parameter a frequency does not read, and the model takes an integer there.
- Calendar.LastDayOfMonth: `get_purchase_dates` reaches the next month by adding 32 days to the first of the month and taking that date's first. The model moves to the next month number instead. The two agree because every month has 28 to 31 days, but that agreement is not proved.
- Dca.CalculateDca: the total invested is stated as the sum of the amounts spent, and each purchase spends the configured amount. The product form `amount × |purchases|` is `Dca.InvestedIsAmountTimesCount`, applied to those two facts.
- Dca.SortedKeys: Python's sort is not modelled step by step. The method builds the sorted key list by insertion, and only its result is specified.
