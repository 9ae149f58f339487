# Budget calculations, modelled and verified in Dafny

This project models the budgeting arithmetic of a fortnightly budget planner
(`src/lib/calculations.ts`) and proves properties of it. The planner spreads
each recurring bill or savings goal (an *allocation*) over the fortnightly pay
cycle. What it computes:

- how much each allocation needs set aside per fortnight;
- what is safe to spend from one fortnight's income;
- what each category (expense, saving, investment) takes, in money and as a
  share of income;
- how far a savings goal has progressed and whether it is on track;
- when a bill is next due, and when the next pay day is.

Files:

- `types.dfy` (module `BudgetTypes`) holds the records the calculations read:
  the frequency and category enumerations, `Allocation` and `Income`. Money is
  an exact `real`. A date is an `int` day number counted from 1970-01-01. An
  allocation's due date is optional.
- `jsmath.dfy` (module `JsMath`) holds the JavaScript `Math` functions the
  calculations use, on exact reals. Among them is `Math.round`, which rounds
  halves up.
- `calendar.dfy` (module `Calendar`) models a JavaScript `Date` at day
  granularity:
  - the proleptic Gregorian calendar;
  - the `DayFromYear` and `MakeDay` abstract operations of the ECMAScript
    language specification (ECMA-262);
  - a class `LocalDate` whose `setDate`, `setMonth` and `setFullYear` store
    the new field and then roll any overflow into the neighbouring months.
- `calculations.dfy` (module `Calculations`) models the eight exported
  functions of the calculations file.
  - The pure ones are functions: the frequency table, amortisation,
    safe-to-spend, category totals and allocation progress.
  - The ones that update state are methods:
    - the category breakdown fills a map in a loop;
    - the next-due-date and next-pay-date calculations copy a `LocalDate`
      and call its setters.
- `properties.dfy` (module `CalculationProperties`) holds the lemmas that
  relate several calls, such as:
  - inactive allocations and the order of the records do not matter;
  - the category totals partition what safe-to-spend subtracts;
  - the rounded percentages add up to the exact share;
  - the pacing check behaves sensibly over time;
  - each frequency moves a due date by the right number of days.

"Today" is a parameter instead of a read of the wall clock. The difference in
calendar days between two dates is the difference of their day numbers.

## Model

| member | source | states |
|---|---|---|
| BudgetTypes.CategoryName | src/types/index.ts:3 | every category's tag is one of the three tags the breakdown visits |
| JsMath.Round | src/lib/calculations.ts:66 | `Math.round` gives the integer within half a unit of its argument, halves rounded up |
| JsMath.Round1 | src/lib/calculations.ts:66 | rounding to one decimal gives a whole number of tenths within 0.05 of the argument |
| JsMath.Round1Monotone | src/lib/calculations.ts:108 | rounding to one decimal never reverses the order of two values |
| JsMath.Max | src/lib/calculations.ts:100 | `Math.max` gives one of its two arguments, and it is at least both |
| JsMath.Min | src/lib/calculations.ts:108 | `Math.min` gives one of its two arguments, and it is at most both |
| JsMath.Ceil | src/lib/calculations.ts:95 | `Math.ceil` gives the least integer not below its argument |
| JsMath.FloorDaysByFortnight | src/lib/calculations.ts:100 | flooring a whole number of days over 14 is integer division by 14 |
| JsMath.CeilDaysByFortnight | src/lib/calculations.ts:95 | ceiling a whole number of days over 14 is `(days + 13) / 14` |
| Calendar.DaysInMonth | src/lib/calculations.ts:129 | months have 28 to 31 days, and February has 29 exactly in leap years |
| Calendar.DaysBeforeMonth | src/lib/calculations.ts:129 | month starts lie inside the year, and every month ends within its year |
| Calendar.DayFromYear | src/lib/calculations.ts:135 | 1 January of year `y` is day 0 exactly when `y` is 1970, and after the epoch exactly when `y` is later |
| Calendar.MakeDay | src/lib/calculations.ts:129 | a month index in `0..11` names that month of the given year, and one in `-12..-1` a month of the year before |
| Calendar.DayFromYearClosedForm | src/lib/calculations.ts:135 | counting years one by one agrees with the closed form of ECMA-262 `DayFromYear` |
| Calendar.MakeDayNextMonth | src/lib/calculations.ts:129 | the same day of the next month is one month's length later, for any month index |
| Calendar.MakeDayNextYear | src/lib/calculations.ts:135 | the same month and day of the next year is one year's length later |
| Calendar.DayOfCarry | src/lib/calculations.ts:123 | moving a month's overflow into the following month names the same day |
| Calendar.DayOfInjective | src/lib/calculations.ts:119 | valid year, month and day fields are determined by the day they name |
| Calendar.RollOver | src/lib/calculations.ts:123 | rolling overflow across months gives valid fields that name the same day |
| Calendar.LocalDate.Copy | src/lib/calculations.ts:119 | a copied date has the same fields as the original |
| Calendar.LocalDate.Normalize | src/lib/calculations.ts:123 | the date becomes valid and still names the same day, and a valid date is left unchanged |
| Calendar.LocalDate.SetDate | src/lib/calculations.ts:123 | `setDate(n)` names day `n` of the current month, rolled over, and an in-range `n` changes only the day |
| Calendar.LocalDate.SetMonth | src/lib/calculations.ts:129 | `setMonth(m)` names the current day of month `m`, with the month carrying into the year and the day rolling over |
| Calendar.LocalDate.SetFullYear | src/lib/calculations.ts:135 | `setFullYear(y)` names the current month and day in year `y`, and 29 February rolls to 1 March |
| Calculations.FrequencyInFortnights | src/lib/calculations.ts:7-19 | every frequency's count of fortnights is positive, and times its periods per year it gives 26 |
| Calculations.FortnightlyAmount | src/lib/calculations.ts:24-27 | the fortnightly amount times the frequency's fortnights is the total; it equals the total for fortnightly bills and is non-negative for non-negative totals |
| Calculations.FortnightlyAmountOverYear | src/lib/calculations.ts:24-27 | 26 fortnightly amounts pay the total once for each period in the year |
| Calculations.FortnightlyAmountMonotone | src/lib/calculations.ts:24-27 | for a fixed frequency a larger total never gives a smaller fortnightly amount |
| Calculations.TotalAllocated | src/lib/calculations.ts:33-36 | the total set aside is non-negative for non-negative totals, and 0 when no allocation is active |
| Calculations.SafeToSpend | src/lib/calculations.ts:32-39 | safe-to-spend never exceeds income when totals are non-negative, and equals income when nothing is active |
| Calculations.ActiveInCategory | src/lib/calculations.ts:46 | the filter's result holds an allocation exactly when it is active, tagged with the category and in the input, and is no longer than the input |
| Calculations.ActiveInCategoryKeepsEveryCopy | src/lib/calculations.ts:46 | the filter keeps every copy of each active allocation tagged with the category, and no copy of any other allocation |
| Calculations.SumFortnightly | src/lib/calculations.ts:47 | the sum of fortnightly amounts is non-negative for non-negative totals |
| Calculations.CategoryTotal | src/lib/calculations.ts:44-48 | a category total is non-negative for non-negative totals, and 0 for a tag that names no category |
| Calculations.ShareOfIncome | src/lib/calculations.ts:62-66 | the percentage is 0 when income is not positive; otherwise it is within 0.05 of the exact share and a whole number of tenths |
| Calculations.CategoryBreakdown | src/lib/calculations.ts:53-71 | the result has exactly the keys expense, saving and investment, each with its category total and that total's rounded share of income |
| Calculations.ProgressPercentage | src/lib/calculations.ts:82-85 | progress is at most 100; it is 0 for a non-positive total and 100 once the total is saved; it is negative only when savings are negative; below 100 it is within 0.05 of the exact share; it is always a whole number of tenths |
| Calculations.FortnightsUntilDue | src/lib/calculations.ts:92-96 | absent exactly when there is no due date; otherwise non-negative, 0 once the due date has passed, and the least count of fortnights covering the days left |
| Calculations.FortnightsElapsed | src/lib/calculations.ts:99-100 | non-negative, 0 in the first fortnight, and the greatest count of whole fortnights since creation |
| Calculations.OnTrack | src/lib/calculations.ts:102-105 | in the first 14 days after creation the check holds exactly when savings are non-negative, and a goal with a non-positive total is on track whenever savings are non-negative |
| Calculations.AllocationProgress | src/lib/calculations.ts:76-113 | progress is at most 100; remaining plus saved is the total; fortnights until due is absent exactly without a due date; on track implies non-negative savings for a non-negative goal |
| Calculations.AdvancedDay | src/lib/calculations.ts:121-137 | the weekly branch moves the day 7 days later and the fortnightly branch 14 days later |
| Calculations.StepDays | src/lib/calculations.ts:118-140 | one period moves a due date between 7 and 366 days |
| Calculations.AdvancedDayStep | src/lib/calculations.ts:121-137 | each branch of the advancer moves the day number on by exactly one period's days |
| Calculations.NextDueDate | src/lib/calculations.ts:118-140 | the next due date is a fresh valid date one period later, strictly after the current one, keeping the day of the month for monthly, quarterly and yearly bills due on day 28 or earlier |
| Calculations.NextPayDate | src/lib/calculations.ts:145-149 | the next pay date is a fresh valid date exactly 14 days later |
| CalculationProperties.TotalAllocatedAppend | src/lib/calculations.ts:33-36 | the safe-to-spend fold over two concatenated lists is the sum of the folds |
| CalculationProperties.SumFortnightlyAppend | src/lib/calculations.ts:47 | the category sum over two concatenated lists is the sum of the sums |
| CalculationProperties.ActiveInCategoryAppend | src/lib/calculations.ts:46 | filtering a concatenation concatenates the filtered parts |
| CalculationProperties.CategoryTotalAppend | src/lib/calculations.ts:44-48 | the category total over two concatenated lists is the sum of their totals |
| CalculationProperties.CategoryTotalSingleton | src/lib/calculations.ts:44-48 | one allocation contributes its fortnightly amount to its own category only while active |
| CalculationProperties.TotalAllocatedSingleton | src/lib/calculations.ts:33-36 | one allocation contributes its fortnightly amount only while active |
| CalculationProperties.InactiveAllocationIgnored | src/lib/calculations.ts:32-48 | inserting or removing an inactive allocation anywhere changes neither safe-to-spend nor any category total |
| CalculationProperties.ArchivedCopyExcluded | src/lib/calculations.ts:44-48 | of an allocation and its archived copy only the active one counts |
| CalculationProperties.TotalAllocatedPermutation | src/lib/calculations.ts:32-39 | safe-to-spend does not depend on the order of the allocations |
| CalculationProperties.CategoryTotalPermutation | src/lib/calculations.ts:44-48 | a category total does not depend on the order of the allocations |
| CalculationProperties.CategoryTotalsPartition | src/lib/calculations.ts:32-48 | the three category totals add up to the total safe-to-spend subtracts from income |
| CalculationProperties.SafeToSpendByCategory | src/lib/calculations.ts:32-39 | safe-to-spend is income minus the three category totals |
| CalculationProperties.BreakdownPercentagesSum | src/lib/calculations.ts:53-71 | with positive income the three rounded percentages add up to the exact share of income allocated, within 0.15 |
| CalculationProperties.RoundedSharesOfSum | src/lib/calculations.ts:62-66 | three rounded shares of income are within 0.15 of the exact share of their sum |
| CalculationProperties.NegativeSavingShowsNegativeProgress | src/lib/calculations.ts:108 | progress is not clamped below: saving -10 towards 100 shows -10 percent |
| CalculationProperties.ProgressPercentageMonotone | src/lib/calculations.ts:82-85 | saving more towards the same total never lowers the progress percentage |
| CalculationProperties.FortnightsUntilDueAsDivision | src/lib/calculations.ts:92-96 | fortnights until due is `(days + 13) / 14` for future due dates and 0 otherwise |
| CalculationProperties.FortnightsElapsedAsDivision | src/lib/calculations.ts:99-100 | fortnights elapsed is `days / 14` after creation and 0 before it |
| CalculationProperties.OnTrackAsDivision | src/lib/calculations.ts:99-105 | on track exactly when savings cover one fortnightly amount for each whole fortnight elapsed |
| CalculationProperties.OnTrackInclusive | src/lib/calculations.ts:105 | saving exactly the expected amount is on track |
| CalculationProperties.OnTrackInFirstFortnight | src/lib/calculations.ts:99-105 | any non-negative saving is on track within 14 days of creation |
| CalculationProperties.FortnightsElapsedMonotone | src/lib/calculations.ts:99-100 | fortnights elapsed never decrease as time passes |
| CalculationProperties.OnTrackEarlier | src/lib/calculations.ts:99-105 | a non-negative goal on track today was on track on every earlier day |
| CalculationProperties.BehindAfterTwoFortnights | src/lib/calculations.ts:99-105 | a goal of 100 a fortnight created 28 days ago has two fortnights elapsed, and 150 saved is not on track |
| CalculationProperties.StepDaysRange | src/lib/calculations.ts:121-137 | weekly moves 7 days, fortnightly 14, monthly 28 to 31, quarterly 89 to 92 and yearly 365 or 366 |
| CalculationProperties.JanuaryThirtyFirstMonthly | src/lib/calculations.ts:128-130 | 31 January advanced monthly becomes 3 March, or 2 March in a leap year |
| CalculationProperties.LeapDayYearly | src/lib/calculations.ts:134-135 | 29 February advanced yearly becomes 1 March of the next year |

## Left out

- Time zones, daylight saving and time of day are not modelled: a `Date` is its local calendar fields, and `differenceInCalendarDays` (from date-fns, which is not part of this model) is the difference of two day numbers.
- IEEE-754 double rounding is not modelled: money is an exact `real`, so 26/12 and the `* 100` of the percentages are exact.
- The wall-clock read `new Date()` in the progress tracker is not modelled: today's day number is a parameter.
- The ECMAScript time-value range (dates beyond about 275,000 years become an invalid `Date`) is not modelled: years are unbounded integers.
- The order of the keys of the breakdown's result object is not modelled: the result is a `map`.
- Records with a missing `createdAt` and amounts that are `NaN` (a cleared input field parses to `NaN`) are not modelled: every date is a whole day number and every amount a real, so `onTrack` is never forced false by `NaN`.
- Display-only record fields (colour, icon, notes, edit timestamps) and the income's fixed `frequency` field are not modelled.
- The persistence layer (`src/lib/db.ts`) and the user interface are not part of this model.
- Calculations.ProgressPercentage: follows the code, which clamps only above (`Math.min(100, …)`), not to 0..100. A negative saved amount gives negative progress (see `NegativeSavingShowsNegativeProgress`).
- Calculations.ShareOfIncome: follows the code's guard `income.amount > 0`, not a guard against zero only. A negative income also gives 0 percent.
