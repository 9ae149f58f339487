/**
 * The budgeting arithmetic of src/lib/calculations.ts: the frequency table,
 * amortisation of an allocation into a fortnightly amount, the aggregates
 * over active allocations, the progress tracker and the schedule advancers.
 *
 * Money is exact (`real`), so 26/12 is exactly 26/12. "Today" is a
 * parameter (a day number) instead of a read of the wall clock.
 */
module Calculations {
  import opened BudgetTypes
  import opened JsMath
  import opened Calendar

  /* ---------------------------------------------------------------------- */
  /* Frequency table                                                         */
  /* ---------------------------------------------------------------------- */

  /** 52 weeks make 26 fortnights a year; every other entry of the table is derived from it. */
  const FortnightsPerYear: real := 26.0

  /** How many times a year an allocation of each frequency falls due. */
  function PeriodsPerYear(frequency: FrequencyType): nat
  {
    match frequency
    case Weekly => 52
    case Fortnightly => 26
    case Monthly => 12
    case Quarterly => 4
    case Yearly => 1
  }

  /** `getFrequencyInFortnights`: the length of one period, counted in fortnights. */
  function FrequencyInFortnights(frequency: FrequencyType): (r: real)
    ensures r > 0.0
    ensures r * PeriodsPerYear(frequency) as real == FortnightsPerYear
  {
    match frequency
    case Weekly => 0.5
    case Fortnightly => 1.0
    case Monthly => FortnightsPerYear / 12.0
    case Quarterly => FortnightsPerYear / 4.0
    case Yearly => FortnightsPerYear
  }

  /* ---------------------------------------------------------------------- */
  /* Amortisation                                                            */
  /* ---------------------------------------------------------------------- */

  /** `calculateFortnightlyAmount`: the share of the total to set aside each fortnight. */
  function FortnightlyAmount(allocation: Allocation): (r: real)
    ensures r * FrequencyInFortnights(allocation.frequency) == allocation.totalAmount
    ensures allocation.frequency == Fortnightly ==> r == allocation.totalAmount
    ensures allocation.totalAmount >= 0.0 ==> r >= 0.0
  {
    allocation.totalAmount / FrequencyInFortnights(allocation.frequency)
  }

  /** Paying the fortnightly amount every fortnight for a year pays the total once per period. */
  lemma FortnightlyAmountOverYear(allocation: Allocation)
    ensures FortnightlyAmount(allocation) * FortnightsPerYear
            == allocation.totalAmount * PeriodsPerYear(allocation.frequency) as real
  {
    var f := FrequencyInFortnights(allocation.frequency);
    var r := FortnightlyAmount(allocation);
    var p := PeriodsPerYear(allocation.frequency) as real;
    calc {
      r * FortnightsPerYear;
      r * (f * p);
      (r * f) * p;
      allocation.totalAmount * p;
    }
  }

  /** For a fixed frequency a larger total never gives a smaller fortnightly amount. */
  lemma FortnightlyAmountMonotone(a: Allocation, b: Allocation)
    requires a.frequency == b.frequency && a.totalAmount <= b.totalAmount
    ensures FortnightlyAmount(a) <= FortnightlyAmount(b)
  {
    var f := FrequencyInFortnights(a.frequency);
    assert FortnightlyAmount(a) * f <= FortnightlyAmount(b) * f;
  }

  /* ---------------------------------------------------------------------- */
  /* Aggregates                                                              */
  /* ---------------------------------------------------------------------- */

  ghost predicate AllNonNegative(allocations: seq<Allocation>)
  {
    forall i :: 0 <= i < |allocations| ==> allocations[i].totalAmount >= 0.0
  }

  ghost predicate NoneActive(allocations: seq<Allocation>)
  {
    forall i :: 0 <= i < |allocations| ==> !allocations[i].isActive
  }

  /**
   * The `reduce` inside `calculateSafeToSpend`: folding from the left, an
   * inactive allocation leaves the running sum as it is and an active one
   * adds its fortnightly amount.
   */
  function TotalAllocated(allocations: seq<Allocation>): (total: real)
    ensures AllNonNegative(allocations) ==> total >= 0.0
    ensures NoneActive(allocations) ==> total == 0.0
  {
    if allocations == [] then 0.0
    else
      var sum := TotalAllocated(allocations[..|allocations| - 1]);
      var last := allocations[|allocations| - 1];
      if !last.isActive then sum else sum + FortnightlyAmount(last)
  }

  /** `calculateSafeToSpend`: income minus what the active allocations set aside each fortnight. */
  function SafeToSpend(income: Income, allocations: seq<Allocation>): (r: real)
    ensures AllNonNegative(allocations) ==> r <= income.amount
    ensures NoneActive(allocations) ==> r == income.amount
  {
    income.amount - TotalAllocated(allocations)
  }

  /** `kept` holds every copy of each active allocation tagged `category` in `allocations`, and nothing else. */
  ghost predicate KeepsEveryCopy(allocations: seq<Allocation>, kept: seq<Allocation>, category: string)
  {
    forall a :: multiset(kept)[a] == if a.isActive && CategoryName(a.category) == category then multiset(allocations)[a] else 0
  }

  /** The `filter` inside `calculateCategoryTotal`: active allocations tagged `category`, in order. */
  function ActiveInCategory(allocations: seq<Allocation>, category: string): (r: seq<Allocation>)
    ensures |r| <= |allocations|
    ensures forall a :: a in r <==> a in allocations && a.isActive && CategoryName(a.category) == category
  {
    if allocations == [] then []
    else
      var kept := ActiveInCategory(allocations[..|allocations| - 1], category);
      var last := allocations[|allocations| - 1];
      if last.isActive && CategoryName(last.category) == category then kept + [last] else kept
  }

  /** Filtering one more allocation keeps every copy it kept before, and this one exactly when it qualifies. */
  lemma KeepsEveryCopyStep(front: seq<Allocation>, last: Allocation, kept: seq<Allocation>, category: string)
    requires KeepsEveryCopy(front, kept, category)
    ensures var next := if last.isActive && CategoryName(last.category) == category then kept + [last] else kept;
            KeepsEveryCopy(front + [last], next, category)
  {
    assert multiset(front + [last]) == multiset(front) + multiset{last};
    assert multiset(kept + [last]) == multiset(kept) + multiset{last};
  }

  /** The filter keeps every copy of a qualifying allocation, as `Array.prototype.filter` does, and no copy of any other. */
  lemma {:induction false} ActiveInCategoryKeepsEveryCopy(allocations: seq<Allocation>, category: string)
    ensures KeepsEveryCopy(allocations, ActiveInCategory(allocations, category), category)
    decreases |allocations|
  {
    if allocations != [] {
      var front, last := allocations[..|allocations| - 1], allocations[|allocations| - 1];
      assert allocations == front + [last];
      ActiveInCategoryKeepsEveryCopy(front, category);
      KeepsEveryCopyStep(front, last, ActiveInCategory(front, category), category);
    }
  }

  /** The `reduce` inside `calculateCategoryTotal`: the sum of the fortnightly amounts, from the left. */
  function SumFortnightly(allocations: seq<Allocation>): (total: real)
    ensures AllNonNegative(allocations) ==> total >= 0.0
  {
    if allocations == [] then 0.0
    else SumFortnightly(allocations[..|allocations| - 1]) + FortnightlyAmount(allocations[|allocations| - 1])
  }

  /** `calculateCategoryTotal`: what the active allocations tagged `category` set aside each fortnight. */
  function CategoryTotal(allocations: seq<Allocation>, category: string): (total: real)
    ensures AllNonNegative(allocations) ==> total >= 0.0
    ensures category !in CategoryNames ==> total == 0.0
  {
    var kept := ActiveInCategory(allocations, category);
    assert AllNonNegative(allocations) ==> AllNonNegative(kept) by {
      if AllNonNegative(allocations) {
        forall i | 0 <= i < |kept| ensures kept[i].totalAmount >= 0.0 {
          assert kept[i] in kept;
        }
      }
    }
    assert kept != [] ==> category in CategoryNames by {
      if kept != [] {
        assert kept[0] in kept;
      }
    }
    SumFortnightly(kept)
  }

  /** The amount and share of income of one category. */
  datatype CategoryShare = CategoryShare(amount: real, percentage: real)

  /**
   * The percentage of income an amount represents, rounded to one decimal
   * place; 0 when the income is not positive.
   */
  function ShareOfIncome(amount: real, incomeAmount: real): (pct: real)
    ensures incomeAmount <= 0.0 ==> pct == 0.0
    ensures incomeAmount > 0.0 ==> amount / incomeAmount * 100.0 - 0.05 < pct <= amount / incomeAmount * 100.0 + 0.05
    ensures pct * 10.0 == (pct * 10.0).Floor as real
  {
    Round1(if incomeAmount > 0.0 then amount / incomeAmount * 100.0 else 0.0)
  }

  /**
   * `calculateCategoryBreakdown`: fills a dictionary with one entry per
   * category, visiting the three tags in turn.
   */
  method CategoryBreakdown(income: Income, allocations: seq<Allocation>) returns (result: map<string, CategoryShare>)
    ensures forall c :: c in result <==> c in CategoryNames
    ensures forall c :: c in result ==>
              result[c].amount == CategoryTotal(allocations, c) &&
              result[c].percentage == ShareOfIncome(CategoryTotal(allocations, c), income.amount)
  {
    var categories := CategoryNames;
    result := map[];
    for i := 0 to |categories|
      invariant forall c :: c in result <==> c in categories[..i]
      invariant forall c :: c in result ==>
                  result[c].amount == CategoryTotal(allocations, c) &&
                  result[c].percentage == ShareOfIncome(CategoryTotal(allocations, c), income.amount)
    {
      var category := categories[i];
      var amount := CategoryTotal(allocations, category);
      var percentage := if income.amount > 0.0 then amount / income.amount * 100.0 else 0.0;
      result := result[category := CategoryShare(amount, Round1(percentage))];
    }
    assert categories[..|categories|] == categories;
  }

  /* ---------------------------------------------------------------------- */
  /* Progress tracker                                                        */
  /* ---------------------------------------------------------------------- */

  /** What `calculateAllocationProgress` reports. */
  datatype Progress = Progress(
    progressPercentage: real,
    remainingToSave: real,
    fortnightsUntilDue: Option<int>,
    onTrack: bool
  )

  /**
   * Percentage of the total already saved, to one decimal, capped at 100 but
   * not at 0; 0 when the total is not positive.
   */
  function ProgressPercentage(allocation: Allocation): (pct: real)
    ensures pct <= 100.0
    ensures allocation.totalAmount <= 0.0 ==> pct == 0.0
    ensures allocation.totalAmount > 0.0 && allocation.amountAlreadySaved >= allocation.totalAmount ==> pct == 100.0
    ensures allocation.totalAmount > 0.0 && allocation.amountAlreadySaved >= 0.0 ==> pct >= 0.0
    ensures allocation.totalAmount > 0.0 && allocation.amountAlreadySaved < 0.0 ==> pct <= 0.0
    ensures allocation.totalAmount > 0.0 ==>
              var exact := allocation.amountAlreadySaved / allocation.totalAmount * 100.0;
              exact < 100.0 ==> exact - 0.05 < pct <= exact + 0.05
    ensures pct * 10.0 == (pct * 10.0).Floor as real
  {
    var saved, total := allocation.amountAlreadySaved, allocation.totalAmount;
    var exact := if total > 0.0 then saved / total * 100.0 else 0.0;
    if total > 0.0 then
      assert saved >= total ==> exact >= 100.0 by {
        if saved >= total {
          assert saved / total >= 1.0;
        }
      }
      assert saved >= 0.0 ==> exact >= 0.0;
      assert saved < 0.0 ==> exact < 0.0;
      Round1AtLeast(exact, 1000);
      Round1AtLeast(exact, 0);
      Round1AtMost(exact, 0);
      Min(100.0, Round1(exact))
    else
      Min(100.0, Round1(exact))
  }

  /** Whole fortnights (rounded up) from `today` to the due date; absent when there is no due date. */
  function FortnightsUntilDue(allocation: Allocation, today: int): (r: Option<int>)
    ensures r.None? <==> allocation.dueDate.None?
    ensures r.Some? ==> r.value >= 0
    ensures r.Some? && allocation.dueDate.value <= today ==> r.value == 0
    ensures r.Some? && allocation.dueDate.value > today ==>
              (r.value - 1) * 14 < allocation.dueDate.value - today <= r.value * 14
  {
    match allocation.dueDate
    case None => None
    case Some(due) => Some(Max(0, Ceil((due - today) as real / 14.0)))
  }

  /** Whole fortnights (rounded down) since the allocation was created; 0 before its creation date. */
  function FortnightsElapsed(allocation: Allocation, today: int): (n: int)
    ensures n >= 0
    ensures today - allocation.createdAt < 14 ==> n == 0
    ensures today - allocation.createdAt >= 0 ==> n * 14 <= today - allocation.createdAt < (n + 1) * 14
  {
    Max(0, ((today - allocation.createdAt) as real / 14.0).Floor)
  }

  /** Whether what is saved covers a fortnightly amount for every fortnight elapsed. */
  function OnTrack(allocation: Allocation, today: int): (onTrack: bool)
    ensures today - allocation.createdAt < 14 ==> (onTrack <==> allocation.amountAlreadySaved >= 0.0)
    ensures allocation.totalAmount <= 0.0 && allocation.amountAlreadySaved >= 0.0 ==> onTrack
  {
    allocation.amountAlreadySaved >= FortnightlyAmount(allocation) * FortnightsElapsed(allocation, today) as real
  }

  /** `calculateAllocationProgress` with the current date passed in as `today`. */
  function AllocationProgress(allocation: Allocation, today: int): (p: Progress)
    ensures p.progressPercentage <= 100.0
    ensures p.remainingToSave + allocation.amountAlreadySaved == allocation.totalAmount
    ensures p.fortnightsUntilDue.None? <==> allocation.dueDate.None?
    ensures p.onTrack ==> allocation.amountAlreadySaved >= 0.0 || allocation.totalAmount < 0.0
  {
    Progress(
      ProgressPercentage(allocation),
      allocation.totalAmount - allocation.amountAlreadySaved,
      FortnightsUntilDue(allocation, today),
      OnTrack(allocation, today))
  }

  /* ---------------------------------------------------------------------- */
  /* Schedule advancers                                                      */
  /* ---------------------------------------------------------------------- */

  /**
   * The day number a due date on day `d` of month `m` of year `y` moves to
   * under each branch of `calculateNextDueDate`: the day of the month
   * advanced by 7 or 14, the month advanced by 1 or 3, or the year by 1, each
   * rolling over as `Date` does.
   */
  function AdvancedDay(y: int, m: int, d: int, frequency: FrequencyType): (day: int)
    requires 0 <= m < 12
    ensures frequency == Weekly ==> day == DayOf(y, m, d) + 7
    ensures frequency == Fortnightly ==> day == DayOf(y, m, d) + 14
  {
    match frequency
    case Weekly => DayOf(y, m, d + 7)
    case Fortnightly => DayOf(y, m, d + 14)
    case Monthly => MakeDay(y, m + 1, d)
    case Quarterly => MakeDay(y, m + 3, d)
    case Yearly => DayOf(y + 1, m, d)
  }

  /**
   * How many days a due date in month `m` of year `y` moves for one period:
   * a week, a fortnight, the length of that month, of that month and the two
   * after it, or of the year that follows it.
   */
  function StepDays(y: int, m: int, frequency: FrequencyType): (n: int)
    ensures 7 <= n <= 366
  {
    match frequency
    case Weekly => 7
    case Fortnightly => 14
    case Monthly => MonthLength(y, m)
    case Quarterly => MonthLength(y, m) + MonthLength(y, m + 1) + MonthLength(y, m + 2)
    case Yearly => YearLengthFrom(y, m)
  }

  /** Each branch of the advancer moves the date on by exactly one period's worth of days. */
  lemma AdvancedDayStep(y: int, m: int, d: int, frequency: FrequencyType)
    requires 0 <= m < 12
    ensures AdvancedDay(y, m, d, frequency) == DayOf(y, m, d) + StepDays(y, m, frequency)
  {
    MakeDayMonthCarry(y, m, d);
    match frequency {
      case Weekly =>
      case Fortnightly =>
      case Monthly =>
        MakeDayNextMonth(y, m, d);
      case Quarterly =>
        MakeDayNextMonth(y, m, d);
        MakeDayNextMonth(y, m + 1, d);
        MakeDayNextMonth(y, m + 2, d);
      case Yearly =>
        MakeDayNextYear(y, m, d);
    }
  }

  /** `calculateNextDueDate`: a copy of the due date moved on by one period of `frequency`. */
  method NextDueDate(currentDueDate: LocalDate, frequency: FrequencyType) returns (nextDate: LocalDate)
    requires currentDueDate.Valid()
    ensures fresh(nextDate) && nextDate.Valid()
    ensures nextDate.DayNumber() == AdvancedDay(currentDueDate.year, currentDueDate.month, currentDueDate.date, frequency)
    ensures nextDate.DayNumber() == currentDueDate.DayNumber() + StepDays(currentDueDate.year, currentDueDate.month, frequency)
    ensures nextDate.DayNumber() > currentDueDate.DayNumber()
    ensures frequency != Weekly && frequency != Fortnightly && currentDueDate.date <= 28 ==> nextDate.date == currentDueDate.date
  {
    ghost var y, m, d := currentDueDate.year, currentDueDate.month, currentDueDate.date;
    nextDate := new LocalDate.Copy(currentDueDate);
    match frequency {
      case Weekly =>
        nextDate.SetDate(nextDate.date + 7);
      case Fortnightly =>
        nextDate.SetDate(nextDate.date + 14);
      case Monthly =>
        nextDate.SetMonth(nextDate.month + 1);
      case Quarterly =>
        nextDate.SetMonth(nextDate.month + 3);
      case Yearly =>
        nextDate.SetFullYear(nextDate.year + 1);
    }
    assert nextDate.DayNumber() == AdvancedDay(y, m, d, frequency);
    AdvancedDayStep(y, m, d, frequency);
  }

  /** `calculateNextPayDate`: a copy of the pay date moved on by one fortnight. */
  method NextPayDate(currentPayDate: LocalDate) returns (nextDate: LocalDate)
    requires currentPayDate.Valid()
    ensures fresh(nextDate) && nextDate.Valid()
    ensures nextDate.DayNumber() == currentPayDate.DayNumber() + 14
  {
    nextDate := new LocalDate.Copy(currentPayDate);
    nextDate.SetDate(nextDate.date + 14);
  }
}
