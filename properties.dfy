/**
 * Properties that relate several of the budgeting calculations: how the
 * aggregates treat inactive allocations and the order of the records, how
 * the category totals add up, how the breakdown's percentages add up, how the
 * pacing check behaves over time, and how far each frequency moves a due date.
 */
module CalculationProperties {
  import opened BudgetTypes
  import opened JsMath
  import opened Calendar
  import opened Calculations

  /* ---------------------------------------------------------------------- */
  /* The left folds split over concatenation                                 */
  /* ---------------------------------------------------------------------- */

  lemma {:induction false} TotalAllocatedAppend(p: seq<Allocation>, q: seq<Allocation>)
    ensures TotalAllocated(p + q) == TotalAllocated(p) + TotalAllocated(q)
    decreases |q|
  {
    if q == [] {
      assert p + q == p;
    } else {
      var front := q[..|q| - 1];
      assert (p + q)[..|p + q| - 1] == p + front;
      assert (p + q)[|p + q| - 1] == q[|q| - 1];
      TotalAllocatedAppend(p, front);
    }
  }

  lemma {:induction false} SumFortnightlyAppend(p: seq<Allocation>, q: seq<Allocation>)
    ensures SumFortnightly(p + q) == SumFortnightly(p) + SumFortnightly(q)
    decreases |q|
  {
    if q == [] {
      assert p + q == p;
    } else {
      var front := q[..|q| - 1];
      assert (p + q)[..|p + q| - 1] == p + front;
      assert (p + q)[|p + q| - 1] == q[|q| - 1];
      SumFortnightlyAppend(p, front);
    }
  }

  lemma {:induction false} ActiveInCategoryAppend(p: seq<Allocation>, q: seq<Allocation>, category: string)
    ensures ActiveInCategory(p + q, category) == ActiveInCategory(p, category) + ActiveInCategory(q, category)
    decreases |q|
  {
    if q == [] {
      assert p + q == p;
    } else {
      var front := q[..|q| - 1];
      assert (p + q)[..|p + q| - 1] == p + front;
      assert (p + q)[|p + q| - 1] == q[|q| - 1];
      ActiveInCategoryAppend(p, front, category);
    }
  }

  /** The category total of a sequence split in two is the sum of the totals of its parts. */
  lemma CategoryTotalAppend(p: seq<Allocation>, q: seq<Allocation>, category: string)
    ensures CategoryTotal(p + q, category) == CategoryTotal(p, category) + CategoryTotal(q, category)
  {
    ActiveInCategoryAppend(p, q, category);
    SumFortnightlyAppend(ActiveInCategory(p, category), ActiveInCategory(q, category));
  }

  /** The category tags are pairwise different strings. */
  lemma CategoryNamesDistinct()
    ensures "expense" != "saving" && "saving" != "investment" && "expense" != "investment"
  {
    assert "expense"[0] != "saving"[0];
    assert "saving"[0] != "investment"[0];
    assert "expense"[0] != "investment"[0];
  }

  /** The category total of one allocation: its fortnightly amount when it is active and tagged `category`, else 0. */
  lemma CategoryTotalSingleton(x: Allocation, category: string)
    ensures CategoryTotal([x], category) == if x.isActive && CategoryName(x.category) == category then FortnightlyAmount(x) else 0.0
  {
    assert [x][..0] == [];
    if x.isActive && CategoryName(x.category) == category {
      assert ActiveInCategory([x], category) == [x];
      assert SumFortnightly([x]) == FortnightlyAmount(x);
    } else {
      assert ActiveInCategory([x], category) == [];
    }
  }

  /** The safe-to-spend fold over one allocation: its fortnightly amount when it is active, else 0. */
  lemma TotalAllocatedSingleton(x: Allocation)
    ensures TotalAllocated([x]) == if x.isActive then FortnightlyAmount(x) else 0.0
  {
    assert [x][..0] == [];
  }

  /* ---------------------------------------------------------------------- */
  /* Inactive allocations are ignored                                        */
  /* ---------------------------------------------------------------------- */

  /**
   * Adding an inactive allocation anywhere (or, read backwards, removing one)
   * changes neither safe-to-spend nor any category total.
   */
  lemma InactiveAllocationIgnored(income: Income, allocations: seq<Allocation>, k: nat, extra: Allocation)
    requires k <= |allocations| && !extra.isActive
    ensures SafeToSpend(income, allocations[..k] + [extra] + allocations[k..]) == SafeToSpend(income, allocations)
    ensures forall c :: CategoryTotal(allocations[..k] + [extra] + allocations[k..], c) == CategoryTotal(allocations, c)
  {
    var p, q := allocations[..k], allocations[k..];
    assert allocations == p + q;
    TotalAllocatedSingleton(extra);
    TotalAllocatedAppend(p + [extra], q);
    TotalAllocatedAppend(p, [extra]);
    TotalAllocatedAppend(p, q);
    forall c
      ensures CategoryTotal(p + [extra] + q, c) == CategoryTotal(allocations, c)
    {
      CategoryTotalSingleton(extra, c);
      CategoryTotalAppend(p + [extra], q, c);
      CategoryTotalAppend(p, [extra], c);
      CategoryTotalAppend(p, q, c);
    }
  }

  /**
   * Of an active allocation and an archived copy of it, only the active one
   * counts towards its category.
   */
  lemma ArchivedCopyExcluded(active: Allocation)
    requires active.isActive
    ensures CategoryTotal([active, active.(isActive := false)], CategoryName(active.category)) == FortnightlyAmount(active)
  {
    var c := CategoryName(active.category);
    var archived := active.(isActive := false);
    assert [active, archived] == [active] + [archived];
    CategoryTotalAppend([active], [archived], c);
    CategoryTotalSingleton(active, c);
    CategoryTotalSingleton(archived, c);
  }

  /* ---------------------------------------------------------------------- */
  /* The order of the records does not matter                                */
  /* ---------------------------------------------------------------------- */

  /**
   * The last element of `s` occurs in a permutation `t` of it, and removing it
   * from both leaves permutations of each other.
   */
  lemma MatchLast(s: seq<Allocation>, t: seq<Allocation>) returns (k: nat)
    requires multiset(s) == multiset(t) && s != []
    ensures k < |t| && t[k] == s[|s| - 1]
    ensures multiset(s[..|s| - 1]) == multiset(t[..k] + t[k + 1..])
  {
    var front, x := s[..|s| - 1], s[|s| - 1];
    assert s == front + [x];
    assert x in multiset(t);
    k :| 0 <= k < |t| && t[k] == x;
    var rest := t[..k] + t[k + 1..];
    assert t == t[..k] + [x] + t[k + 1..];
    assert multiset(rest) == multiset(t) - multiset{x};
    assert multiset(front) == multiset(s) - multiset{x};
  }

  /** Taking the element at `k` out of a sequence takes its share out of safe-to-spend's total. */
  lemma {:induction false} TotalAllocatedRemoveAt(t: seq<Allocation>, k: nat)
    requires k < |t|
    ensures TotalAllocated(t) == TotalAllocated(t[..k] + t[k + 1..]) + TotalAllocated([t[k]])
  {
    var p, q := t[..k], t[k + 1..];
    assert t == p + [t[k]] + q;
    TotalAllocatedAppend(p + [t[k]], q);
    TotalAllocatedAppend(p, [t[k]]);
    TotalAllocatedAppend(p, q);
  }

  /** Safe-to-spend does not depend on the order of the allocations. */
  lemma {:induction false} TotalAllocatedPermutation(s: seq<Allocation>, t: seq<Allocation>)
    requires multiset(s) == multiset(t)
    ensures TotalAllocated(s) == TotalAllocated(t)
    decreases |s|
  {
    if s == [] {
      assert |t| == |multiset(t)| == 0;
    } else {
      var k := MatchLast(s, t);
      var front := s[..|s| - 1];
      assert s == front + [t[k]];
      TotalAllocatedPermutation(front, t[..k] + t[k + 1..]);
      TotalAllocatedRemoveAt(t, k);
      TotalAllocatedAppend(front, [t[k]]);
    }
  }

  /** Taking the element at `k` out of a sequence takes its share out of a category total. */
  lemma {:induction false} CategoryTotalRemoveAt(t: seq<Allocation>, k: nat, category: string)
    requires k < |t|
    ensures CategoryTotal(t, category) == CategoryTotal(t[..k] + t[k + 1..], category) + CategoryTotal([t[k]], category)
  {
    var p, q := t[..k], t[k + 1..];
    assert t == p + [t[k]] + q;
    CategoryTotalAppend(p + [t[k]], q, category);
    CategoryTotalAppend(p, [t[k]], category);
    CategoryTotalAppend(p, q, category);
  }

  /** A category total does not depend on the order of the allocations either. */
  lemma {:induction false} CategoryTotalPermutation(s: seq<Allocation>, t: seq<Allocation>, category: string)
    requires multiset(s) == multiset(t)
    ensures CategoryTotal(s, category) == CategoryTotal(t, category)
    decreases |s|
  {
    if s == [] {
      assert |t| == |multiset(t)| == 0;
    } else {
      var k := MatchLast(s, t);
      var front := s[..|s| - 1];
      assert s == front + [t[k]];
      CategoryTotalPermutation(front, t[..k] + t[k + 1..], category);
      CategoryTotalRemoveAt(t, k, category);
      CategoryTotalAppend(front, [t[k]], category);
    }
  }

  /* ---------------------------------------------------------------------- */
  /* The categories partition the total                                      */
  /* ---------------------------------------------------------------------- */

  /** One allocation counts in exactly one of the three categories, and only while active. */
  lemma CategoryTotalsPartitionSingleton(x: Allocation)
    ensures CategoryTotal([x], "expense") + CategoryTotal([x], "saving")
            + CategoryTotal([x], "investment") == TotalAllocated([x])
  {
    TotalAllocatedSingleton(x);
    CategoryTotalSingleton(x, "expense");
    CategoryTotalSingleton(x, "saving");
    CategoryTotalSingleton(x, "investment");
    CategoryNamesDistinct();
  }

  /** The three category totals add up to what safe-to-spend subtracts from income. */
  lemma {:induction false} CategoryTotalsPartition(allocations: seq<Allocation>)
    ensures CategoryTotal(allocations, "expense") + CategoryTotal(allocations, "saving")
            + CategoryTotal(allocations, "investment") == TotalAllocated(allocations)
    decreases |allocations|
  {
    if allocations != [] {
      var front, x := allocations[..|allocations| - 1], allocations[|allocations| - 1];
      assert allocations == front + [x];
      CategoryTotalsPartition(front);
      CategoryTotalsPartitionSingleton(x);
      TotalAllocatedAppend(front, [x]);
      CategoryTotalAppend(front, [x], "expense");
      CategoryTotalAppend(front, [x], "saving");
      CategoryTotalAppend(front, [x], "investment");
    }
  }

  /** Safe-to-spend is income minus the three category totals. */
  lemma SafeToSpendByCategory(income: Income, allocations: seq<Allocation>)
    ensures SafeToSpend(income, allocations) == income.amount - (CategoryTotal(allocations, "expense")
            + CategoryTotal(allocations, "saving") + CategoryTotal(allocations, "investment"))
  {
    CategoryTotalsPartition(allocations);
  }

  /**
   * With positive income the three rounded percentages of the breakdown add
   * up to the exact share of income allocated, to within three half-tenths.
   */
  lemma BreakdownPercentagesSum(income: Income, allocations: seq<Allocation>)
    requires income.amount > 0.0
    ensures var sum := ShareOfIncome(CategoryTotal(allocations, "expense"), income.amount)
                     + ShareOfIncome(CategoryTotal(allocations, "saving"), income.amount)
                     + ShareOfIncome(CategoryTotal(allocations, "investment"), income.amount);
            var exact := TotalAllocated(allocations) / income.amount * 100.0;
            exact - 0.15 < sum <= exact + 0.15
  {
    CategoryTotalsPartition(allocations);
    RoundedSharesOfSum(CategoryTotal(allocations, "expense"), CategoryTotal(allocations, "saving"),
                       CategoryTotal(allocations, "investment"), TotalAllocated(allocations), income.amount);
  }

  /** Three shares of income, each rounded to a tenth, add up to the exact share of their sum within three half-tenths. */
  lemma RoundedSharesOfSum(e: real, s: real, i: real, total: real, x: real)
    requires x > 0.0 && total == e + s + i
    ensures var sum := ShareOfIncome(e, x) + ShareOfIncome(s, x) + ShareOfIncome(i, x);
            total / x * 100.0 - 0.15 < sum <= total / x * 100.0 + 0.15
  {
    var ee, es, ei := e / x * 100.0, s / x * 100.0, i / x * 100.0;
    assert (e / x + s / x + i / x) * x == e + s + i;
    assert (e + s + i) / x * 100.0 == ee + es + ei;
  }

  /* ---------------------------------------------------------------------- */
  /* Progress tracker                                                        */
  /* ---------------------------------------------------------------------- */

  /** The progress percentage is not clamped below: a negative saved amount shows as negative progress. */
  lemma NegativeSavingShowsNegativeProgress(allocation: Allocation)
    requires allocation.totalAmount == 100.0 && allocation.amountAlreadySaved == -10.0
    ensures ProgressPercentage(allocation) == -10.0
  {
    assert allocation.amountAlreadySaved / allocation.totalAmount * 100.0 == -10.0;
    assert Round(-100.0) == -100;
  }

  /** Saving more never lowers the progress percentage of the same goal. */
  lemma ProgressPercentageMonotone(a: Allocation, b: Allocation)
    requires a.totalAmount == b.totalAmount && a.amountAlreadySaved <= b.amountAlreadySaved
    ensures ProgressPercentage(a) <= ProgressPercentage(b)
  {
    var t := a.totalAmount;
    if t > 0.0 {
      assert a.amountAlreadySaved / t <= b.amountAlreadySaved / t;
      Round1Monotone(a.amountAlreadySaved / t * 100.0, b.amountAlreadySaved / t * 100.0);
    }
  }

  /** Fortnights until due, as whole-number arithmetic: `(days + 13) / 14`, and 0 once the date has passed. */
  lemma FortnightsUntilDueAsDivision(allocation: Allocation, today: int)
    requires allocation.dueDate.Some?
    ensures var days := allocation.dueDate.value - today;
            FortnightsUntilDue(allocation, today) == Some(if days <= 0 then 0 else (days + 13) / 14)
  {
    CeilDaysByFortnight(allocation.dueDate.value - today);
  }

  /** Fortnights elapsed, as whole-number arithmetic: `days / 14`, and 0 before the creation date. */
  lemma FortnightsElapsedAsDivision(allocation: Allocation, today: int)
    ensures var days := today - allocation.createdAt;
            FortnightsElapsed(allocation, today) == if days < 0 then 0 else days / 14
  {
    FloorDaysByFortnight(today - allocation.createdAt);
  }

  /**
   * On track exactly when the saved amount covers one fortnightly amount for
   * each whole fortnight (`days / 14`) since creation, none before it.
   */
  lemma OnTrackAsDivision(allocation: Allocation, today: int)
    ensures var days := today - allocation.createdAt;
            OnTrack(allocation, today) <==>
              allocation.amountAlreadySaved >= FortnightlyAmount(allocation) * (if days < 0 then 0 else days / 14) as real
  {
    FortnightsElapsedAsDivision(allocation, today);
  }

  /** The pacing check is inclusive: saving exactly the expected amount is on track. */
  lemma OnTrackInclusive(allocation: Allocation, today: int)
    requires allocation.amountAlreadySaved == FortnightlyAmount(allocation) * FortnightsElapsed(allocation, today) as real
    ensures AllocationProgress(allocation, today).onTrack
  {
  }

  /** Within the first fortnight after creation, any non-negative saving is on track. */
  lemma OnTrackInFirstFortnight(allocation: Allocation, today: int)
    requires today - allocation.createdAt < 14 && allocation.amountAlreadySaved >= 0.0
    ensures AllocationProgress(allocation, today).onTrack
  {
  }

  /** More days elapsed never count fewer fortnights. */
  lemma FortnightsElapsedMonotone(allocation: Allocation, earlier: int, later: int)
    requires earlier <= later
    ensures FortnightsElapsed(allocation, earlier) <= FortnightsElapsed(allocation, later)
  {
    FortnightsElapsedAsDivision(allocation, earlier);
    FortnightsElapsedAsDivision(allocation, later);
  }

  /** For a non-negative goal, an allocation that is on track today was on track on every earlier day. */
  lemma OnTrackEarlier(allocation: Allocation, earlier: int, later: int)
    requires allocation.totalAmount >= 0.0 && earlier <= later
    requires OnTrack(allocation, later)
    ensures OnTrack(allocation, earlier)
  {
    FortnightsElapsedMonotone(allocation, earlier, later);
    var f := FortnightlyAmount(allocation);
    var n1, n2 := FortnightsElapsed(allocation, earlier) as real, FortnightsElapsed(allocation, later) as real;
    assert f * n1 <= f * n2;
  }

  /**
   * An allocation created 28 days ago that sets aside 100 a fortnight is
   * expected to hold 200, so 150 saved is not on track.
   */
  lemma BehindAfterTwoFortnights(allocation: Allocation, today: int)
    requires allocation.frequency == Fortnightly && allocation.totalAmount == 100.0
    requires allocation.amountAlreadySaved == 150.0 && today == allocation.createdAt + 28
    ensures FortnightsElapsed(allocation, today) == 2
    ensures !AllocationProgress(allocation, today).onTrack
  {
    FortnightsElapsedAsDivision(allocation, today);
  }

  /* ---------------------------------------------------------------------- */
  /* Schedule advancers                                                      */
  /* ---------------------------------------------------------------------- */

  /** How far each frequency moves a due date. */
  lemma StepDaysRange(y: int, m: int, frequency: FrequencyType)
    requires 0 <= m < 12
    ensures frequency == Weekly ==> StepDays(y, m, frequency) == 7
    ensures frequency == Fortnightly ==> StepDays(y, m, frequency) == 14
    ensures frequency == Monthly ==> 28 <= StepDays(y, m, frequency) <= 31
    ensures frequency == Quarterly ==> 89 <= StepDays(y, m, frequency) <= 92
    ensures frequency == Yearly ==> 365 <= StepDays(y, m, frequency) <= 366
  {
    if frequency == Quarterly {
      if m < 10 {
        assert (m + 1) / 12 == 0 && (m + 2) / 12 == 0;
        assert (m + 1) % 12 == m + 1 && (m + 2) % 12 == m + 2;
      } else if m == 10 {
        assert MonthLength(y, m + 2) == DaysInMonth(y + 1, 0);
      } else {
        assert MonthLength(y, m + 1) == DaysInMonth(y + 1, 0);
        assert MonthLength(y, m + 2) == DaysInMonth(y + 1, 1);
      }
    }
  }

  /** 31 January moves to 3 March (2 March in a leap year) when advanced monthly. */
  lemma JanuaryThirtyFirstMonthly(y: int)
    ensures AdvancedDay(y, 0, 31, Monthly) == DayOf(y, 2, if IsLeapYear(y) then 2 else 3)
  {
    MakeDayMonthCarry(y, 1, 31);
  }

  /** 29 February moves to 1 March of the next year when advanced yearly. */
  lemma LeapDayYearly(y: int)
    requires IsLeapYear(y)
    ensures AdvancedDay(y, 1, 29, Yearly) == DayOf(y + 1, 2, 1)
  {
    assert !IsLeapYear(y + 1);
  }
}
