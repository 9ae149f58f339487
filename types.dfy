/**
 * The records the budgeting core reads (src/types/index.ts).
 *
 * Money is an exact `real`; a calendar date is an `int` day number counted
 * from 1970-01-01 (day 0), the same count the `Calendar` module produces.
 * Fields used only for display (colour, icon, notes, timestamps of edits)
 * are not part of the model.
 */
module BudgetTypes {

  datatype Option<+T> = None | Some(value: T)

  /** The five billing frequencies an allocation can recur on. */
  datatype FrequencyType = Weekly | Fortnightly | Monthly | Quarterly | Yearly

  /** The three kinds of allocation. */
  datatype AllocationCategory = Expense | Saving | Investment

  /** The string tag that the records and the breakdown use for a category. */
  function CategoryName(c: AllocationCategory): (name: string)
    ensures name in CategoryNames
  {
    match c
    case Expense => "expense"
    case Saving => "saving"
    case Investment => "investment"
  }

  /** The category tags, in the order the breakdown visits them. */
  const CategoryNames: seq<string> := ["expense", "saving", "investment"]

  /**
   * A recurring bill or savings goal. `dueDate` is optional: the declared
   * type says it is required, but the progress tracker tests for its absence.
   */
  datatype Allocation = Allocation(
    id: string,
    name: string,
    category: AllocationCategory,
    totalAmount: real,
    frequency: FrequencyType,
    dueDate: Option<int>,
    accountId: string,
    amountAlreadySaved: real,
    isActive: bool,
    createdAt: int
  )

  /** The fortnightly income; its frequency is fixed at fortnightly. */
  datatype Income = Income(
    id: string,
    amount: real,
    nextPayDate: int
  )
}
