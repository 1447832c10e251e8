/** The persistent expense record. */
module Expenses {
  import opened Results
  import opened Dates
  import opened Categories

  /** A stored expense. The owning user is kept by its id, which is all the
      ownership check compares. */
  datatype Expense = Expense(
    id: int,
    userId: int,
    description: string,
    amount: real,
    category: Category,
    expenseDate: LocalDate,
    notes: Option<string>)

  /** The grouping keys of the two aggregation queries. */
  function CategoryOf(e: Expense): Category { e.category }

  function DayOf(e: Expense): int { e.expenseDate.day }
}
