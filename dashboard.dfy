/** The record the dashboard endpoint returns. */
module Dashboards {
  import opened LinkedMaps

  /** The amount spent on one day of the month. */
  datatype DailyExpense = DailyExpense(day: int, amount: real)

  /** The month's figures: the total, the budget and what is left of it, the
      share of it spent, the per-category sums and colours keyed by display
      name, the per-day sums and the number of expenses. */
  datatype DashboardStats = DashboardStats(
    totalExpenses: real,
    monthlyBudget: real,
    remainingBudget: real,
    budgetPercentage: real,
    expensesByCategory: LinkedMap<string, real>,
    categoryColors: LinkedMap<string, string>,
    dailyExpenses: seq<DailyExpense>,
    totalTransactions: int)
}
