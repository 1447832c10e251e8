/** The expense service: listings, the ownership-guarded reads and writes,
    and the monthly dashboard. Reads are functions of one snapshot of the
    expense table; the writes are methods of `ExpenseService`. */
module ExpenseServices {
  import opened Results
  import opened Seqs
  import opened Dates
  import opened Categories
  import opened Expenses
  import ExpenseRequests
  import opened ExpenseResponses
  import opened ExpenseRepository
  import opened LinkedMaps
  import opened Dashboards
  import Users

  datatype ServiceError = UserNotFound | ExpenseNotFound | Unauthorized

  /** The message of the `RuntimeException` raised for each failure, given
      by definition; no two failures share one. */
  function Message(e: ServiceError): string {
    match e
    case UserNotFound => "User not found"
    case ExpenseNotFound => "Expense not found"
    case Unauthorized => "Unauthorized access to expense"
  }

  /** A client can tell the failures apart by their messages alone. */
  lemma MessagesDistinct(a: ServiceError, b: ServiceError)
    ensures Message(a) == Message(b) ==> a == b
  {
  }

  // ---- listings ----

  /** `stream().map(ExpenseResponse::fromExpense)`, order kept. */
  function Responses(rows: seq<Expense>): (r: seq<ExpenseResponse>)
    ensures |r| == |rows|
    ensures forall i :: 0 <= i < |r| ==> r[i] == FromExpense(rows[i])
  {
    seq(|rows|, i requires 0 <= i < |rows| => FromExpense(rows[i]))
  }

  /** The responses to a query's rows are exactly the projections of the
      table rows the query selects. */
  lemma ResponsesSelect(t: Table, rows: seq<Expense>, p: Expense -> bool)
    requires WellKeyed(t)
    requires forall e :: e in rows <==> e in t.Values && p(e)
    ensures forall x :: x in Responses(rows) <==> x.id in t && p(t[x.id]) && x == FromExpense(t[x.id])
  {
    var r := Responses(rows);
    forall x | x in r ensures x.id in t && p(t[x.id]) && x == FromExpense(t[x.id]) {
      var i :| 0 <= i < |r| && r[i] == x;
      var e := rows[i];
      assert e in rows;
      StoredUnderOwnId(t, e);
      assert x.id == e.id;
    }
    forall x: ExpenseResponse | x.id in t && p(t[x.id]) && x == FromExpense(t[x.id]) ensures x in r {
      var e := t[x.id];
      assert e in t.Values;
      var i :| 0 <= i < |rows| && rows[i] == e;
      assert r[i] == x;
    }
  }

  /** A table row is stored under its own id. */
  lemma StoredUnderOwnId(t: Table, e: Expense)
    requires WellKeyed(t) && e in t.Values
    ensures e.id in t && t[e.id] == e
  {
    if forall k :: k in t ==> t[k] != e { assert false; }
  }

  /** A sequence holding each element at most once has no repeated entry. */
  lemma AtMostOnceNoRepeat<T>(s: seq<T>, i: int, j: int)
    requires forall x :: multiset(s)[x] <= 1
    requires 0 <= i < j < |s|
    ensures s[i] != s[j]
  {
    assert s == s[..j] + s[j..];
    assert s[i] in s[..j] && s[j] in s[j..];
    assert multiset(s)[s[j]] == multiset(s[..j])[s[j]] + multiset(s[j..])[s[j]];
  }

  /** A query that yields each row once yields each expense id once. */
  lemma ResponsesDistinctIds(t: Table, rows: seq<Expense>)
    requires WellKeyed(t)
    requires forall e :: e in rows ==> e in t.Values
    requires forall e :: multiset(rows)[e] <= 1
    ensures forall i, j :: 0 <= i < j < |rows| ==> Responses(rows)[i].id != Responses(rows)[j].id
  {
    forall i, j | 0 <= i < j < |rows| ensures rows[i].id != rows[j].id {
      AtMostOnceNoRepeat(rows, i, j);
      assert rows[i] in rows && rows[j] in rows;
      StoredUnderOwnId(t, rows[i]);
      StoredUnderOwnId(t, rows[j]);
    }
  }

  /** The responses to a query that selects each row satisfying `p` once:
      the projections of exactly those rows, each id once. */
  lemma ListingSelects(t: Table, rows: seq<Expense>, p: Expense -> bool)
    requires forall e :: e in rows <==> e in t.Values && p(e)
    requires WellKeyed(t) ==> forall e :: multiset(rows)[e] == if e in t.Values && p(e) then 1 else 0
    ensures WellKeyed(t) ==> forall x :: x in Responses(rows) <==> x.id in t && p(t[x.id]) && x == FromExpense(t[x.id])
    ensures WellKeyed(t) ==> forall i, j :: 0 <= i < j < |rows| ==> Responses(rows)[i].id != Responses(rows)[j].id
  {
    if WellKeyed(t) {
      ResponsesSelect(t, rows, p);
      ResponsesDistinctIds(t, rows);
    }
  }

  /** Projection keeps the dates, so a newest-first query stays newest first. */
  lemma ResponsesNewestFirst(rows: seq<Expense>)
    requires SortedByDateDesc(rows)
    ensures forall i, j :: 0 <= i < j < |rows| ==>
      NotAfter(Responses(rows)[j].expenseDate, Responses(rows)[i].expenseDate)
  {
    forall i, j | 0 <= i < j < |rows|
      ensures NotAfter(Responses(rows)[j].expenseDate, Responses(rows)[i].expenseDate)
    {
      assert Responses(rows)[i].expenseDate == rows[i].expenseDate;
      assert Responses(rows)[j].expenseDate == rows[j].expenseDate;
    }
  }

  /** `getAllExpenses`: the user's expenses, newest first. */
  function GetAllExpenses(t: Table, userId: int): (r: seq<ExpenseResponse>)
    ensures forall i, j :: 0 <= i < j < |r| ==> NotAfter(r[j].expenseDate, r[i].expenseDate)
    ensures WellKeyed(t) ==> forall x :: x in r <==>
      x.id in t && t[x.id].userId == userId && x == FromExpense(t[x.id])
    ensures WellKeyed(t) ==> forall i, j :: 0 <= i < j < |r| ==> r[i].id != r[j].id
  {
    var rows := FindByUserIdOrderByExpenseDateDesc(t, userId);
    ListingSelects(t, rows, (e: Expense) => e.userId == userId);
    ResponsesNewestFirst(rows);
    Responses(rows)
  }

  /** `getExpensesByMonth`: the user's expenses dated in that month, newest
      first. */
  function GetExpensesByMonth(t: Table, userId: int, year: int, month: int): (r: seq<ExpenseResponse>)
    ensures forall i, j :: 0 <= i < j < |r| ==> NotAfter(r[j].expenseDate, r[i].expenseDate)
    ensures WellKeyed(t) ==> forall x :: x in r <==>
      x.id in t && t[x.id].userId == userId && InMonth(t[x.id], year, month) && x == FromExpense(t[x.id])
    ensures WellKeyed(t) ==> forall i, j :: 0 <= i < j < |r| ==> r[i].id != r[j].id
  {
    var rows := FindByUserIdAndMonth(t, userId, year, month);
    ListingSelects(t, rows, (e: Expense) => e.userId == userId && InMonth(e, year, month));
    ResponsesNewestFirst(rows);
    Responses(rows)
  }

  /** `getExpensesByDateRange`: the user's expenses dated from `startDate`
      to `endDate`, both included, in scan (ascending id) order. */
  function GetExpensesByDateRange(t: Table, userId: int, startDate: LocalDate, endDate: LocalDate): (r: seq<ExpenseResponse>)
    ensures WellKeyed(t) ==> forall x :: x in r <==>
      x.id in t && t[x.id].userId == userId && x == FromExpense(t[x.id])
      && NotAfter(startDate, t[x.id].expenseDate) && NotAfter(t[x.id].expenseDate, endDate)
    ensures WellKeyed(t) ==> forall i, j :: 0 <= i < j < |r| ==> r[i].id < r[j].id
  {
    var rows := FindByUserIdAndExpenseDateBetween(t, userId, startDate, endDate);
    if WellKeyed(t) then
      ResponsesSelect(t, rows, (e: Expense) => e.userId == userId && NotAfter(startDate, e.expenseDate) && NotAfter(e.expenseDate, endDate));
      Responses(rows)
    else
      Responses(rows)
  }

  // ---- the ownership guard ----

  /** The guard shared by read, update and delete: the id must exist, and
      only then is the owner compared. */
  function Authorize(t: Table, userId: int, expenseId: int): (r: Result<Expense, ServiceError>)
    ensures r.Success? <==> expenseId in t && t[expenseId].userId == userId
    ensures r.Success? ==> r.value == t[expenseId]
    ensures r.Failure? ==> (r.error == ExpenseNotFound <==> expenseId !in t)
    ensures r.Failure? ==> r.error != UserNotFound
  {
    if expenseId !in t then Failure(ExpenseNotFound)
    else if t[expenseId].userId != userId then Failure(Unauthorized)
    else Success(t[expenseId])
  }

  /** `getExpenseById`. */
  function GetExpenseById(t: Table, userId: int, expenseId: int): (r: Result<ExpenseResponse, ServiceError>)
    ensures r.Success? <==> expenseId in t && t[expenseId].userId == userId
    ensures r.Success? ==> r.value == FromExpense(t[expenseId])
    ensures r == Failure(ExpenseNotFound) <==> expenseId !in t
    ensures r == Failure(Unauthorized) <==> expenseId in t && t[expenseId].userId != userId
  {
    var found := Authorize(t, userId, expenseId);
    if found.Failure? then Failure(found.error) else Success(FromExpense(found.value))
  }

  /** Whatever user asks, an absent id is reported as not found, never as
      unauthorized: existence is decided before ownership. */
  lemma {:induction false} AbsentIdIsNotFoundForAnyone(t: Table, expenseId: int)
    requires expenseId !in t
    ensures forall u :: GetExpenseById(t, u, expenseId) == Failure(ExpenseNotFound)
  {
    forall u ensures GetExpenseById(t, u, expenseId) == Failure(ExpenseNotFound) {
      assert Authorize(t, u, expenseId).Failure?;
    }
  }

  // ---- writes: the entity built from a request ----

  /** The request's five fields carried by a stored expense. */
  predicate Carries(e: Expense, request: ExpenseRequests.ExpenseRequest)
    requires ExpenseRequests.IsValid(request)
  {
    && e.description == request.description.value
    && e.amount == request.amount.value
    && e.category == request.category.value
    && e.expenseDate == request.expenseDate.value
    && e.notes == request.notes
  }
  /** What a stored row keeps of the request it came from: a positive
      amount and a description that is not blank. */
  predicate StoredConstraints(e: Expense) {
    e.amount > 0.0 && ExpenseRequests.NotBlank(Some(e.description))
  }

  /** A row that carries a valid request's fields keeps its constraints. */
  lemma CarriesKeepsConstraints(e: Expense, request: ExpenseRequests.ExpenseRequest)
    requires ExpenseRequests.IsValid(request) && Carries(e, request)
    ensures StoredConstraints(e)
  {
    assert request.description == Some(e.description);
  }


  /** The unsaved entity `createExpense` builds; `save` assigns the id. */
  function NewExpense(ownerId: int, request: ExpenseRequests.ExpenseRequest): (e: Expense)
    requires ExpenseRequests.IsValid(request)
    ensures e.userId == ownerId && Carries(e, request)
  {
    Expense(0, ownerId, request.description.value, request.amount.value,
            request.category.value, request.expenseDate.value, request.notes)
  }

  /** `updateExpense`'s setters: every field from the request, except the id
      and the owner. */
  function Overwrite(e: Expense, request: ExpenseRequests.ExpenseRequest): (u: Expense)
    requires ExpenseRequests.IsValid(request)
    ensures u.id == e.id && u.userId == e.userId && Carries(u, request)
  {
    e.(description := request.description.value, amount := request.amount.value,
       category := request.category.value, expenseDate := request.expenseDate.value,
       notes := request.notes)
  }

  /** An update is a full replace: what the entity held before is gone. */
  lemma OverwriteForgetsOldFields(a: Expense, b: Expense, request: ExpenseRequests.ExpenseRequest)
    requires ExpenseRequests.IsValid(request)
    requires a.id == b.id && a.userId == b.userId
    ensures Overwrite(a, request) == Overwrite(b, request)
  {
  }

  /** Updating twice with one request is updating once. */
  lemma OverwriteIdempotent(e: Expense, request: ExpenseRequests.ExpenseRequest)
    requires ExpenseRequests.IsValid(request)
    ensures Overwrite(Overwrite(e, request), request) == Overwrite(e, request)
  {
  }

  // ---- the dashboard ----

  /** `monthlyBudget > 0 ? totalExpenses / monthlyBudget * 100 : 0`. */
  function BudgetPercentage(total: real, budget: real): (p: real)
    ensures budget <= 0.0 ==> p == 0.0
    ensures budget > 0.0 ==> p * budget == total * 100.0
    ensures total == 0.0 ==> p == 0.0
  {
    if budget > 0.0 then total / budget * 100.0 else 0.0
  }

  /** The percentage is not capped: spending past the budget shows above 100. */
  lemma PercentageNotCapped(total: real, budget: real)
    requires budget > 0.0
    ensures BudgetPercentage(total, budget) > 100.0 <==> total > budget
    ensures BudgetPercentage(total, budget) == 100.0 <==> total == budget
  {
    var p := BudgetPercentage(total, budget);
    assert p * budget == total * 100.0;
    ScaleCompare(p, 100.0, budget);
    ScaleCompare(total, budget, 100.0);
  }

  /** Multiplying by a positive factor keeps order and equality. */
  lemma ScaleCompare(x: real, y: real, f: real)
    requires f > 0.0
    ensures x * f > y * f <==> x > y
    ensures x * f == y * f <==> x == y
  {
    if x > y {
      assert (x - y) * f > 0.0;
    } else if x < y {
      assert (y - x) * f > 0.0;
    }
  }

  /** A budget of 100 with 150 spent shows 150 percent. */
  lemma OverspentExample()
    ensures BudgetPercentage(150.0, 100.0) == 150.0
  {
    assert BudgetPercentage(150.0, 100.0) * 100.0 == 15000.0;
  }

  /** The entries `put` into `expensesByCategory`, one per grouping row. */
  function CategorySums(g: seq<(Category, real)>): (m: LinkedMap<string, real>)
    ensures |m| == |g|
    ensures forall i :: 0 <= i < |g| ==> m[i] == (DisplayName(g[i].0), g[i].1)
  {
    seq(|g|, i requires 0 <= i < |g| => (DisplayName(g[i].0), g[i].1))
  }

  /** The entries `put` into `categoryColors`, one per grouping row. */
  function CategoryColors(g: seq<(Category, real)>): (m: LinkedMap<string, string>)
    ensures |m| == |g|
    ensures forall i :: 0 <= i < |g| ==> m[i] == (DisplayName(g[i].0), Color(g[i].0))
  {
    seq(|g|, i requires 0 <= i < |g| => (DisplayName(g[i].0), Color(g[i].0)))
  }

  /** Food 10, food 5 and transport 20 in one month group into food 15 then
      transport 20, keyed by display name in order of first occurrence. */
  lemma CategoryGroupingExample(d: LocalDate)
    ensures var rows := [Expense(1, 7, "Lunch", 10.0, FOOD, d, None),
                         Expense(2, 7, "Snack", 5.0, FOOD, d, None),
                         Expense(3, 7, "Bus", 20.0, TRANSPORT, d, None)];
      CategorySums(GroupByCategory(rows)) == [("Food & Dining", 15.0), ("Transportation", 20.0)]
  {
    var rows := [Expense(1, 7, "Lunch", 10.0, FOOD, d, None),
                 Expense(2, 7, "Snack", 5.0, FOOD, d, None),
                 Expense(3, 7, "Bus", 20.0, TRANSPORT, d, None)];
    assert rows[..2][..1] == [rows[0]];
    assert DistinctKeys(rows[..2][..1], CategoryOf) == [FOOD];
    assert DistinctKeys(rows[..2], CategoryOf) == [FOOD];
    assert DistinctKeys(rows, CategoryOf) == [FOOD, TRANSPORT];
    var g := GroupByCategory(rows);
    assert KeysOf(g) == [FOOD, TRANSPORT];
    assert rows[1..][1..][1..] == [];
    assert SumWhere(rows[1..][1..], CategoryOf, FOOD) == 0.0;
    assert SumWhere(rows[1..][1..], CategoryOf, TRANSPORT) == 20.0;
    assert g[0].1 == SumWhere(rows, CategoryOf, FOOD) == 15.0;
    assert g[1].1 == SumWhere(rows, CategoryOf, TRANSPORT) == 20.0;
  }

  /** The daily series, one entry per grouping row. */
  function DailySeries(g: seq<(int, real)>): (d: seq<DailyExpense>)
    ensures |d| == |g|
    ensures forall i :: 0 <= i < |g| ==> d[i] == DailyExpense(g[i].0, g[i].1)
  {
    seq(|g|, i requires 0 <= i < |g| => DailyExpense(g[i].0, g[i].1))
  }

  function Days(d: seq<DailyExpense>): seq<int> {
    seq(|d|, i requires 0 <= i < |d| => d[i].day)
  }

  function SumDaily(d: seq<DailyExpense>): real {
    if d == [] then 0.0 else d[0].amount + SumDaily(d[1..])
  }

  /** `getDashboardStats` for a user with budget `budget`, over one snapshot
      of the table. */
  function Dashboard(t: Table, budget: real, userId: int, year: int, month: int): (s: DashboardStats)
    ensures s.totalExpenses == SumAmounts(MonthRows(t, userId, year, month))
    ensures s.monthlyBudget == budget && s.remainingBudget == budget - s.totalExpenses
    ensures s.totalTransactions == |MonthRows(t, userId, year, month)|
  {
    var total := GetTotalExpensesByMonth(t, userId, year, month).GetOr(0.0);
    var byCategory := GetExpensesByCategory(t, userId, year, month);
    DashboardStats(
      total,
      budget,
      budget - total,
      BudgetPercentage(total, budget),
      CategorySums(byCategory),
      CategoryColors(byCategory),
      DailySeries(GetDailyExpenses(t, userId, year, month)),
      |FindByUserIdAndMonth(t, userId, year, month)|)
  }

  /** The user has an expense in that month in category `c`. */
  predicate SpentOn(t: Table, userId: int, year: int, month: int, c: Category) {
    exists e :: e in t.Values && e.userId == userId && InMonth(e, year, month) && e.category == c
  }

  /** A month without expenses: the absent SUM reads as 0, nothing is spent,
      the whole budget remains and every collection is empty. */
  lemma EmptyMonthDashboard(t: Table, budget: real, userId: int, year: int, month: int)
    requires forall e :: e in t.Values && e.userId == userId ==> !InMonth(e, year, month)
    ensures var s := Dashboard(t, budget, userId, year, month);
      && s.totalExpenses == 0.0
      && s.remainingBudget == budget
      && s.budgetPercentage == 0.0
      && s.expensesByCategory == [] && s.categoryColors == []
      && s.dailyExpenses == [] && s.totalTransactions == 0
  {
    var rows := MonthRows(t, userId, year, month);
    EmptyIffNoMember(rows);
    var g := GetExpensesByCategory(t, userId, year, month);
    EmptyIffNoMember(KeysOf(g));
    var d := GetDailyExpenses(t, userId, year, month);
    EmptyIffNoMember(KeysOf(d));
  }

  /** The total is the month's SUM, the remainder is budget minus total with
      no floor, and both the category sums and the daily sums add up to it. */
  lemma DashboardTotals(t: Table, budget: real, userId: int, year: int, month: int)
    ensures var s := Dashboard(t, budget, userId, year, month);
      && s.totalExpenses == SumAmounts(MonthRows(t, userId, year, month))
      && s.remainingBudget == budget - s.totalExpenses
      && (s.totalExpenses > budget ==> s.remainingBudget < 0.0)
      && TotalOf(s.expensesByCategory) == s.totalExpenses
      && SumDaily(s.dailyExpenses) == s.totalExpenses
      && s.totalTransactions == |MonthRows(t, userId, year, month)|
      && |s.expensesByCategory| <= s.totalTransactions
  {
    var g := GetExpensesByCategory(t, userId, year, month);
    TotalOfCategorySums(g);
    SumDailyOfSeries(GetDailyExpenses(t, userId, year, month));
    var rows := MonthRows(t, userId, year, month);
    assert KeysOf(g) == KeysOf(GroupByCategory(rows));
    assert |KeysOf(g)| == |g|;
  }

  /** `p` is the percentage of `total` against `budget`: 0 without a positive
      budget, otherwise p · budget = total · 100. */
  predicate IsPercentageOf(p: real, total: real, budget: real) {
    if budget > 0.0 then p * budget == total * 100.0 else p == 0.0
  }

  /** The dashboard's percentage is that of its total against the budget,
      and lies above 100 exactly when the month is overspent. */
  lemma DashboardPercentage(t: Table, budget: real, userId: int, year: int, month: int)
    ensures var s := Dashboard(t, budget, userId, year, month);
      && IsPercentageOf(s.budgetPercentage, s.totalExpenses, budget)
      && (budget > 0.0 ==> (s.budgetPercentage > 100.0 <==> s.totalExpenses > budget))
  {
    var s := Dashboard(t, budget, userId, year, month);
    PercentageFacts(s.totalExpenses, budget);
  }

  lemma PercentageFacts(total: real, budget: real)
    ensures IsPercentageOf(BudgetPercentage(total, budget), total, budget)
    ensures budget > 0.0 ==> (BudgetPercentage(total, budget) > 100.0 <==> total > budget)
  {
    if budget > 0.0 {
      PercentageNotCapped(total, budget);
    }
  }

  lemma {:induction false} TotalOfCategorySums(g: seq<(Category, real)>)
    ensures TotalOf(CategorySums(g)) == TotalOf(g)
  {
    if g != [] {
      TotalOfCategorySums(g[1..]);
      assert CategorySums(g)[1..] == CategorySums(g[1..]);
    }
  }

  lemma {:induction false} SumDailyOfSeries(g: seq<(int, real)>)
    ensures SumDaily(DailySeries(g)) == TotalOf(g)
  {
    if g != [] {
      SumDailyOfSeries(g[1..]);
      assert DailySeries(g)[1..] == DailySeries(g[1..]);
    }
  }

  /** The keys of both category maps are the display names of the grouping
      rows, in row order. */
  lemma CategoryKeys(g: seq<(Category, real)>)
    ensures KeysOf(CategorySums(g)) == KeysOf(CategoryColors(g))
    ensures |KeysOf(CategorySums(g))| == |g|
    ensures forall i :: 0 <= i < |g| ==> KeysOf(CategorySums(g))[i] == DisplayName(g[i].0)
  {
  }

  /** Distinct categories give distinct display-name keys, so no `put`
      overwrote another category's entry. */
  lemma CategoryKeysDistinct(g: seq<(Category, real)>)
    requires Distinct(KeysOf(g))
    ensures Distinct(KeysOf(CategorySums(g)))
  {
    var ks := KeysOf(CategorySums(g));
    CategoryKeys(g);
    forall i, j | 0 <= i < j < |ks| ensures ks[i] != ks[j] {
      DisplayNameInjective(g[i].0, g[j].0);
      assert KeysOf(g)[i] == g[i].0 && KeysOf(g)[j] == g[j].0;
    }
  }

  /** A category's display name is a key exactly when the category is a
      grouping row, and every key names a category. */
  lemma CategoryKeysNames(g: seq<(Category, real)>)
    ensures forall c :: DisplayName(c) in KeysOf(CategorySums(g)) <==> c in KeysOf(g)
    ensures forall name :: name in KeysOf(CategorySums(g)) ==> FromDisplayName(name).Some?
  {
    var ks := KeysOf(CategorySums(g));
    CategoryKeys(g);
    forall c ensures DisplayName(c) in ks <==> c in KeysOf(g) {
      if DisplayName(c) in ks {
        var i :| 0 <= i < |ks| && ks[i] == DisplayName(c);
        DisplayNameInjective(g[i].0, c);
        assert KeysOf(g)[i] == c;
      }
      if c in KeysOf(g) {
        var i :| 0 <= i < |g| && KeysOf(g)[i] == c;
        assert ks[i] == DisplayName(c);
      }
    }
    forall name | name in ks ensures FromDisplayName(name).Some? {
      var i :| 0 <= i < |ks| && ks[i] == name;
      FromDisplayNameInverse(g[i].0);
    }
  }

  /** Looking up a grouping row's display name yields its sum and its
      colour. */
  lemma CategoryLookup(g: seq<(Category, real)>, i: int)
    requires Distinct(KeysOf(g)) && 0 <= i < |g|
    ensures Get(CategorySums(g), DisplayName(g[i].0)) == Some(g[i].1)
    ensures Get(CategoryColors(g), DisplayName(g[i].0)) == Some(Color(g[i].0))
  {
    CategoryKeysDistinct(g);
    CategoryKeys(g);
    assert CategorySums(g)[i] == (DisplayName(g[i].0), g[i].1);
    assert CategoryColors(g)[i] == (DisplayName(g[i].0), Color(g[i].0));
  }

  /** The two category maps have the same keys, in the grouping query's row
      order, each once: exactly the display names of the categories spent
      on that month. */
  lemma DashboardCategoryKeys(t: Table, budget: real, userId: int, year: int, month: int)
    ensures var s := Dashboard(t, budget, userId, year, month);
      var g := GetExpensesByCategory(t, userId, year, month);
      && KeysOf(s.expensesByCategory) == KeysOf(s.categoryColors)
      && |KeysOf(s.expensesByCategory)| == |g|
      && (forall i :: 0 <= i < |g| ==> KeysOf(s.expensesByCategory)[i] == DisplayName(g[i].0))
      && Distinct(KeysOf(s.expensesByCategory))
      && (forall c :: DisplayName(c) in KeysOf(s.expensesByCategory) <==> SpentOn(t, userId, year, month, c))
      && (forall name :: name in KeysOf(s.expensesByCategory) ==> FromDisplayName(name).Some?)
  {
    var g := GetExpensesByCategory(t, userId, year, month);
    CategoryKeys(g);
    CategoryKeysDistinct(g);
    CategoryKeysNames(g);
  }

  /** Looking a spent category up by its display name gives its monthly sum
      and its catalogue colour; an unspent category is absent from both. */
  lemma DashboardCategoryValues(t: Table, budget: real, userId: int, year: int, month: int, c: Category)
    ensures var s := Dashboard(t, budget, userId, year, month);
      && (SpentOn(t, userId, year, month, c) ==>
            Get(s.expensesByCategory, DisplayName(c)) == Some(SumWhere(MonthRows(t, userId, year, month), CategoryOf, c))
            && Get(s.categoryColors, DisplayName(c)) == Some(Color(c)))
      && (!SpentOn(t, userId, year, month, c) ==>
            Get(s.expensesByCategory, DisplayName(c)).None? && Get(s.categoryColors, DisplayName(c)).None?)
  {
    var s := Dashboard(t, budget, userId, year, month);
    var g := GetExpensesByCategory(t, userId, year, month);
    assert s.expensesByCategory == CategorySums(g) && s.categoryColors == CategoryColors(g);
    assert SpentOn(t, userId, year, month, c) <==> c in KeysOf(g);
    CategoryValues(g, c, MonthRows(t, userId, year, month));
  }

  /** Looking up a category in the maps built from grouping rows `g` over
      `rows`: its group's sum and its colour, or nothing without a group. */
  lemma CategoryValues(g: seq<(Category, real)>, c: Category, rows: seq<Expense>)
    requires Distinct(KeysOf(g))
    requires forall i :: 0 <= i < |g| ==> g[i].1 == SumWhere(rows, CategoryOf, g[i].0)
    ensures c in KeysOf(g) ==>
      Get(CategorySums(g), DisplayName(c)) == Some(SumWhere(rows, CategoryOf, c))
      && Get(CategoryColors(g), DisplayName(c)) == Some(Color(c))
    ensures c !in KeysOf(g) ==>
      Get(CategorySums(g), DisplayName(c)).None? && Get(CategoryColors(g), DisplayName(c)).None?
  {
    CategoryKeys(g);
    CategoryKeysNames(g);
    if c in KeysOf(g) {
      var i :| 0 <= i < |g| && KeysOf(g)[i] == c;
      CategoryLookup(g, i);
    }
  }

  /** The daily series is strictly ascending by day, has an entry exactly for
      the days with expenses, each with that day's sum. */
  lemma DashboardDaily(t: Table, budget: real, userId: int, year: int, month: int)
    ensures var d := Dashboard(t, budget, userId, year, month).dailyExpenses;
      && (forall i, j :: 0 <= i < j < |d| ==> d[i].day < d[j].day)
      && (forall day :: day in Days(d) <==>
            exists e :: e in t.Values && e.userId == userId && InMonth(e, year, month) && e.expenseDate.day == day)
      && (forall i :: 0 <= i < |d| ==> d[i].amount == SumWhere(MonthRows(t, userId, year, month), DayOf, d[i].day))
  {
    var g := GetDailyExpenses(t, userId, year, month);
    var d := DailySeries(g);
    assert Days(d) == KeysOf(g);
  }

  /** The grouping row at `i` brings a display name not yet in either map,
      so each `put` in the dashboard loop appends. */
  lemma CategoryKeyIsNew(g: seq<(Category, real)>, i: int)
    requires Distinct(KeysOf(g)) && 0 <= i < |g|
    ensures DisplayName(g[i].0) !in KeysOf(CategorySums(g[..i]))
    ensures DisplayName(g[i].0) !in KeysOf(CategoryColors(g[..i]))
    ensures CategorySums(g[..i + 1]) == CategorySums(g[..i]) + [(DisplayName(g[i].0), g[i].1)]
    ensures CategoryColors(g[..i + 1]) == CategoryColors(g[..i]) + [(DisplayName(g[i].0), Color(g[i].0))]
  {
    var p := g[..i];
    CategoryKeys(p);
    forall j | 0 <= j < i ensures KeysOf(CategorySums(p))[j] != DisplayName(g[i].0) {
      assert p[j] == g[j];
      DisplayNameInjective(g[j].0, g[i].0);
      assert KeysOf(g)[j] == g[j].0 && KeysOf(g)[i] == g[i].0;
    }
  }

  /** The `for` loop over the grouping rows that `put`s each category's
      sum and colour under its display name. */
  method FillCategoryMaps(categoryData: seq<(Category, real)>)
    returns (expensesByCategory: LinkedMap<string, real>, categoryColors: LinkedMap<string, string>)
    requires Distinct(KeysOf(categoryData))
    ensures expensesByCategory == CategorySums(categoryData)
    ensures categoryColors == CategoryColors(categoryData)
  {
    expensesByCategory := [];
    categoryColors := [];
    for i := 0 to |categoryData|
      invariant expensesByCategory == CategorySums(categoryData[..i])
      invariant categoryColors == CategoryColors(categoryData[..i])
    {
      var category := categoryData[i].0;
      var amount := categoryData[i].1;
      CategoryKeyIsNew(categoryData, i);
      expensesByCategory := Put(expensesByCategory, DisplayName(category), amount);
      categoryColors := Put(categoryColors, DisplayName(category), Color(category));
    }
    assert categoryData[..|categoryData|] == categoryData;
  }

  /** The `for` loop that appends one `DailyExpense` per grouping row. */
  method CollectDaily(dailyData: seq<(int, real)>) returns (dailyExpenses: seq<DailyExpense>)
    ensures dailyExpenses == DailySeries(dailyData)
  {
    dailyExpenses := [];
    for i := 0 to |dailyData|
      invariant dailyExpenses == DailySeries(dailyData[..i])
    {
      dailyExpenses := dailyExpenses + [DailyExpense(dailyData[i].0, dailyData[i].1)];
    }
    assert dailyData[..|dailyData|] == dailyData;
  }

  /** A record agreeing with the dashboard on every field is the dashboard. */
  lemma DashboardByFields(t: Table, budget: real, userId: int, year: int, month: int, s: DashboardStats)
    requires s.totalExpenses == GetTotalExpensesByMonth(t, userId, year, month).GetOr(0.0)
    requires s.monthlyBudget == budget
    requires s.remainingBudget == budget - s.totalExpenses
    requires s.budgetPercentage == BudgetPercentage(s.totalExpenses, budget)
    requires s.expensesByCategory == CategorySums(GetExpensesByCategory(t, userId, year, month))
    requires s.categoryColors == CategoryColors(GetExpensesByCategory(t, userId, year, month))
    requires s.dailyExpenses == DailySeries(GetDailyExpenses(t, userId, year, month))
    requires s.totalTransactions == |FindByUserIdAndMonth(t, userId, year, month)|
    ensures s == Dashboard(t, budget, userId, year, month)
  {
  }

  /** The month's SUM, with an absent (NULL) sum read as 0. */
  method MonthTotal(t: Table, userId: int, year: int, month: int) returns (total: real)
    ensures total == GetTotalExpensesByMonth(t, userId, year, month).GetOr(0.0)
    ensures total == SumAmounts(MonthRows(t, userId, year, month))
  {
    var totalExpenses := GetTotalExpensesByMonth(t, userId, year, month);
    total := if totalExpenses.Some? then totalExpenses.value else 0.0;
  }

  /** The category query's rows put into the two display-name maps. */
  method CategoryMaps(t: Table, userId: int, year: int, month: int)
    returns (expensesByCategory: LinkedMap<string, real>, categoryColors: LinkedMap<string, string>)
    ensures expensesByCategory == CategorySums(GetExpensesByCategory(t, userId, year, month))
    ensures categoryColors == CategoryColors(GetExpensesByCategory(t, userId, year, month))
  {
    var categoryData := GetExpensesByCategory(t, userId, year, month);
    expensesByCategory, categoryColors := FillCategoryMaps(categoryData);
  }

  /** The day query's rows as the daily series. */
  method DailyExpenses(t: Table, userId: int, year: int, month: int) returns (dailyExpenses: seq<DailyExpense>)
    ensures dailyExpenses == DailySeries(GetDailyExpenses(t, userId, year, month))
  {
    var dailyData := GetDailyExpenses(t, userId, year, month);
    dailyExpenses := CollectDaily(dailyData);
  }

  /** The size of the month listing. */
  method TransactionCount(t: Table, userId: int, year: int, month: int) returns (n: int)
    ensures n == |FindByUserIdAndMonth(t, userId, year, month)|
    ensures n == |MonthRows(t, userId, year, month)|
  {
    var monthlyExpenses := FindByUserIdAndMonth(t, userId, year, month);
    n := |monthlyExpenses|;
  }

  /** The service over the two stores it uses. */
  class ExpenseService {
    const store: ExpenseStore
    const users: Users.UserService

    /** Both stores are consistent, and every stored expense has a positive
        amount and a non-blank description. */
    ghost predicate Valid()
      reads store, users
    {
      && store.Valid() && users.Valid()
      && forall k :: k in store.table ==> StoredConstraints(store.table[k])
    }

    constructor (store: ExpenseStore, users: Users.UserService)
      requires store.Valid() && users.Valid()
      requires forall k :: k in store.table ==> StoredConstraints(store.table[k])
      ensures Valid() && this.store == store && this.users == users
    {
      this.store := store;
      this.users := users;
    }

    /** `createExpense`: refused for an unknown user; otherwise a new row
        with a fresh id, owned by the user, holding the request's fields,
        which `getExpenseById` by that user then returns. */
    method CreateExpense(userId: int, request: ExpenseRequests.ExpenseRequest)
      returns (r: Result<ExpenseResponse, ServiceError>)
      requires Valid() && ExpenseRequests.IsValid(request)
      modifies store
      ensures Valid()
      ensures userId !in users.users ==>
        r == Failure(UserNotFound) && store.table == old(store.table) && store.nextId == old(store.nextId)
      ensures userId in users.users ==>
        && r.Success?
        && r.value.id !in old(store.table)
        && r.value.id in store.table
        && store.table == old(store.table)[r.value.id := store.table[r.value.id]]
        && store.table[r.value.id].userId == userId
        && Carries(store.table[r.value.id], request)
        && r.value == FromExpense(store.table[r.value.id])
      ensures r.Success? ==> GetExpenseById(store.table, userId, r.value.id) == r
    {
      var user := users.GetUserById(userId);
      if user.Failure? {
        return Failure(UserNotFound);
      }
      var expense := NewExpense(user.value.id, request);
      var saved := store.SaveNew(expense);
      CarriesKeepsConstraints(store.table[saved.id], request);
      r := Success(FromExpense(saved));
    }

    /** `updateExpense`: the guard of `getExpenseById`, then a full replace
        of the five fields that keeps the id and the owner. */
    method UpdateExpense(userId: int, expenseId: int, request: ExpenseRequests.ExpenseRequest)
      returns (r: Result<ExpenseResponse, ServiceError>)
      requires Valid() && ExpenseRequests.IsValid(request)
      modifies store
      ensures Valid() && store.nextId == old(store.nextId)
      ensures r.Failure? <==> GetExpenseById(old(store.table), userId, expenseId).Failure?
      ensures r.Failure? ==> r == GetExpenseById(old(store.table), userId, expenseId) && store.table == old(store.table)
      ensures r.Success? ==>
        && expenseId in old(store.table)
        && store.table == old(store.table)[expenseId := Overwrite(old(store.table)[expenseId], request)]
        && r.value == FromExpense(store.table[expenseId])
        && GetExpenseById(store.table, userId, expenseId) == r
    {
      var found := store.FindById(expenseId);
      if found.None? {
        return Failure(ExpenseNotFound);
      }
      var expense := found.value;
      if expense.userId != userId {
        return Failure(Unauthorized);
      }
      expense := Overwrite(expense, request);
      CarriesKeepsConstraints(expense, request);
      store.Save(expense);
      r := Success(FromExpense(expense));
    }

    /** `deleteExpense`: the guard of `getExpenseById`, then exactly that row
        goes, after which every user gets "not found" for the id. */
    method DeleteExpense(userId: int, expenseId: int) returns (r: Outcome<ServiceError>)
      requires Valid()
      modifies store
      ensures Valid() && store.nextId == old(store.nextId)
      ensures r.Fail? <==> GetExpenseById(old(store.table), userId, expenseId).Failure?
      ensures r.Fail? ==>
        GetExpenseById(old(store.table), userId, expenseId) == Failure(r.error) && store.table == old(store.table)
      ensures r.Pass? ==> store.table == old(store.table) - {expenseId}
      ensures r.Pass? ==> forall u :: GetExpenseById(store.table, u, expenseId) == Failure(ExpenseNotFound)
    {
      var found := store.FindById(expenseId);
      if found.None? {
        return Fail(ExpenseNotFound);
      }
      var expense := found.value;
      if expense.userId != userId {
        return Fail(Unauthorized);
      }
      store.Delete(expense);
      AbsentIdIsNotFoundForAnyone(store.table, expenseId);
      r := Pass;
    }

    /** `getDashboardStats`: refused for an unknown user; otherwise the
        dashboard of the user's budget over the current table. */
    method GetDashboardStats(userId: int, year: int, month: int) returns (r: Result<DashboardStats, ServiceError>)
      ensures userId !in users.users ==> r == Failure(UserNotFound)
      ensures userId in users.users ==>
        r == Success(Dashboard(store.table, users.users[userId].monthlyBudget, userId, year, month))
    {
      var user := users.GetUserById(userId);
      if user.Failure? {
        return Failure(UserNotFound);
      }
      var t := store.table;
      var monthlyBudget := user.value.monthlyBudget;
      var total := MonthTotal(t, userId, year, month);
      var remaining := monthlyBudget - total;
      var percentage := BudgetPercentage(total, monthlyBudget);
      var expensesByCategory, categoryColors := CategoryMaps(t, userId, year, month);
      var dailyExpenses := DailyExpenses(t, userId, year, month);
      var transactions := TransactionCount(t, userId, year, month);
      var stats := DashboardStats(total, monthlyBudget, remaining, percentage,
                                  expensesByCategory, categoryColors, dailyExpenses, transactions);
      DashboardByFields(t, monthlyBudget, userId, year, month, stats);
      r := Success(stats);
    }
  }
}
