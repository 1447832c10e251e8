# finanote expense ledger, modelled in Dafny

This project models the server side of finanote, a personal expense ledger
for students. The model covers:

- a per-user table of expenses, each with a description, an amount, a
  category, a date and optional notes;
- the queries the service runs over that table (by user, by month, by
  inclusive date range, monthly SUM, GROUP BY category, GROUP BY day);
- create, read, update and delete of an expense, each guarded first by
  existence and then by ownership;
- the monthly dashboard: total, remaining budget, budget percentage, the
  two category maps keyed by display name, the daily series and the
  transaction count;
- the closed catalogue of ten categories with their display names and
  colours;
- request validation (bean-validation constraints as a predicate) and the
  response projection;
- the user table: registration with a default budget of 500, lookups by
  id and by e-mail, and budget updates.

Modules, one per file:

| file | module | models |
|---|---|---|
| `results.dfy` | `Results` | `Option` for `null`/`Optional`, `Result`/`Outcome` for a value or a thrown `RuntimeException` |
| `seqs.dfy` | `Seqs` | filtering, distinctness, the sorted key list of a finite table |
| `dates.dfy` | `Dates` | `LocalDate` as a valid (year, month, day) with chronological order |
| `category.dfy` | `Categories` | `Category` |
| `expense.dfy` | `Expenses` | the stored expense record |
| `expense_request.dfy` | `ExpenseRequests` | `ExpenseRequest` and its constraints |
| `expense_response.dfy` | `ExpenseResponses` | `ExpenseResponse.fromExpense` |
| `expense_repository.dfy` | `ExpenseRepository` | the table (`ExpenseStore`: save, findById, delete) and the seven queries |
| `linked_maps.dfy` | `LinkedMaps` | `LinkedHashMap` (`put` replaces in place or appends) |
| `dashboard.dfy` | `Dashboards` | `DashboardStats` and `DailyExpense` |
| `user_service.dfy` | `Users` | `UserService` |
| `expense_service.dfy` | `ExpenseServices` | `ExpenseService` |

Modelling choices:

- Amounts and budgets are `real`. There is no floating-point rounding.
- A category's display name and colour are functions of the category, so
  they are fixed once and for all, like the enum's `final` fields.
- The owner of an expense is kept as the user's id. The ownership check
  compares only that id.
- A table is a `map` from id to record. SQL promises no order for a query
  without `ORDER BY`; the model fixes one, the scan order, which it takes
  as ascending id.
  - `GROUP BY category` returns its groups in the order each category
    first occurs in that scan.
  - The date-descending queries sort stably, so rows on the same date keep
    their scan order. SQL leaves their order open.
  - The members that promise scan order are listed under "Left out".
- The service's reads are functions of one snapshot of the table.
  `createExpense`, `updateExpense`, `deleteExpense`, `register` and
  `updateBudget` are methods that change the store objects.
  `getDashboardStats` is a method proved equal to the function `Dashboard`.
  It calls helper methods for each part of the record. `CategoryMaps` runs
  the one `for` loop (`FillCategoryMaps`) that fills both category maps.
  `DailyExpenses` runs the `for` loop (`CollectDaily`) that builds the
  daily list.
- Request validation runs in the controller (`@Valid`), before the service
  is called. So validity is a precondition of `CreateExpense` and
  `UpdateExpense`. The service's invariant `Valid()` then includes that
  every stored expense has a positive amount and a non-blank description.
  `Violations` gives the error messages of an invalid
  request.
- `Expenses.Expense` and `Users.User` model the two entities. Their
  fields are those the services set
  (`finanote/src/main/java/com/finanote/service/ExpenseService.java:30-36`
  and `finanote/src/main/java/com/finanote/service/UserService.java:36-40`).
- The derived query `findByUserIdAndExpenseDateBetween` has no `OrderBy`,
  so `GetExpensesByDateRange` promises no date order.

## Model

| member | source | states |
|---|---|---|
| Categories.ValuesEnumerateAll | finanote/src/main/java/com/finanote/model/Category.java:4-13 | `values()` (the constant `Categories.Values`) has exactly ten categories, lists every category, and lists none twice |
| Categories.FromDisplayName | finanote/src/main/java/com/finanote/model/Category.java:4-13 | lookup by display name finds a category carrying that name, or reports that no category carries it |
| Categories.FromDisplayNameInverse | finanote/src/main/java/com/finanote/model/Category.java:23-25 | looking up a category's own display name gives that category back |
| Categories.DisplayNameInjective | finanote/src/main/java/com/finanote/model/Category.java:4-13 | two categories with the same display name are the same category |
| Categories.ColorNotInjective | finanote/src/main/java/com/finanote/model/Category.java:4-10 | FOOD and HEALTH are different categories with the same colour |
| Categories.DisplayName | finanote/src/main/java/com/finanote/model/Category.java:4-25 | every display name is a non-empty label that starts with a capital letter |
| Categories.Color | finanote/src/main/java/com/finanote/model/Category.java:4-29 | every colour is `#` followed by six hexadecimal digits |
| Dates.NotAfterIsLexicographic | finanote/src/main/java/com/finanote/repository/ExpenseRepository.java:16 | the date order used for sorting and ranges is the lexicographic order on (year, month, day) |
| Dates.NotAfterIsTotalOrder | finanote/src/main/java/com/finanote/repository/ExpenseRepository.java:16 | that order is reflexive, antisymmetric, transitive and total |
| Dates.DayOfMonthRange | finanote/src/main/java/com/finanote/repository/ExpenseRepository.java:42-44 | `DAY()` of a valid date lies between 1 and 31 |
| ExpenseRequests.NotBlank | finanote/src/main/java/com/finanote/dto/ExpenseRequest.java:14-15 | a blank-checked string is present and non-empty; one that starts with a visible character passes |
| ExpenseRequests.VisibleDescriptionAccepted | finanote/src/main/java/com/finanote/dto/ExpenseRequest.java:14-15 | a description with a character above U+0020 anywhere in it, such as `"  Lunch"`, passes `@NotBlank`; with `WhitespaceDescriptionRejected` this is the whole rule |
| ExpenseRequests.MessagesDistinct | finanote/src/main/java/com/finanote/dto/ExpenseRequest.java:14-25 | no two constraints report the same message |
| ExpenseRequests.IsValid | finanote/src/main/java/com/finanote/dto/ExpenseRequest.java:14-27 | a request is valid exactly when it breaks no constraint |
| ExpenseRequests.Violations | finanote/src/main/java/com/finanote/dto/ExpenseRequest.java:14-27 | each constraint is broken exactly when its field is missing or bad; a missing amount breaks only `@NotNull`, never `@Positive`; notes are never checked |
| ExpenseRequests.WhitespaceDescriptionRejected | finanote/src/main/java/com/finanote/dto/ExpenseRequest.java:14-15 | a description that is empty or made only of blank characters (up to U+0020) is refused as "Description is required" |
| ExpenseResponses.FromExpense | finanote/src/main/java/com/finanote/dto/ExpenseResponse.java:20-31 | the response carries the category's catalogue name and colour, and adding back the owner gives the original expense, so id, description, amount, category, date and notes are copied unchanged |
| ExpenseResponses.FromExpenseOfWithOwner | finanote/src/main/java/com/finanote/dto/ExpenseResponse.java:20-31 | every response with catalogue-consistent metadata is the projection of the expense it describes, whoever owns it |
| ExpenseResponses.FromExpenseForgetsOnlyOwner | finanote/src/main/java/com/finanote/dto/ExpenseResponse.java:11-18 | two expenses give the same response exactly when they differ at most in owner: the owner is not exposed and nothing else is lost |
| ExpenseRepository.SortByDateDesc | finanote/src/main/java/com/finanote/repository/ExpenseRepository.java:24 | `ORDER BY expenseDate DESC` yields a newest-first permutation of its input |
| ExpenseRepository.FindByUserIdOrderByExpenseDateDesc | finanote/src/main/java/com/finanote/repository/ExpenseRepository.java:16 | all and only the user's expenses, each once, newest first |
| ExpenseRepository.FindByUserIdAndCategory | finanote/src/main/java/com/finanote/repository/ExpenseRepository.java:18 | exactly the user's expenses in that category, in scan order |
| ExpenseRepository.FindByUserIdAndExpenseDateBetween | finanote/src/main/java/com/finanote/repository/ExpenseRepository.java:20 | exactly the user's expenses dated from start to end, both ends included, in scan order |
| ExpenseRepository.DateRangeIsInclusive | finanote/src/main/java/com/finanote/repository/ExpenseRepository.java:20 | an expense dated exactly on the start or the end date is returned |
| ExpenseRepository.FindByUserIdAndMonth | finanote/src/main/java/com/finanote/repository/ExpenseRepository.java:22-27 | exactly the user's expenses in that year and month, each once, newest first |
| ExpenseRepository.GetTotalExpensesByMonth | finanote/src/main/java/com/finanote/repository/ExpenseRepository.java:29-33 | absent (SQL NULL) exactly when the user has no expense that month, otherwise the sum of the month's amounts |
| ExpenseRepository.GroupByCategory | finanote/src/main/java/com/finanote/repository/ExpenseRepository.java:35-37 | one group per distinct category, each with that category's sum (the first-occurrence order of the groups is the model's choice, see "Left out"); the group sums add up to the sum of all rows |
| ExpenseRepository.GetExpensesByCategory | finanote/src/main/java/com/finanote/repository/ExpenseRepository.java:35-40 | one row per category the user spent on that month and no other, each category once, each with its monthly sum; the row sums add up to the monthly total |
| ExpenseRepository.GetDailyExpenses | finanote/src/main/java/com/finanote/repository/ExpenseRepository.java:42-47 | one row per day of the month that has expenses and no other, strictly ascending by day, each with that day's sum; the row sums add up to the monthly total |
| ExpenseRepository.GroupSumsTotal | finanote/src/main/java/com/finanote/repository/ExpenseRepository.java:35-47 | when every row's key is one of the distinct group keys, the group sums add up to the sum of all rows |
| ExpenseRepository.ExpenseStore.FindById | finanote/src/main/java/com/finanote/repository/ExpenseRepository.java:14 | `findById` finds a row exactly when the id is in the table, and that row carries the id |
| ExpenseRepository.ExpenseStore.SaveNew | finanote/src/main/java/com/finanote/repository/ExpenseRepository.java:14 | `save` of a new entity stores it under an id no row had, returns it with that id, and changes nothing else |
| ExpenseRepository.ExpenseStore.Save | finanote/src/main/java/com/finanote/repository/ExpenseRepository.java:14 | `save` of a loaded entity replaces the row with its id and changes nothing else |
| ExpenseRepository.ExpenseStore.Delete | finanote/src/main/java/com/finanote/repository/ExpenseRepository.java:14 | `delete` removes exactly the row with the entity's id |
| LinkedMaps.Get | finanote/src/main/java/com/finanote/service/ExpenseService.java:113-114 | `get` is absent exactly when the key is absent, and with distinct keys returns the value stored under the key |
| LinkedMaps.Put | finanote/src/main/java/com/finanote/service/ExpenseService.java:119-120 | `put` of a present key keeps the key order; `put` of a new key appends the entry |
| LinkedMaps.GetPutSame | finanote/src/main/java/com/finanote/service/ExpenseService.java:119-120 | after `put`, `get` of that key returns the value put |
| LinkedMaps.GetPutOther | finanote/src/main/java/com/finanote/service/ExpenseService.java:119-120 | `put` leaves every other key's value unchanged |
| LinkedMaps.PutKeepsDistinct | finanote/src/main/java/com/finanote/service/ExpenseService.java:119-120 | `put` never creates a duplicate key |
| Users.MessagesDistinct | finanote/src/main/java/com/finanote/service/UserService.java:33-62 | "Email already registered" and "User not found" name different failures |
| Users.UserService.ExistsByEmail | finanote/src/main/java/com/finanote/service/UserService.java:32 | `existsByEmail` holds exactly when some stored user has that e-mail |
| Users.UserService.GetUserById | finanote/src/main/java/com/finanote/service/UserService.java:60-63 | returns the stored user exactly when the id is present, and otherwise fails with "User not found" |
| Users.UserService.GetUserByEmail | finanote/src/main/java/com/finanote/service/UserService.java:65-68 | succeeds exactly when some user has the e-mail and then returns a stored user with that e-mail; otherwise fails with "User not found" |
| Users.UserService.Register | finanote/src/main/java/com/finanote/service/UserService.java:31-46 | a taken e-mail is refused ("Email already registered") and no user is added; otherwise exactly one user is added with a fresh id, the request's name and e-mail, the encoded password and a budget of 500, and both lookups then find that user; e-mails stay unique |
| Users.UserService.UpdateBudget | finanote/src/main/java/com/finanote/service/UserService.java:70-74 | an unknown id fails with "User not found" and changes nothing; otherwise only that user's budget changes, and the updated user is returned |
| Users.RegisterTwiceRefused | finanote/src/main/java/com/finanote/service/UserService.java:32-34 | a second registration with the same e-mail is refused, and the table holds only the first |
| ExpenseServices.Responses | finanote/src/main/java/com/finanote/service/ExpenseService.java:42-54 | `stream().map(fromExpense)` gives one response per row, in row order, each the projection of its row |
| ExpenseServices.GetAllExpenses | finanote/src/main/java/com/finanote/service/ExpenseService.java:42-47 | the responses are exactly the projections of the user's expenses, each expense id once, newest first |
| ExpenseServices.GetExpensesByMonth | finanote/src/main/java/com/finanote/service/ExpenseService.java:49-54 | the responses are exactly the projections of the user's expenses in that month, each expense id once, newest first |
| ExpenseServices.GetExpensesByDateRange | finanote/src/main/java/com/finanote/service/ExpenseService.java:142-147 | the responses are exactly the projections of the user's expenses dated from start to end, both ends included, in ascending id order |
| ExpenseServices.ListingSelects | finanote/src/main/java/com/finanote/service/ExpenseService.java:42-54 | mapping `fromExpense` over a query that selects each matching row once gives the response of each matching row, and each id once |
| ExpenseServices.ResponsesNewestFirst | finanote/src/main/java/com/finanote/service/ExpenseService.java:42-54 | the projection keeps a newest-first order |
| ExpenseServices.MessagesDistinct | finanote/src/main/java/com/finanote/service/ExpenseService.java:58-61 | "Expense not found", "Unauthorized access to expense" and "User not found" each name one failure |
| ExpenseServices.Authorize | finanote/src/main/java/com/finanote/service/ExpenseService.java:57-62 | succeeds exactly for an existing id owned by the user; "not found" exactly when the id is absent; otherwise "unauthorized" |
| ExpenseServices.GetExpenseById | finanote/src/main/java/com/finanote/service/ExpenseService.java:56-65 | the response of the row exactly when the id exists and the user owns it; "Expense not found" exactly when the id is absent; "Unauthorized access to expense" exactly when it exists under another owner |
| ExpenseServices.AbsentIdIsNotFoundForAnyone | finanote/src/main/java/com/finanote/service/ExpenseService.java:57-62 | existence is checked before ownership: an absent id is "not found" for every user, never "unauthorized" |
| ExpenseServices.NewExpense | finanote/src/main/java/com/finanote/service/ExpenseService.java:30-36 | the built entity is owned by the user and carries the request's five fields |
| ExpenseServices.Overwrite | finanote/src/main/java/com/finanote/service/ExpenseService.java:75-79 | the update keeps the id and the owner and takes the other five fields from the request |
| ExpenseServices.CarriesKeepsConstraints | finanote/src/main/java/com/finanote/dto/ExpenseRequest.java:14-19 | an expense built from a valid request has a positive amount and a non-blank description, so the service's invariant that every stored expense has both is kept by `createExpense` and `updateExpense` |
| ExpenseServices.OverwriteForgetsOldFields | finanote/src/main/java/com/finanote/service/ExpenseService.java:75-79 | the update is a full replace: the result depends only on id, owner and request |
| ExpenseServices.OverwriteIdempotent | finanote/src/main/java/com/finanote/service/ExpenseService.java:75-79 | applying the same update twice is the same as applying it once |
| ExpenseServices.BudgetPercentage | finanote/src/main/java/com/finanote/service/ExpenseService.java:109 | 0 when the budget is not positive; otherwise the percentage p with p × budget = total × 100; 0 when nothing is spent |
| ExpenseServices.PercentageNotCapped | finanote/src/main/java/com/finanote/service/ExpenseService.java:109 | with a positive budget the percentage exceeds 100 exactly when the total exceeds the budget, and is 100 exactly when they are equal |
| ExpenseServices.OverspentExample | finanote/src/main/java/com/finanote/service/ExpenseService.java:109 | a budget of 100 with 150 spent shows 150 percent |
| ExpenseServices.CategoryGroupingExample | finanote/src/main/java/com/finanote/service/ExpenseService.java:112-121 | food 10, food 5 and transport 20 give Food & Dining 15 then Transportation 20 |
| ExpenseServices.CategoryKeys | finanote/src/main/java/com/finanote/service/ExpenseService.java:116-121 | both maps have the same keys, one per grouping row, in row order, each the row's display name |
| ExpenseServices.CategoryKeysDistinct | finanote/src/main/java/com/finanote/service/ExpenseService.java:116-121 | distinct categories give distinct keys, so no `put` overwrites another category |
| ExpenseServices.CategoryKeysNames | finanote/src/main/java/com/finanote/service/ExpenseService.java:116-121 | a display name is a key exactly when its category is a grouping row, and every key names a category |
| ExpenseServices.CategoryLookup | finanote/src/main/java/com/finanote/service/ExpenseService.java:116-121 | looking up a row's display name yields that row's sum and the category's colour |
| ExpenseServices.CategoryKeyIsNew | finanote/src/main/java/com/finanote/service/ExpenseService.java:116-121 | each row's display name is new to both maps, so each `put` appends |
| ExpenseServices.FillCategoryMaps | finanote/src/main/java/com/finanote/service/ExpenseService.java:113-121 | the `for` loop of `put`s builds exactly one entry per grouping row, in row order, in both maps |
| ExpenseServices.CollectDaily | finanote/src/main/java/com/finanote/service/ExpenseService.java:127-132 | the `for` loop builds one `DailyExpense` per day row, in row order |
| ExpenseServices.MonthTotal | finanote/src/main/java/com/finanote/service/ExpenseService.java:101-102 | the total is the month's SUM, read as 0 when the sum is absent |
| ExpenseServices.CategoryMaps | finanote/src/main/java/com/finanote/service/ExpenseService.java:112-121 | the maps are built from the category query's rows |
| ExpenseServices.DailyExpenses | finanote/src/main/java/com/finanote/service/ExpenseService.java:126-133 | the series is built from the day query's rows |
| ExpenseServices.TransactionCount | finanote/src/main/java/com/finanote/service/ExpenseService.java:136-137 | the count is the number of the month's expenses |
| ExpenseServices.Dashboard | finanote/src/main/java/com/finanote/service/ExpenseService.java:96-140 | the dashboard's total is the sum of the month's amounts (an absent SUM reads as 0), it carries the user's budget, the remainder is budget minus total, and the count is the number of the month's expenses |
| ExpenseServices.DashboardPercentage | finanote/src/main/java/com/finanote/service/ExpenseService.java:109 | the dashboard's percentage is 0 without a positive budget and otherwise p with p × budget = total × 100; it exceeds 100 exactly when the month is overspent |
| ExpenseServices.PercentageFacts | finanote/src/main/java/com/finanote/service/ExpenseService.java:109 | the computed percentage satisfies that definition for every total and budget, and is above 100 exactly when total exceeds budget |
| ExpenseServices.DashboardByFields | finanote/src/main/java/com/finanote/service/ExpenseService.java:98-139 | a record that agrees with the dashboard on every field is the dashboard |
| ExpenseServices.EmptyMonthDashboard | finanote/src/main/java/com/finanote/service/ExpenseService.java:101-137 | a month with no expenses gives total 0, the whole budget remaining, 0 percent, empty maps, an empty series and no transactions |
| ExpenseServices.DashboardTotals | finanote/src/main/java/com/finanote/service/ExpenseService.java:101-137 | the total is the month's sum; the remainder is budget minus total and negative when overspent; the category sums and the daily sums each add up to the total; the count is the number of the month's expenses, and at least the number of categories |
| ExpenseServices.DashboardCategoryKeys | finanote/src/main/java/com/finanote/service/ExpenseService.java:112-123 | both maps have identical keys, in the grouping query's row order, each once, exactly the display names of the categories spent on that month |
| ExpenseServices.DashboardCategoryValues | finanote/src/main/java/com/finanote/service/ExpenseService.java:112-123 | a spent category's display name maps to its monthly sum and its catalogue colour; an unspent category is absent from both maps |
| ExpenseServices.DashboardDaily | finanote/src/main/java/com/finanote/service/ExpenseService.java:126-133 | the series is strictly ascending by day, has an entry exactly for the days with expenses, and each entry holds that day's sum |
| ExpenseServices.ExpenseService.CreateExpense | finanote/src/main/java/com/finanote/service/ExpenseService.java:27-40 | an unknown user is refused ("User not found") and the table is unchanged; otherwise exactly one row is added, under a fresh id, owned by the user, with the request's five fields; `getExpenseById` by the same user then returns the same response; every stored expense keeps a positive amount and a non-blank description |
| ExpenseServices.ExpenseService.UpdateExpense | finanote/src/main/java/com/finanote/service/ExpenseService.java:67-83 | fails exactly when `getExpenseById` would, with the same error, and then changes nothing; otherwise only that row changes, to the full replace that keeps id and owner, and `getExpenseById` then returns the returned response; every stored expense keeps a positive amount and a non-blank description |
| ExpenseServices.ExpenseService.DeleteExpense | finanote/src/main/java/com/finanote/service/ExpenseService.java:85-94 | fails exactly when `getExpenseById` would, with the same error, and then changes nothing; otherwise exactly that row is removed, and `getExpenseById` of that id then fails with "Expense not found" for every user |
| ExpenseServices.ExpenseService.GetDashboardStats | finanote/src/main/java/com/finanote/service/ExpenseService.java:96-140 | an unknown user is refused ("User not found"); otherwise the result is the dashboard of the user's budget over the current table |

## Left out

- Floating point: amounts, budgets and the percentage are exact `real`
  numbers. IEEE `Double` rounding is not modelled.
- Persistence: JPA/SQL execution, transactions, isolation and concurrent
  requests are not modelled. The store is one sequential in-memory table,
  and the dashboard reads one snapshot of it.
- Security: `login`, password hashing, JWT issuance and the
  `AuthenticationManager` are foreign libraries. `Register` takes the
  encoded password as a parameter and returns the saved user instead of
  the `AuthResponse` with a token.
- Controllers: `ExpenseController.java` and `UserController.java` are HTTP
  routing. Their default year and month come from the clock; the model
  takes year and month as parameters.
- Browser UI: `app.js` is presentation only, such as clamping the
  percentage for display and zero-filling the days.
- Null budget: a `null` budget passed to `updateBudget` would make
  `getDashboardStats` fail. The model's budgets are never null.
- Unknown ids in save: `save` of a detached entity with an id that no row
  has is not modelled, because the service never does it.
  `ExpenseStore.Save` requires the id to be present.
- ExpenseRepository.FindByUserIdOrderByExpenseDateDesc: the model fixes
  the order of expenses that share a date (scan order). The query leaves
  that order open, so the contract promises only newest-first order.
- ExpenseRepository.FindByUserIdAndCategory: the contract promises
  ascending-id order, the model's scan order. The derived query has no
  `OrderBy`, so the database promises no order.
- ExpenseRepository.FindByUserIdAndExpenseDateBetween: the contract
  promises ascending-id order, the model's scan order. The derived query
  has no `OrderBy`, so the database promises no order.
- ExpenseServices.GetExpensesByDateRange: the contract promises
  ascending-id order, inherited from
  `FindByUserIdAndExpenseDateBetween`. The source promises no order.
- ExpenseRepository.GroupByCategory: the groups come in order of first
  occurrence, which the model chooses. Its contract promises only one group
  per distinct category.
- ExpenseRepository.GetExpensesByCategory: SQL does not fix the order of
  `GROUP BY` groups. The model returns them in first-occurrence order, and
  the contracts rely only on each category appearing once.
