# Personal finance backend: a Dafny model of its services

This project models the service layer of a personal-finance backend (FastAPI
over SQLAlchemy). The backend keeps a user's accounts, their INCOME,
EXPENSE and TRANSFER transactions, categories, monthly budgets, debts, and
read-only analytics. The model proves what each service call does to the
tables, which errors it raises, and the invariants it keeps.

The session is the class `Database.Db`, with one `seq` field per table
(rows in insertion order, ids unique). A service call that changes the
database is a method with a field-level `modifies` frame; a read-only query
is a pure function over the table sequences.

Every request runs in a session that is rolled back on any exception. So
each failing call is proved to leave the tables it touched exactly as they
were. This matters for `create_transfer`, which inserts both legs before it
looks the accounts up.

The central invariant is `Db.LedgerValid`, built on `Ledger.Consistent`. It
says each account's cached balance equals:

- its opening balance,
- plus the signed sum of its INCOME (+) and EXPENSE (−) rows,
- plus what transfers moved.

Every operation on accounts and transactions is proved to keep it.

Modules:

- `Common`: the `Option`, `Result`, `Error` and `Patch` datatypes. A `Patch` is a request field that was left out (`Keep`) or given (`Put`), possibly as an explicit null.
- `Dates`: proleptic Gregorian dates, with day numbers, weekdays and `d - timedelta(days=k)`.
- `Seqs`: filtering, sorting by a total preorder (insertion sort), indexing, de-duplication and conditional sums.
- `Schema`: the rows of backend/app/models/*.py and id uniqueness.
- `Ledger`: the balance effect of a row, crediting an account, the ledger invariant and its preservation lemmas.
- `Database`: the session `Db`.
- `TransactionService`, `AccountService`, `CategoryService`, `DebtService`, `BudgetService` and `AnalyticsService`: one module per file under backend/app/services/.

Modelling choices that follow the code:

- The balance lookups of `_update_balance` and `create_transfer` go by account id alone, not by owner. The model does the same.
- A patch is the `setattr` loop over `model_dump(exclude_unset=True)`:
  - a left-out field keeps its value;
  - a field given as null becomes null;
  - a null written to a NOT NULL column fails at the next flush with an integrity error, and the request is rolled back.
- Filters written `if category_id:` / `if account_id:` treat the empty string like no filter; `Common.Truthy` models that.
- `data.description or "Transfer out"` treats an empty description as missing.
- `create_budget`'s duplicate lookup compares `category_id` with a null as `IS NULL`. So two overall budgets of the same type and period collide.
- Seeding does not check for existing rows.

## Model

| member | source | states |
|---|---|---|
| Ledger.Effect | backend/app/services/transaction_service.py:20-23 | An INCOME row adds its amount to the balance, an EXPENSE row subtracts it, and a TRANSFER row falls through both branches and changes nothing. |
| Ledger.CreditInverse | backend/app/services/transaction_service.py:27-37 | Applying a delta to an account and then its negation restores the accounts table exactly (reverse undoes update). |
| Ledger.CreditBalance | backend/app/services/transaction_service.py:14-24 | Changing the balance of one account id moves that account's balance by the delta and no other account's balance. Accounts neither appear nor disappear. |
| Ledger.TransferKeepsTotal | backend/app/services/transaction_service.py:195-196 | Debiting one existing account and crediting another by the same amount keeps the sum of all balances. |
| Ledger.ConsistentAfterAppend | backend/app/services/transaction_service.py:40-52 | Adding a row and applying its effect to its (existing) account keeps every cached balance equal to opening balance plus transfers plus the signed sum of the account's rows. |
| Ledger.ConsistentAfterRemove | backend/app/services/transaction_service.py:145-149 | Reversing a row's effect and deleting it keeps the balance invariant. |
| Ledger.ConsistentAfterRewrite | backend/app/services/transaction_service.py:119-134 | Reversing a row's old effect, rewriting it (same id), and applying the new effect to its new account keeps the balance invariant. |
| Ledger.ConsistentAfterTransfer | backend/app/services/transaction_service.py:152-198 | Two TRANSFER legs with fresh ids, plus the debit of one account and the credit of another, keep the balance invariant. |
| Ledger.ConsistentAfterOpen | backend/app/services/account_service.py:9-22 | A new account with a fresh id and any opening balance keeps the balance invariant. |
| Ledger.ConsistentAfterEdit | backend/app/services/account_service.py:42-49 | Rewriting an account without changing its id or balance keeps the balance invariant. |
| Ledger.ConsistentAfterClose | backend/app/services/account_service.py:52-55 | Deleting an account together with all of its transactions (the cascade) keeps the balance invariant for the remaining accounts. |
| TransactionService.UpdateBalance | backend/app/services/transaction_service.py:14-24 | Succeeds iff an account with that id exists (any owner). Otherwise it is a 404 "Account not found" with the table untouched. On success exactly that account's balance moves by +amount for INCOME, −amount for EXPENSE, 0 for TRANSFER. |
| TransactionService.ReverseBalance | backend/app/services/transaction_service.py:27-37 | Moves the account's balance by the negated effect. A missing account is skipped silently, leaving the table unchanged. |
| TransactionService.TransferMovesNothing | backend/app/services/transaction_service.py:20-36 | For a TRANSFER row both the apply and the reverse step leave every balance as it is, so creating, updating or deleting one moves no balance. |
| TransactionService.CreateMovesOneBalance | backend/app/services/transaction_service.py:40-52 | Creating a row raises its account's balance by the amount (INCOME) or lowers it (EXPENSE). Every other account keeps its balance. |
| TransactionService.DeleteUndoesCreate | backend/app/services/transaction_service.py:145-149 | Deleting the newest row removes exactly it, and reversing its effect restores the balances from before its creation. |
| TransactionService.CreateTransaction | backend/app/services/transaction_service.py:40-52 | Fails iff the account id does not exist, with 404 "Account not found"; then rows and balances are unchanged (rollback). On success the new row (the given fields, no link) is appended and only its effect is applied. The balance invariant is kept. |
| TransactionService.FindTxn | backend/app/services/transaction_service.py:107-113 | Finds an index of a row with this id owned by this user, and finds none iff there is no such row. |
| TransactionService.GetTransaction | backend/app/services/transaction_service.py:107-116 | Returns a row iff one with this id belongs to this user; a missing row or another user's row gives 404 "Transaction not found". |
| TransactionService.ApplyUpdate | backend/app/services/transaction_service.py:127-129 | Fails (integrity error) iff a NOT NULL field (account, type, amount, date) is explicitly nulled. Otherwise each given field is written and each left-out field kept, while id, owner, link and creation time never change. |
| TransactionService.EmptyUpdateKeepsRow | backend/app/services/transaction_service.py:127-129 | An update body with no fields leaves the row unchanged. |
| TransactionService.UpdateMovesBalances | backend/app/services/transaction_service.py:124-132 | After a successful update, every account's balance is the old one, minus the old effect if it was the old account, plus the new effect if it is the new account. So moving a row to another account reverses on the old account and applies on the new one. |
| TransactionService.UpdateAt | backend/app/services/transaction_service.py:124-134 | Reverses the old effect, patches the row, and applies the new effect to the (possibly new) account. A nulled required field or a missing new account fails with every table as before. The balance invariant is kept. |
| TransactionService.UpdateTransaction | backend/app/services/transaction_service.py:119-134 | A missing or foreign row gives 404 "Transaction not found" and changes nothing. Otherwise the outcome is UpdateAt's. |
| TransactionService.DeleteAt | backend/app/services/transaction_service.py:147-149 | Removes exactly that row and reverses its effect on its account, keeping the balance invariant. |
| TransactionService.DeleteTransaction | backend/app/services/transaction_service.py:145-149 | Fails iff no row with that id belongs to the user ("Transaction not found", nothing changes). Otherwise it removes just that row and reverses its effect. |
| TransactionService.TransferLegs | backend/app/services/transaction_service.py:157-182 | The two legs are TRANSFER rows of the user on the source and destination accounts, with equal amount and date and no category, each linked to the other. Their descriptions are the given one, or "Transfer out" / "Transfer in" when it is missing or empty. |
| TransactionService.AddLegs | backend/app/services/transaction_service.py:165-182 | Appends the outgoing leg and then the incoming one, the outgoing leg ending up linked to the incoming one. |
| TransactionService.TransferAccounts | backend/app/services/transaction_service.py:185-193 | Fails iff either account id is missing. A missing source gives "Source account not found" first, otherwise a missing destination gives "Destination account not found". On success it yields both accounts' positions. |
| TransactionService.MoveAmount | backend/app/services/transaction_service.py:195-196 | The source account's balance drops by the amount and the destination's rises by it; nothing else changes. |
| TransactionService.CommitTransfer | backend/app/services/transaction_service.py:195-198 | Once both legs are stored, moving the amount restores the balance invariant and yields exactly the debit-then-credit accounts table. |
| TransactionService.AddTransfer | backend/app/services/transaction_service.py:165-198 | Fails iff an account lookup fails, with that lookup's error. The legs added before the lookup are then gone again and no balance has moved. Otherwise both legs are appended, source debited and destination credited. |
| TransactionService.CreateTransfer | backend/app/services/transaction_service.py:152-198 | Equal source and destination give 400 "Cannot transfer to the same account" before anything is added. A missing account gives its 404. An error leaves rows and balances unchanged. On success the two linked legs are appended and the amount moves. The balance invariant holds in every case. |
| TransactionService.TransferMovesTwoBalances | backend/app/services/transaction_service.py:195-196 | A transfer lowers the source balance by the amount, raises the destination by it, and leaves every other account's balance alone. |
| TransactionService.NewestFirstOrders | backend/app/services/transaction_service.py:100 | Date descending, then creation time descending, is a total preorder. |
| TransactionService.Ordered | backend/app/services/transaction_service.py:74-100 | Exactly the user's rows that satisfy every given filter (empty string filters ignored), each once, ordered by date descending and then creation time descending. |
| TransactionService.GetTransactions | backend/app/services/transaction_service.py:63-104 | Every item matches the query. Items are in listing order, at most `size` of them, namely the ordered matches from offset (page−1)·size on. `total` is the number of all matches. |
| TransactionService.TotalIgnoresPage | backend/app/services/transaction_service.py:79-98 | `total` is the same for every page and size and equals the number of matching rows. |
| AccountService.NewAccount | backend/app/services/account_service.py:9-22 | The new row holds the given fields for this user. The balance is the given one or 0, and the currency the given one or "UZS" (the request defaults). |
| AccountService.CreateAccount | backend/app/services/account_service.py:9-22 | Appends exactly the new row, keeping the balance invariant. |
| AccountService.NewestAccountFirstOrders | backend/app/services/account_service.py:27 | Creation time descending is a total preorder. |
| AccountService.GetAccounts | backend/app/services/account_service.py:25-29 | Exactly the user's accounts, each as often as in the table, newest first. |
| AccountService.FindAccount | backend/app/services/account_service.py:32-36 | Finds the user's account with that id, and finds none iff there is none. |
| AccountService.GetAccount | backend/app/services/account_service.py:32-39 | Returns the account iff the user owns one with that id; otherwise 404 "Account not found". |
| AccountService.ApplyAccountUpdate | backend/app/services/account_service.py:44-46 | Fails iff name, type or currency is explicitly nulled. Otherwise it writes each given field, keeps the rest, and never changes the id, owner, creation time or balance (the update body has no balance). |
| AccountService.EmptyAccountUpdateKeepsRow | backend/app/services/account_service.py:44-46 | An empty update body leaves the account unchanged. |
| AccountService.UpdateAccount | backend/app/services/account_service.py:42-49 | A missing or foreign account gives "Account not found". A nulled required field fails. Either way nothing changes. Otherwise just that row is patched, keeping the balance invariant. |
| AccountService.DeleteAccount | backend/app/services/account_service.py:52-55 | Fails iff the user has no such account ("Account not found", nothing changes). Otherwise it removes the account and every transaction on it, keeping the balance invariant. |
| CategoryService.PresetRows | backend/app/services/category_service.py:7-24 | One row per preset, in order, carrying that preset's name, icon and color, the list's type, the user and the default flag. |
| CategoryService.SeedRows | backend/app/services/category_service.py:27-48 | The seeding adds 13 rows with the given fresh ids. Rows 0-7 are the expense presets in list order, typed EXPENSE, and rows 8-12 the income presets in list order, typed INCOME. |
| CategoryService.AddPresets | backend/app/services/category_service.py:28-37 | The loop appends one row per preset, in order. |
| CategoryService.SeedDefaultCategories | backend/app/services/category_service.py:27-50 | Appends exactly the seed rows and keeps category ids unique. |
| CategoryService.PresetRowsKinds | backend/app/services/category_service.py:7-24 | Every row of a preset list is a default of the user with that list's type, and none has the other type. |
| CategoryService.SeedAdds | backend/app/services/category_service.py:27-50 | One seeding raises the user's default EXPENSE categories by exactly 8 and default INCOME categories by exactly 5. |
| CategoryService.SeedTwice | backend/app/services/category_service.py:27-50 | Seeding does not look at existing rows: seeding twice adds 16 expense and 10 income defaults. |
| CategoryService.CreateCategory | backend/app/services/category_service.py:62-74 | Appends one category of the user with the given name, type, icon and color, not default. |
| CategoryService.CategoryOrderTotal | backend/app/services/category_service.py:57 | "Defaults first, then by name" is a total preorder. |
| CategoryService.GetCategories | backend/app/services/category_service.py:53-59 | Exactly the user's categories (of the given type when one is given), each as often as in the table. Defaults come before non-defaults, and within each group names ascend. |
| CategoryService.SortedByCategoryOrder | backend/app/services/category_service.py:57 | A list sorted by the category order has all defaults first and ascending names among rows with the same flag. |
| DebtService.NewDebt | backend/app/services/debt_service.py:9-22 | The new debt holds the given type, person, amount, description and due date, the currency or "UZS", and status OPEN. |
| DebtService.CreateDebt | backend/app/services/debt_service.py:9-22 | Appends exactly the new debt. |
| DebtService.NewestDebtFirstOrders | backend/app/services/debt_service.py:36 | Creation time descending is a total preorder. |
| DebtService.GetDebts | backend/app/services/debt_service.py:25-38 | Exactly the user's debts of the given type and status (when given), each as often as in the table, newest first. |
| DebtService.FindDebt | backend/app/services/debt_service.py:41-45 | Finds the user's debt with that id, and finds none iff there is none. |
| DebtService.GetDebt | backend/app/services/debt_service.py:41-48 | Returns the debt iff the user owns one with that id; otherwise 404 "Debt not found". |
| DebtService.ApplyDebtUpdate | backend/app/services/debt_service.py:53-55 | Fails iff person, amount or currency is explicitly nulled. Otherwise it writes each given field and keeps the rest, and can never change id, owner, type, status or creation time. |
| DebtService.UpdateDebt | backend/app/services/debt_service.py:51-58 | A missing or foreign debt gives "Debt not found". A nulled required field fails. Either way nothing changes. Otherwise just that row is patched. |
| DebtService.Close | backend/app/services/debt_service.py:63-65 | Fails iff the debt is already CLOSED, with 400 "Debt is already closed". Otherwise the result is the same debt with status CLOSED and nothing else changed. |
| DebtService.CloseTwiceFails | backend/app/services/debt_service.py:63-64 | Closing is not idempotent: closing a just-closed debt fails with "Debt is already closed". |
| DebtService.CloseDebt | backend/app/services/debt_service.py:61-68 | A missing or foreign debt gives "Debt not found". An already closed one gives "Debt is already closed". Either way nothing changes. Otherwise only that debt's status becomes CLOSED. |
| BudgetService.NewBudget | backend/app/services/budget_service.py:27-34 | The new budget has the given id and planned amount, and the requested (user, category, type, month, year). |
| BudgetService.FindByKey | backend/app/services/budget_service.py:15-24 | Finds a budget with that (user, category, type, month, year), and finds none iff there is none. |
| BudgetService.KeysAppend | backend/app/models/budget.py:13 | Adding a budget with a new key keeps (user, category, type, month, year) unique. |
| BudgetService.KeysRewrite | backend/app/services/budget_service.py:64-68 | Rewriting a budget without touching its key keeps keys unique. |
| BudgetService.KeysRemove | backend/app/services/budget_service.py:77-80 | Removing a budget keeps keys unique. |
| BudgetService.CreateBudget | backend/app/services/budget_service.py:14-42 | Fails iff a budget with the same (user, category, type, month, year) exists, with 400 "Budget for this category and period already exists" and no row added. Otherwise it appends exactly the new budget. Keys stay unique. |
| BudgetService.GetBudgets | backend/app/services/budget_service.py:45-51 | Exactly the user's budgets of that month and year, taken from the table. |
| BudgetService.GetBudgetsSlotsUnique | backend/app/models/budget.py:12-14 | Because keys are unique, one user's month never lists two budgets for the same (category, type). |
| BudgetService.FindBudget | backend/app/services/budget_service.py:54-58 | Finds the user's budget with that id, and finds none iff there is none. |
| BudgetService.GetBudget | backend/app/services/budget_service.py:54-61 | Returns the budget iff the user owns one with that id; otherwise 404 "Budget not found". |
| BudgetService.Replan | backend/app/services/budget_service.py:66-67 | The planned amount is replaced only when a new one is given. Id and key never change. |
| BudgetService.UpdateBudget | backend/app/services/budget_service.py:64-74 | Fails iff the user owns no such budget ("Budget not found", nothing changes). Otherwise only that budget's planned amount is updated. |
| BudgetService.DeleteBudget | backend/app/services/budget_service.py:77-80 | Fails iff the user owns no such budget ("Budget not found", nothing changes). Otherwise exactly that budget is removed. |
| BudgetService.ActualIgnores | backend/app/services/budget_service.py:91-102 | A transaction of another user, another type (a TRANSFER never counts), another month or year, or (for a category budget) another category leaves the actual sum unchanged. |
| BudgetService.ActualAdds | backend/app/services/budget_service.py:91-102 | A transaction the budget counts adds exactly its amount to the actual sum. |
| BudgetService.CategoryWithinOverall | backend/app/services/budget_service.py:98-99 | With non-negative amounts, a category budget's actual never exceeds the overall actual of the same type and period. |
| BudgetService.DisplayName | backend/app/services/budget_service.py:105 | Gives "Overall" for a budget without a category or whose category is missing. Otherwise it gives the name of the category with that id. |
| BudgetService.GetBudgetComparison | backend/app/services/budget_service.py:83-114 | One comparison per budget of the month, in `get_budgets` order. Each holds that budget's display name, planned amount and actual sum. |
| AnalyticsService.PeriodRange | backend/app/services/analytics_service.py:12-20 | The range always ends today and starts at a valid date no later than today. For "week", today's weekday number of days back; for "year", January 1; for any other string, the first of the month. |
| AnalyticsService.WeekRangeStartsMonday | backend/app/services/analytics_service.py:14-16 | The week range starts on a Monday at most six days back. |
| Dates.WeekStart | backend/app/services/analytics_service.py:15 | `today - timedelta(days=today.weekday())` is a valid date, not after today, exactly weekday-many days earlier. |
| Dates.WeekStartIsMonday | backend/app/services/analytics_service.py:15 | That date is a Monday at most six days back. |
| AnalyticsService.Summarize | backend/app/services/analytics_service.py:26-51 | Income is the sum over the user's INCOME rows dated within the range and expense the same over EXPENSE rows; TRANSFER rows are never summed. Balance = income − expense. |
| AnalyticsService.GetSummary | backend/app/services/analytics_service.py:23-51 | The summary over the period's range, with balance = income − expense. |
| AnalyticsService.SummaryIgnores | backend/app/services/analytics_service.py:36-41 | A TRANSFER row, another user's row, or a row outside the range changes no total. |
| AnalyticsService.SummaryAddsIncome | backend/app/services/analytics_service.py:28-31 | An INCOME row in range adds its amount to income and balance and leaves expense alone. |
| AnalyticsService.SummaryAddsExpense | backend/app/services/analytics_service.py:32-35 | An EXPENSE row in range adds its amount to expense, takes it off the balance, and leaves income alone. |
| AnalyticsService.SummaryEmpty | backend/app/services/analytics_service.py:44-45 | With no matching row all three totals are 0. |
| AnalyticsService.JoinRow | backend/app/services/analytics_service.py:67 | The inner join on the category id: a row without a category, or with a missing one, drops out. Otherwise it contributes its amount under that category's (name, color). |
| AnalyticsService.JoinAppend | backend/app/services/analytics_service.py:61-79 | The join of two row sequences put together is the two joins put together. |
| AnalyticsService.LargerFirstOrders | backend/app/services/analytics_service.py:73 | Ordering groups by summed amount, larger first, is a total preorder. |
| AnalyticsService.Breakdowns | backend/app/services/analytics_service.py:72-73 | One entry per distinct (name, color) group of the join and no other. Each holds its group's sum, and larger sums come first. |
| AnalyticsService.ByCategory | backend/app/services/analytics_service.py:54-94 | Groups the user's rows of the requested type within the optional dates, joined to their category, by (name, color). Each distinct group appears once with its sum, larger sums first. |
| AnalyticsService.ByCategoryIgnores | backend/app/services/analytics_service.py:67-79 | A row that is not selected (another user, another type, outside the dates) or has no category leaves the breakdown unchanged. |
| AnalyticsService.ChronologicalOrders | backend/app/services/analytics_service.py:121 | Date order is a total preorder. |
| AnalyticsService.MonthDates | backend/app/services/analytics_service.py:114-120 | The distinct dates that carry an INCOME or EXPENSE row of the user in that month and year, each once. |
| AnalyticsService.DailyTotals | backend/app/services/analytics_service.py:97-132 | One entry per distinct date with an INCOME or EXPENSE row of the user in that month, in strictly ascending date order, with per-day income and expense sums. |
| AnalyticsService.TotalsOnIgnores | backend/app/services/analytics_service.py:105-118 | A row outside the WHERE clause (another user's, another month's or year's, or a TRANSFER) changes neither sum of any day. |
| AnalyticsService.DailyTotalsIgnores | backend/app/services/analytics_service.py:114-120 | Such a row leaves the daily totals exactly as they were: it adds no day and changes no day's sums. |

## Left out

- I/O and the framework: routers, authentication, the FastAPI dependency that opens, commits and rolls back the session, and the re-fetches with eager loading. Each service call is modelled as all-or-nothing instead.
- Fresh values: the uuid4 row ids and the `datetime.utcnow()` creation times become parameters.
  - Each creating method requires its fresh ids to be unused.
  - `date.today()` becomes the parameter `today`.
- Decimal and floats: `Numeric(15,2)` amounts are exact integers (minor units). Dafny's `int` is unbounded, so the model drops the column's width limit of at most 13 digits before the decimal point. The percentage fields of `get_by_category` and `get_budget_comparison` use floating point, and the model omits them.
- SQLite `strftime`: the month/year filters of `get_daily_totals` and `get_budget_comparison` compare the date's month and year fields. That equals the string comparison for the months 1..12 and four-digit years the routers admit.
- `get_daily_totals` returns each day as a date value, not its `str(date)` text.
- Ties and group order: insertion sort is stable, and SQLite's order among equal sort keys is unspecified.
  - TransactionService.GetTransactions, AccountService.GetAccounts, DebtService.GetDebts, CategoryService.GetCategories: the contracts state membership, multiplicity and the ORDER BY keys. They do not fix the order of rows whose keys are equal.
  - AnalyticsService.Breakdowns: the order among groups with equal sums is not fixed.
- BudgetService.GetBudgets: the query has no ORDER BY, so the model returns the table's insertion order. Its contract states membership only.
- AnalyticsService.ByCategory: the join is on the category id alone and the type filter applies to the transaction's type, as the query does. A category type that disagrees with the transaction type is not detected, because the code does not check it.
- BudgetService.CreateBudget: `scalar_one_or_none` raising MultipleResultsFound cannot happen, because the kept invariant makes budget keys unique.
- A category or budget row whose referenced category no longer exists: deleting categories is not part of these services.
- Concurrency, overdraft checks, currency conversion and validation of `amount > 0`: the services have none.
- DebtService.CloseTwiceFails: a direct consequence of Close's contract, stated for the non-idempotence of closing.
