# Money-Dashboard reporting core in Dafny

Money-Dashboard is a small personal-finance backend. It keeps accounts,
categories and transactions. A transaction carries a signed amount, where
positive is income and negative is expense, an optional category and a
timestamp. On top of these tables the backend answers a handful of reporting
queries:

- the balance of one account, and the balances of all accounts;
- the cumulative balance per calendar day;
- the income/expense split of an account;
- the monthly report: income, expense, net, the balance at the end of the
  month, and the month's expenses per category label;
- the all-time income or expense per category label, for the charts.

The transaction endpoints add a year or month filter and create, update and
delete transactions.

This project models that core. Every aggregate query is a function of a
snapshot of the transaction table, given as a `seq<Transaction>`. The
operations that change tables in place are methods on classes: the account
table in `Accounts.AccountTable`, the transaction table in
`Transactions.Ledger`. The imperative loop of the time series is a method
with loop invariants.

Modules, in dependency order:

| file | module | what it holds |
|---|---|---|
| common.dfy | `Common` | `Option`, `Result` and the error cases of the endpoints |
| models.dfy | `Models` | calendar dates and timestamps with their order; the timestamp constructor; account and transaction records with their defaults; the category table as an id-to-name map |
| query.dfy | `Query` | the WHERE conditions (account, `created_at >= since`, `created_at < before`, amount sign), `Select` and `Total` (`coalesce(sum(amount), 0)`), and their laws |
| grouping.dfy | `Grouping` | `GROUP BY key` with a sum per group; the law that the group sums over the distinct keys add up to the total |
| accounts.dfy | `Accounts` | balance, balances of all accounts, income/expense split, the daily time series, the account table |
| reports.dfy | `Reports` | month periods, category labels and grouped category rows, the monthly report, the chart data |
| transactions.dfy | `Transactions` | the year/month filter, and the ledger with create, list, update and delete |

Amounts are integers (cents), so every sum is exact. A timestamp is a calendar
date plus the second of the day, ordered first by date and then by time.
Building a timestamp for a year above 9999 fails. Where an endpoint does that,
for example the monthly report for December 9999, the model answers
`Err(DateOutOfRange)`: the code has no handler there, so the request ends in
a server error. Query parameters that break their declared bounds give
`Err(Unprocessable)`. An update of an unknown id gives `Err(NotFound)`, the
model of the `{"error": "Nicht gefunden"}` answer.

## Model

| member | source | states |
|---|---|---|
| Models.MakeDateTime | backend/app/api/reports.py:20-21 | `datetime(year, month, 1)` succeeds exactly for a valid calendar date. It then gives the first instant of that day: no valid instant of the same day is earlier. |
| Models.AccountCreateWithDefaults | backend/app/db/models.py:18-20 | An account payload without a currency gets "EUR". |
| Models.AccountFromPayload | backend/app/api/accounts.py:22 | The new account row carries the payload's name and currency and has no id until it is stored. |
| Models.TransactionCreateWithDefaults | backend/app/db/models.py:39-45 | A transaction payload without note and category gets note "" and no category. The clock default is a parameter. |
| Models.TransactionFromPayload | backend/app/api/transactions.py:15 | The new transaction row carries every payload field unchanged and has no id until it is stored. |
| Query.Select | backend/app/api/reports.py:24-30 | The WHERE conjunction of account, `created_at >= since`, `created_at < before` and amount sign, over the rows in table order. No contract of its own; its meaning is stated by `Query.SelectMembers`. |
| Query.Total | backend/app/api/accounts.py:34-37 | `coalesce(sum(amount), 0)`. No contract of its own; its laws are `Query.TotalOfNoMatch`, `Query.SignedTotalBounds`, `Query.SignSplit` and `Query.RangeSplit`. |
| Query.SelectMembers | backend/app/api/reports.py:24-30 | A row is selected exactly when it belongs to the account, lies in the time range and has the required sign. Each matching row is selected exactly as often as it occurs in the table, and no other row is. |
| Query.TotalOfNoMatch | backend/app/api/accounts.py:34-37 | When no row satisfies the query, nothing is selected and `coalesce(sum, 0)` is 0. |
| Query.SignedTotalBounds | backend/app/api/reports.py:24-38 | A sum over `amount > 0` is at least 0, and above 0 when a row is selected. A sum over `amount < 0` is at most 0, and below 0 when a row is selected. |
| Query.SignSplit | backend/app/api/reports.py:40-41 | The positive sum plus the negative sum is the sum of all rows; zero amounts fall in neither. |
| Query.RangeSplit | backend/app/api/reports.py:44-48 | Rows before `split` plus rows in `[split, end)` are exactly the rows before `end`, when `split` is not after `end`. |
| Grouping.DistinctKeys | backend/app/api/reports.py:62 | The groups of `GROUP BY`: each key once, the key of every row present, and every key that of some row. |
| Grouping.KeysTotalCovers | backend/app/api/accounts.py:71 | Group sums over distinct keys that cover every row add up to the sum of all rows. |
| Grouping.KeyTotalStrictSign | backend/app/api/reports.py:54 | A non-empty group of expenses sums below 0; a non-empty group of income sums above 0. |
| Accounts.Balance | backend/app/api/accounts.py:32-38 | `get_account_balance`: the sum of the account's amounts, the account not looked up. No contract of its own; `Accounts.BalanceOfAccountWithoutTransactions`, `Accounts.IncomeExpenseOf` and `Accounts.RunningTotalReachesBalance` state what it is. |
| Accounts.BalanceOfAccountWithoutTransactions | backend/app/api/accounts.py:32-38 | An account with no transactions, including an unknown account, has balance 0. |
| Accounts.AccountTotals | backend/app/api/accounts.py:42-51 | `sum(amount) GROUP BY account_id`. No contract of its own; `Accounts.AccountTotalsAreBalances` states its meaning. |
| Accounts.AccountTotalsAreBalances | backend/app/api/accounts.py:42-51 | The per-account sums of the grouped query equal the single-account balance. An account missing from the grouping has balance 0. |
| Accounts.AllBalances | backend/app/api/accounts.py:40-61 | One row per account, in table order, with its id, name and currency. Each balance equals the single-account balance, 0 without transactions. |
| Accounts.IncomeExpenseOf | backend/app/api/accounts.py:84-96 | Income is the sum of the positive amounts. Expense is the magnitude of the sum of the negative amounts. Both are at least 0, and income minus expense is the balance. |
| Accounts.IncomeExpenseOfAccountWithoutTransactions | backend/app/api/accounts.py:84-96 | An account without transactions, including an unknown one, has income 0 and expense 0. |
| Accounts.SortedDays | backend/app/api/accounts.py:67-72 | The days of `GROUP BY date(created_at) ORDER BY date(created_at)` are strictly ascending. Every row's day is among them, and each is the day of some row. |
| Accounts.DailyDeltas | backend/app/api/accounts.py:65-73 | One row per distinct day of the account, in ascending day order. |
| Accounts.DailyDeltasDays | backend/app/api/accounts.py:65-73 | Every day on which the account has a transaction has a row, and every row's day is such a day. |
| Accounts.DailyDeltasEmpty | backend/app/api/accounts.py:65-82 | There is no daily row exactly when the account has no transaction. |
| Accounts.RunningTotalIsKeysTotal | backend/app/api/accounts.py:76-80 | The running sum after `n` days is the sum of those days' group sums. |
| Accounts.RunningTotalAsOfDay | backend/app/api/accounts.py:76-80 | The running sum after a day is the sum of every amount of the account dated on or before that day. |
| Accounts.RunningTotalReachesBalance | backend/app/api/accounts.py:76-82 | After the last day the running sum is the account balance. |
| Accounts.RunningBalances | backend/app/api/accounts.py:76-80 | The loop produces one entry per daily row, with that row's day and the running sum up to and including it. |
| Accounts.RunningSeriesSteps | backend/app/api/accounts.py:78-80 | The first entry is the first day's sum; each later entry is the previous one plus its day's sum. |
| Accounts.TimeseriesMeaning | backend/app/api/accounts.py:63-82 | A running series over the daily sums has days strictly ascending and exactly the account's days. Each entry is the balance at the end of its day, the last is the balance, and the series is empty iff the account has no transaction. |
| Accounts.AccountTimeseries | backend/app/api/accounts.py:63-82 | The endpoint's series: all the properties of `TimeseriesMeaning`, plus one entry per daily row. |
| Accounts.AccountTable.Create | backend/app/api/accounts.py:21-26 | Exactly one account is appended, with the payload's name and currency and an id no existing row has. Earlier rows are unchanged. |
| Accounts.AccountTable.List | backend/app/api/accounts.py:28-30 | All accounts are returned, each with its id. |
| Reports.NextMonth | backend/app/api/reports.py:21 | The result is a month 1..12 exactly one month later: counted in months since year 0, it is one more than the input. |
| Reports.MonthBounds | backend/app/api/reports.py:19-21 | The period of a month starts before it ends. |
| Reports.MonthPeriod | backend/app/api/reports.py:20-21 | Building the bounds succeeds exactly for month 1..12 and a year up to 9999, except December 9999. It then gives the month bounds; otherwise the date error. |
| Reports.ConsecutiveMonthsMeet | backend/app/api/reports.py:20-21 | Each month ends where the next starts, December to January included. |
| Reports.InstantInOwnMonth | backend/app/api/reports.py:27-28 | A valid timestamp lies in the half-open period of exactly one month, its own. |
| Reports.BoundaryInstantInNextMonth | backend/app/api/reports.py:27-28 | The instant at the end of a month is outside that month and inside the next. |
| Reports.CategoryLabel | backend/app/api/reports.py:53-57 | A row without a category, or whose category is not in the table, is labelled "(keine)"; any other row gets its category's name. |
| Reports.InsertByTotal | backend/app/api/reports.py:63 | Inserting adds exactly the one row: the result holds the old rows and the new one, each as often as before. |
| Reports.InsertByTotalSorted | backend/app/api/reports.py:63 | Inserting into rows sorted by total, largest first, keeps them sorted. |
| Reports.SortByTotal | backend/app/api/reports.py:63 | `ORDER BY total DESC` returns a permutation of its input. |
| Reports.SortByTotalSorted | backend/app/api/reports.py:63 | The result of `ORDER BY total DESC` is sorted, largest first. |
| Reports.SortByTotalKeeps | backend/app/api/reports.py:63 | Sorting keeps the sum of the totals and keeps labels distinct. |
| Reports.CategoryRows | backend/app/api/reports.py:52-62 | One grouped row per distinct label. |
| Reports.GroupByCategory | backend/app/api/reports.py:51-64 | The grouped category query: `GROUP BY` label, sum per group, `ORDER BY` total descending. No contract of its own; `Reports.GroupByCategoryLaws` states its meaning. |
| Reports.GroupedRowsAreGroups | backend/app/api/reports.py:51-64 | Every grouped row belongs to a label that occurs among the rows. Its total is that label's group sum, negated for `sum(-amount)`. |
| Reports.GroupedRowsCoverRows | backend/app/api/reports.py:51-64 | The label of every selected row has a grouped row. |
| Reports.GroupedRowsSum | backend/app/api/reports.py:51-64 | The grouped totals add up to the sum of the selected rows, negated for `sum(-amount)`. |
| Reports.GroupedRowsPositive | backend/app/api/reports.py:54 | When every row has the selected sign, every grouped total is above 0. |
| Reports.GroupByCategoryLaws | backend/app/api/reports.py:51-64 | The grouped category query's rows are sorted by total, largest first, each label appears once, and each row is its label's group sum. Every row's label is covered and the totals add up to the sum. |
| Reports.MonthlyReportOf | backend/app/api/reports.py:12-78 | `account_id < 1`, `year < 2000` or a month outside 1..12 is rejected before anything is computed. A valid request for December 9999 or a later year gives the date error. Otherwise the report echoes account, year and month. |
| Reports.MonthlyKpis | backend/app/api/reports.py:24-75 | Income is the in-period sum of positive amounts. Expense is the magnitude of the in-period sum of negative amounts. Both are at least 0; net is income minus expense and equals the sum of all in-period amounts. `balance_end` is the sum of every amount before the end of the month. |
| Reports.MonthlyByCategory | backend/app/api/reports.py:51-73 | Rows are sorted by amount spent, largest first, with each label once. Every `spent` is above 0 and is the negated sum of that label's in-period expenses. Every in-period expense is under some label, and the `spent` values add up to the KPI expense. |
| Reports.MonthlyBalancesChain | backend/app/api/reports.py:44-48 | `balance_end` of a month plus `net` of the next month is `balance_end` of the next month, December to January included. |
| Reports.BoundaryTransactionCountsInNextMonth | backend/app/api/reports.py:35-36 | A transaction stamped exactly at the end of a month is left out of that month and counted in the next. |
| Reports.MonthlyReportOfEmptyAccount | backend/app/api/reports.py:24-66 | An account without transactions gets all figures 0 and no category rows. |
| Reports.MonthlyReportOfEmptyMonth | backend/app/api/reports.py:24-66 | A month in which the account has no transaction reports income, expense and net 0 and no category rows, without an error. `balance_end` is then the sum of everything the account had before the month began. |
| Reports.ChartData | backend/app/api/reports.py:81-110 | The request is rejected exactly when `account_id < 1`. |
| Reports.ChartDataLaws | backend/app/api/reports.py:90-110 | Rows are sorted by total, largest first, with each label once and every total above 0. Each total is the label's all-time income sum, or its negated expense sum for "expense". Every selected row is under a label. |
| Reports.ChartDataWithDefaults | backend/app/api/reports.py:81-88 | Without `tx_type` the request is the "expense" chart, and its totals add up to the account's expense figure. |
| Reports.ChartDataSum | backend/app/api/reports.py:90-110 | The chart totals add up to the account's income figure, or its expense figure for "expense". |
| Transactions.YearBounds | backend/app/api/transactions.py:40 | The year range starts before it ends. |
| Transactions.FilterRange | backend/app/api/transactions.py:32-40 | `year < 2000` or a given month outside 1..12 is rejected. A year past 9999, or 9999 without a month or with December, gives the date error. Otherwise the range is the month's bounds, or the year's without a month. |
| Transactions.FilterRangeIsMonthPeriod | backend/app/api/transactions.py:36-38 | With a month, the filter accepts the same months as the monthly report and uses the same range. |
| Transactions.InstantInOwnYear | backend/app/api/transactions.py:40 | A valid timestamp lies in the year range exactly when it falls in that year. |
| Transactions.YearBoundsAreItsMonths | backend/app/api/transactions.py:36-40 | The year range starts where January starts and ends where December ends. |
| Transactions.InsertByTime | backend/app/api/transactions.py:47 | Inserting adds exactly the one row: the result holds the old rows and the new one, each as often as before. |
| Transactions.InsertByTimeSorted | backend/app/api/transactions.py:47 | Inserting into rows ordered by timestamp keeps them ordered. |
| Transactions.SortByTime | backend/app/api/transactions.py:47 | `ORDER BY created_at` returns a permutation of its input. |
| Transactions.SortByTimeSorted | backend/app/api/transactions.py:47 | In the result of `ORDER BY created_at`, timestamps never decrease. |
| Transactions.FilterTransactions | backend/app/api/transactions.py:29-50 | It fails exactly when the range fails, with the same error. Otherwise the rows are ordered by timestamp and are exactly the account's rows inside the range, each as often as in the table. |
| Transactions.TransactionUpdateWithDefaults | backend/app/api/transactions.py:55-58 | An update payload without a category clears the category. |
| Transactions.ApplyUpdate | backend/app/api/transactions.py:73-76 | Amount, note and category come from the payload; id, account and timestamp are kept. |
| Transactions.Find | backend/app/api/transactions.py:63 | `session.get` finds a row exactly when some row has the id, and the row it gives has that id. |
| Transactions.RemoveId | backend/app/api/transactions.py:63-66 | The table after `session.delete`; it never gains rows. `Transactions.RemoveIdMembers`, `Transactions.RemoveIdAt` and `Transactions.RemoveIdTotal` state the rest. |
| Transactions.RemoveIdMembers | backend/app/api/transactions.py:63-66 | After the delete, the remaining rows are exactly the rows without that id. |
| Transactions.UpdateId | backend/app/api/transactions.py:72-80 | The table after the field assignments; it keeps its length. `Transactions.UpdateIdPointwise`, `Transactions.UpdateIdAt` and `Transactions.UpdateIdTotal` state the rest. |
| Transactions.UpdateIdPointwise | backend/app/api/transactions.py:72-80 | The row with the id gets the update; every other row is unchanged, in place. |
| Transactions.RemoveIdIdempotent | backend/app/api/transactions.py:60-67 | Deleting an id twice is the same as deleting it once. |
| Transactions.RemoveMissingId | backend/app/api/transactions.py:64-67 | Deleting an id that no row has changes nothing. |
| Transactions.UpdateMissingId | backend/app/api/transactions.py:81 | Updating an id that no row has changes nothing. |
| Transactions.RemoveIdAt | backend/app/api/transactions.py:63-66 | With distinct ids, a delete cuts out the one row with that id and keeps the rows before and after it in order. |
| Transactions.RemoveIdRemovesOne | backend/app/api/transactions.py:63-66 | With distinct ids, a delete removes exactly the one row with that id and nothing else. |
| Transactions.RemoveIdTotal | backend/app/api/transactions.py:63-66 | A delete lowers every query total by the deleted row's amount when the row satisfies the query. Other totals are unchanged. |
| Transactions.UpdateIdAt | backend/app/api/transactions.py:72-80 | With distinct ids, an update replaces the one row with that id by its updated version, in place. |
| Transactions.UpdateIdTotal | backend/app/api/transactions.py:72-80 | An update changes every query total by the new amount minus the old, each counted where that version of the row satisfies the query. |
| Transactions.AppendTotal | backend/app/api/transactions.py:14-19 | A create raises every query total by the new row's amount when it satisfies the query. Other totals are unchanged. |
| Transactions.UpdateIdKeepsIds | backend/app/api/transactions.py:72-80 | An update keeps every id in place, so ids stay present, ascending and below the next id. |
| Transactions.UpdateIdKeepsStamps | backend/app/api/transactions.py:72-80 | An update keeps every timestamp a real calendar instant. |
| Transactions.RemoveIdKeepsIds | backend/app/api/transactions.py:65 | A delete keeps the remaining ids present, ascending and below the next id. |
| Transactions.Ledger.ValidIdsDistinct | backend/app/db/models.py:47-48 | The ids of the transaction table are distinct, as a primary key is. |
| Transactions.Ledger.RowInOwnMonth | backend/app/api/reports.py:27-28 | Every stored row lies in the report period of exactly one month, the month of its timestamp. |
| Transactions.Ledger.Create | backend/app/api/transactions.py:13-19 | Exactly one row is appended, carrying the payload fields under an id no existing row has. Existing rows are unchanged. The payload's timestamp is a real calendar instant, as a Python `datetime` is. |
| Transactions.Ledger.List | backend/app/api/transactions.py:22-24 | Every transaction is returned, ids distinct. |
| Transactions.Ledger.Update | backend/app/api/transactions.py:69-81 | An existing id gets amount, note and category from the payload, every other row and field is unchanged, and the updated row is returned. An unknown id answers NotFound and leaves the table unchanged. |
| Transactions.Ledger.Delete | backend/app/api/transactions.py:60-67 | The row with the id is removed and nothing else. The same status is returned whether or not the id existed, and an unknown id leaves the table unchanged. |

## Left out

- Floating point: amounts are integer cents. The `float(...)` conversions and `round(..., 2)` at backend/app/api/accounts.py:80 and 94-95 are presentation and are not modelled. All properties are about the exact sums.
- The clock: the `datetime.utcnow` default of `created_at` (backend/app/db/models.py:45) reads the clock, so every timestamp is an input.
- Timestamps have whole seconds; sub-second precision is not modelled. The string form of a day in the series (`str(r.day)`) is not modelled.
- The database: sessions, commit, refresh, the SQL engine, connection setup and table creation (backend/app/main.py, backend/app/db/session.py, backend/app/db/database.py, init_db.py, backend/app/core/settings.py) are not part of this model. Each query is a function of a snapshot of the tables.
- The transaction table is a sequence in id order with distinct ids, not a map from id to row. This way the aggregate laws for create, update and delete are stated over the same input as the reports. `session.get` is `Find` on that sequence.
- Id allocation: the model's tables hand out ids from a counter that only grows. SQLite, the default database, reuses the highest id after that row is deleted, so from then on the model's ids differ from the database's. Both give an id that no current row has.
- Foreign keys are not enforced. A `category_id` missing from the category table is labelled "(keine)", as the outer join does. An `account_id` is not checked against the account table.
- Users, the category endpoints and the front end (backend/app/api/users.py, backend/app/api/categories.py, frontend/) are not part of this model. The reports read the category table only as an id-to-name map.
- The unreachable second `return` at backend/app/api/accounts.py:98-101 is dead code.
- HTTP details are not modelled: status codes, JSON field names and response shapes. `Err(Unprocessable)` stands for a rejected query parameter, `Err(DateOutOfRange)` for the uncaught date error, and `Err(NotFound)` for the `{"error": ...}` body of an update.
- Reports.SortByTotal and Transactions.SortByTime: ties (equal totals, equal timestamps) come out in one particular order, where SQL leaves it unspecified. The contracts do not depend on that order.
- Accounts.AllBalances and Ledger.List return rows in table order; the SQL has no `ORDER BY` there.
