# Pabrik Kerupuk DHN: delivery ledger, accounts and reports

This is a model of the record-keeping application of a cracker (kerupuk)
factory. The application records each delivery of crackers to a retail
outlet (warung): the date, how many were delivered, how many sold, and the
unit price in Rupiah. It then reports revenue from those records. The
repository holds three revisions of the same single-script application, and
the model keeps all three. They share one record type and one set of report
functions.

- `aplikasi_admin.py`, the account revision, is modelled in full. It has:
  - a `users` table with self-service registration, where the first user becomes admin;
  - a three-field session (`logged_in`, `username`, `is_admin`) that decides which menus are reachable;
  - promotion of users to admin;
  - deliveries stamped with the user who saved them;
  - a recap with owner and outlet filters, a daily dashboard with a per-outlet breakdown, a monthly report, and payroll.
- `Kerupuk.py` guards the page with a fixed username/password map and validates deliveries. Its reports cover the whole table.
- `kerupuk.py` stores whatever the form holds, with no login and no validation.

Module layout, leaves first:

- `Wrappers`: `Option` and `Result`.
- `Calendar`: valid dates, and the texts `strftime('%m')`, `strftime('%Y')`, `f"{bulan:02}"` and Python's `str(tahun)`.
  - The lemmas turn the string comparisons the monthly query makes into month and year equality.
- `Ledger`: the `kirim` row.
  - The save validation `CheckDelivery`.
  - The append-only table class `KirimTable`, with SQLite's AUTOINCREMENT ids.
- `Sql`: a SQL `WHERE` clause is a list of conditions joined by `AND`, and `Select` keeps the rows that pass it, in table order.
  - SQL's `user = NULL` is never true, so rows without an owner never match an owner filter.
  - `LIKE '%x%'` is a plain substring test.
- `Aggregate`: the derived "Pendapatan" column, `.sum()`, and `groupby(...).sum()`.
  - `groupby` is `GroupSums`: one entry per distinct key, each with the sum over that key's rows.
- `Reports`: the daily dashboard and the monthly report, parameterised by the viewer's extra `WHERE` conditions; payroll, which has none; and the full-table recap and monthly report shared by the two revisions without accounts.
  - Every report's "Pendapatan" column holds sold x price for each shown row (`RevenueColumn`).
- `Accounts`: the `users` table as a map, with registration, login lookup and promotion as pure functions.
- `AdminApp`, `LoginApp`, `OpenApp`: one module per revision.
  - Each has a class holding that revision's state (users, session, ledger), with methods for the state changes.
  - Each has its reports as functions of the ledger's rows. The two revisions without accounts share `Reports.FullRecap` and `Reports.MonthlyAll`.

The monthly report compares `strftime('%Y', tanggal)` with `str(tahun)`.
SQLite pads the year to four digits and Python does not. So a year below
1000 never matches anything; `Calendar.YearFieldExactly` states this.
`Monthly` therefore carries a `1000 <= tahun` condition.

Two facts about the code:

- Registration makes the new user admin when `SELECT COUNT(*) FROM users` is 0. Since no account is ever deleted, that is the first account.
- Payroll groups by `(tanggal, user)`, one line per user per day.

The recap of the two revisions without accounts is the same `SELECT * FROM
kirim` in both. Their monthly queries compare the same texts: Kerupuk.py binds
`f"{bulan:02}"` and `str(tahun)` as parameters, and kerupuk.py splices
`'{bulan:02}'` and `'{tahun}'` into the query text. Each report is therefore one
shared function, `Reports.FullRecap` and `Reports.MonthlyAll`.

## Model

| member | source | states |
|---|---|---|
| `Calendar.MonthFieldMatches` | aplikasi_admin.py:192-193 | `strftime('%m')` of a date equals `f"{bulan:02}"` exactly when the date's month is `bulan`, whatever the day |
| `Calendar.YearFieldExactly` | aplikasi_admin.py:192-193 | `strftime('%Y')` of a date equals `str(tahun)` exactly when the date's year is `tahun` and `tahun >= 1000` |
| `Calendar.YearBelow1000NeverMatches` | aplikasi_admin.py:192-193 | for a year below 1000, no stored date's year text equals `str(tahun)` |
| `Calendar.NatTextInjective` | aplikasi_admin.py:193 | `str` of a natural number determines the number, so the year parameter is matched by value |
| `Ledger.CheckDelivery` | aplikasi_admin.py:131-134 | a save is refused with "empty outlet" exactly when the outlet is empty, with "oversold" exactly when the outlet is given and sold > delivered, and accepted otherwise |
| `Ledger.KirimTable.constructor` | aplikasi_admin.py:24-34 | a fresh `kirim` table is empty and has handed out no id |
| `Ledger.KirimTable.Insert` | aplikasi_admin.py:136-137 | appends exactly one row holding the given fields and the next id; earlier rows are untouched, and ids stay increasing and non-negative quantities stay non-negative |
| `Sql.ContainsIffOccurs` | aplikasi_admin.py:152-154 | the outlet filter `LIKE '%x%'` holds exactly when `x` occurs at some position in the outlet's name |
| `Sql.HoldsAllConcat` | aplikasi_admin.py:149-153 | joining two condition lists with `AND` passes a row exactly when both lists pass it |
| `Sql.Select` | aplikasi_admin.py:146-156 | the selected rows are the table's rows that pass every condition, each kept as often as it occurs, and no others |
| `Sql.SelectAppend` | aplikasi_admin.py:136-156 | selecting from a table after an append gives the old selection followed by the new row's selection |
| `Aggregate.SumOfAppend` | aplikasi_admin.py:162 | the sum over two row sequences appended is the sum of their sums |
| `Aggregate.TotalRevenueNonNegative` | aplikasi_admin.py:127-129 | over rows with non-negative inputs, the total revenue is non-negative |
| `Aggregate.Tabulate` | aplikasi_admin.py:160-162 | the report keeps the selected rows, adds a revenue column with sold x price for each row, and shows as total the sum of revenue over exactly those rows |
| `Aggregate.WithKey` | aplikasi_admin.py:182 | the rows of a group are exactly the rows with that key |
| `Aggregate.WithKeyCounts` | aplikasi_admin.py:182 | a group keeps each row with its key exactly as often as the rows hold it, and no other row |
| `Aggregate.SumOfSplit` | aplikasi_admin.py:182 | the sum over a key's rows plus the sum over the other rows is the sum over all rows |
| `Aggregate.GroupSumsKeysOccur` | aplikasi_admin.py:182 | every group in a `groupby` is for a key some row has |
| `Aggregate.GroupSumsKeysListed` | aplikasi_admin.py:182 | every row's key has a group |
| `Aggregate.GroupSumsKeysDistinct` | aplikasi_admin.py:182 | no key has two groups |
| `Aggregate.GroupSumsAmounts` | aplikasi_admin.py:182 | each group's amount is the sum of the value over exactly the rows with its key |
| `Aggregate.GroupSumsTotal` | aplikasi_admin.py:178-182 | the group amounts add up to the sum over all rows |
| `Reports.DailyQuery` | aplikasi_admin.py:171-174 | a row passes the dashboard query exactly when it is dated today and passes the viewer's scope |
| `Reports.Daily` | aplikasi_admin.py:170-182 | the dashboard shows exactly today's rows in scope, each as often as the table holds it, with their total; the breakdown has one entry per distinct outlet among them, each the revenue of that outlet's rows, and the breakdown sums to the daily total; the "Pendapatan" column is sold x price for each shown row |
| `Reports.MonthlyQueryMeans` | aplikasi_admin.py:190-197 | a row passes the monthly query exactly when its month is `bulan`, its year is `tahun` (with `tahun >= 1000`) and it passes the scope |
| `Reports.Monthly` | aplikasi_admin.py:190-204 | the monthly report shows exactly the rows of that month and year in scope, each as often as the table holds it, with their total; the "Pendapatan" column is sold x price for each shown row |
| `Reports.MonthlyAfterSave` | aplikasi_admin.py:190-204 | after a save the monthly report is the old report followed by the new row exactly when that row is in the month, year and scope, and its total grows by exactly that row's revenue |
| `Reports.FullRecap` | Kerupuk.py:84-92 | the recap of both revisions without accounts (also kerupuk.py:50-55) lists every row in table order, with revenue sold x price for each row and the total of that column |
| `Reports.FullRecapNonNegative` | Kerupuk.py:64-66 | since every number input has `min_value=0`, the full recap's total is never negative |
| `Reports.MonthlyAll` | Kerupuk.py:117-129 | the monthly report of both revisions without accounts (also kerupuk.py:72-80) contains exactly the rows of the chosen month and year, each as often as the table holds it, with their total; the "Pendapatan" column is sold x price for each shown row |
| `Reports.PayLines` | aplikasi_admin.py:228-230 | each pay line's pay is its units sold x 1000, and the pay column sums to 1000 x the units column |
| `Reports.PayrollCoversRows` | aplikasi_admin.py:207-214 | every row's (date, user) pair has a payroll line |
| `Reports.Payroll` | aplikasi_admin.py:217-230 | one line per distinct (date, user) among the rows, every row covered, units = sum of sold over that pair's rows, pay = units x 1000, grand total = sum of pay = 1000 x all units sold |
| `Accounts.Register` | aplikasi_admin.py:74-83 | a taken username is refused; otherwise exactly the new user is added, with the given password, as admin exactly when the table was empty, and every other user is unchanged |
| `Accounts.Authenticate` | aplikasi_admin.py:59-64 | read against the table's `(username, password, is_admin)` rows, login finds a user exactly when some row matches both username and password, and returns the flag of that matching row |
| `Accounts.Promote` | aplikasi_admin.py:115 | the chosen user becomes admin with the same password; every other user and the set of usernames are unchanged |
| `Accounts.NonAdmins` | aplikasi_admin.py:111 | the promotion candidates, and the payroll's employee list, are the usernames of the table's rows with `is_admin = 0` |
| `Accounts.RegisterKeepsAnAdmin` | aplikasi_admin.py:78-82 | once the users table is non-empty it always has an admin: registration keeps one, and the first user is one |
| `Accounts.PromoteKeepsAnAdmin` | aplikasi_admin.py:115 | promotion keeps an admin in the table |
| `Accounts.RegisterThenAuthenticate` | aplikasi_admin.py:59-83 | a newly registered user logs in with exactly the password they chose, as admin exactly when they were first |
| `Accounts.PromoteIdempotent` | aplikasi_admin.py:115 | promoting the same user twice is the same as promoting once |
| `Accounts.PromoteRemovesCandidate` | aplikasi_admin.py:111-115 | after promotion the candidates are the previous candidates without the promoted user |
| `Accounts.PromoteThenAuthenticate` | aplikasi_admin.py:59-64 | after promotion the promoted user logs in as admin with the same password, and every other login is as before |
| `AdminApp.MenuOptions` | aplikasi_admin.py:96-99 | an admin's menu has payroll and no delivery form; a non-admin's has the delivery form and no payroll; recap, dashboard and monthly report are in both |
| `AdminApp.App.constructor` | aplikasi_admin.py:43-48 | the session starts as (false, "", false) over empty tables, and the ledger has handed out no id, so the first saved row gets id 1 |
| `AdminApp.App.Register` | aplikasi_admin.py:70-84 | registration, reachable only while logged out, changes the table as `Accounts.Register` says, leaves it unchanged when the name is taken, leaves the session alone, and keeps an admin in a non-empty table |
| `AdminApp.App.Login` | aplikasi_admin.py:58-68 | succeeds exactly when a row matches both fields; then the session becomes (true, username, that row's admin flag), otherwise it is unchanged |
| `AdminApp.App.Logout` | aplikasi_admin.py:89-92 | resets the session to (false, "", false) |
| `AdminApp.App.PromoteUser` | aplikasi_admin.py:104-118 | offered only to a logged-in admin and only for a current non-admin; changes the table as `Accounts.Promote` says |
| `AdminApp.App.SaveDelivery` | aplikasi_admin.py:123-139 | reachable only from a non-admin's menu; a refused save leaves the ledger unchanged, and an accepted one appends exactly one row stamped with the session's username, with the next AUTOINCREMENT id, and advances the counter by one |
| `AdminApp.OwnerScope` | aplikasi_admin.py:170-174 | the viewer's scope passes every row for an admin and only the viewer's own rows for anyone else |
| `AdminApp.DailyDashboard` | aplikasi_admin.py:167-183 | a non-admin's dashboard contains exactly today's rows owned by them, an admin's all of today's rows, each as often as the table holds it; the breakdown has one entry per outlet among them, with that outlet's revenue, and sums to the total; the "Pendapatan" column is sold x price for each shown row |
| `AdminApp.MonthlyReport` | aplikasi_admin.py:186-204 | a non-admin's monthly report contains exactly their own rows of that month and year, an admin's everyone's, each as often as the table holds it, with their total; the "Pendapatan" column is sold x price for each shown row |
| `AdminApp.RecapQuery` | aplikasi_admin.py:146-154 | the recap query passes a row exactly when the owner filter is "Semua" or names the row's owner, AND the outlet filter is empty or occurs in the outlet's name |
| `AdminApp.Recap` | aplikasi_admin.py:142-162 | the recap shows exactly the rows passing the owner and outlet filters, each as often as the table holds it, with their total; the "Pendapatan" column is sold x price for each shown row |
| `AdminApp.RecapVisibility` | aplikasi_admin.py:144-154 | a non-admin whose username is not "Semua" sees in the recap exactly their own rows that pass the outlet filter, each as often as the table holds it |
| `AdminApp.SelectAll` | aplikasi_admin.py:146 | a query with no conditions returns the whole table in order |
| `AdminApp.RecapSemuaSeesEverything` | aplikasi_admin.py:144-151 | as written, a non-admin named "Semua" with no outlet filter is shown every row of the table |
| `AdminApp.ScopedRecapQuery` | aplikasi_admin.py:144-154 | the corrected recap query restricts a non-admin to their own rows whatever their name; the admin's filters are as written |
| `AdminApp.ScopedRecap` | aplikasi_admin.py:144-162 | the corrected recap shows a non-admin exactly their own rows that pass the outlet filter, each as often as the table holds it, for every username; for an admin it is the recap as written; the "Pendapatan" column is sold x price for each shown row |
| `AdminApp.SemuaScenario` | aplikasi_admin.py:70-151 | registration accepts the name "Semua", and that user's recap then lists a delivery saved by another employee |
| `LoginApp.CredentialsOk` | Kerupuk.py:16-32 | login succeeds for exactly the two pairs ("admin", "1234") and ("aceng", "kerupuk") |
| `LoginApp.App.constructor` | Kerupuk.py:22-23 | the session starts logged out over an empty table that has handed out no id |
| `LoginApp.App.Login` | Kerupuk.py:26-37 | reachable only while logged out; `logged_in` becomes true exactly on correct credentials, and nothing ever sets it back |
| `LoginApp.App.SaveDelivery` | Kerupuk.py:60-79 | reachable only when logged in; a refused save leaves the ledger unchanged; an accepted one appends exactly one row with the entered fields and the next id, and advances the counter by one; every stored row is valid |
| `LoginApp.DashboardToday` | Kerupuk.py:98-109 | the dashboard contains exactly today's rows, each as often as the table holds it, with their total; the breakdown has one entry per distinct outlet among them, each the revenue of that outlet's rows, and sums to the daily total; the "Pendapatan" column is sold x price for each shown row |
| `OpenApp.App.constructor` | kerupuk.py:18-27 | a fresh, empty `kirim` table that has handed out no id |
| `OpenApp.App.SaveDelivery` | kerupuk.py:36-46 | every save appends exactly one row with the entered values and the next id, and the counter becomes that id, with no check; every stored row has non-negative quantities and price |
| `OpenApp.DashboardToday` | kerupuk.py:60-65 | the dashboard contains exactly today's rows, each as often as the table holds it, and its total is the sum of their revenue; the "Pendapatan" column is sold x price for each shown row |
| `OpenApp.UnvalidatedScenario` | kerupuk.py:42-46 | a row with no outlet that sells more than was delivered is stored and counted in the recap's total |

## Left out

- The Streamlit user interface is not modelled: page setup, images, titles, widgets, messages, `st.bar_chart`, and the `st.rerun`/`st.stop` flow. The gates that `st.stop()` and the menu impose become `requires` clauses on the state-changing methods.
- The reports are pure functions of the ledger's rows and carry no session gate. In Kerupuk.py the page computes them only after a successful login (Kerupuk.py:37), and in aplikasi_admin.py payroll is offered only on an admin's menu (aplikasi_admin.py:96-99). In the model only `MenuOptions` states the payroll gate, and nothing stops `LoginApp`'s reports being computed while logged out.
- The SQLite connection, cursor, commit and close, and the pandas DataFrame plumbing are not modelled. Tables are a map and a sequence; queries are `Select`, `Tabulate` and `GroupSums`.
- CSV export through `download_button` is not modelled (aplikasi_admin.py:163, 231). The serialization is done by a library that is not part of this model.
- Date re-rendering (`strftime("%d-%m-%Y")`) and the `:,.0f` currency formatting are display only and not modelled; the latter goes through floating point.
- `Ledger.Revenue`: pandas multiplies and sums in 64-bit integers, so a huge amount could wrap around. The model uses unbounded integers.
- `Sql.Contains`: SQLite's `LIKE` is case-insensitive for ASCII, and `%` or `_` typed into the outlet filter act as wildcards. The model reads the filter as a case-sensitive plain substring test.
- The SQL text of kerupuk.py's monthly query is not modelled: that revision splices the month and year into the text (kerupuk.py:72-76). The model states the intended match, not the string interpolation or the injection it allows.
- `Reports.Payroll`: lines are in order of the first row of each (date, user) pair, not sorted by `ORDER BY tanggal, user`. The `Daily` breakdown likewise keeps first-appearance order, not `groupby`'s sorted order. The contents and totals are as in the source.
- `Accounts.NonAdmins`: the employee list and the promotion candidates are a set, not the unordered result of `SELECT`.
- The check-then-insert race between two registrations is not modelled: the model is sequential. Only one browser session is modelled, against one database.
- The "no admin yet" notice (aplikasi_admin.py:38-40) is display only and not modelled.
- Passwords are stored and compared in plain text, as in the source, and no hashing is added.

## Findings

| source | as written | input that shows it | evidently intended | confidence | as-written member | corrected member |
|---|---|---|---|---|---|---|
| aplikasi_admin.py:144-151 | the recap drops the owner filter whenever the filter value is "Semua", and for a non-admin that value is their own username | register a user named "Semua", log in as them and open the recap with no outlet filter: every employee's deliveries are listed | a non-admin sees only their own rows; "Semua" (all) is a choice offered only to admins | not executed | `AdminApp.RecapSemuaSeesEverything` | `AdminApp.ScopedRecap` |
