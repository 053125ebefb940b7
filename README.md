# Madrasha management: accounting, junior-ustad accounts and page routing

A Dafny model of four route modules of a Flask madrasha app. Each is
modelled over an in-memory table, with HTTP outcomes as reply codes.

- **Accounting** (`accounting.dfy`, routes/accounting.py).
  - Fee income for a year, with an optional month: per-status totals and a collection rate.
  - The expense table: filtered listing, add, patch and delete.
  - The income-minus-expenses summary with its per-category breakdown.
  - The fixed category list.
  - None of these routes has an access guard.
- **Junior-ustad accounts, soft-delete variant** (`junior_ustad.dfy`, routes/junior_ustad.py).
  - The `admin_required` guard.
  - Listing, create, partial update, archive and `is_active` toggle, over a `UserTable` class.
  - Archiving keeps the row, flags and deactivates it, and drops it from the listing.
- **Junior-ustadh accounts, hard-delete variant** (`junior_ustadh.dfy`, routes/junior_ustadh.py).
  - The `teacher_required` guard: 401 without a session.
  - Listing with no archive filter, create, update and a real delete, over an `AccountTable` class.
  - The phone check on update runs only when the phone changes.
- **Page routing** (`templates.dfy`, routes/templates.py). Pure decision functions take what the session holds under `'user'`. Each returns the rendered template or the redirect, and whether the session was cleared.
- `common.dfy` holds what the modules share:
  - the role enumeration and the reply envelope;
  - Python truthiness;
  - the required-field loop;
  - table scans, `WHERE` filtering and `ORDER BY … DESC` as a stable insertion sort.
- `seed_data.dfy` states lemmas about the setup scripts' sample records under the accounting model.

Modelling conventions:

- **Amounts** are exact integers in poisha (1/100 taka). The collection rate is the exact fraction `Ratio(num, den)` percent.
- **Parameters for outside calls.** Library calls are function parameters:
  - `Decimal(str(...))` is `parseAmount`;
  - `strptime('%Y-%m-%d')` is `parseDate`;
  - `generate_password_hash` is `hash`.

  A failed parse is `None`, which the handlers answer with 500. The clock is a `now: nat` parameter. The session's user id is an `Option<int>` parameter.
- **Tables.** A table is a class with a `map<int, record>` and an auto-increment `nextId`. `Valid()` says every key lies below `nextId` and names its record. An error path leaves the table unchanged (the rollback).
- **Python truthiness** is kept:
  - `if month:` ignores a month of 0, and `if category:` ignores `""`;
  - `not data[field]` rejects empty strings;
  - `calendar.month_name[m]` follows Python's list indexing, so `m` in -13..-1 wraps and anything outside -13..12 raises, giving 500.

## Model

| member | source | states |
|---|---|---|
| Common.FirstMissing | routes/accounting.py:143-146 | The required-field loop: None iff every field passes; otherwise the first field in list order that fails (all earlier ones pass) |
| Common.RoleNamesDistinct | routes/templates.py:17-25 | Role names are distinct, so a session role string names at most one role |
| Common.SortDescBy | routes/accounting.py:96 | `ORDER BY key DESC`: result is key-non-increasing and a permutation of the input |
| Common.Filter | routes/accounting.py:89-94 | A `WHERE` clause: every kept element is from the input and satisfies the predicate; every satisfying element is kept; no repetitions are introduced |
| Common.FilterKeepsAll | routes/accounting.py:253-255 | A filter every row passes keeps the whole sequence |
| Common.SelectThenOrder | routes/accounting.py:89-96 | Filter-then-sort of a repetition-free scan yields exactly the selected rows, once each, key-descending |
| Accounting.DateKeyOrder | routes/accounting.py:96 | The integer date key orders dates exactly as the calendar does (both directions) |
| Accounting.StatusPartition | routes/accounting.py:55-58 | Every fee amount counts in exactly one of paid, pending, overdue: the three status totals sum to the total |
| Accounting.FilteredStatusTotal | routes/accounting.py:42-58 | Filtering fees by period then summing one status equals the one-pass reference total over the whole table |
| Accounting.StatusTotalNonNegative | routes/accounting.py:56-58 | With non-negative amounts every status total is non-negative |
| Accounting.CollectionRate | routes/accounting.py:67 | Rate is 0 when nothing is expected (no division by zero), else `num/den = 100·paid/expected` |
| Accounting.IncomeSummary | routes/accounting.py:36-68 | Each status total equals the period's fees of that status (year always, month only when given); expected = paid + pending + overdue; rate from paid and expected |
| Accounting.CollectionRateBounds | routes/accounting.py:67 | With non-negative amounts the collection rate lies in [0, 100] |
| Accounting.ListExpenses | routes/accounting.py:87-115 | The listing holds exactly the scanned expenses that pass every supplied filter, once each, dates non-increasing; count = length, total = sum of listed amounts |
| Accounting.CategoriesOf | routes/accounting.py:260-263 | Every expense's category is a breakdown key |
| Accounting.CategoriesOfOccur | routes/accounting.py:260-263 | A category is a breakdown key iff some period expense has it |
| Accounting.AbsentCategoryTotalsZero | routes/accounting.py:262-263 | A category no expense has totals 0, so a new key starts at 0 |
| Accounting.NoCategoriesSumZero | routes/accounting.py:266 | Summing over no categories gives 0 |
| Accounting.CoveringCategoriesSumAll | routes/accounting.py:266 | Summing per category over a set covering every category gives the total of all expenses |
| Accounting.SplitOffCategory | routes/accounting.py:266 | The amount over a category set splits into one category's total plus the rest |
| Accounting.BreakdownSumsToTotal | routes/accounting.py:266 | The per-category subtotals add up to the total of the expenses they come from |
| Accounting.MonthName | routes/accounting.py:281 | `calendar.month_name[m]` is defined iff -13 <= m <= 12; 1..12 give the month's name, -12..-1 wrap from the end |
| Accounting.GetCategories | routes/accounting.py:289-305 | The eleven category values, each once, in the source's order: salary, books, instruments, utilities, rent, maintenance, stationery, transport, food, events, other |
| Accounting.PatchExpense | routes/accounting.py:187-202 | Fails iff a present amount or date does not parse; otherwise exactly the present fields change, updated_at = now, and id, created_by, created_at are kept |
| Accounting.GroupByCategory | routes/accounting.py:259-264 | The dict-filling loop gives one key per category occurring in the expenses, each holding that category's total |
| Accounting.SumBreakdown | routes/accounting.py:266 | `sum(expenses_by_category.values())` equals the total of all period expenses |
| Accounting.ListingOfStoredRows | routes/accounting.py:96-108 | A listing drawn from a table scan names only stored records, includes every matching one, and shows no id twice |
| Accounting.ExpenseStore.GetExpenses | routes/accounting.py:80-116 | Exactly the stored expenses that pass every supplied filter (AND-combined), each once, newest date first; count and total of what is listed |
| Accounting.ExpenseStore.AddExpense | routes/accounting.py:137-172 | 500 without a body; 400 naming the first absent key (presence only); 500 for a bad amount or date; otherwise exactly one new expense under the next id with payment method defaulting to Cash and no category check; table unchanged on every failure |
| Accounting.ExpenseStore.UpdateExpense | routes/accounting.py:178-209 | 404 for an unknown id, 500 for no body or a bad amount/date, table unchanged then; otherwise only that expense changes, as PatchExpense states |
| Accounting.ExpenseStore.DeleteExpense | routes/accounting.py:215-229 | 404 and unchanged for an unknown id; otherwise exactly that expense is removed and all others are kept |
| Accounting.ExpenseStore.AccountingSummary | routes/accounting.py:238-285 | 500 iff a given month has no `month_name` entry; otherwise income = paid total of the period, breakdown keys = period categories with their totals, total expenses = period sum, balance = income − expenses (may be negative), period label from the month |
| JuniorUstad.AdminRequired | routes/junior_ustad.py:13-25 | No session gives 403; otherwise the handler runs iff the caller exists with role super_user or teacher, else 403 |
| JuniorUstad.GuardIgnoresAccountState | routes/junior_ustad.py:20-21 | The guard's verdict does not change with the caller's is_active or is_archived |
| JuniorUstad.StoreKeepsPhonesUnique | routes/junior_ustad.py:72-77 | Storing a record whose phone no other user holds keeps phones unique across the table |
| JuniorUstad.ListedUsers | routes/junior_ustad.py:32-35 | Exactly the scanned users with role junior_ustadh and not archived, once each, created_at descending (missing last) |
| JuniorUstad.Views | routes/junior_ustad.py:37-45 | One view per user, in order, with name = first + " " + last |
| JuniorUstad.PickedAreStored | routes/junior_ustad.py:32-35 | Records picked from a table scan are the records stored under their ids |
| JuniorUstad.ViewsOfStored | routes/junior_ustad.py:37-45 | Views of distinct listed stored users show those users, every listed user of the table, with distinct ids, in created_at order |
| JuniorUstad.ListingOf | routes/junior_ustad.py:32-45 | The listing of a table from its scan: exactly the non-archived junior_ustadh users, each once, newest first |
| JuniorUstad.PatchUser | routes/junior_ustad.py:126-149 | Exactly the present fields change; the password hash is replaced only for a non-empty password; updated_at = now; role and archive state are kept |
| JuniorUstad.UserTable.GetJuniorUstads | routes/junior_ustad.py:27-53 | Guard failure gives 403; otherwise exactly the non-archived junior_ustadh users, each once, created_at descending, with display names |
| JuniorUstad.UserTable.CreateJuniorUstad | routes/junior_ustad.py:55-105 | 403 by the guard; 500 without a body; 400 naming the first missing or empty field; 400 if any user (any role, archived included) has the phone; otherwise one new active junior_ustadh with only the password hash stored, and its id, name, phone returned; phone uniqueness preserved |
| JuniorUstad.UserTable.UpdateJuniorUstad | routes/junior_ustad.py:107-163 | 404 unless the id names a junior_ustadh, archived or not; 400 and unchanged if another id holds the new phone; otherwise only that record changes, as PatchUser states; phone uniqueness preserved |
| JuniorUstad.UserTable.ArchiveJuniorUstad | routes/junior_ustad.py:165-196 | 404 for a non-junior id; otherwise the record stays, flagged archived at now by the caller with the fixed reason, deactivated, and no longer listed |
| JuniorUstad.UserTable.ToggleJuniorUstadStatus | routes/junior_ustad.py:198-227 | 404 for a non-junior id; otherwise is_active is negated, updated_at set, every other field and record kept, and the new value returned |
| JuniorUstad.ToggleTwice | routes/junior_ustad.py:214-215 | Two toggles restore is_active and keep role, phone and name |
| JuniorUstadh.TeacherRequired | routes/junior_ustadh.py:12-24 | 401 iff there is no session; the handler runs iff the caller exists with role teacher or super_user; otherwise 403 |
| JuniorUstadh.GuardIgnoresAccountState | routes/junior_ustadh.py:19-20 | The guard's verdict is the same whatever the caller's is_active and is_archived flags hold |
| JuniorUstadh.StoreKeepsPhonesUnique | routes/junior_ustadh.py:111-116 | Storing a record that keeps its phone, or takes a phone nobody holds, keeps phones unique |
| JuniorUstadh.RemoveKeepsPhonesUnique | routes/junior_ustadh.py:151-152 | Removing a record keeps phones unique |
| JuniorUstadh.PatchAccount | routes/junior_ustadh.py:108-123 | Exactly the present fields change; the password is re-hashed only when non-empty; id, role, created_at and the active and archived flags are kept |
| JuniorUstadh.SelectionIgnoresAccountState | routes/junior_ustadh.py:31 | Changing an account's is_active or is_archived changes neither which ids the listing (role filter only) and the update/delete lookups select, nor the listed view |
| JuniorUstadh.CollectJuniors | routes/junior_ustadh.py:33-41 | The append loop yields a view of every junior_ustadh row, only of those, in scan order |
| JuniorUstadh.AccountTable.GetJuniorUstadhs | routes/junior_ustadh.py:26-51 | Guard failure gives 401/403; otherwise every junior_ustadh user with no archive filter, each once, total = number listed |
| JuniorUstadh.AccountTable.CreateJuniorUstadh | routes/junior_ustadh.py:53-94 | 400 naming the first of name, phone, password that is missing or empty; 400 if any user has the phone; otherwise one new junior_ustadh with email "" when none is given; phone uniqueness preserved |
| JuniorUstadh.AccountTable.UpdateJuniorUstadh | routes/junior_ustadh.py:96-139 | 404 if the id is missing or not a junior_ustadh; 400 and unchanged only when a changed phone is already held; otherwise only that record changes, as PatchAccount states; phone uniqueness preserved |
| JuniorUstadh.AccountTable.DeleteJuniorUstadh | routes/junior_ustadh.py:141-160 | 404 and unchanged for a missing or non-junior id; otherwise that record is removed entirely and all others kept |
| Templates.RoleNamed | routes/templates.py:17-25 | A role string names the role whose name it is, or no role at all |
| Templates.Template.FileName | routes/templates.py:18-133 | The file name of each template, an `.html` file |
| Templates.FileNamesDistinct | routes/templates.py:18-133 | Two templates render the same file exactly when they are the same template |
| Templates.DashboardOf | routes/templates.py:17-25 | Each role's dashboard, never the landing or management page |
| Templates.DashboardsDistinct | routes/templates.py:17-25 | Different roles get different dashboards (both directions) |
| Templates.Index | routes/templates.py:9-31 | Always a render; a recognised role's dashboard iff the stored dictionary names one, else the landing page; the session is cleared iff a truthy non-dictionary value makes `.get` raise |
| Templates.IndexRoutesEachRole | routes/templates.py:14-25 | A session naming a role reaches that role's dashboard |
| Templates.DashboardRoute | routes/templates.py:58-104 | No session gives login; a non-dictionary value gives a server error; renders iff the role matches the route, and then the route's dashboard; otherwise redirect to index |
| Templates.DirectRoutesAgreeWithIndex | routes/templates.py:58-104 | A direct dashboard route renders exactly what the index renders for the same session, and vice versa when the index shows that dashboard |
| Templates.ManagementRoute | routes/templates.py:106-133 | Renders the page iff the role is super_user or teacher; no session gives login; other roles go to index |
| Templates.ManagementRolesMatchGuards | routes/templates.py:113 | The management pages admit exactly the roles both account API guards admit |
| Templates.Route | routes/templates.py:42-56 | /dashboard always redirects to index; /login, /test-fee-save and /test-junior-ustad always render; only GET / ever clears the session |
| Templates.UnguardedPagesIgnoreSession | routes/templates.py:42-56 | The unguarded pages give the same response whatever the session holds |
| Templates.NoSessionMeansLogin | routes/templates.py:58-62 | Without a session GET / shows the landing page and every guarded page redirects to login |
| SeedData.JanuaryExpensesInPeriod | setup_expense_data.py:19-110 | All ten sample expenses fall in January 2025 |
| SeedData.JanuaryExpenseTotal | setup_expense_data.py:19-110 | The sample expenses total 55,700 taka |
| SeedData.JanuarySalaries | setup_expense_data.py:20-37 | Salaries total 25,000 taka |
| SeedData.JanuaryBooks | setup_expense_data.py:38-55 | Books total 5,500 taka |
| SeedData.JanuaryCategories | setup_expense_data.py:19-110 | The sample expenses fall into eight categories |
| SeedData.StudentFeesOver2025 | setup_test_fee_data.py:53-86 | Over 2025 each status holds one 1,500 taka fee; the late fee counts in no total; a third is collected |
| SeedData.StudentFeesInFebruary | setup_test_fee_data.py:66-74 | February alone: nothing paid, the rate is 0 |
| SeedData.JanuaryBalance | setup_test_fee_data.py:53-63 | January's one paid fee against the month's expenses gives a negative balance |

## Left out

- Floating point: `float(...)` conversions and `round(..., 2)` are not modelled. Amounts are exact integers and the collection rate is an exact fraction.
- JSON value types:
  - request values are strings, or booleans for `is_active`;
  - a key present with a non-string value is not distinguished from a string;
  - a key present with JSON `null` is modelled as an absent key;
  - where `null` would reach a NOT NULL column, the resulting commit error is not modelled.
- The persistence layer:
  - the model does not run SQLAlchemy queries, commit, rollback or the database's own errors (constraint violations, connection loss);
  - a 500 from those sources is not modelled;
  - the 500 paths kept are a missing JSON body, a failed parse and an out-of-range `month_name` index.
- A database's free choice of row order is not modelled:
  - scans run in id order;
  - ties under `ORDER BY ... DESC` keep scan order;
  - a NULL created_at sorts last.
- Id reuse after a delete is not modelled: ids come from a counter that never goes back.
- The check-then-insert race on phone numbers is left out, and so are the database's unique constraints. These are concurrency and schema concerns.
- models.py is not part of this model. Both variants' field names are taken from their own handler code. The column defaults and the enumeration the contracts rest on are assumed:
  - variant A create (junior_ustad.py:80-89 sets only `is_active` and `created_at`): `is_archived` defaults to false, `archived_at`, `archived_by`, `archive_reason`, `updated_at` and `last_login` to NULL; the new user is listed because of the `is_archived` default;
  - variant B create (junior_ustadh.py:71-77): `created_at` defaults to the creation time, `is_active` to true and `is_archived` to false. Variant B never reads or writes either flag, but its rows carry the values the soft-delete variant sets on the same table;
  - add_expense (accounting.py:149-158 sets neither timestamp): `created_at` and `updated_at` default to the time of the insert;
  - `FeeStatus` has exactly the three values pending, paid and overdue. `Accounting.StatusPartition` and the `totalExpected` clause of `Accounting.IncomeSummary` rest on this: a fee of a fourth status would count in the expected total (accounting.py:55) and in no status total.
- Accounting.ExpenseStore.AddExpense: a JSON `null` for one of the four required keys is answered 400 `FieldRequired`. The source's presence check (accounting.py:145) lets it through. A null `amount` or `date` then raises in `Decimal(str(None))` or `strptime(None, ...)` (accounting.py:152-153), giving 500; a null category or description reaches the commit.
- Accounting.ExpenseStore.UpdateExpense: a JSON `null` recipient, payment_method or notes keeps the old value, where the source writes NULL (accounting.py:196-201). A null amount or date keeps the old value, where the source's parse raises and answers 500.
- JuniorUstad.UserTable.UpdateJuniorUstad: a JSON `null` email keeps the old email, where `junior_ustad.email = data['email']` (junior_ustad.py:142-143) writes NULL.
- JuniorUstadh.AccountTable.CreateJuniorUstadh: a JSON `null` email is stored as `""`, where `data.get('email', '')` (junior_ustadh.py:77) stores NULL.
- JuniorUstadh.AccountTable.UpdateJuniorUstadh: a JSON `null` email leaves the old email, where `junior_ustadh.email = data['email']` (junior_ustadh.py:118-119) writes NULL.
- Accounting.IncomeSummary and Accounting.ExpenseStore.AccountingSummary take the `year` argument already resolved. `request.args.get('year', type=int, default=datetime.now().year)` (accounting.py:37, 236) falls back to the clock's year when `year` is absent or not an integer; that fallback is not modelled.
- `session.get('user', {}).get('id')` in add_expense is the `callerId` parameter. A non-dictionary session user there is not modelled.
- The reply messages (Bangla and English text) are not modelled. Error kinds are an enumeration.
- The `debug_fees` page is left out: it is a file read.
- The seed, init and test scripts are left out, except as concrete records in `seed_data.dfy`. So are the server configuration and the HTTP client test scripts.
