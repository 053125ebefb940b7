/** The accounting routes: income from student fees over a year or a month,
    the expense table with its listing, add, patch and delete operations, the
    combined income-minus-expenses summary and the fixed category list.
    Amounts are exact integers in minor units (poisha); none of these routes
    carries an access guard. */
module Accounting {
  import opened Common

  type Month = m: int | 1 <= m <= 12 witness 1
  type Day = d: int | 1 <= d <= 31 witness 1

  /** A calendar date, as the `%Y-%m-%d` parser produces it. */
  datatype Date = Date(year: int, month: Month, day: Day)

  /** `a` is the same day as `b` or an earlier one. */
  predicate OnOrBefore(a: Date, b: Date) {
    a.year < b.year || (a.year == b.year && (a.month < b.month || (a.month == b.month && a.day <= b.day)))
  }

  /** A day number that orders dates as the calendar does (see DateKeyOrder). */
  function DateKey(d: Date): int {
    d.year * 372 + (d.month - 1) * 31 + (d.day - 1)
  }

  lemma DateKeyOrder(a: Date, b: Date)
    ensures DateKey(a) <= DateKey(b) <==> OnOrBefore(a, b)
  {
    var ra := (a.month - 1) * 31 + (a.day - 1);
    var rb := (b.month - 1) * 31 + (b.day - 1);
    assert 0 <= ra < 372 && 0 <= rb < 372;
    if a.year < b.year {
      assert a.year * 372 + 372 <= b.year * 372;
    } else if a.year > b.year {
      assert b.year * 372 + 372 <= a.year * 372;
    }
  }

  /** The date filter of the queries: the year always, the month only when one is
      supplied (Python's `if month:` also ignores a month of 0). */
  predicate InPeriod(d: Date, year: int, month: Option<int>) {
    d.year == year && (IntGiven(month) ==> d.month == month.value)
  }

  // ---------------------------------------------------------------------------
  // Income from fees

  /** The fee status enumeration: exactly these three values. */
  datatype FeeStatus = Pending | Paid | Overdue

  /** A fee record; `lateFee` is a separate surcharge that no total includes. */
  datatype Fee = Fee(amount: int, lateFee: int, dueDate: Date, status: FeeStatus)

  /** The fee query: fees whose due date lies in the period, in table order. */
  function FeesInPeriod(fees: seq<Fee>, year: int, month: Option<int>): seq<Fee> {
    Filter(fees, (f: Fee) => InPeriod(f.dueDate, year, month))
  }

  /** `sum(fee.amount for fee in fees)`. */
  function SumFees(fees: seq<Fee>): int {
    if fees == [] then 0 else SumFees(fees[..|fees| - 1]) + fees[|fees| - 1].amount
  }

  /** `sum(fee.amount for fee in fees if fee.status == status)`. */
  function SumFeesWithStatus(fees: seq<Fee>, status: FeeStatus): int {
    if fees == [] then 0
    else
      var last := fees[|fees| - 1];
      SumFeesWithStatus(fees[..|fees| - 1], status) + (if last.status == status then last.amount else 0)
  }

  /** Reference definition, in one pass over the whole fee table: the amounts of
      the fees of the given status whose due date lies in the period. */
  function PeriodStatusTotal(fees: seq<Fee>, year: int, month: Option<int>, status: FeeStatus): int {
    if fees == [] then 0
    else
      var last := fees[|fees| - 1];
      PeriodStatusTotal(fees[..|fees| - 1], year, month, status)
        + (if InPeriod(last.dueDate, year, month) && last.status == status then last.amount else 0)
  }

  /** Every fee has one of the three statuses, so the status totals partition the total. */
  lemma {:induction false} StatusPartition(fees: seq<Fee>)
    ensures SumFees(fees) ==
      SumFeesWithStatus(fees, Paid) + SumFeesWithStatus(fees, Pending) + SumFeesWithStatus(fees, Overdue)
  {
    if fees != [] {
      StatusPartition(fees[..|fees| - 1]);
    }
  }

  /** Filtering by period then summing by status equals the one-pass reference total. */
  lemma {:induction false} FilteredStatusTotal(fees: seq<Fee>, year: int, month: Option<int>, status: FeeStatus)
    ensures SumFeesWithStatus(FeesInPeriod(fees, year, month), status) == PeriodStatusTotal(fees, year, month, status)
  {
    if fees != [] {
      var init, last := fees[..|fees| - 1], fees[|fees| - 1];
      var inPeriod := (f: Fee) => InPeriod(f.dueDate, year, month);
      FilteredStatusTotal(init, year, month, status);
      FilterLast(fees, inPeriod);
      var sel := Filter(init, inPeriod);
      assert FeesInPeriod(init, year, month) == sel;
      if InPeriod(last.dueDate, year, month) {
        var all := sel + [last];
        assert FeesInPeriod(fees, year, month) == all;
        assert all[..|all| - 1] == sel && all[|all| - 1] == last;
        assert SumFeesWithStatus(all, status) ==
          SumFeesWithStatus(sel, status) + (if last.status == status then last.amount else 0);
      } else {
        assert FeesInPeriod(fees, year, month) == sel;
      }
    }
  }

  lemma {:induction false} StatusTotalNonNegative(fees: seq<Fee>, year: int, month: Option<int>, status: FeeStatus)
    requires forall i :: 0 <= i < |fees| ==> fees[i].amount >= 0
    ensures PeriodStatusTotal(fees, year, month, status) >= 0
  {
    if fees != [] {
      StatusTotalNonNegative(fees[..|fees| - 1], year, month, status);
    }
  }

  /** A percentage as the exact fraction num / den. */
  datatype Ratio = Ratio(num: int, den: int)

  /** `paid / expected * 100`, or 0 when nothing is expected (no division by zero). */
  function CollectionRate(paid: int, expected: int): (r: Ratio)
    ensures r.den > 0
    ensures expected <= 0 ==> r.num == 0
    ensures expected > 0 ==> r.num * expected == 100 * paid * r.den
  {
    if expected > 0 then Ratio(100 * paid, expected) else Ratio(0, 1)
  }

  datatype IncomeReport = IncomeReport(
    year: int, month: Option<int>,
    totalExpected: int, totalPaid: int, totalPending: int, totalOverdue: int,
    collectionRate: Ratio)

  /** GET /income-summary for a year and an optional month. */
  function IncomeSummary(fees: seq<Fee>, year: int, month: Option<int>): (r: IncomeReport)
    ensures r.year == year && r.month == month
    ensures r.totalPaid == PeriodStatusTotal(fees, year, month, Paid)
    ensures r.totalPending == PeriodStatusTotal(fees, year, month, Pending)
    ensures r.totalOverdue == PeriodStatusTotal(fees, year, month, Overdue)
    ensures r.totalExpected == r.totalPaid + r.totalPending + r.totalOverdue
    ensures r.collectionRate == CollectionRate(r.totalPaid, r.totalExpected)
  {
    var selected := FeesInPeriod(fees, year, month);
    FilteredStatusTotal(fees, year, month, Paid);
    FilteredStatusTotal(fees, year, month, Pending);
    FilteredStatusTotal(fees, year, month, Overdue);
    StatusPartition(selected);
    var expected := SumFees(selected);
    var paid := SumFeesWithStatus(selected, Paid);
    IncomeReport(year, month, expected, paid,
      SumFeesWithStatus(selected, Pending), SumFeesWithStatus(selected, Overdue),
      CollectionRate(paid, expected))
  }

  /** With non-negative amounts the collection rate lies between 0 and 100 percent. */
  lemma CollectionRateBounds(fees: seq<Fee>, year: int, month: Option<int>)
    requires forall i :: 0 <= i < |fees| ==> fees[i].amount >= 0
    ensures var rate := IncomeSummary(fees, year, month).collectionRate;
      0 <= rate.num <= 100 * rate.den
  {
    StatusTotalNonNegative(fees, year, month, Paid);
    StatusTotalNonNegative(fees, year, month, Pending);
    StatusTotalNonNegative(fees, year, month, Overdue);
  }

  // ---------------------------------------------------------------------------
  // Expenses

  /** An expense record. The listing serializes every field but the two timestamps. */
  datatype Expense = Expense(
    id: int, category: string, description: string, amount: int, date: Date,
    recipient: Option<string>, paymentMethod: string, notes: Option<string>,
    createdBy: Option<int>, createdAt: nat, updatedAt: nat)

  /** The keys of a JSON request body for add and update (a key present or not). */
  datatype ExpenseFields = ExpenseFields(
    category: Option<string>, description: Option<string>,
    amount: Option<string>,   // the text `str(data['amount'])`
    date: Option<string>,
    recipient: Option<string>, paymentMethod: Option<string>, notes: Option<string>)

  /** The query arguments of GET /expenses, each optional. */
  datatype ExpenseQuery = ExpenseQuery(year: Option<int>, month: Option<int>, category: Option<string>)

  /** Every supplied filter holds (filters are AND-combined; absent, 0 and "" are not supplied). */
  predicate Matches(e: Expense, q: ExpenseQuery) {
    && (IntGiven(q.year) ==> e.date.year == q.year.value)
    && (IntGiven(q.month) ==> e.date.month == q.month.value)
    && (TextGiven(q.category) ==> e.category == q.category.value)
  }

  function SumExpenses(es: seq<Expense>): int {
    if es == [] then 0 else SumExpenses(es[..|es| - 1]) + es[|es| - 1].amount
  }

  function ExpenseDay(e: Expense): int {
    DateKey(e.date)
  }

  datatype ExpenseListing = ExpenseListing(expenses: seq<Expense>, total: int, count: int)

  /** The listing query over a table scan: filter, then ORDER BY date DESC. */
  function ListExpenses(rows: seq<Expense>, q: ExpenseQuery): (r: ExpenseListing)
    requires Distinct(rows)
    ensures forall i :: 0 <= i < |r.expenses| ==> r.expenses[i] in rows && Matches(r.expenses[i], q)
    ensures forall i :: 0 <= i < |rows| && Matches(rows[i], q) ==> rows[i] in r.expenses
    ensures Distinct(r.expenses)
    ensures forall i, j :: 0 <= i < j < |r.expenses| ==> OnOrBefore(r.expenses[j].date, r.expenses[i].date)
    ensures r.count == |r.expenses| && r.total == SumExpenses(r.expenses)
  {
    var matching := (e: Expense) => Matches(e, q);
    SelectThenOrder(rows, matching, ExpenseDay);
    var listed := SortDescBy(Filter(rows, matching), ExpenseDay);
    assert forall i, j :: 0 <= i < j < |listed| ==> OnOrBefore(listed[j].date, listed[i].date) by {
      forall i, j | 0 <= i < j < |listed| ensures OnOrBefore(listed[j].date, listed[i].date) {
        DateKeyOrder(listed[j].date, listed[i].date);
      }
    }
    ExpenseListing(listed, SumExpenses(listed), |listed|)
  }

  /** The expenses of a table scan dated in the period (the summary's expense query). */
  function ExpensesInPeriod(rows: seq<Expense>, year: int, month: Option<int>): seq<Expense> {
    Filter(rows, (e: Expense) => InPeriod(e.date, year, month))
  }

  /** The categories that occur in `es`. */
  function CategoriesOf(es: seq<Expense>): (cs: set<string>)
    ensures forall i :: 0 <= i < |es| ==> es[i].category in cs
  {
    if es == [] then {}
    else
      var init := es[..|es| - 1];
      assert forall i :: 0 <= i < |init| ==> init[i] == es[i];
      CategoriesOf(init) + {es[|es| - 1].category}
  }

  /** A category is in CategoriesOf(es) exactly when some expense of `es` has it. */
  lemma {:induction false} CategoriesOfOccur(es: seq<Expense>, c: string)
    ensures c in CategoriesOf(es) <==> exists i :: 0 <= i < |es| && es[i].category == c
  {
    if es != [] {
      var init := es[..|es| - 1];
      CategoriesOfOccur(init, c);
      if c in CategoriesOf(init) {
        var i :| 0 <= i < |init| && init[i].category == c;
        assert es[i].category == c;
      }
    }
  }

  /** The amounts of the expenses of category `c`. */
  function CategoryTotal(es: seq<Expense>, c: string): int {
    if es == [] then 0
    else
      var last := es[|es| - 1];
      CategoryTotal(es[..|es| - 1], c) + (if last.category == c then last.amount else 0)
  }

  /** The amounts of the expenses whose category is in `cats`. */
  function AmountInCategories(es: seq<Expense>, cats: set<string>): int {
    if es == [] then 0
    else
      var last := es[|es| - 1];
      AmountInCategories(es[..|es| - 1], cats) + (if last.category in cats then last.amount else 0)
  }

  lemma {:induction false} AbsentCategoryTotalsZero(es: seq<Expense>, c: string)
    requires c !in CategoriesOf(es)
    ensures CategoryTotal(es, c) == 0
  {
    if es != [] {
      AbsentCategoryTotalsZero(es[..|es| - 1], c);
    }
  }

  lemma {:induction false} NoCategoriesSumZero(es: seq<Expense>)
    ensures AmountInCategories(es, {}) == 0
  {
    if es != [] {
      NoCategoriesSumZero(es[..|es| - 1]);
    }
  }

  lemma {:induction false} CoveringCategoriesSumAll(es: seq<Expense>, cats: set<string>)
    requires CategoriesOf(es) <= cats
    ensures AmountInCategories(es, cats) == SumExpenses(es)
  {
    if es != [] {
      CoveringCategoriesSumAll(es[..|es| - 1], cats);
    }
  }

  lemma {:induction false} SplitOffCategory(es: seq<Expense>, cats: set<string>, c: string)
    requires c in cats
    ensures AmountInCategories(es, cats) == AmountInCategories(es, cats - {c}) + CategoryTotal(es, c)
  {
    if es != [] {
      SplitOffCategory(es[..|es| - 1], cats, c);
    }
  }

  /** The breakdown's subtotals add up to the total of the expenses they come from. */
  lemma BreakdownSumsToTotal(es: seq<Expense>)
    ensures AmountInCategories(es, CategoriesOf(es)) == SumExpenses(es)
  {
    CoveringCategoriesSumAll(es, CategoriesOf(es));
  }

  /** `calendar.month_name`: index 0 is the empty string. */
  const MonthNames: seq<string> := ["", "January", "February", "March", "April", "May", "June",
    "July", "August", "September", "October", "November", "December"]

  /** `calendar.month_name[m]` with Python's list indexing: negative indices count
      from the end, anything outside -13..12 raises IndexError (None here). */
  function MonthName(m: int): (r: Option<string>)
    ensures r.Some? <==> -13 <= m <= 12
    ensures 1 <= m <= 12 ==> r == Some(MonthNames[m])
    ensures -12 <= m <= -1 ==> r == Some(MonthNames[m + 13])
  {
    if 0 <= m < |MonthNames| then Some(MonthNames[m])
    else if -|MonthNames| <= m < 0 then Some(MonthNames[m + |MonthNames|])
    else None
  }

  datatype PeriodLabel = MonthOfYear(monthName: string, year: int) | WholeYear(year: int)

  datatype SummaryReport = SummaryReport(
    year: int, month: Option<int>, income: int,
    totalExpenses: int, byCategory: map<string, int>,
    balance: int, period: PeriodLabel)

  /** An entry of GET /categories. */
  datatype Category = Category(value: string, banglaLabel: string, englishLabel: string)

  const ExpenseCategories: seq<Category> := [
    Category("salary", "উস্তাদ বেতন", "Teacher Salary"),
    Category("books", "বই ও পুস্তক", "Books"),
    Category("instruments", "যন্ত্রপাতি", "Instruments/Equipment"),
    Category("utilities", "ইউটিলিটি (বিদ্যুৎ, পানি)", "Utilities"),
    Category("rent", "ভাড়া", "Rent"),
    Category("maintenance", "রক্ষণাবেক্ষণ", "Maintenance"),
    Category("stationery", "স্টেশনারি", "Stationery"),
    Category("transport", "পরিবহন", "Transport"),
    Category("food", "খাবার", "Food"),
    Category("events", "অনুষ্ঠান", "Events"),
    Category("other", "অন্যান্য", "Other")
  ]

  /** GET /categories: the eleven categories, each value listed once. */
  function GetCategories(): (r: seq<Category>)
    ensures |r| == 11
    ensures forall i, j :: 0 <= i < j < |r| ==> r[i].value != r[j].value
    ensures r[0].value == "salary" && r[|r| - 1].value == "other"
    ensures forall i :: 0 <= i < |r| ==> (r[i].value ==
      ["salary", "books", "instruments", "utilities", "rent", "maintenance",
       "stationery", "transport", "food", "events", "other"][i])
  {
    ExpenseCategories
  }

  /** The required keys of POST /expenses, in the order they are checked. */
  const RequiredExpenseFields: seq<string> := ["category", "description", "amount", "date"]

  /** Whether the request body has the key `name` (presence only, not its value). */
  predicate HasKey(f: ExpenseFields, name: string) {
    match name
    case "category" => f.category.Some?
    case "description" => f.description.Some?
    case "amount" => f.amount.Some?
    case "date" => f.date.Some?
    case "recipient" => f.recipient.Some?
    case "payment_method" => f.paymentMethod.Some?
    case "notes" => f.notes.Some?
    case _ => false
  }

  /** The first of category, description, amount, date that the body lacks. */
  function FirstAbsentKey(f: ExpenseFields): Option<string> {
    if f.category.None? then Some("category")
    else if f.description.None? then Some("description")
    else if f.amount.None? then Some("amount")
    else if f.date.None? then Some("date")
    else None
  }

  /** The reply data of a successful POST /expenses. */
  datatype ExpenseCreated = ExpenseCreated(id: int, category: string, amount: int, date: Date)

  /** Patching fails when a present amount or date does not parse. */
  predicate PatchFails(f: ExpenseFields, parseAmount: string -> Option<int>, parseDate: string -> Option<Date>) {
    (f.amount.Some? && parseAmount(f.amount.value).None?) || (f.date.Some? && parseDate(f.date.value).None?)
  }

  /** `n` is `o` with exactly the fields present in `f` replaced and updated_at set:
      id, created_by and created_at never change. */
  ghost predicate PatchedFrom(o: Expense, n: Expense, f: ExpenseFields, now: nat,
                              parseAmount: string -> Option<int>, parseDate: string -> Option<Date>)
    requires !PatchFails(f, parseAmount, parseDate)
  {
    && n.id == o.id && n.createdBy == o.createdBy && n.createdAt == o.createdAt
    && n.updatedAt == now
    && n.category == (if f.category.Some? then f.category.value else o.category)
    && n.description == (if f.description.Some? then f.description.value else o.description)
    && n.amount == (if f.amount.Some? then parseAmount(f.amount.value).value else o.amount)
    && n.date == (if f.date.Some? then parseDate(f.date.value).value else o.date)
    && n.recipient == (if f.recipient.Some? then f.recipient else o.recipient)
    && n.paymentMethod == (if f.paymentMethod.Some? then f.paymentMethod.value else o.paymentMethod)
    && n.notes == (if f.notes.Some? then f.notes else o.notes)
  }

  /** The field-by-field assignments of PUT /expenses/<id> on one record; None when
      a parse raises, which the handler answers by rolling back. */
  method PatchExpense(e: Expense, f: ExpenseFields, now: nat,
                      parseAmount: string -> Option<int>, parseDate: string -> Option<Date>)
    returns (patched: Option<Expense>)
    ensures patched.None? <==> PatchFails(f, parseAmount, parseDate)
    ensures patched.Some? ==> PatchedFrom(e, patched.value, f, now, parseAmount, parseDate)
  {
    var category := if f.category.Some? then f.category.value else e.category;
    var description := if f.description.Some? then f.description.value else e.description;
    var amount := e.amount;
    if f.amount.Some? {
      var parsed := parseAmount(f.amount.value);
      if parsed.None? {
        return None;
      }
      amount := parsed.value;
    }
    var date := e.date;
    if f.date.Some? {
      var parsed := parseDate(f.date.value);
      if parsed.None? {
        return None;
      }
      date := parsed.value;
    }
    var recipient := if f.recipient.Some? then f.recipient else e.recipient;
    var paymentMethod := if f.paymentMethod.Some? then f.paymentMethod.value else e.paymentMethod;
    var notes := if f.notes.Some? then f.notes else e.notes;
    patched := Some(e.(category := category, description := description, amount := amount, date := date,
                       recipient := recipient, paymentMethod := paymentMethod, notes := notes,
                       updatedAt := now));
  }

  /** Appending one expense adds its category and its amount to that category's total. */
  lemma CategoryStep(prefix: seq<Expense>, e: Expense)
    ensures CategoriesOf(prefix + [e]) == CategoriesOf(prefix) + {e.category}
    ensures forall c :: (CategoryTotal(prefix + [e], c) ==
      CategoryTotal(prefix, c) + (if e.category == c then e.amount else 0))
  {
    assert (prefix + [e])[..|prefix|] == prefix;
  }

  /** One step of the grouping loop: adding `e` to the breakdown of `prefix`
      gives the breakdown of `prefix + [e]`. */
  lemma GroupStep(prefix: seq<Expense>, e: Expense, before: map<string, int>, after: map<string, int>)
    requires before.Keys == CategoriesOf(prefix)
    requires forall c :: c in before ==> before[c] == CategoryTotal(prefix, c)
    requires after == before[e.category := (if e.category in before then before[e.category] else 0) + e.amount]
    ensures after.Keys == CategoriesOf(prefix + [e])
    ensures forall c :: c in after ==> after[c] == CategoryTotal(prefix + [e], c)
  {
    CategoryStep(prefix, e);
    if e.category !in before {
      AbsentCategoryTotalsZero(prefix, e.category);
    }
    assert after.Keys == before.Keys + {e.category};
    forall c | c in after ensures after[c] == CategoryTotal(prefix + [e], c) {
      if c != e.category {
        assert after[c] == before[c];
      }
    }
  }

  /** The loop that fills `expenses_by_category`: one entry per category that
      occurs in `es`, holding that category's total. */
  method GroupByCategory(es: seq<Expense>) returns (byCategory: map<string, int>)
    ensures byCategory.Keys == CategoriesOf(es)
    ensures forall c :: c in byCategory ==> byCategory[c] == CategoryTotal(es, c)
  {
    byCategory := map[];
    var i := 0;
    while i < |es|
      invariant 0 <= i <= |es|
      invariant byCategory.Keys == CategoriesOf(es[..i])
      invariant forall c :: c in byCategory ==> byCategory[c] == CategoryTotal(es[..i], c)
    {
      var e := es[i];
      ghost var previous := byCategory;
      var before := if e.category in byCategory then byCategory[e.category] else 0;
      byCategory := byCategory[e.category := before + e.amount];
      GroupStep(es[..i], e, previous, byCategory);
      assert es[..i + 1] == es[..i] + [e];
      i := i + 1;
    }
    assert es[..|es|] == es;
  }

  /** `sum(expenses_by_category.values())`: the subtotals of a breakdown of `es`
      add up to the total of `es`. */
  method SumBreakdown(es: seq<Expense>, byCategory: map<string, int>) returns (total: int)
    requires byCategory.Keys == CategoriesOf(es)
    requires forall c :: c in byCategory ==> byCategory[c] == CategoryTotal(es, c)
    ensures total == SumExpenses(es)
  {
    total := 0;
    var pending := byCategory.Keys;
    BreakdownSumsToTotal(es);
    while pending != {}
      invariant pending <= byCategory.Keys
      invariant total + AmountInCategories(es, pending) == SumExpenses(es)
      decreases |pending|
    {
      var c :| c in pending;
      SplitOffCategory(es, pending, c);
      total := total + byCategory[c];
      pending := pending - {c};
    }
    NoCategoriesSumZero(es);
  }

  /** A listing drawn from a scan of table `m` names stored records only, lists
      every matching one, and no id twice. */
  lemma ListingOfStoredRows(m: map<int, Expense>, rows: seq<Expense>, listed: seq<Expense>, q: ExpenseQuery)
    requires forall i :: 0 <= i < |rows| ==> rows[i].id in m && m[rows[i].id] == rows[i]
    requires forall id :: id in m ==> m[id] in rows
    requires forall i :: 0 <= i < |listed| ==> listed[i] in rows && Matches(listed[i], q)
    requires forall i :: 0 <= i < |rows| && Matches(rows[i], q) ==> rows[i] in listed
    requires Distinct(listed)
    ensures forall i :: 0 <= i < |listed| ==>
      listed[i].id in m && m[listed[i].id] == listed[i] && Matches(listed[i], q)
    ensures forall id :: id in m && Matches(m[id], q) ==> m[id] in listed
    ensures forall i, j :: 0 <= i < j < |listed| ==> listed[i].id != listed[j].id
  {
    forall i | 0 <= i < |listed| ensures listed[i].id in m && m[listed[i].id] == listed[i] {
      assert listed[i] in rows;
      var k :| 0 <= k < |rows| && rows[k] == listed[i];
    }
    forall id | id in m && Matches(m[id], q) ensures m[id] in listed {
      var k :| 0 <= k < |rows| && rows[k] == m[id];
    }
  }

  /** The expense table, with an auto-increment id counter. */
  class ExpenseStore {
    var expenses: map<int, Expense>
    var nextId: nat

    ghost predicate Valid()
      reads this
    {
      nextId >= 1 && forall id :: id in expenses ==> 1 <= id < nextId && expenses[id].id == id
    }

    constructor ()
      ensures Valid() && expenses == map[] && nextId == 1
    {
      expenses := map[];
      nextId := 1;
    }

    /** A scan of the table in id order. */
    function Rows(): (rows: seq<Expense>)
      reads this
      requires Valid()
      ensures Distinct(rows)
      ensures forall i :: 0 <= i < |rows| ==> rows[i].id in expenses && expenses[rows[i].id] == rows[i]
      ensures forall id :: id in expenses ==> expenses[id] in rows
    {
      Scan(expenses, nextId, (r: Expense) => r.id)
    }

    /** GET /expenses: exactly the stored expenses that pass every supplied filter,
        each once, newest first, with their count and total. */
    function GetExpenses(q: ExpenseQuery): (r: ExpenseListing)
      reads this
      requires Valid()
      ensures forall i :: 0 <= i < |r.expenses| ==>
        var e := r.expenses[i]; e.id in expenses && expenses[e.id] == e && Matches(e, q)
      ensures forall id :: id in expenses && Matches(expenses[id], q) ==> expenses[id] in r.expenses
      ensures forall i, j :: 0 <= i < j < |r.expenses| ==> r.expenses[i].id != r.expenses[j].id
      ensures forall i, j :: 0 <= i < j < |r.expenses| ==> OnOrBefore(r.expenses[j].date, r.expenses[i].date)
      ensures r.count == |r.expenses| && r.total == SumExpenses(r.expenses)
    {
      var rows := Rows();
      var r := ListExpenses(rows, q);
      ListingOfStoredRows(expenses, rows, r.expenses, q);
      r
    }

    /** POST /expenses. */
    method AddExpense(body: Option<ExpenseFields>, callerId: Option<int>, now: nat,
                      parseAmount: string -> Option<int>, parseDate: string -> Option<Date>)
      returns (r: Reply<ExpenseCreated>)
      requires Valid()
      modifies this
      ensures Valid()
      // no JSON body: `field not in None` raises, the handler answers 500
      ensures body.None? ==> r == Fail(500, Internal)
      // presence only is checked, and the first absent key is named
      ensures body.Some? && FirstAbsentKey(body.value).Some? ==>
        r == Fail(400, FieldRequired(FirstAbsentKey(body.value).value))
      // a malformed amount or date ends in the generic `except`: 500, not 400
      ensures (body.Some? && FirstAbsentKey(body.value).None? &&
               (parseAmount(body.value.amount.value).None? || parseDate(body.value.date.value).None?)) ==>
        r == Fail(500, Internal)
      ensures r.Fail? ==> expenses == old(expenses) && nextId == old(nextId)
      // success needs nothing of the category: it is not checked against the category list
      ensures r.Ok? <==> (body.Some? && FirstAbsentKey(body.value).None? &&
                          parseAmount(body.value.amount.value).Some? && parseDate(body.value.date.value).Some?)
      ensures r.Ok? ==>
        var f, id := body.value, old(nextId);
        var amount, date := parseAmount(f.amount.value).value, parseDate(f.date.value).value;
        && r == Ok(201, ExpenseCreated(id, f.category.value, amount, date))
        && nextId == id + 1
        && id !in old(expenses)
        && expenses == old(expenses)[id := Expense(
             id, f.category.value, f.description.value, amount, date, f.recipient,
             if f.paymentMethod.Some? then f.paymentMethod.value else "Cash",
             f.notes, callerId, now, now)]
    {
      if body.None? {
        return Fail(500, Internal);
      }
      var f := body.value;
      var missing := FirstMissing(RequiredExpenseFields, (name: string) => HasKey(f, name));
      if missing.Some? {
        ghost var k :| 0 <= k < |RequiredExpenseFields| && RequiredExpenseFields[k] == missing.value &&
          !HasKey(f, RequiredExpenseFields[k]) && forall j :: 0 <= j < k ==> HasKey(f, RequiredExpenseFields[j]);
        assert k > 0 ==> HasKey(f, RequiredExpenseFields[0]);
        assert k > 1 ==> HasKey(f, RequiredExpenseFields[1]);
        assert k > 2 ==> HasKey(f, RequiredExpenseFields[2]);
        return Fail(400, FieldRequired(missing.value));
      }
      assert HasKey(f, RequiredExpenseFields[0]) && HasKey(f, RequiredExpenseFields[1]);
      assert HasKey(f, RequiredExpenseFields[2]) && HasKey(f, RequiredExpenseFields[3]);
      var amount := parseAmount(f.amount.value);
      if amount.None? {
        return Fail(500, Internal);
      }
      var date := parseDate(f.date.value);
      if date.None? {
        return Fail(500, Internal);
      }
      var paymentMethod := if f.paymentMethod.Some? then f.paymentMethod.value else "Cash";
      var id := nextId;
      // created_at and updated_at take their column default, the time of the insert
      var e := Expense(id, f.category.value, f.description.value, amount.value, date.value,
                       f.recipient, paymentMethod, f.notes, callerId, now, now);
      expenses := expenses[id := e];
      nextId := nextId + 1;
      r := Ok(201, ExpenseCreated(id, e.category, e.amount, e.date));
    }

    /** PUT /expenses/<id>: only the fields whose keys are present change, together
        with updated_at; id, created_by and every other expense stay as they were. */
    method UpdateExpense(id: int, body: Option<ExpenseFields>, now: nat,
                         parseAmount: string -> Option<int>, parseDate: string -> Option<Date>)
      returns (r: Reply<()>)
      requires Valid()
      modifies this
      ensures Valid() && nextId == old(nextId)
      ensures id !in old(expenses) ==> r == Fail(404, NotFound)
      ensures id in old(expenses) && body.None? ==> r == Fail(500, Internal)
      ensures id in old(expenses) && body.Some? ==>
        r == (if PatchFails(body.value, parseAmount, parseDate) then Fail(500, Internal) else Ok(200, ()))
      ensures r.Fail? ==> expenses == old(expenses)
      ensures r.Ok? ==>
        && id in expenses
        && expenses == old(expenses)[id := expenses[id]]
        && PatchedFrom(old(expenses)[id], expenses[id], body.value, now, parseAmount, parseDate)
    {
      if id !in expenses {
        return Fail(404, NotFound);
      }
      if body.None? {
        return Fail(500, Internal);
      }
      var patched := PatchExpense(expenses[id], body.value, now, parseAmount, parseDate);
      if patched.None? {
        return Fail(500, Internal);
      }
      expenses := expenses[id := patched.value];
      r := Ok(200, ());
    }

    /** DELETE /expenses/<id>: a hard delete of exactly that expense. */
    method DeleteExpense(id: int) returns (r: Reply<()>)
      requires Valid()
      modifies this
      ensures Valid() && nextId == old(nextId)
      ensures r.Ok? <==> id in old(expenses)
      ensures r.Fail? ==> r == Fail(404, NotFound) && expenses == old(expenses)
      ensures r.Ok? ==> r.code == 200 && expenses == old(expenses) - {id}
    {
      if id !in expenses {
        return Fail(404, NotFound);
      }
      expenses := expenses - {id};
      r := Ok(200, ());
    }

    /** GET /summary: paid fee income, the per-category breakdown of the period's
        expenses, their total and the balance, which may be negative. */
    method AccountingSummary(fees: seq<Fee>, year: int, month: Option<int>) returns (r: Reply<SummaryReport>)
      requires Valid()
      // `calendar.month_name[month]` raises for a month outside -13..12
      ensures r.Fail? <==> IntGiven(month) && MonthName(month.value).None?
      ensures r.Fail? ==> r == Fail(500, Internal)
      ensures r.Ok? ==>
        var s, es := r.data, ExpensesInPeriod(Rows(), year, month);
        && r.code == 200
        && s.year == year && s.month == month
        && s.income == IncomeSummary(fees, year, month).totalPaid
        && s.byCategory.Keys == CategoriesOf(es)
        && (forall c :: c in s.byCategory ==> s.byCategory[c] == CategoryTotal(es, c))
        && s.totalExpenses == SumExpenses(es)
        && s.balance == s.income - s.totalExpenses
        && s.period == (if IntGiven(month) then MonthOfYear(MonthName(month.value).value, year) else WholeYear(year))
    {
      var selectedFees := FeesInPeriod(fees, year, month);
      var income := SumFeesWithStatus(selectedFees, Paid);
      FilteredStatusTotal(fees, year, month, Paid);
      var es := ExpensesInPeriod(Rows(), year, month);
      var byCategory := GroupByCategory(es);
      var totalExpenses := SumBreakdown(es, byCategory);
      var balance := income - totalExpenses;
      var period := WholeYear(year);
      if IntGiven(month) {
        var name := MonthName(month.value);
        if name.None? {
          return Fail(500, Internal);
        }
        period := MonthOfYear(name.value, year);
      }
      r := Ok(200, SummaryReport(year, month, income, totalExpenses, byCategory, balance, period));
    }
  }
}
