/** Lemmas about the setup scripts' sample records under the accounting model:
    the ten January 2025 expenses and the three monthly fees of the test student.
    Amounts are in poisha (1 taka = 100 poisha). */
module SeedData {
  import opened Common
  import opened Accounting

  function JanuaryExpense(id: int, category: string, amount: int, day: Day, paymentMethod: string): Expense {
    Expense(id, category, "", amount, Date(2025, 1, day), None, paymentMethod, None, None, 0, 0)
  }

  /** setup_expense_data.py, in insertion order. */
  const JanuaryExpenses: seq<Expense> := [
    JanuaryExpense(1, "salary", 1500000, 31, "Cash"),
    JanuaryExpense(2, "salary", 1000000, 31, "Bank Transfer"),
    JanuaryExpense(3, "books", 350000, 15, "Cash"),
    JanuaryExpense(4, "books", 200000, 10, "Cash"),
    JanuaryExpense(5, "utilities", 120000, 20, "Online Payment"),
    JanuaryExpense(6, "stationery", 150000, 5, "Cash"),
    JanuaryExpense(7, "maintenance", 500000, 12, "Cash"),
    JanuaryExpense(8, "instruments", 250000, 8, "Cash"),
    JanuaryExpense(9, "rent", 1200000, 1, "Bank Transfer"),
    JanuaryExpense(10, "events", 300000, 25, "Cash")
  ]

  /** All ten seed expenses fall in January 2025. */
  lemma JanuaryExpensesInPeriod()
    ensures ExpensesInPeriod(JanuaryExpenses, 2025, Some(1)) == JanuaryExpenses
  {
    forall i | 0 <= i < |JanuaryExpenses| ensures InPeriod(JanuaryExpenses[i].date, 2025, Some(1)) {
    }
    FilterKeepsAll(JanuaryExpenses, (x: Expense) => InPeriod(x.date, 2025, Some(1)));
  }

  /** The January 2025 expenses total 55,700 taka. */
  lemma JanuaryExpenseTotal()
    ensures SumExpenses(JanuaryExpenses) == 5570000
  {
    var e := JanuaryExpenses;
    assert e[..1][..0] == [];
    assert SumExpenses(e[..1]) == 1500000;
    assert e[..2][..1] == e[..1];
    assert SumExpenses(e[..2]) == 2500000;
    assert e[..3][..2] == e[..2];
    assert SumExpenses(e[..3]) == 2850000;
    assert e[..4][..3] == e[..3];
    assert SumExpenses(e[..4]) == 3050000;
    assert e[..5][..4] == e[..4];
    assert SumExpenses(e[..5]) == 3170000;
    assert e[..6][..5] == e[..5];
    assert SumExpenses(e[..6]) == 3320000;
    assert e[..7][..6] == e[..6];
    assert SumExpenses(e[..7]) == 3820000;
    assert e[..8][..7] == e[..7];
    assert SumExpenses(e[..8]) == 4070000;
    assert e[..9][..8] == e[..8];
    assert SumExpenses(e[..9]) == 5270000;
    assert e[..10][..9] == e[..9];
    assert SumExpenses(e[..10]) == 5570000;
    assert e[..10] == e;
  }

  /** Salaries come to 25,000 taka. */
  lemma JanuarySalaries()
    ensures CategoryTotal(JanuaryExpenses, "salary") == 2500000
  {
    var e := JanuaryExpenses;
    assert e[..1][..0] == [];
    assert CategoryTotal(e[..1], "salary") == 1500000;
    assert e[..2][..1] == e[..1];
    assert CategoryTotal(e[..2], "salary") == 2500000;
    assert e[..3][..2] == e[..2];
    assert CategoryTotal(e[..3], "salary") == 2500000;
    assert e[..4][..3] == e[..3];
    assert CategoryTotal(e[..4], "salary") == 2500000;
    assert e[..5][..4] == e[..4];
    assert CategoryTotal(e[..5], "salary") == 2500000;
    assert e[..6][..5] == e[..5];
    assert CategoryTotal(e[..6], "salary") == 2500000;
    assert e[..7][..6] == e[..6];
    assert CategoryTotal(e[..7], "salary") == 2500000;
    assert e[..8][..7] == e[..7];
    assert CategoryTotal(e[..8], "salary") == 2500000;
    assert e[..9][..8] == e[..8];
    assert CategoryTotal(e[..9], "salary") == 2500000;
    assert e[..10][..9] == e[..9];
    assert CategoryTotal(e[..10], "salary") == 2500000;
    assert e[..10] == e;
  }

  /** Books come to 5,500 taka. */
  lemma JanuaryBooks()
    ensures CategoryTotal(JanuaryExpenses, "books") == 550000
  {
    var e := JanuaryExpenses;
    assert e[..1][..0] == [];
    assert CategoryTotal(e[..1], "books") == 0;
    assert e[..2][..1] == e[..1];
    assert CategoryTotal(e[..2], "books") == 0;
    assert e[..3][..2] == e[..2];
    assert CategoryTotal(e[..3], "books") == 350000;
    assert e[..4][..3] == e[..3];
    assert CategoryTotal(e[..4], "books") == 550000;
    assert e[..5][..4] == e[..4];
    assert CategoryTotal(e[..5], "books") == 550000;
    assert e[..6][..5] == e[..5];
    assert CategoryTotal(e[..6], "books") == 550000;
    assert e[..7][..6] == e[..6];
    assert CategoryTotal(e[..7], "books") == 550000;
    assert e[..8][..7] == e[..7];
    assert CategoryTotal(e[..8], "books") == 550000;
    assert e[..9][..8] == e[..8];
    assert CategoryTotal(e[..9], "books") == 550000;
    assert e[..10][..9] == e[..9];
    assert CategoryTotal(e[..10], "books") == 550000;
    assert e[..10] == e;
  }

  /** The expenses fall into eight categories. */
  lemma JanuaryCategories()
    ensures CategoriesOf(JanuaryExpenses) ==
      {"salary", "books", "utilities", "stationery", "maintenance", "instruments", "rent", "events"}
  {
    var e := JanuaryExpenses;
    assert e[..1][..0] == [];
    assert CategoriesOf(e[..1]) == {"salary"};
    assert e[..2][..1] == e[..1];
    assert CategoriesOf(e[..2]) == {"salary"};
    assert e[..3][..2] == e[..2];
    assert CategoriesOf(e[..3]) == {"salary", "books"};
    assert e[..4][..3] == e[..3];
    assert CategoriesOf(e[..4]) == {"salary", "books"};
    assert e[..5][..4] == e[..4];
    assert CategoriesOf(e[..5]) == {"salary", "books", "utilities"};
    assert e[..6][..5] == e[..5];
    assert CategoriesOf(e[..6]) == {"salary", "books", "utilities", "stationery"};
    assert e[..7][..6] == e[..6];
    assert CategoriesOf(e[..7]) == {"salary", "books", "utilities", "stationery", "maintenance"};
    assert e[..8][..7] == e[..7];
    assert CategoriesOf(e[..8]) == {"salary", "books", "utilities", "stationery", "maintenance", "instruments"};
    assert e[..9][..8] == e[..8];
    assert CategoriesOf(e[..9]) == {"salary", "books", "utilities", "stationery", "maintenance", "instruments", "rent"};
    assert e[..10][..9] == e[..9];
    assert CategoriesOf(e[..10]) == {"salary", "books", "utilities", "stationery", "maintenance", "instruments", "rent", "events"};
    assert e[..10] == e;
  }

  /** setup_test_fee_data.py: 1,500 taka a month; January paid, February
      pending, March overdue with a 100 taka late fee. */
  const StudentFees: seq<Fee> := [
    Fee(150000, 0, Date(2025, 1, 31), Paid),
    Fee(150000, 0, Date(2025, 2, 28), Pending),
    Fee(150000, 10000, Date(2025, 3, 31), Overdue)
  ]

  /** Over 2025 each status holds one monthly fee, the late fee counts in no
      total, and one third of what was expected is collected. */
  lemma StudentFeesOver2025()
    ensures var r := IncomeSummary(StudentFees, 2025, None);
      && r.totalExpected == 450000
      && r.totalPaid == 150000 && r.totalPending == 150000 && r.totalOverdue == 150000
      && r.collectionRate.num * 3 == 100 * r.collectionRate.den
  {
    var f := StudentFees;
    assert f[..1][..0] == [] && f[..2][..1] == f[..1] && f[..3][..2] == f[..2] && f[..3] == f;
    assert PeriodStatusTotal(f[..1], 2025, None, Paid) == 150000;
    assert PeriodStatusTotal(f[..2], 2025, None, Paid) == 150000;
    assert PeriodStatusTotal(f[..3], 2025, None, Paid) == 150000;
    assert PeriodStatusTotal(f[..1], 2025, None, Pending) == 0;
    assert PeriodStatusTotal(f[..2], 2025, None, Pending) == 150000;
    assert PeriodStatusTotal(f[..3], 2025, None, Pending) == 150000;
    assert PeriodStatusTotal(f[..1], 2025, None, Overdue) == 0;
    assert PeriodStatusTotal(f[..2], 2025, None, Overdue) == 0;
    assert PeriodStatusTotal(f[..3], 2025, None, Overdue) == 150000;
  }

  /** February alone: nothing paid, so nothing collected. */
  lemma StudentFeesInFebruary()
    ensures var r := IncomeSummary(StudentFees, 2025, Some(2));
      && r.totalExpected == 150000 && r.totalPaid == 0 && r.totalPending == 150000
      && r.collectionRate.num == 0
  {
    var f := StudentFees;
    assert f[..1][..0] == [] && f[..2][..1] == f[..1] && f[..3][..2] == f[..2] && f[..3] == f;
    assert PeriodStatusTotal(f[..1], 2025, Some(2), Paid) == 0;
    assert PeriodStatusTotal(f[..2], 2025, Some(2), Paid) == 0;
    assert PeriodStatusTotal(f[..3], 2025, Some(2), Paid) == 0;
    assert PeriodStatusTotal(f[..1], 2025, Some(2), Pending) == 0;
    assert PeriodStatusTotal(f[..2], 2025, Some(2), Pending) == 150000;
    assert PeriodStatusTotal(f[..3], 2025, Some(2), Pending) == 150000;
    assert PeriodStatusTotal(f[..1], 2025, Some(2), Overdue) == 0;
    assert PeriodStatusTotal(f[..2], 2025, Some(2), Overdue) == 0;
    assert PeriodStatusTotal(f[..3], 2025, Some(2), Overdue) == 0;
  }

  /** January 2025 brings in the one paid fee against 55,700 taka of expenses:
      the summary's balance is negative. */
  lemma JanuaryBalance()
    ensures IncomeSummary(StudentFees, 2025, Some(1)).totalPaid
          - SumExpenses(ExpensesInPeriod(JanuaryExpenses, 2025, Some(1))) == -5420000
  {
    var f := StudentFees;
    assert f[..1][..0] == [] && f[..2][..1] == f[..1] && f[..3][..2] == f[..2] && f[..3] == f;
    assert PeriodStatusTotal(f[..1], 2025, Some(1), Paid) == 150000;
    assert PeriodStatusTotal(f[..2], 2025, Some(1), Paid) == 150000;
    assert PeriodStatusTotal(f[..3], 2025, Some(1), Paid) == 150000;
    JanuaryExpensesInPeriod();
    JanuaryExpenseTotal();
  }
}
