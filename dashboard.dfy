/** The dashboard rollups of server/storage.ts: balance and month-to-date
    sums, the month-by-month trend series, the per-category spending shares,
    and the rounded percentage the budget and goal listings show. Amounts are
    integer cents; `Math.round` of a ratio is computed exactly. */
module Dashboard {
  import opened Common
  import opened Records
  import opened Queries

  // ---------------------------------------------------------------------------
  // Sums

  /** The amounts of the income transactions. */
  function IncomeSum(s: seq<Transaction>): int {
    if s == [] then 0
    else IncomeSum(s[..|s| - 1]) + (if s[|s| - 1].isIncome then s[|s| - 1].amount else 0)
  }

  /** The amounts of the expense transactions. */
  function ExpenseSum(s: seq<Transaction>): int {
    if s == [] then 0
    else ExpenseSum(s[..|s| - 1]) + (if s[|s| - 1].isIncome then 0 else s[|s| - 1].amount)
  }

  /** All amounts, whichever way they go. */
  function AmountSum(s: seq<Transaction>): int {
    if s == [] then 0 else AmountSum(s[..|s| - 1]) + s[|s| - 1].amount
  }

  /** Incomes and expenses split the amounts between them. */
  lemma {:induction false} IncomeExpenseSplit(s: seq<Transaction>)
    ensures IncomeSum(s) + ExpenseSum(s) == AmountSum(s)
  {
    if s != [] {
      IncomeExpenseSplit(s[..|s| - 1]);
    }
  }

  /** With no negative amounts, neither sum is negative. */
  lemma {:induction false} SumsNonNegative(s: seq<Transaction>)
    requires forall i :: 0 <= i < |s| ==> s[i].amount >= 0
    ensures IncomeSum(s) >= 0 && ExpenseSum(s) >= 0 && AmountSum(s) >= 0
  {
    if s != [] {
      SumsNonNegative(s[..|s| - 1]);
    }
  }

  /** The loop both monthly rollups run: add each amount to the income or
      the expense total. */
  method SumByKind(s: seq<Transaction>) returns (income: int, expenses: int)
    ensures income == IncomeSum(s) && expenses == ExpenseSum(s)
  {
    income, expenses := 0, 0;
    var i := 0;
    while i < |s|
      invariant 0 <= i <= |s|
      invariant income == IncomeSum(s[..i]) && expenses == ExpenseSum(s[..i])
    {
      assert s[..i + 1][..i] == s[..i];
      if s[i].isIncome {
        income := income + s[i].amount;
      } else {
        expenses := expenses + s[i].amount;
      }
      i := i + 1;
    }
    assert s[..i] == s;
  }

  // ---------------------------------------------------------------------------
  // getDashboardBalance

  datatype Balance = Balance(currentBalance: int, income: int, expenses: int)

  /** `new Date(now.getFullYear(), now.getMonth(), 1)` */
  function MonthStart(today: Date): (d: Date)
    ensures d.year == today.year && d.month == today.month && d.day == 1
  {
    Date(today.year, today.month, 1)
  }

  /** The transactions on or after the first of the current month; there is
      no upper bound, so future-dated ones count too. */
  function SinceMonthStart(txs: seq<Transaction>, today: Date): (r: seq<Transaction>)
    ensures forall t :: t in r <==> t in txs && DateLe(MonthStart(today), t.date)
  {
    Where(txs, (t: Transaction) => DateLe(MonthStart(today), t.date))
  }

  // ---------------------------------------------------------------------------
  // getSpendingTrends

  /** Months counted from year 0: consecutive calendar months differ by one. */
  function MonthNumber(d: Date): int {
    d.year * 12 + d.month - 1
  }

  /** `new Date(now.getFullYear(), now.getMonth() - i, 1)`: the first of the
      month i months back, with the year rolled over as needed. */
  function MonthsAgo(today: Date, i: int): (d: Date)
    ensures d.day == 1 && 1 <= d.month <= 12
  {
    var n := MonthNumber(today) - i;
    Date(n / 12, n % 12 + 1, 1)
  }

  /** Going i months back moves the month number back by exactly i. */
  lemma MonthsAgoNumber(today: Date, i: int)
    ensures MonthNumber(MonthsAgo(today, i)) == MonthNumber(today) - i
  {
  }

  /** The date lies between the first of `first`'s month and that month's last
      day, `new Date(y, m + 1, 0)`, both inclusive. */
  predicate InMonth(date: Date, first: Date) {
    DateLe(first, date) && DateLe(date, Date(first.year, first.month, DaysInMonth(first.year, first.month)))
  }

  predicate ValidDate(d: Date) {
    1 <= d.month <= 12 && 1 <= d.day <= DaysInMonth(d.year, d.month)
  }

  /** For a real calendar date the window is exactly "same year and month". */
  lemma InMonthIff(date: Date, first: Date)
    requires ValidDate(date) && first.day == 1
    ensures InMonth(date, first) <==> date.year == first.year && date.month == first.month
  {
  }

  /** `toLocaleString('default', { month: 'short' })` in an English locale. */
  function MonthLabel(month: int): string
    requires 1 <= month <= 12
  {
    ["Jan", "Feb", "Mar", "Apr", "May", "Jun", "Jul", "Aug", "Sep", "Oct", "Nov", "Dec"][month - 1]
  }

  datatype TrendPoint = TrendPoint(month: string, income: int, expenses: int)

  /** The transactions of the month i months back. */
  function MonthTransactions(txs: seq<Transaction>, today: Date, i: int): (r: seq<Transaction>)
    ensures forall t :: t in r <==> t in txs && InMonth(t.date, MonthsAgo(today, i))
  {
    Where(txs, (t: Transaction) => InMonth(t.date, MonthsAgo(today, i)))
  }

  /** The entry for the month i months back. */
  function PointFor(txs: seq<Transaction>, today: Date, i: int): TrendPoint
  {
    var first := MonthsAgo(today, i);
    var inMonth := MonthTransactions(txs, today, i);
    TrendPoint(MonthLabel(first.month), IncomeSum(inMonth), ExpenseSum(inMonth))
  }

  /** A trend series of `months` points whose j-th point is for the month
      `months - 1 - j` back: oldest first, the current month last. */
  predicate IsTrend(r: seq<TrendPoint>, txs: seq<Transaction>, today: Date, months: int) {
    && |r| == (if months < 0 then 0 else months)
    && forall j :: 0 <= j < |r| ==> r[j] == PointFor(txs, today, |r| - 1 - j)
  }

  /** The trend of `n` months: the points for the months n - 1 .. 0 back. */
  function TrendSeries(txs: seq<Transaction>, today: Date, n: nat): (r: seq<TrendPoint>)
    ensures IsTrend(r, txs, today, n)
  {
    seq(n, j requires 0 <= j < n => PointFor(txs, today, n - 1 - j))
  }

  /** One more pass of the trend loop puts the point for the month `n`
      back in front. */
  lemma TrendSeriesPrepend(txs: seq<Transaction>, today: Date, n: nat)
    ensures [PointFor(txs, today, n)] + TrendSeries(txs, today, n) == TrendSeries(txs, today, n + 1)
  {
    var r := [PointFor(txs, today, n)] + TrendSeries(txs, today, n);
    forall j | 0 < j <= n
      ensures r[j] == TrendSeries(txs, today, n + 1)[j]
    {
      assert r[j] == TrendSeries(txs, today, n)[j - 1];
    }
  }

  /** Neighbouring points of a trend are neighbouring months, and the last is
      the current month. */
  lemma TrendMonthsConsecutive(today: Date, n: nat, j: nat)
    requires j + 1 < n
    ensures MonthNumber(MonthsAgo(today, n - 1 - (j + 1))) == MonthNumber(MonthsAgo(today, n - 1 - j)) + 1
    ensures MonthNumber(MonthsAgo(today, n - 1 - (n - 1))) == MonthNumber(today)
  {
    MonthsAgoNumber(today, n - 1 - (j + 1));
    MonthsAgoNumber(today, n - 1 - j);
    MonthsAgoNumber(today, 0);
  }

  // ---------------------------------------------------------------------------
  // getCategorySpending

  datatype Slice = Slice(name: string, value: int, color: string)

  const OtherColor: string := "#78909C"

  /** A transaction the grouping loop files under category `id`: its
      categoryId is truthy and equals id. */
  predicate FiledUnder(t: Transaction, id: nat) {
    id != 0 && t.categoryId == Some(id)
  }

  /** A transaction the grouping loop counts as uncategorised. */
  predicate Unfiled(t: Transaction) {
    t.categoryId.None? || t.categoryId == Some(0)
  }

  /** The total the loop files under `id`. */
  function CategoryTotal(s: seq<Transaction>, id: nat): int {
    if s == [] then 0
    else CategoryTotal(s[..|s| - 1], id) + (if FiledUnder(s[|s| - 1], id) then s[|s| - 1].amount else 0)
  }

  /** `categoryTotals.has(id)` after the loop. */
  predicate Tallied(s: seq<Transaction>, id: nat) {
    exists i :: 0 <= i < |s| && FiledUnder(s[i], id)
  }

  function UnfiledTotal(s: seq<Transaction>): int {
    if s == [] then 0
    else UnfiledTotal(s[..|s| - 1]) + (if Unfiled(s[|s| - 1]) then s[|s| - 1].amount else 0)
  }

  /** `Math.round(part / whole * 100)` for a non-zero whole, computed
      exactly: the integer p with p - 1/2 <= 100 * part / whole < p + 1/2. */
  function RoundPercent(part: int, whole: int): (p: int)
    requires whole != 0
    ensures whole > 0 ==> whole * (2 * p - 1) <= 200 * part < whole * (2 * p + 1)
    ensures whole < 0 ==> whole * (2 * p - 1) >= 200 * part > whole * (2 * p + 1)
  {
    var n := 200 * part + whole;
    if whole > 0 then
      var p := n / (2 * whole);
      assert p * (2 * whole) <= n < (p + 1) * (2 * whole);
      p
    else
      var p := (-n) / (-2 * whole);
      assert p * (-2 * whole) <= -n < (p + 1) * (-2 * whole);
      p
  }

  /** Scaling by a positive factor keeps order. */
  lemma ScaleMonotone(k: int, x: int, y: int)
    requires k > 0 && x <= y
    ensures k * x <= k * y
  {
    assert k * y - k * x == k * (y - x);
  }

  /** A share of a positive whole no larger than the whole is a percentage
      between 0 and 100. */
  lemma RoundPercentRange(part: int, whole: int)
    requires 0 <= part <= whole && whole > 0
    ensures 0 <= RoundPercent(part, whole) <= 100
  {
    var p := RoundPercent(part, whole);
    if p < 0 {
      ScaleMonotone(whole, 2 * p + 1, -1);
    }
    if p > 100 {
      ScaleMonotone(whole, 201, 2 * p - 1);
    }
  }

  /** The categories the chart considers: the expense ones. */
  function ExpenseCategories(cats: seq<Category>): (r: seq<Category>)
    ensures forall c :: c in r <==> c in cats && !c.isIncome
  {
    Where(cats, (c: Category) => !c.isIncome)
  }

  /** Those of `shown` that some expense is filed under. */
  function SpentCategories(shown: seq<Category>, expenses: seq<Transaction>): (r: seq<Category>)
    ensures forall c :: c in r <==> c in shown && Tallied(expenses, c.id)
  {
    Where(shown, (c: Category) => Tallied(expenses, c.id))
  }

  /** One slice per category, its share of `total` rounded. */
  function FiledSlices(spent: seq<Category>, expenses: seq<Transaction>, total: int): (r: seq<Slice>)
    requires total != 0
    ensures |r| == |spent|
    ensures forall i :: 0 <= i < |r| ==>
              r[i] == Slice(spent[i].name, RoundPercent(CategoryTotal(expenses, spent[i].id), total), spent[i].color)
  {
    seq(|spent|, i requires 0 <= i < |spent| =>
          Slice(spent[i].name, RoundPercent(CategoryTotal(expenses, spent[i].id), total), spent[i].color))
  }

  /** `getCategorySpending` over the visible categories and the user's
      expense transactions dated this month or later. With no spending it
      lists every expense category at 0; otherwise the categories that have
      spending, with their rounded share, then an "Other" slice for
      uncategorised spending if there is any. */
  function CategorySpending(cats: seq<Category>, expenses: seq<Transaction>): (r: seq<Slice>)
    ensures AmountSum(expenses) == 0 ==>
              |r| == |ExpenseCategories(cats)|
              && forall i :: 0 <= i < |r| ==>
                   r[i] == Slice(ExpenseCategories(cats)[i].name, 0, ExpenseCategories(cats)[i].color)
    ensures AmountSum(expenses) != 0 ==>
              |r| == |SpentCategories(ExpenseCategories(cats), expenses)| + (if UnfiledTotal(expenses) > 0 then 1 else 0)
    ensures AmountSum(expenses) != 0 ==>
              var spent := SpentCategories(ExpenseCategories(cats), expenses);
              forall i :: 0 <= i < |spent| ==>
                r[i] == Slice(spent[i].name, RoundPercent(CategoryTotal(expenses, spent[i].id), AmountSum(expenses)), spent[i].color)
    ensures AmountSum(expenses) != 0 && UnfiledTotal(expenses) > 0 ==>
              r[|r| - 1] == Slice("Other", RoundPercent(UnfiledTotal(expenses), AmountSum(expenses)), OtherColor)
  {
    var shown := ExpenseCategories(cats);
    var total := AmountSum(expenses);
    if total == 0 then
      seq(|shown|, i requires 0 <= i < |shown| => Slice(shown[i].name, 0, shown[i].color))
    else
      var unfiled := UnfiledTotal(expenses);
      FiledSlices(SpentCategories(shown, expenses), expenses, total)
      + (if unfiled > 0 then [Slice("Other", RoundPercent(unfiled, total), OtherColor)] else [])
  }

  /** One more transaction tallies `id` exactly when it is filed under it. */
  lemma TalliedStep(s: seq<Transaction>, i: nat, id: nat)
    requires i < |s|
    ensures Tallied(s[..i + 1], id) <==> Tallied(s[..i], id) || FiledUnder(s[i], id)
  {
    if Tallied(s[..i + 1], id) && !FiledUnder(s[i], id) {
      var k :| 0 <= k < i + 1 && FiledUnder(s[..i + 1][k], id);
      assert s[..i][k] == s[k];
    }
    if Tallied(s[..i], id) {
      var k :| 0 <= k < i && FiledUnder(s[..i][k], id);
      assert s[..i + 1][k] == s[k];
    }
    if FiledUnder(s[i], id) {
      assert s[..i + 1][i] == s[i];
    }
  }

  /** The grouping loop of `getCategorySpending`: one running total per
      category id seen, and one for what is not filed under any. */
  method TallyExpenses(s: seq<Transaction>) returns (totals: map<nat, int>, unfiled: int)
    ensures forall id :: id in totals <==> Tallied(s, id)
    ensures forall id :: id in totals ==> totals[id] == CategoryTotal(s, id)
    ensures unfiled == UnfiledTotal(s)
  {
    totals, unfiled := map[], 0;
    var i := 0;
    while i < |s|
      invariant 0 <= i <= |s|
      invariant forall id :: id in totals <==> Tallied(s[..i], id)
      invariant forall id :: id in totals ==> totals[id] == CategoryTotal(s[..i], id)
      invariant unfiled == UnfiledTotal(s[..i])
    {
      var t := s[i];
      assert s[..i + 1][..i] == s[..i];
      forall id | true
        ensures Tallied(s[..i + 1], id) <==> Tallied(s[..i], id) || FiledUnder(t, id)
      {
        TalliedStep(s, i, id);
      }
      if t.categoryId.Some? && t.categoryId.value != 0 {
        var c := t.categoryId.value;
        var current := if c in totals then totals[c] else 0;
        assert c !in totals ==> CategoryTotal(s[..i], c) == 0 by {
          if c !in totals { NeverFiledTotal(s[..i], c); }
        }
        totals := totals[c := current + t.amount];
      } else {
        unfiled := unfiled + t.amount;
      }
      i := i + 1;
    }
    assert s[..i] == s;
  }

  /** Nothing filed under `id` means a zero total for it. */
  lemma {:induction false} NeverFiledTotal(s: seq<Transaction>, id: nat)
    requires !Tallied(s, id)
    ensures CategoryTotal(s, id) == 0
  {
    if s != [] {
      var p := s[..|s| - 1];
      assert forall k :: 0 <= k < |p| ==> p[k] == s[k];
      NeverFiledTotal(p, id);
    }
  }

  /** With no negative amounts, what is filed under one category and what
      is left unfiled are each part of the total. */
  lemma {:induction false} PartsWithinTotal(s: seq<Transaction>, id: nat)
    requires forall i :: 0 <= i < |s| ==> s[i].amount >= 0
    ensures 0 <= CategoryTotal(s, id) <= AmountSum(s)
    ensures 0 <= UnfiledTotal(s) <= AmountSum(s)
  {
    if s != [] {
      PartsWithinTotal(s[..|s| - 1], id);
    }
  }

  /** With no negative amounts every slice is a percentage in [0, 100]. */
  lemma CategorySpendingInRange(cats: seq<Category>, expenses: seq<Transaction>)
    requires forall i :: 0 <= i < |expenses| ==> expenses[i].amount >= 0
    ensures forall x :: x in CategorySpending(cats, expenses) ==> 0 <= x.value <= 100
  {
    var total := AmountSum(expenses);
    SumsNonNegative(expenses);
    if total != 0 {
      var spent := SpentCategories(ExpenseCategories(cats), expenses);
      forall i | 0 <= i < |spent|
        ensures 0 <= RoundPercent(CategoryTotal(expenses, spent[i].id), total) <= 100
      {
        PartsWithinTotal(expenses, spent[i].id);
        RoundPercentRange(CategoryTotal(expenses, spent[i].id), total);
      }
      PartsWithinTotal(expenses, 0);
      if UnfiledTotal(expenses) > 0 {
        RoundPercentRange(UnfiledTotal(expenses), total);
      }
    }
  }

  // ---------------------------------------------------------------------------
  // Budget and goal progress

  /** The progress percentage of a budget (spent of its amount) or of a goal
      (saved of its target): rounded, and 0 when the bound is not positive. */
  function Percentage(current: int, max: int): (p: int)
    ensures max <= 0 ==> p == 0
    ensures max > 0 ==> max * (2 * p - 1) <= 200 * current < max * (2 * p + 1)
  {
    if max > 0 then RoundPercent(current, max) else 0
  }

  /** Progress within the bound is between 0 and 100. */
  lemma PercentageRange(current: int, max: int)
    requires 0 <= current <= max
    ensures 0 <= Percentage(current, max) <= 100
  {
    if max > 0 {
      RoundPercentRange(current, max);
    }
  }

  /** Reaching the bound reads exactly 100. */
  lemma PercentageAtBound(max: int)
    requires max > 0
    ensures Percentage(max, max) == 100
  {
    var p := Percentage(max, max);
    if p < 100 {
      ScaleMonotone(max, 2 * p + 1, 199);
    }
    if p > 100 {
      ScaleMonotone(max, 201, 2 * p - 1);
    }
  }

  /** More progress never shows a smaller percentage. */
  lemma PercentageMonotone(c1: int, c2: int, max: int)
    requires c1 <= c2
    ensures Percentage(c1, max) <= Percentage(c2, max)
  {
    if max > 0 {
      var p1, p2 := Percentage(c1, max), Percentage(c2, max);
      if p1 > p2 {
        ScaleMonotone(max, 2 * p2 + 1, 2 * p1 - 1);
      }
    }
  }
}
