/** The report endpoints: the monthly report of one account (income,
    expense, net, balance at the end of the month, expenses by category) and
    the all-time income or expense per category for the charts. */
module Reports {
  import opened Common
  import opened Models
  import opened Query
  import opened Grouping
  import Accounts

  /** The label of a transaction without a (known) category. */
  const NO_CATEGORY: string := "(keine)"

  /** The lowest year the report and the filter accept. */
  const MIN_REPORT_YEAR: int := 2000

  // ---------------------------------------------------------------------------
  // Month periods
  // ---------------------------------------------------------------------------

  /** The half-open interval `[start, end)` of a report. */
  datatype Period = Period(start: DateTime, end: DateTime)

  predicate InPeriod(c: DateTime, p: Period) {
    !Before(c, p.start) && Before(c, p.end)
  }

  /** The first instant of a month. */
  function MonthStart(year: int, month: int): DateTime {
    DateTime(Date(year, month, 1), 0)
  }

  /** The month after (year, month); December rolls over to January. */
  function NextMonth(year: int, month: int): (ym: (int, int))
    requires 1 <= month <= 12
    ensures 1 <= ym.1 <= 12
    ensures ym.0 * 12 + ym.1 == year * 12 + month + 1
  {
    if month == 12 then (year + 1, 1) else (year, month + 1)
  }

  /** From the first instant of the month to the first instant of the next. */
  function MonthBounds(year: int, month: int): (p: Period)
    ensures Before(p.start, p.end)
  {
    Period(MonthStart(year, month),
           if month == 12 then MonthStart(year + 1, 1) else MonthStart(year, month + 1))
  }

  /** The bounds built with the timestamp constructor, which fails once a year
      leaves the representable range: the start of a month after year 9999,
      or the end of December 9999. */
  function MonthPeriod(year: int, month: int): (r: Result<Period>)
    ensures r.Ok? <==>
      1 <= month <= 12 && MIN_YEAR <= year && (year < MAX_YEAR || (year == MAX_YEAR && month < 12))
    ensures r.Err? ==> r.error == DateOutOfRange
    ensures r.Ok? ==> r.value == MonthBounds(year, month)
  {
    match MakeDateTime(year, month, 1)
    case None => Err(DateOutOfRange)
    case Some(start) =>
      match (if month == 12 then MakeDateTime(year + 1, 1, 1) else MakeDateTime(year, month + 1, 1))
      case None => Err(DateOutOfRange)
      case Some(end) => Ok(Period(start, end))
  }

  /** Consecutive months meet: each ends where the next one starts. */
  lemma ConsecutiveMonthsMeet(year: int, month: int)
    requires 1 <= month <= 12
    ensures var (ny, nm) := NextMonth(year, month);
            MonthBounds(year, month).end == MonthBounds(ny, nm).start
  {
  }

  /** The months partition time: a valid timestamp lies in the period of
      exactly one month, its own. */
  lemma InstantInOwnMonth(c: DateTime, year: int, month: int)
    requires ValidDateTime(c) && 1 <= month <= 12
    ensures InPeriod(c, MonthBounds(year, month)) <==> year == c.date.year && month == c.date.month
  {
    var p := MonthBounds(year, month);
    if year == c.date.year && month == c.date.month {
      assert !Before(c, p.start);
      assert Before(c, p.end);
    }
  }

  /** A timestamp exactly at the end of a month is not in that month: it falls
      in the next month. */
  lemma BoundaryInstantInNextMonth(c: DateTime, year: int, month: int)
    requires 1 <= month <= 12
    requires c == MonthBounds(year, month).end
    ensures !InPeriod(c, MonthBounds(year, month))
    ensures var (ny, nm) := NextMonth(year, month); InPeriod(c, MonthBounds(ny, nm))
  {
    var (ny, nm) := NextMonth(year, month);
    assert MonthBounds(ny, nm).start == c;
  }

  // ---------------------------------------------------------------------------
  // Categories and grouped rows
  // ---------------------------------------------------------------------------

  /** `coalesce(Category.name, "(keine)")` of the outer join on
      `Category.id == Transaction.category_id`. */
  function CategoryLabel(cats: CategoryTable, t: Transaction): (name: string)
    ensures t.categoryId.None? ==> name == NO_CATEGORY
    ensures t.categoryId.Some? && t.categoryId.value !in cats ==> name == NO_CATEGORY
    ensures t.categoryId.Some? && t.categoryId.value in cats ==> name == cats[t.categoryId.value]
  {
    if t.categoryId.Some? && t.categoryId.value in cats then cats[t.categoryId.value] else NO_CATEGORY
  }

  function LabelKey(cats: CategoryTable): Transaction -> string {
    t => CategoryLabel(cats, t)
  }

  /** One row of a grouped category query (`spent` in the monthly report,
      `total` in the chart data). */
  datatype CategoryTotal = CategoryTotal(category: string, total: int)

  predicate SortedByTotalDesc(rs: seq<CategoryTotal>) {
    forall i, j :: 0 <= i < j < |rs| ==> rs[i].total >= rs[j].total
  }

  predicate DistinctCategories(rs: seq<CategoryTotal>) {
    forall i, j :: 0 <= i < j < |rs| ==> rs[i].category != rs[j].category
  }

  function SumTotals(rs: seq<CategoryTotal>): int {
    if rs == [] then 0 else rs[0].total + SumTotals(rs[1..])
  }

  /** Putting a row in front of a sorted list whose totals it is not below
      keeps it sorted. */
  lemma SortedCons(a: CategoryTotal, rest: seq<CategoryTotal>)
    requires SortedByTotalDesc(rest)
    requires forall y :: y in rest ==> a.total >= y.total
    ensures SortedByTotalDesc([a] + rest)
  {
    forall i, j | 0 <= i < j < |[a] + rest|
      ensures ([a] + rest)[i].total >= ([a] + rest)[j].total
    {
      assert ([a] + rest)[j] == rest[j - 1];
      if i > 0 {
        assert ([a] + rest)[i] == rest[i - 1];
      } else {
        assert rest[j - 1] in rest;
      }
    }
  }

  /** Putting a row in front of a list without its category keeps the
      categories distinct. */
  lemma DistinctCons(a: CategoryTotal, rest: seq<CategoryTotal>)
    requires DistinctCategories(rest)
    requires forall y :: y in rest ==> y.category != a.category
    ensures DistinctCategories([a] + rest)
  {
    forall i, j | 0 <= i < j < |[a] + rest|
      ensures ([a] + rest)[i].category != ([a] + rest)[j].category
    {
      assert ([a] + rest)[j] == rest[j - 1];
      if i > 0 {
        assert ([a] + rest)[i] == rest[i - 1];
      } else {
        assert rest[j - 1] in rest;
      }
    }
  }

  /** Insert a row before the first row whose total is not above its own. */
  function InsertByTotal(rs: seq<CategoryTotal>, x: CategoryTotal): (r: seq<CategoryTotal>)
    ensures multiset(r) == multiset(rs) + multiset{x}
  {
    if rs == [] || x.total >= rs[0].total then [x] + rs
    else
      assert rs == [rs[0]] + rs[1..];
      [rs[0]] + InsertByTotal(rs[1..], x)
  }

  /** A row of the insertion is a row of the list or the inserted one. */
  lemma InsertByTotalMembers(rs: seq<CategoryTotal>, x: CategoryTotal)
    ensures forall y :: y in InsertByTotal(rs, x) <==> y in rs || y == x
  {
    var r := InsertByTotal(rs, x);
    forall y
      ensures y in r <==> y in rs || y == x
    {
      assert y in r <==> y in multiset(r);
      assert y in rs <==> y in multiset(rs);
    }
  }

  /** Inserting into rows sorted by total keeps them sorted. */
  lemma {:induction false} InsertByTotalSorted(rs: seq<CategoryTotal>, x: CategoryTotal)
    requires SortedByTotalDesc(rs)
    ensures SortedByTotalDesc(InsertByTotal(rs, x))
  {
    if rs == [] || x.total >= rs[0].total {
      forall y | y in rs
        ensures x.total >= y.total
      {
        var k :| 0 <= k < |rs| && rs[k] == y;
        assert k == 0 || rs[0].total >= rs[k].total;
      }
      SortedCons(x, rs);
    } else {
      assert SortedByTotalDesc(rs[1..]);
      InsertByTotalSorted(rs[1..], x);
      var rest := InsertByTotal(rs[1..], x);
      InsertByTotalMembers(rs[1..], x);
      forall y | y in rest
        ensures rs[0].total >= y.total
      {
        if y != x {
          var k :| 0 <= k < |rs[1..]| && rs[1..][k] == y;
          assert rs[k + 1] == y;
        }
      }
      SortedCons(rs[0], rest);
    }
  }

  lemma {:induction false} InsertByTotalSum(rs: seq<CategoryTotal>, x: CategoryTotal)
    ensures SumTotals(InsertByTotal(rs, x)) == SumTotals(rs) + x.total
  {
    if rs != [] && x.total < rs[0].total {
      InsertByTotalSum(rs[1..], x);
      assert ([rs[0]] + InsertByTotal(rs[1..], x))[1..] == InsertByTotal(rs[1..], x);
    }
  }

  lemma {:induction false} InsertByTotalDistinct(rs: seq<CategoryTotal>, x: CategoryTotal)
    requires DistinctCategories(rs)
    requires forall y :: y in rs ==> y.category != x.category
    ensures DistinctCategories(InsertByTotal(rs, x))
  {
    if rs == [] || x.total >= rs[0].total {
      DistinctCons(x, rs);
    } else {
      assert rs == [rs[0]] + rs[1..];
      assert DistinctCategories(rs[1..]);
      InsertByTotalDistinct(rs[1..], x);
      var rest := InsertByTotal(rs[1..], x);
      InsertByTotalMembers(rs[1..], x);
      forall y | y in rest
        ensures y.category != rs[0].category
      {
        if y != x {
          var k :| 0 <= k < |rs[1..]| && rs[1..][k] == y;
          assert rs[k + 1] == y;
        }
      }
      DistinctCons(rs[0], rest);
    }
  }

  /** `ORDER BY total DESC` as an insertion sort; rows with equal totals may
      come in any order. */
  function SortByTotal(rs: seq<CategoryTotal>): (r: seq<CategoryTotal>)
    ensures multiset(r) == multiset(rs)
  {
    if rs == [] then []
    else
      assert rs == [rs[0]] + rs[1..];
      InsertByTotal(SortByTotal(rs[1..]), rs[0])
  }

  lemma SortByTotalMembers(rs: seq<CategoryTotal>)
    ensures forall y :: y in SortByTotal(rs) <==> y in rs
  {
    var r := SortByTotal(rs);
    forall y
      ensures y in r <==> y in rs
    {
      assert y in r <==> y in multiset(r);
      assert y in rs <==> y in multiset(rs);
    }
  }

  lemma {:induction false} SortByTotalSorted(rs: seq<CategoryTotal>)
    ensures SortedByTotalDesc(SortByTotal(rs))
  {
    if rs != [] {
      SortByTotalSorted(rs[1..]);
      InsertByTotalSorted(SortByTotal(rs[1..]), rs[0]);
    }
  }

  lemma {:induction false} SortByTotalSum(rs: seq<CategoryTotal>)
    ensures SumTotals(SortByTotal(rs)) == SumTotals(rs)
  {
    if rs != [] {
      SortByTotalSum(rs[1..]);
      InsertByTotalSum(SortByTotal(rs[1..]), rs[0]);
    }
  }

  lemma {:induction false} SortByTotalDistinct(rs: seq<CategoryTotal>)
    requires DistinctCategories(rs)
    ensures DistinctCategories(SortByTotal(rs))
  {
    if rs != [] {
      var rest := SortByTotal(rs[1..]);
      assert DistinctCategories(rs[1..]);
      SortByTotalDistinct(rs[1..]);
      SortByTotalMembers(rs[1..]);
      forall y | y in rest
        ensures y.category != rs[0].category
      {
        var k :| 0 <= k < |rs[1..]| && rs[1..][k] == y;
        assert rs[k + 1] == y;
      }
      InsertByTotalDistinct(rest, rs[0]);
    }
  }

  /** Sorting orders the rows by total, largest first, keeps exactly the
      rows, keeps the sum of the totals and keeps the labels distinct. */
  lemma SortByTotalKeeps(rs: seq<CategoryTotal>)
    ensures SortedByTotalDesc(SortByTotal(rs))
    ensures forall y :: y in SortByTotal(rs) <==> y in rs
    ensures SumTotals(SortByTotal(rs)) == SumTotals(rs)
    ensures DistinctCategories(rs) ==> DistinctCategories(SortByTotal(rs))
  {
    SortByTotalSorted(rs);
    SortByTotalMembers(rs);
    SortByTotalSum(rs);
    if DistinctCategories(rs) {
      SortByTotalDistinct(rs);
    }
  }

  /** One row per distinct label, in order of first occurrence, with the sum
      of the group's amounts, negated when `negate` holds (`sum(-amount)`). */
  function CategoryRows(xs: seq<Transaction>, cats: CategoryTable, negate: bool): (rs: seq<CategoryTotal>)
    ensures |rs| == |DistinctKeys(xs, LabelKey(cats))|
    ensures forall i :: 0 <= i < |rs| ==> rs[i].category == DistinctKeys(xs, LabelKey(cats))[i]
  {
    var ks := DistinctKeys(xs, LabelKey(cats));
    seq(|ks|, i requires 0 <= i < |ks| =>
      var s := KeyTotal(xs, LabelKey(cats), ks[i]);
      CategoryTotal(ks[i], if negate then -s else s))
  }

  /** The grouped category query: `GROUP BY` label, sum per group, sorted by
      the sum, largest first. */
  function GroupByCategory(xs: seq<Transaction>, cats: CategoryTable, negate: bool): seq<CategoryTotal> {
    SortByTotal(CategoryRows(xs, cats, negate))
  }

  lemma {:induction false} SumTotalsConcat(a: seq<CategoryTotal>, b: seq<CategoryTotal>)
    ensures SumTotals(a + b) == SumTotals(a) + SumTotals(b)
  {
    if a == [] {
      assert a + b == b;
    } else {
      assert (a + b)[1..] == a[1..] + b;
      SumTotalsConcat(a[1..], b);
    }
  }

  /** The first `n` grouped rows add up to the group sums of their labels. */
  lemma {:induction false} CategoryRowsPrefixSum(xs: seq<Transaction>, cats: CategoryTable, negate: bool, n: nat)
    requires n <= |CategoryRows(xs, cats, negate)|
    ensures var s := KeysTotal(DistinctKeys(xs, LabelKey(cats))[..n], xs, LabelKey(cats));
            SumTotals(CategoryRows(xs, cats, negate)[..n]) == if negate then -s else s
  {
    var rs := CategoryRows(xs, cats, negate);
    var ks := DistinctKeys(xs, LabelKey(cats));
    assert forall i :: 0 <= i < |rs| ==>
      rs[i].total == (if negate then -KeyTotal(xs, LabelKey(cats), ks[i]) else KeyTotal(xs, LabelKey(cats), ks[i]));
    GroupSumsPrefix(rs, ks, xs, LabelKey(cats), negate, n);
  }

  lemma {:induction false} GroupSumsPrefix(rs: seq<CategoryTotal>, ks: seq<string>, xs: seq<Transaction>,
                                           key: Transaction -> string, negate: bool, n: nat)
    requires n <= |rs| == |ks|
    requires forall i :: 0 <= i < |rs| ==>
      rs[i].total == (if negate then -KeyTotal(xs, key, ks[i]) else KeyTotal(xs, key, ks[i]))
    ensures var s := KeysTotal(ks[..n], xs, key); SumTotals(rs[..n]) == if negate then -s else s
  {
    if n == 0 {
      assert rs[..0] == [];
      assert ks[..0] == [];
    } else {
      GroupSumsPrefix(rs, ks, xs, key, negate, n - 1);
      assert rs[..n] == rs[..n - 1] + [rs[n - 1]];
      SumTotalsConcat(rs[..n - 1], [rs[n - 1]]);
      assert ks[..n][..n - 1] == ks[..n - 1];
    }
  }

  /** Every grouped row is the group of a label that occurs in `xs`, with the
      group's sum (negated when `negate`). */
  lemma GroupedRowsAreGroups(xs: seq<Transaction>, cats: CategoryTable, negate: bool)
    ensures forall y :: y in GroupByCategory(xs, cats, negate) ==>
      && HasKey(xs, LabelKey(cats), y.category)
      && y.total == (if negate then -KeyTotal(xs, LabelKey(cats), y.category)
                     else KeyTotal(xs, LabelKey(cats), y.category))
  {
    var rs := CategoryRows(xs, cats, negate);
    SortByTotalMembers(rs);
    forall y | y in GroupByCategory(xs, cats, negate)
      ensures HasKey(xs, LabelKey(cats), y.category)
      ensures y.total == (if negate then -KeyTotal(xs, LabelKey(cats), y.category)
                          else KeyTotal(xs, LabelKey(cats), y.category))
    {
      var i :| 0 <= i < |rs| && rs[i] == y;
    }
  }

  /** The label of every row of `xs` has a grouped row. */
  lemma GroupedRowsCoverRows(xs: seq<Transaction>, cats: CategoryTable, negate: bool)
    ensures forall t :: t in xs ==>
      exists y :: y in GroupByCategory(xs, cats, negate) && y.category == CategoryLabel(cats, t)
  {
    var ks := DistinctKeys(xs, LabelKey(cats));
    var rs := CategoryRows(xs, cats, negate);
    SortByTotalMembers(rs);
    forall t | t in xs
      ensures exists y :: y in GroupByCategory(xs, cats, negate) && y.category == CategoryLabel(cats, t)
    {
      var n :| 0 <= n < |xs| && xs[n] == t;
      assert LabelKey(cats)(xs[n]) in ks;
      var j :| 0 <= j < |ks| && ks[j] == LabelKey(cats)(xs[n]);
      assert rs[j] in rs;
    }
  }

  /** The grouped rows add up to the sum of `xs` (negated when `negate`): no
      row is lost or counted twice. */
  lemma GroupedRowsSum(xs: seq<Transaction>, cats: CategoryTable, negate: bool)
    ensures SumTotals(GroupByCategory(xs, cats, negate)) == if negate then -Total(xs) else Total(xs)
  {
    var rs := CategoryRows(xs, cats, negate);
    var ks := DistinctKeys(xs, LabelKey(cats));
    SortByTotalSum(rs);
    CategoryRowsPrefixSum(xs, cats, negate, |rs|);
    assert rs[..|rs|] == rs;
    assert ks[..|rs|] == ks;
    KeysTotalCovers(ks, xs, LabelKey(cats));
  }

  /** When every row of `xs` has the sign the query selects, every grouped
      total is above 0. */
  lemma GroupedRowsPositive(xs: seq<Transaction>, cats: CategoryTable, negate: bool)
    requires forall t :: t in xs ==> if negate then t.amount < 0 else t.amount > 0
    ensures forall y :: y in GroupByCategory(xs, cats, negate) ==> y.total > 0
  {
    GroupedRowsAreGroups(xs, cats, negate);
    forall y | y in GroupByCategory(xs, cats, negate)
      ensures y.total > 0
    {
      var n := HasKeyIndex(xs, LabelKey(cats), y.category);
      KeyTotalStrictSign(xs, LabelKey(cats), y.category, n);
    }
  }

  /** What the grouped category query returns: rows sorted by total, largest
      first; each label once; each row the group of a label that occurs in
      `xs`, with the group's sum (negated when `negate`); a row for the label
      of every row of `xs`; totals that add up to the sum of `xs` (negated
      when `negate`). */
  lemma GroupByCategoryLaws(xs: seq<Transaction>, cats: CategoryTable, negate: bool)
    ensures SortedByTotalDesc(GroupByCategory(xs, cats, negate))
    ensures DistinctCategories(GroupByCategory(xs, cats, negate))
    ensures forall y :: y in GroupByCategory(xs, cats, negate) ==>
      && HasKey(xs, LabelKey(cats), y.category)
      && y.total == (if negate then -KeyTotal(xs, LabelKey(cats), y.category)
                     else KeyTotal(xs, LabelKey(cats), y.category))
    ensures forall t :: t in xs ==>
      exists y :: y in GroupByCategory(xs, cats, negate) && y.category == CategoryLabel(cats, t)
    ensures SumTotals(GroupByCategory(xs, cats, negate)) == if negate then -Total(xs) else Total(xs)
  {
    var rs := CategoryRows(xs, cats, negate);
    assert DistinctCategories(rs);
    SortByTotalKeeps(rs);
    GroupedRowsAreGroups(xs, cats, negate);
    GroupedRowsCoverRows(xs, cats, negate);
    GroupedRowsSum(xs, cats, negate);
  }

  // ---------------------------------------------------------------------------
  // Monthly report
  // ---------------------------------------------------------------------------

  /** The figures of a month. `expense` is a magnitude; `net` is signed. */
  datatype Kpis = Kpis(income: int, expense: int, net: int, balanceEnd: int)

  datatype MonthlyReport = MonthlyReport(
    accountId: int,
    year: int,
    month: int,
    kpis: Kpis,
    byCategory: seq<CategoryTotal>)

  /** The rows of the account inside the period, with the given sign. */
  function PeriodWhere(accountId: int, p: Period, sign: Sign): Where {
    Where(accountId, Some(p.start), Some(p.end), sign)
  }

  /** Every row of the account before the end of the period. */
  function UntilWhere(accountId: int, p: Period): Where {
    Where(accountId, None, Some(p.end), AnySign)
  }

  /** The monthly report of an account: parameters are checked first; then
      income and signed expense of the period, their sum as net, the balance
      over all rows before the end of the period, and the period's expenses
      grouped by category label. */
  function MonthlyReportOf(txs: seq<Transaction>, cats: CategoryTable, accountId: int, year: int, month: int)
    : (r: Result<MonthlyReport>)
    ensures r == Err(Unprocessable) <==> accountId < 1 || year < MIN_REPORT_YEAR || month < 1 || month > 12
    ensures r == Err(DateOutOfRange) <==>
      accountId >= 1 && year >= MIN_REPORT_YEAR && 1 <= month <= 12
      && (year > MAX_YEAR || (year == MAX_YEAR && month == 12))
    ensures r.Ok? ==> r.value.accountId == accountId && r.value.year == year && r.value.month == month
  {
    if accountId < 1 || year < MIN_REPORT_YEAR || month < 1 || month > 12 then Err(Unprocessable)
    else
      match MonthPeriod(year, month)
      case Err(e) => Err(e)
      case Ok(p) =>
        var income := Total(Select(txs, PeriodWhere(accountId, p, Positive)));
        var expense := Total(Select(txs, PeriodWhere(accountId, p, Negative)));
        var net := income + expense;
        var balanceEnd := Total(Select(txs, UntilWhere(accountId, p)));
        var byCategory := GroupByCategory(Select(txs, PeriodWhere(accountId, p, Negative)), cats, true);
        Ok(MonthlyReport(accountId, year, month, Kpis(income, Abs(expense), net, balanceEnd), byCategory))
  }

  /** The figures of a successful monthly report: income and expense are at
      least 0; net is income minus the expense magnitude and is the sum of
      every amount of the month; the balance at the end is the sum of every
      amount before the end of the month. */
  lemma MonthlyKpis(txs: seq<Transaction>, cats: CategoryTable, accountId: int, year: int, month: int)
    requires MonthlyReportOf(txs, cats, accountId, year, month).Ok?
    ensures var k := MonthlyReportOf(txs, cats, accountId, year, month).value.kpis;
            var p := MonthBounds(year, month);
      && k.income >= 0 && k.expense >= 0
      && k.income == Total(Select(txs, PeriodWhere(accountId, p, Positive)))
      && k.expense == -Total(Select(txs, PeriodWhere(accountId, p, Negative)))
      && k.net == k.income - k.expense
      && k.net == Total(Select(txs, PeriodWhere(accountId, p, AnySign)))
      && k.balanceEnd == Total(Select(txs, UntilWhere(accountId, p)))
  {
    var p := MonthBounds(year, month);
    SignedTotalBounds(txs, PeriodWhere(accountId, p, Positive));
    SignedTotalBounds(txs, PeriodWhere(accountId, p, Negative));
    SignSplit(txs, PeriodWhere(accountId, p, AnySign));
  }

  /** The expenses of the account inside the month. */
  function MonthExpenses(txs: seq<Transaction>, accountId: int, year: int, month: int): seq<Transaction> {
    Select(txs, PeriodWhere(accountId, MonthBounds(year, month), Negative))
  }

  /** Expenses by category of a successful monthly report: sorted by amount
      spent, largest first; each label once; every amount spent is positive
      and is the negated sum of the month's expenses under that label; every
      expense of the month is under one of the labels; and the amounts spent
      add up to the expense figure. */
  lemma MonthlyByCategory(txs: seq<Transaction>, cats: CategoryTable, accountId: int, year: int, month: int)
    requires MonthlyReportOf(txs, cats, accountId, year, month).Ok?
    ensures SortedByTotalDesc(MonthlyReportOf(txs, cats, accountId, year, month).value.byCategory)
    ensures DistinctCategories(MonthlyReportOf(txs, cats, accountId, year, month).value.byCategory)
    ensures forall y :: y in MonthlyReportOf(txs, cats, accountId, year, month).value.byCategory ==>
      && y.total > 0
      && y.total == -KeyTotal(MonthExpenses(txs, accountId, year, month), LabelKey(cats), y.category)
    ensures forall t :: t in MonthExpenses(txs, accountId, year, month) ==>
      exists y :: y in MonthlyReportOf(txs, cats, accountId, year, month).value.byCategory
               && y.category == CategoryLabel(cats, t)
    ensures SumTotals(MonthlyReportOf(txs, cats, accountId, year, month).value.byCategory)
         == MonthlyReportOf(txs, cats, accountId, year, month).value.kpis.expense
  {
    var spent := MonthExpenses(txs, accountId, year, month);
    var rep := MonthlyReportOf(txs, cats, accountId, year, month).value;
    assert rep.byCategory == GroupByCategory(spent, cats, true);
    GroupByCategoryLaws(spent, cats, true);
    SelectMembers(txs, PeriodWhere(accountId, MonthBounds(year, month), Negative));
    GroupedRowsPositive(spent, cats, true);
    MonthlyKpis(txs, cats, accountId, year, month);
  }

  /** Consecutive monthly reports chain, December to January included: the
      balance at the end of one month plus the net of the next is the balance
      at the end of the next. */
  lemma MonthlyBalancesChain(txs: seq<Transaction>, cats: CategoryTable, accountId: int, year: int, month: int)
    requires 1 <= month <= 12
    requires MonthlyReportOf(txs, cats, accountId, year, month).Ok?
    requires var (ny, nm) := NextMonth(year, month); MonthlyReportOf(txs, cats, accountId, ny, nm).Ok?
    ensures var (ny, nm) := NextMonth(year, month);
            var k1 := MonthlyReportOf(txs, cats, accountId, year, month).value.kpis;
            var k2 := MonthlyReportOf(txs, cats, accountId, ny, nm).value.kpis;
            k1.balanceEnd + k2.net == k2.balanceEnd
  {
    var (ny, nm) := NextMonth(year, month);
    var p1 := MonthBounds(year, month);
    var p2 := MonthBounds(ny, nm);
    MonthlyKpis(txs, cats, accountId, year, month);
    MonthlyKpis(txs, cats, accountId, ny, nm);
    assert p1.end == p2.start;
    BeforeIsStrictTotalOrder(p2.start, p2.end, p2.end);
    var w := UntilWhere(accountId, p2);
    RangeSplit(txs, w, p2.start);
    assert w.(before := Some(p2.start)) == UntilWhere(accountId, p1);
    assert w.(since := Some(p2.start)) == PeriodWhere(accountId, p2, AnySign);
  }

  /** A transaction stamped exactly at the end of a month is left out of that
      month's figures and counted in the next month's. */
  lemma BoundaryTransactionCountsInNextMonth(txs: seq<Transaction>, t: Transaction, year: int, month: int)
    requires 1 <= month <= 12 && t in txs
    requires t.createdAt == MonthBounds(year, month).end
    ensures var (ny, nm) := NextMonth(year, month);
      && t !in Select(txs, PeriodWhere(t.accountId, MonthBounds(year, month), AnySign))
      && t in Select(txs, PeriodWhere(t.accountId, MonthBounds(ny, nm), AnySign))
  {
    BoundaryInstantInNextMonth(t.createdAt, year, month);
    var (ny, nm) := NextMonth(year, month);
    SelectMembers(txs, PeriodWhere(t.accountId, MonthBounds(year, month), AnySign));
    SelectMembers(txs, PeriodWhere(t.accountId, MonthBounds(ny, nm), AnySign));
  }

  /** A month in which the account has no transaction (at all, for the
      balance) reports all-zero figures and no category. */
  lemma MonthlyReportOfEmptyAccount(txs: seq<Transaction>, cats: CategoryTable, accountId: int, year: int, month: int)
    requires MonthlyReportOf(txs, cats, accountId, year, month).Ok?
    requires forall t :: t in txs ==> t.accountId != accountId
    ensures var rep := MonthlyReportOf(txs, cats, accountId, year, month).value;
            rep.kpis == Kpis(0, 0, 0, 0) && rep.byCategory == []
  {
    var p := MonthBounds(year, month);
    TotalOfNoMatch(txs, PeriodWhere(accountId, p, Positive));
    TotalOfNoMatch(txs, PeriodWhere(accountId, p, Negative));
    TotalOfNoMatch(txs, UntilWhere(accountId, p));
    assert DistinctKeys([], LabelKey(cats)) == [];
  }

  /** A month in which the account has no transaction reports zero income,
      expense and net and no category, without an error; the balance at the
      end of the month is still everything the account had before the month
      began. */
  lemma MonthlyReportOfEmptyMonth(txs: seq<Transaction>, cats: CategoryTable, accountId: int, year: int, month: int)
    requires MonthlyReportOf(txs, cats, accountId, year, month).Ok?
    requires forall t :: t in txs && t.accountId == accountId ==> !InPeriod(t.createdAt, MonthBounds(year, month))
    ensures var rep := MonthlyReportOf(txs, cats, accountId, year, month).value;
      && rep.kpis.income == 0 && rep.kpis.expense == 0 && rep.kpis.net == 0
      && rep.byCategory == []
      && rep.kpis.balanceEnd
         == Total(Select(txs, Where(accountId, None, Some(MonthBounds(year, month).start), AnySign)))
  {
    var p := MonthBounds(year, month);
    TotalOfNoMatch(txs, PeriodWhere(accountId, p, Positive));
    TotalOfNoMatch(txs, PeriodWhere(accountId, p, Negative));
    TotalOfNoMatch(txs, PeriodWhere(accountId, p, AnySign));
    assert DistinctKeys([], LabelKey(cats)) == [];
    MonthlyKpis(txs, cats, accountId, year, month);
    BeforeIsStrictTotalOrder(p.start, p.end, p.end);
    var w := UntilWhere(accountId, p);
    RangeSplit(txs, w, p.start);
    assert w.(before := Some(p.start)) == Where(accountId, None, Some(p.start), AnySign);
    assert w.(since := Some(p.start)) == PeriodWhere(accountId, p, AnySign);
  }

  // ---------------------------------------------------------------------------
  // Chart data
  // ---------------------------------------------------------------------------

  /** The sign a chart selects: expenses for "expense", income for anything else. */
  function ChartSign(txType: string): Sign {
    if txType == "expense" then Negative else Positive
  }

  /** The rows a chart groups: all of the account's rows, of any time, with
      the chart's sign. */
  function ChartRows(txs: seq<Transaction>, accountId: int, txType: string): seq<Transaction> {
    Select(txs, AccountWhere(accountId).(sign := ChartSign(txType)))
  }

  /** The all-time income (`txType` other than "expense") or expense
      (`txType == "expense"`) of an account per category label, largest first. */
  function ChartData(txs: seq<Transaction>, cats: CategoryTable, accountId: int, txType: string)
    : (r: Result<seq<CategoryTotal>>)
    ensures r.Err? <==> accountId < 1
    ensures r.Err? ==> r.error == Unprocessable
  {
    if accountId < 1 then Err(Unprocessable)
    else Ok(GroupByCategory(ChartRows(txs, accountId, txType), cats, txType == "expense"))
  }

  /** The chart rows: sorted by total, largest first; each label once; every
      total positive and equal to the sum of the account's income under that
      label, or to the negated sum of its expenses; every selected row under
      one of the labels. */
  lemma ChartDataLaws(txs: seq<Transaction>, cats: CategoryTable, accountId: int, txType: string)
    requires ChartData(txs, cats, accountId, txType).Ok?
    ensures SortedByTotalDesc(ChartData(txs, cats, accountId, txType).value)
    ensures DistinctCategories(ChartData(txs, cats, accountId, txType).value)
    ensures forall y :: y in ChartData(txs, cats, accountId, txType).value ==>
      && y.total > 0
      && y.total == (if txType == "expense" then -KeyTotal(ChartRows(txs, accountId, txType), LabelKey(cats), y.category)
                     else KeyTotal(ChartRows(txs, accountId, txType), LabelKey(cats), y.category))
    ensures forall t :: t in ChartRows(txs, accountId, txType) ==>
      exists y :: y in ChartData(txs, cats, accountId, txType).value && y.category == CategoryLabel(cats, t)
  {
    var rows := ChartRows(txs, accountId, txType);
    var negate := txType == "expense";
    assert ChartData(txs, cats, accountId, txType).value == GroupByCategory(rows, cats, negate);
    GroupByCategoryLaws(rows, cats, negate);
    ChartRowsSigned(txs, accountId, txType);
    GroupedRowsPositive(rows, cats, negate);
  }

  lemma ChartRowsSigned(txs: seq<Transaction>, accountId: int, txType: string)
    ensures forall t :: t in ChartRows(txs, accountId, txType) ==>
      if txType == "expense" then t.amount < 0 else t.amount > 0
  {
    SelectMembers(txs, AccountWhere(accountId).(sign := ChartSign(txType)));
  }

  /** The chart totals add up to the income or expense figure of the
      account's income/expense split. */
  lemma ChartDataSum(txs: seq<Transaction>, cats: CategoryTable, accountId: int, txType: string)
    requires ChartData(txs, cats, accountId, txType).Ok?
    ensures SumTotals(ChartData(txs, cats, accountId, txType).value)
         == if txType == "expense" then Accounts.IncomeExpenseOf(txs, accountId).expense
            else Accounts.IncomeExpenseOf(txs, accountId).income
  {
    var rows := ChartRows(txs, accountId, txType);
    var negate := txType == "expense";
    assert ChartData(txs, cats, accountId, txType).value == GroupByCategory(rows, cats, negate);
    GroupByCategoryLaws(rows, cats, negate);
  }

  /** The chart request without `tx_type`: the parameter defaults to
      "expense", so the chart shows the account's expenses per label, adding
      up to its expense figure. */
  function ChartDataWithDefaults(txs: seq<Transaction>, cats: CategoryTable, accountId: int)
    : (r: Result<seq<CategoryTotal>>)
    ensures r == ChartData(txs, cats, accountId, "expense")
    ensures r.Ok? ==> SumTotals(r.value) == Accounts.IncomeExpenseOf(txs, accountId).expense
  {
    var r := ChartData(txs, cats, accountId, "expense");
    if r.Ok? then
      ChartDataSum(txs, cats, accountId, "expense");
      r
    else r
  }
}
