/** The account endpoints: the account table (create, list) and the per-account
    aggregates over the transaction table (balance, balances of all accounts,
    cumulative daily series, income/expense split). Amounts are in cents. */
module Accounts {
  import opened Common
  import opened Models
  import opened Query
  import opened Grouping

  // ---------------------------------------------------------------------------
  // Balance
  // ---------------------------------------------------------------------------

  /** The rows of one account, in table order. */
  function AccountRows(txs: seq<Transaction>, accountId: int): seq<Transaction> {
    Select(txs, AccountWhere(accountId))
  }

  /** The balance of an account: the sum of its amounts, 0 when it has none.
      The account is not looked up. */
  function Balance(txs: seq<Transaction>, accountId: int): int {
    Total(AccountRows(txs, accountId))
  }

  /** An account without transactions, including one that does not exist, has
      balance 0. */
  lemma BalanceOfAccountWithoutTransactions(txs: seq<Transaction>, accountId: int)
    requires forall t :: t in txs ==> t.accountId != accountId
    ensures AccountRows(txs, accountId) == [] && Balance(txs, accountId) == 0
  {
    TotalOfNoMatch(txs, AccountWhere(accountId));
  }

  lemma BalanceCons(txs: seq<Transaction>, accountId: int)
    requires txs != []
    ensures Balance(txs, accountId)
         == (if txs[0].accountId == accountId then txs[0].amount else 0) + Balance(txs[1..], accountId)
  {
    TotalSelectCons(txs, AccountWhere(accountId));
  }

  // ---------------------------------------------------------------------------
  // Balances of all accounts
  // ---------------------------------------------------------------------------

  datatype BalanceRow = BalanceRow(accountId: int, account: string, currency: string, balance: int)

  /** `sum(amount) ... GROUP BY account_id`: the sum per account that has rows. */
  function AccountTotals(txs: seq<Transaction>): map<int, int> {
    if txs == [] then map[]
    else
      var rest := AccountTotals(txs[1..]);
      var a := txs[0].accountId;
      rest[a := (if a in rest then rest[a] else 0) + txs[0].amount]
  }

  /** The grouped sums agree with the single-account balance, and an account
      missing from the grouping has balance 0. */
  lemma {:induction false} AccountTotalsAreBalances(txs: seq<Transaction>, accountId: int)
    ensures accountId in AccountTotals(txs) ==> AccountTotals(txs)[accountId] == Balance(txs, accountId)
    ensures accountId !in AccountTotals(txs) ==> Balance(txs, accountId) == 0
  {
    if txs != [] {
      AccountTotalsAreBalances(txs[1..], accountId);
      BalanceCons(txs, accountId);
    }
  }

  /** Stored accounts carry an id. */
  predicate Stored(accounts: seq<Account>) {
    forall i :: 0 <= i < |accounts| ==> accounts[i].id.Some?
  }

  /** The account table left-outer-joined with the per-account sums: one row
      per account, 0 for an account without transactions. */
  function AllBalances(accounts: seq<Account>, txs: seq<Transaction>): (rows: seq<BalanceRow>)
    requires Stored(accounts)
    ensures |rows| == |accounts|
    ensures forall i :: 0 <= i < |rows| ==>
      && rows[i].accountId == accounts[i].id.value
      && rows[i].account == accounts[i].name
      && rows[i].currency == accounts[i].currency
      && rows[i].balance == Balance(txs, accounts[i].id.value)
  {
    var totals := AccountTotals(txs);
    assert forall a :: (if a in totals then totals[a] else 0) == Balance(txs, a) by {
      forall a ensures (if a in totals then totals[a] else 0) == Balance(txs, a) {
        AccountTotalsAreBalances(txs, a);
      }
    }
    seq(|accounts|, i requires 0 <= i < |accounts| =>
      var id := accounts[i].id.value;
      BalanceRow(id, accounts[i].name, accounts[i].currency, if id in totals then totals[id] else 0))
  }

  // ---------------------------------------------------------------------------
  // Income / expense split
  // ---------------------------------------------------------------------------

  datatype IncomeExpense = IncomeExpense(income: int, expense: int)

  /** Income is the sum of the account's positive amounts, expense the
      magnitude of the sum of its negative amounts; zero amounts are in
      neither. Both are at least 0 and their difference is the balance. */
  function IncomeExpenseOf(txs: seq<Transaction>, accountId: int): (r: IncomeExpense)
    ensures r.income == Total(Select(txs, AccountWhere(accountId).(sign := Positive)))
    ensures r.expense == -Total(Select(txs, AccountWhere(accountId).(sign := Negative)))
    ensures r.income >= 0 && r.expense >= 0
    ensures r.income - r.expense == Balance(txs, accountId)
  {
    var w := AccountWhere(accountId);
    SignedTotalBounds(txs, w.(sign := Positive));
    SignedTotalBounds(txs, w.(sign := Negative));
    SignSplit(txs, w);
    IncomeExpense(Total(Select(txs, w.(sign := Positive))), Abs(Total(Select(txs, w.(sign := Negative)))))
  }

  /** An account without transactions, including one that does not exist,
      has neither income nor expense. */
  lemma IncomeExpenseOfAccountWithoutTransactions(txs: seq<Transaction>, accountId: int)
    requires forall t :: t in txs ==> t.accountId != accountId
    ensures IncomeExpenseOf(txs, accountId) == IncomeExpense(0, 0)
  {
    TotalOfNoMatch(txs, AccountWhere(accountId).(sign := Positive));
    TotalOfNoMatch(txs, AccountWhere(accountId).(sign := Negative));
  }

  // ---------------------------------------------------------------------------
  // Cumulative daily series
  // ---------------------------------------------------------------------------

  /** One row of the grouped query: a day and the sum of that day's amounts. */
  datatype DayDelta = DayDelta(day: Date, delta: int)

  /** One entry of the series: a day and the balance at the end of that day. */
  datatype Point = Point(day: Date, balance: int)

  predicate StrictlyAscending(ds: seq<Date>) {
    forall i, j :: 0 <= i < j < |ds| ==> DateBefore(ds[i], ds[j])
  }

  /** Insert a day into an ascending list of days, keeping it ascending and
      without repetition. */
  function InsertDay(ds: seq<Date>, d: Date): (r: seq<Date>)
    requires StrictlyAscending(ds)
    ensures StrictlyAscending(r)
    ensures forall e :: e in r <==> e in ds || e == d
  {
    if ds == [] then [d]
    else if d == ds[0] then ds
    else if DateBefore(d, ds[0]) then
      assert forall j :: 0 <= j < |ds| ==> DateBefore(d, ds[j]) by {
        forall j | 0 <= j < |ds| ensures DateBefore(d, ds[j]) {
          DateBeforeIsStrictTotalOrder(d, ds[0], ds[j]);
        }
      }
      [d] + ds
    else
      DateBeforeIsStrictTotalOrder(d, ds[0], d);
      var r := InsertDay(ds[1..], d);
      assert forall e :: e in r ==> DateBefore(ds[0], e);
      [ds[0]] + r
  }

  /** `GROUP BY date(created_at) ORDER BY date(created_at)`: the distinct
      days of the rows, ascending. */
  function SortedDays(xs: seq<Transaction>): (ds: seq<Date>)
    ensures StrictlyAscending(ds)
    ensures forall i :: 0 <= i < |xs| ==> DayOf(xs[i]) in ds
    ensures forall j :: 0 <= j < |ds| ==> HasKey(xs, DayOf, ds[j])
  {
    if xs == [] then []
    else
      var rest := SortedDays(xs[1..]);
      var r := InsertDay(rest, DayOf(xs[0]));
      assert forall j :: 0 <= j < |r| ==> HasKey(xs, DayOf, r[j]) by {
        forall j | 0 <= j < |r| ensures HasKey(xs, DayOf, r[j]) {
          if r[j] != DayOf(xs[0]) {
            assert r[j] in rest;
          }
        }
      }
      assert forall i :: 1 <= i < |xs| ==> DayOf(xs[i]) in r by {
        forall i | 1 <= i < |xs| ensures DayOf(xs[i]) in r {
          assert xs[i] == xs[1..][i - 1];
        }
      }
      r
  }

  /** The grouped query of the series: the account's days ascending, each with
      the sum of that day's amounts. */
  function DailyDeltas(txs: seq<Transaction>, accountId: int): (rows: seq<DayDelta>)
    ensures |rows| == |SortedDays(AccountRows(txs, accountId))|
    ensures forall i :: 0 <= i < |rows| ==>
      rows[i].day == SortedDays(AccountRows(txs, accountId))[i]
  {
    var mine := AccountRows(txs, accountId);
    var ds := SortedDays(mine);
    seq(|ds|, i requires 0 <= i < |ds| => DayDelta(ds[i], KeyTotal(mine, DayOf, ds[i])))
  }

  /** The running sum of the first `n` daily deltas. */
  function RunningTotal(rows: seq<DayDelta>, n: nat): int
    requires n <= |rows|
  {
    if n == 0 then 0 else RunningTotal(rows, n - 1) + rows[n - 1].delta
  }

  /** The rows dated on or before day `d`. */
  function OnOrBefore(xs: seq<Transaction>, d: Date): (r: seq<Transaction>)
    ensures forall t :: t in r <==> t in xs && !DateBefore(d, DayOf(t))
  {
    if xs == [] then []
    else (if !DateBefore(d, DayOf(xs[0])) then [xs[0]] else []) + OnOrBefore(xs[1..], d)
  }

  lemma {:induction false} RunningTotalIsKeysTotal(txs: seq<Transaction>, accountId: int, n: nat)
    requires n <= |DailyDeltas(txs, accountId)|
    ensures var mine := AccountRows(txs, accountId);
            RunningTotal(DailyDeltas(txs, accountId), n) == KeysTotal(SortedDays(mine)[..n], mine, DayOf)
  {
    var mine := AccountRows(txs, accountId);
    var rows := DailyDeltas(txs, accountId);
    RunningTotalOfDeltas(rows, SortedDays(mine), mine, n);
  }

  lemma {:induction false} RunningTotalOfDeltas(rows: seq<DayDelta>, ds: seq<Date>, mine: seq<Transaction>, n: nat)
    requires n <= |rows| == |ds|
    requires forall i :: 0 <= i < |rows| ==> rows[i].day == ds[i] && rows[i].delta == KeyTotal(mine, DayOf, ds[i])
    ensures RunningTotal(rows, n) == KeysTotal(ds[..n], mine, DayOf)
  {
    if n > 0 {
      RunningTotalOfDeltas(rows, ds, mine, n - 1);
      assert ds[..n][..n - 1] == ds[..n - 1];
    }
  }

  /** A day's group sum does not change when the rows after a later day are
      dropped. */
  lemma {:induction false} KeyTotalOnOrBefore(xs: seq<Transaction>, d: Date, k: Date)
    requires !DateBefore(d, k)
    ensures KeyTotal(OnOrBefore(xs, d), DayOf, k) == KeyTotal(xs, DayOf, k)
  {
    if xs != [] {
      KeyTotalOnOrBefore(xs[1..], d, k);
      var head := if !DateBefore(d, DayOf(xs[0])) then [xs[0]] else [];
      KeyTotalConcat(head, OnOrBefore(xs[1..], d), k);
    }
  }

  lemma {:induction false} KeyTotalConcat(a: seq<Transaction>, b: seq<Transaction>, k: Date)
    ensures KeyTotal(a + b, DayOf, k) == KeyTotal(a, DayOf, k) + KeyTotal(b, DayOf, k)
  {
    if a == [] {
      assert a + b == b;
    } else {
      assert (a + b)[1..] == a[1..] + b;
      KeyTotalConcat(a[1..], b, k);
    }
  }

  lemma {:induction false} KeysTotalOnOrBefore(ks: seq<Date>, xs: seq<Transaction>, d: Date)
    requires forall j :: 0 <= j < |ks| ==> !DateBefore(d, ks[j])
    ensures KeysTotal(ks, OnOrBefore(xs, d), DayOf) == KeysTotal(ks, xs, DayOf)
  {
    if ks != [] {
      KeysTotalOnOrBefore(ks[..|ks| - 1], xs, d);
      KeyTotalOnOrBefore(xs, d, ks[|ks| - 1]);
    }
  }

  /** Every row dated on or before `ds[i]` has its day among the first
      `i + 1` entries of the ascending days `ds`. */
  lemma EarlyDaysCovered(xs: seq<Transaction>, ds: seq<Date>, i: nat)
    requires StrictlyAscending(ds) && i < |ds|
    requires forall n :: 0 <= n < |xs| ==> DayOf(xs[n]) in ds
    ensures forall m :: 0 <= m < |OnOrBefore(xs, ds[i])| ==> DayOf(OnOrBefore(xs, ds[i])[m]) in ds[..i + 1]
  {
    var early := OnOrBefore(xs, ds[i]);
    forall m | 0 <= m < |early| ensures DayOf(early[m]) in ds[..i + 1] {
      var t := early[m];
      assert t in early;
      var n :| 0 <= n < |xs| && xs[n] == t;
      var j :| 0 <= j < |ds| && ds[j] == DayOf(t);
      assert j <= i;
      assert ds[..i + 1][j] == ds[j];
    }
  }

  /** Over ascending distinct days covering every row, the group sums of the
      first `i + 1` days add up to the sum of the rows dated up to `ds[i]`. */
  lemma KeysPrefixTotal(xs: seq<Transaction>, ds: seq<Date>, i: nat)
    requires StrictlyAscending(ds) && i < |ds|
    requires forall n :: 0 <= n < |xs| ==> DayOf(xs[n]) in ds
    ensures KeysTotal(ds[..i + 1], xs, DayOf) == Total(OnOrBefore(xs, ds[i]))
  {
    var d := ds[i];
    var ks := ds[..i + 1];
    AscendingPrefixNotAfter(ds, i);
    KeysTotalOnOrBefore(ks, xs, d);
    EarlyDaysCovered(xs, ds, i);
    AscendingIsDistinct(ks);
    KeysTotalCovers(ks, OnOrBefore(xs, d), DayOf);
  }

  /** No day among the first `i + 1` of ascending days lies after `ds[i]`. */
  lemma AscendingPrefixNotAfter(ds: seq<Date>, i: nat)
    requires StrictlyAscending(ds) && i < |ds|
    ensures forall j :: 0 <= j <= i ==> !DateBefore(ds[i], ds[j])
  {
    forall j | 0 <= j <= i ensures !DateBefore(ds[i], ds[j]) {
      DateBeforeIsStrictTotalOrder(ds[j], ds[i], ds[i]);
    }
  }

  lemma AscendingIsDistinct(ds: seq<Date>)
    requires StrictlyAscending(ds)
    ensures Distinct(ds)
  {
    forall i, j | 0 <= i < j < |ds| ensures ds[i] != ds[j] {
      DateBeforeIsStrictTotalOrder(ds[i], ds[j], ds[j]);
    }
  }

  /** The running sum after day `ds[i]` is the sum of every amount of the
      account dated on or before that day. */
  lemma {:induction false} RunningTotalAsOfDay(txs: seq<Transaction>, accountId: int, i: nat)
    requires i < |DailyDeltas(txs, accountId)|
    ensures var mine := AccountRows(txs, accountId);
            RunningTotal(DailyDeltas(txs, accountId), i + 1)
            == Total(OnOrBefore(mine, SortedDays(mine)[i]))
  {
    var mine := AccountRows(txs, accountId);
    RunningTotalIsKeysTotal(txs, accountId, i + 1);
    KeysPrefixTotal(mine, SortedDays(mine), i);
  }

  /** After the last day the running sum is the balance. */
  lemma {:induction false} RunningTotalReachesBalance(txs: seq<Transaction>, accountId: int)
    ensures RunningTotal(DailyDeltas(txs, accountId), |DailyDeltas(txs, accountId)|)
         == Balance(txs, accountId)
  {
    var mine := AccountRows(txs, accountId);
    var ds := SortedDays(mine);
    RunningTotalIsKeysTotal(txs, accountId, |ds|);
    assert ds[..|ds|] == ds;
    KeysTotalCovers(ds, mine, DayOf);
  }

  /** The series has no entry exactly when the account has no transaction. */
  lemma DailyDeltasEmpty(txs: seq<Transaction>, accountId: int)
    ensures DailyDeltas(txs, accountId) == [] <==> forall t :: t in txs ==> t.accountId != accountId
  {
    var mine := AccountRows(txs, accountId);
    SelectMembers(txs, AccountWhere(accountId));
    if mine != [] {
      assert DayOf(mine[0]) in SortedDays(mine);
      assert mine[0] in mine;
    } else {
      forall t | t in txs ensures t.accountId != accountId {
        assert !(t in mine);
      }
    }
  }

  /** The days of the grouped query are exactly the days on which the account
      has a transaction. */
  lemma DailyDeltasDays(txs: seq<Transaction>, accountId: int)
    ensures var rows := DailyDeltas(txs, accountId);
      && (forall t :: t in txs && t.accountId == accountId ==>
           exists i :: 0 <= i < |rows| && rows[i].day == DayOf(t))
      && (forall i :: 0 <= i < |rows| ==> HasKey(AccountRows(txs, accountId), DayOf, rows[i].day))
  {
    var rows := DailyDeltas(txs, accountId);
    var mine := AccountRows(txs, accountId);
    var ds := SortedDays(mine);
    SelectMembers(txs, AccountWhere(accountId));
    forall t | t in txs && t.accountId == accountId
      ensures exists i :: 0 <= i < |rows| && rows[i].day == DayOf(t)
    {
      assert t in mine;
      var n :| 0 <= n < |mine| && mine[n] == t;
      var i :| 0 <= i < |ds| && ds[i] == DayOf(t);
      assert rows[i].day == DayOf(t);
    }
  }

  /** `series` adds up `rows` one after the other, starting from 0. */
  predicate RunningSeries(rows: seq<DayDelta>, series: seq<Point>) {
    && |series| == |rows|
    && forall j :: 0 <= j < |series| ==> series[j] == Point(rows[j].day, RunningTotal(rows, j + 1))
  }

  /** The loop of the series: add each day's sum to the running balance and
      append the day with the new balance. */
  method RunningBalances(rows: seq<DayDelta>) returns (series: seq<Point>)
    ensures RunningSeries(rows, series)
  {
    var balance := 0;
    series := [];
    for i := 0 to |rows|
      invariant |series| == i
      invariant balance == RunningTotal(rows, i)
      invariant forall j :: 0 <= j < i ==> series[j] == Point(rows[j].day, RunningTotal(rows, j + 1))
    {
      balance := balance + rows[i].delta;
      series := series + [Point(rows[i].day, balance)];
    }
  }

  /** Each entry of a running series is the previous one plus its day's sum. */
  lemma RunningSeriesSteps(rows: seq<DayDelta>, series: seq<Point>)
    requires RunningSeries(rows, series)
    ensures |series| > 0 ==> series[0].balance == rows[0].delta
    ensures forall i :: 0 < i < |series| ==> series[i].balance == series[i - 1].balance + rows[i].delta
  {
    if |series| > 0 {
      assert RunningTotal(rows, 1) == RunningTotal(rows, 0) + rows[0].delta;
    }
  }

  lemma SeriesDays(rows: seq<DayDelta>, series: seq<Point>, ds: seq<Date>)
    requires RunningSeries(rows, series)
    requires |ds| == |rows| && forall i :: 0 <= i < |rows| ==> rows[i].day == ds[i]
    ensures forall i :: 0 <= i < |series| ==> series[i].day == ds[i]
  {
  }

  /** What a running series over the grouped daily sums means for the account:
      one entry per day with a transaction, days ascending, each entry the
      previous one plus the day's sum, each the balance at the end of its day,
      the last the balance, none when the account has no transaction. */
  lemma TimeseriesMeaning(txs: seq<Transaction>, accountId: int, series: seq<Point>)
    requires RunningSeries(DailyDeltas(txs, accountId), series)
    ensures forall i, j :: 0 <= i < j < |series| ==> DateBefore(series[i].day, series[j].day)
    ensures forall t :: t in txs && t.accountId == accountId ==>
      exists i :: 0 <= i < |series| && series[i].day == DayOf(t)
    ensures forall i :: 0 <= i < |series| ==> HasKey(AccountRows(txs, accountId), DayOf, series[i].day)
    ensures |series| > 0 ==> series[0].balance == DailyDeltas(txs, accountId)[0].delta
    ensures forall i :: 0 < i < |series| ==>
      series[i].balance == series[i - 1].balance + DailyDeltas(txs, accountId)[i].delta
    ensures forall i :: 0 <= i < |series| ==>
      series[i].balance == Total(OnOrBefore(AccountRows(txs, accountId), series[i].day))
    ensures series == [] <==> forall t :: t in txs ==> t.accountId != accountId
    ensures series != [] ==> series[|series| - 1].balance == Balance(txs, accountId)
  {
    var rows := DailyDeltas(txs, accountId);
    var ds := SortedDays(AccountRows(txs, accountId));
    SeriesDays(rows, series, ds);
    RunningSeriesSteps(rows, series);
    forall i | 0 <= i < |series|
      ensures series[i].balance == Total(OnOrBefore(AccountRows(txs, accountId), series[i].day))
    {
      RunningTotalAsOfDay(txs, accountId, i);
    }
    DailyDeltasDays(txs, accountId);
    DailyDeltasEmpty(txs, accountId);
    RunningTotalReachesBalance(txs, accountId);
  }

  /** The cumulative balance per day of an account: the grouped daily sums,
      days ascending, added up one after the other starting from 0. */
  method AccountTimeseries(txs: seq<Transaction>, accountId: int) returns (series: seq<Point>)
    ensures |series| == |DailyDeltas(txs, accountId)|
    ensures forall i, j :: 0 <= i < j < |series| ==> DateBefore(series[i].day, series[j].day)
    ensures forall t :: t in txs && t.accountId == accountId ==>
      exists i :: 0 <= i < |series| && series[i].day == DayOf(t)
    ensures forall i :: 0 <= i < |series| ==> HasKey(AccountRows(txs, accountId), DayOf, series[i].day)
    ensures |series| > 0 ==> series[0].balance == DailyDeltas(txs, accountId)[0].delta
    ensures forall i :: 0 < i < |series| ==>
      series[i].balance == series[i - 1].balance + DailyDeltas(txs, accountId)[i].delta
    ensures forall i :: 0 <= i < |series| ==>
      series[i].balance == Total(OnOrBefore(AccountRows(txs, accountId), series[i].day))
    ensures series == [] <==> forall t :: t in txs ==> t.accountId != accountId
    ensures series != [] ==> series[|series| - 1].balance == Balance(txs, accountId)
  {
    var rows := DailyDeltas(txs, accountId);
    series := RunningBalances(rows);
    TimeseriesMeaning(txs, accountId, series);
  }

  // ---------------------------------------------------------------------------
  // The account table
  // ---------------------------------------------------------------------------

  /** The account table; the store hands out ids 1, 2, 3, ... */
  class AccountTable {
    var rows: seq<Account>
    var nextId: int

    ghost predicate Valid()
      reads this
    {
      && nextId >= 1
      && (forall i :: 0 <= i < |rows| ==> rows[i].id.Some? && 1 <= rows[i].id.value < nextId)
      && (forall i, j :: 0 <= i < j < |rows| ==> rows[i].id != rows[j].id)
    }

    constructor ()
      ensures Valid() && rows == [] && nextId == 1
    {
      rows := [];
      nextId := 1;
    }

    /** Store a new account: exactly one row is added, under an id no other
        row has, with the payload's name and currency. */
    method Create(p: AccountCreate) returns (acc: Account)
      requires Valid()
      modifies this
      ensures Valid()
      ensures acc == AccountFromPayload(p).(id := Some(old(nextId)))
      ensures acc.name == p.name && acc.currency == p.currency
      ensures forall i :: 0 <= i < |old(rows)| ==> old(rows)[i].id != acc.id
      ensures rows == old(rows) + [acc]
      ensures nextId == old(nextId) + 1
    {
      acc := AccountFromPayload(p).(id := Some(nextId));
      rows := rows + [acc];
      nextId := nextId + 1;
    }

    /** All accounts, each with its id. */
    method List() returns (all: seq<Account>)
      requires Valid()
      ensures all == rows && Stored(all)
    {
      all := rows;
    }
  }
}
