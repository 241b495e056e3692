/** The transaction endpoints: the period filter of one account, and the
    ledger operations create, update and delete. */
module Transactions {
  import opened Common
  import opened Models
  import opened Query
  import opened Reports

  // ---------------------------------------------------------------------------
  // Period filter
  // ---------------------------------------------------------------------------

  /** The first instant of the year to the first instant of the next. */
  function YearBounds(year: int): (p: Period)
    ensures Before(p.start, p.end)
  {
    Period(MonthStart(year, 1), MonthStart(year + 1, 1))
  }

  /** The range of the filter: the month when one is given, the whole year
      otherwise. The year must be at least 2000 and a given month in 1..12;
      building a bound fails once its year passes 9999. */
  function FilterRange(year: int, month: Option<int>): (r: Result<Period>)
    ensures r == Err(Unprocessable) <==> year < MIN_REPORT_YEAR || (month.Some? && !(1 <= month.value <= 12))
    ensures r == Err(DateOutOfRange) <==>
      && year >= MIN_REPORT_YEAR && (month.Some? ==> 1 <= month.value <= 12)
      && (year > MAX_YEAR || (year == MAX_YEAR && (month.None? || month.value == 12)))
    ensures r.Ok? && month.Some? ==> r.value == MonthBounds(year, month.value)
    ensures r.Ok? && month.None? ==> r.value == YearBounds(year)
  {
    if year < MIN_REPORT_YEAR || (month.Some? && !(1 <= month.value <= 12)) then Err(Unprocessable)
    else
      var m := if month.Some? then month.value else 1;
      match MakeDateTime(year, m, 1)
      case None => Err(DateOutOfRange)
      case Some(start) =>
        var end :=
          if month.Some? then
            (if m < 12 then MakeDateTime(year, m + 1, 1) else MakeDateTime(year + 1, 1, 1))
          else MakeDateTime(year + 1, 1, 1);
        match end
        case None => Err(DateOutOfRange)
        case Some(e) => Ok(Period(start, e))
  }

  /** The filter with a month and the monthly report accept the same months
      and use the same range. */
  lemma FilterRangeIsMonthPeriod(year: int, month: int)
    requires year >= MIN_REPORT_YEAR && 1 <= month <= 12
    ensures FilterRange(year, Some(month)) == MonthPeriod(year, month)
  {
  }

  /** A valid timestamp lies in the range of a year exactly when it falls in
      that year: the year range is its twelve months put together. */
  lemma InstantInOwnYear(c: DateTime, year: int)
    requires ValidDateTime(c)
    ensures InPeriod(c, YearBounds(year)) <==> c.date.year == year
  {
  }

  /** The year range starts with the first month and ends with the last. */
  lemma YearBoundsAreItsMonths(year: int)
    ensures YearBounds(year).start == MonthBounds(year, 1).start
    ensures YearBounds(year).end == MonthBounds(year, 12).end
  {
  }

  /** `a` is not later than `b`. */
  predicate NotAfter(a: Transaction, b: Transaction) {
    !Before(b.createdAt, a.createdAt)
  }

  /** `ORDER BY created_at`: timestamps never decrease. */
  predicate SortedByTime(xs: seq<Transaction>) {
    forall i, j :: 0 <= i < j < |xs| ==> NotAfter(xs[i], xs[j])
  }

  lemma NotAfterIsTransitive(a: Transaction, b: Transaction, c: Transaction)
    ensures NotAfter(a, b) && NotAfter(b, c) ==> NotAfter(a, c)
    ensures NotAfter(a, b) || NotAfter(b, a)
  {
    BeforeIsStrictTotalOrder(c.createdAt, b.createdAt, a.createdAt);
    BeforeIsStrictTotalOrder(a.createdAt, b.createdAt, c.createdAt);
  }

  lemma SortedByTimeCons(x: Transaction, rest: seq<Transaction>)
    requires SortedByTime(rest)
    requires forall y :: y in rest ==> NotAfter(x, y)
    ensures SortedByTime([x] + rest)
  {
    forall i, j | 0 <= i < j < |[x] + rest|
      ensures NotAfter(([x] + rest)[i], ([x] + rest)[j])
    {
      assert ([x] + rest)[j] == rest[j - 1];
      if i > 0 {
        assert ([x] + rest)[i] == rest[i - 1];
      } else {
        assert rest[j - 1] in rest;
      }
    }
  }

  /** Insert a row before the first row that is not earlier than it. */
  function InsertByTime(xs: seq<Transaction>, x: Transaction): (r: seq<Transaction>)
    ensures multiset(r) == multiset(xs) + multiset{x}
  {
    if xs == [] || NotAfter(x, xs[0]) then [x] + xs
    else
      assert xs == [xs[0]] + xs[1..];
      [xs[0]] + InsertByTime(xs[1..], x)
  }

  /** Inserting into rows ordered by timestamp keeps them ordered. */
  lemma {:induction false} InsertByTimeSorted(xs: seq<Transaction>, x: Transaction)
    requires SortedByTime(xs)
    ensures SortedByTime(InsertByTime(xs, x))
  {
    if xs == [] || NotAfter(x, xs[0]) {
      forall y | y in xs
        ensures NotAfter(x, y)
      {
        var k :| 0 <= k < |xs| && xs[k] == y;
        NotAfterIsTransitive(x, xs[0], y);
      }
      SortedByTimeCons(x, xs);
    } else {
      assert SortedByTime(xs[1..]);
      InsertByTimeSorted(xs[1..], x);
      var rest := InsertByTime(xs[1..], x);
      forall y | y in rest
        ensures NotAfter(xs[0], y)
      {
        assert y in multiset(rest);
        if y == x {
          NotAfterIsTransitive(x, xs[0], x);
        } else {
          var k :| 0 <= k < |xs[1..]| && xs[1..][k] == y;
          assert xs[k + 1] == y;
        }
      }
      SortedByTimeCons(xs[0], rest);
    }
  }

  /** `ORDER BY created_at` as an insertion sort; rows with equal timestamps
      may come in any order. */
  function SortByTime(xs: seq<Transaction>): (r: seq<Transaction>)
    ensures multiset(r) == multiset(xs)
  {
    if xs == [] then []
    else
      assert xs == [xs[0]] + xs[1..];
      InsertByTime(SortByTime(xs[1..]), xs[0])
  }

  /** Sorting orders the rows by timestamp. */
  lemma {:induction false} SortByTimeSorted(xs: seq<Transaction>)
    ensures SortedByTime(SortByTime(xs))
  {
    if xs != [] {
      SortByTimeSorted(xs[1..]);
      InsertByTimeSorted(SortByTime(xs[1..]), xs[0]);
    }
  }

  /** The transactions of an account inside the filter's range, earliest
      first: exactly the account's rows whose timestamp lies in the range,
      each as often as in the ledger. */
  function FilterTransactions(txs: seq<Transaction>, accountId: int, year: int, month: Option<int>)
    : (r: Result<seq<Transaction>>)
    ensures r.Err? <==> FilterRange(year, month).Err?
    ensures r.Err? ==> r.error == FilterRange(year, month).error
    ensures r.Ok? ==> SortedByTime(r.value)
    ensures r.Ok? ==> multiset(r.value) == multiset(Select(txs, PeriodWhere(accountId, FilterRange(year, month).value, AnySign)))
    ensures r.Ok? ==> forall t :: t in r.value <==>
      t in txs && t.accountId == accountId && InPeriod(t.createdAt, FilterRange(year, month).value)
  {
    match FilterRange(year, month)
    case Err(e) => Err(e)
    case Ok(p) =>
      var rows := SortByTime(Select(txs, PeriodWhere(accountId, p, AnySign)));
      SortByTimeSorted(Select(txs, PeriodWhere(accountId, p, AnySign)));
      SelectMembers(txs, PeriodWhere(accountId, p, AnySign));
      assert forall t :: t in rows <==> t in Select(txs, PeriodWhere(accountId, p, AnySign)) by {
        forall t ensures t in rows <==> t in Select(txs, PeriodWhere(accountId, p, AnySign)) {
          assert t in rows <==> t in multiset(rows);
        }
      }
      Ok(rows)
  }

  // ---------------------------------------------------------------------------
  // Ledger row operations
  // ---------------------------------------------------------------------------

  /** The body of an update: the new amount, note and category. */
  datatype TransactionUpdate = TransactionUpdate(amount: int, note: string, categoryId: Option<int>)

  /** An update payload that leaves the category at its default. */
  function TransactionUpdateWithDefaults(amount: int, note: string): (u: TransactionUpdate)
    ensures u.amount == amount && u.note == note && u.categoryId.None?
  {
    TransactionUpdate(amount, note, None)
  }

  /** A row with the updated fields overwritten; id, account and timestamp kept. */
  function ApplyUpdate(t: Transaction, u: TransactionUpdate): (r: Transaction)
    ensures r.id == t.id && r.accountId == t.accountId && r.createdAt == t.createdAt
    ensures r.amount == u.amount && r.note == u.note && r.categoryId == u.categoryId
  {
    t.(amount := u.amount, note := u.note, categoryId := u.categoryId)
  }

  /** Some row has this id. */
  predicate HasId(rows: seq<Transaction>, id: int) {
    exists i :: 0 <= i < |rows| && rows[i].id == Some(id)
  }

  /** The row with this id, as `session.get` finds it. */
  function Find(rows: seq<Transaction>, id: int): (r: Option<Transaction>)
    ensures r.Some? <==> HasId(rows, id)
    ensures r.Some? ==> r.value in rows && r.value.id == Some(id)
  {
    if rows == [] then None
    else if rows[0].id == Some(id) then Some(rows[0])
    else
      var r := Find(rows[1..], id);
      assert HasId(rows, id) && rows[0].id != Some(id) ==> HasId(rows[1..], id) by {
        if HasId(rows, id) && rows[0].id != Some(id) {
          var i :| 0 <= i < |rows| && rows[i].id == Some(id);
          assert rows[1..][i - 1] == rows[i];
        }
      }
      assert HasId(rows[1..], id) ==> HasId(rows, id) by {
        if HasId(rows[1..], id) {
          var i :| 0 <= i < |rows[1..]| && rows[1..][i].id == Some(id);
          assert rows[i + 1] == rows[1..][i];
        }
      }
      r
  }

  /** The rows without the one with this id. */
  function RemoveId(rows: seq<Transaction>, id: int): (r: seq<Transaction>)
    ensures |r| <= |rows|
  {
    if rows == [] then []
    else (if rows[0].id == Some(id) then [] else [rows[0]]) + RemoveId(rows[1..], id)
  }

  /** After a delete, the rows left are exactly those without the id. */
  lemma {:induction false} RemoveIdMembers(rows: seq<Transaction>, id: int)
    ensures forall t :: t in RemoveId(rows, id) <==> t in rows && t.id != Some(id)
  {
    if rows != [] {
      RemoveIdMembers(rows[1..], id);
      assert rows == [rows[0]] + rows[1..];
    }
  }

  /** The rows with the update applied to the one with this id. */
  function UpdateId(rows: seq<Transaction>, id: int, u: TransactionUpdate): (r: seq<Transaction>)
    ensures |r| == |rows|
  {
    if rows == [] then []
    else [if rows[0].id == Some(id) then ApplyUpdate(rows[0], u) else rows[0]] + UpdateId(rows[1..], id, u)
  }

  /** After an update, the row with the id holds the update, in place, and
      every other row is unchanged. */
  lemma {:induction false} UpdateIdPointwise(rows: seq<Transaction>, id: int, u: TransactionUpdate)
    ensures forall i :: 0 <= i < |rows| && rows[i].id == Some(id) ==> UpdateId(rows, id, u)[i] == ApplyUpdate(rows[i], u)
    ensures forall i :: 0 <= i < |rows| && rows[i].id != Some(id) ==> UpdateId(rows, id, u)[i] == rows[i]
  {
    if rows != [] {
      UpdateIdPointwise(rows[1..], id, u);
      var r := UpdateId(rows, id, u);
      forall i | 1 <= i < |rows|
        ensures r[i] == UpdateId(rows[1..], id, u)[i - 1] && rows[i] == rows[1..][i - 1]
      {
      }
    }
  }

  /** Ids of the ledger: present, at least 1, strictly ascending (so
      distinct), all below `next`. */
  predicate IdsAscendingBelow(rows: seq<Transaction>, next: int) {
    && (forall i :: 0 <= i < |rows| ==> rows[i].id.Some? && 1 <= rows[i].id.value < next)
    && (forall i, j :: 0 <= i < j < |rows| ==> rows[i].id.value < rows[j].id.value)
  }

  /** An update keeps every id where it was. */
  lemma UpdateIdKeepsIds(rows: seq<Transaction>, id: int, u: TransactionUpdate, next: int)
    requires IdsAscendingBelow(rows, next)
    ensures IdsAscendingBelow(UpdateId(rows, id, u), next)
  {
    var r := UpdateId(rows, id, u);
    UpdateIdPointwise(rows, id, u);
    assert forall i :: 0 <= i < |r| ==> r[i].id == rows[i].id;
  }

  /** Every timestamp is a real calendar instant, as a Python `datetime` is. */
  predicate ValidStamps(rows: seq<Transaction>) {
    forall t :: t in rows ==> ValidDateTime(t.createdAt)
  }

  /** An update keeps every timestamp. */
  lemma UpdateIdKeepsStamps(rows: seq<Transaction>, id: int, u: TransactionUpdate)
    requires ValidStamps(rows)
    ensures ValidStamps(UpdateId(rows, id, u))
  {
    var r := UpdateId(rows, id, u);
    UpdateIdPointwise(rows, id, u);
    forall t | t in r ensures ValidDateTime(t.createdAt) {
      var i :| 0 <= i < |r| && r[i] == t;
      assert rows[i] in rows;
    }
  }

  /** No two rows share an id (the primary key). */
  predicate DistinctIds(rows: seq<Transaction>) {
    forall i, j :: 0 <= i < j < |rows| ==> rows[i].id != rows[j].id
  }

  /** Deleting is idempotent: deleting an id a second time changes nothing. */
  lemma {:induction false} RemoveIdIdempotent(rows: seq<Transaction>, id: int)
    ensures RemoveId(RemoveId(rows, id), id) == RemoveId(rows, id)
  {
    if rows != [] {
      RemoveIdIdempotent(rows[1..], id);
      var rest := RemoveId(rows[1..], id);
      if rows[0].id != Some(id) {
        assert ([rows[0]] + rest)[1..] == rest;
      } else {
        assert [] + rest == rest;
      }
    }
  }

  /** Deleting an id that no row has changes nothing. */
  lemma {:induction false} RemoveMissingId(rows: seq<Transaction>, id: int)
    requires !HasId(rows, id)
    ensures RemoveId(rows, id) == rows
  {
    if rows != [] {
      assert rows[0].id != Some(id);
      forall i | 0 <= i < |rows[1..]|
        ensures rows[1..][i].id != Some(id)
      {
        assert rows[1..][i] == rows[i + 1];
      }
      RemoveMissingId(rows[1..], id);
      assert rows == [rows[0]] + rows[1..];
    }
  }

  /** Updating an id that no row has changes nothing. */
  lemma UpdateMissingId(rows: seq<Transaction>, id: int, u: TransactionUpdate)
    requires !HasId(rows, id)
    ensures UpdateId(rows, id, u) == rows
  {
  }

  /** The total of a query over `a`, one row `x`, and `b`. */
  lemma TotalSelectAround(a: seq<Transaction>, x: Transaction, b: seq<Transaction>, w: Where)
    ensures Total(Select(a + [x] + b, w))
         == Total(Select(a, w)) + (if Matches(w, x) then x.amount else 0) + Total(Select(b, w))
  {
    SelectConcat(a + [x], b, w);
    SelectConcat(a, [x], w);
    TotalConcat(Select(a, w) + Select([x], w), Select(b, w));
    TotalConcat(Select(a, w), Select([x], w));
  }

  /** With distinct ids, a delete cuts out the one row with that id. */
  lemma {:induction false} RemoveIdAt(rows: seq<Transaction>, k: nat)
    requires k < |rows| && rows[k].id.Some? && DistinctIds(rows)
    ensures RemoveId(rows, rows[k].id.value) == rows[..k] + rows[k + 1..]
  {
    var id := rows[k].id.value;
    if k == 0 {
      forall i | 0 <= i < |rows[1..]|
        ensures rows[1..][i].id != Some(id)
      {
        assert rows[1..][i] == rows[i + 1];
      }
      RemoveMissingId(rows[1..], id);
      assert rows[..0] + rows[1..] == rows[1..];
    } else {
      assert rows[0].id != Some(id);
      assert rows[1..][k - 1] == rows[k];
      assert DistinctIds(rows[1..]);
      RemoveIdAt(rows[1..], k - 1);
      assert rows[..k] == [rows[0]] + rows[1..][..k - 1];
      assert rows[k + 1..] == rows[1..][k..];
    }
  }

  /** Deleting a row takes exactly its amount away from every figure that
      counts it, and leaves every other figure as it was. */
  lemma RemoveIdTotal(rows: seq<Transaction>, t: Transaction, w: Where)
    requires t in rows && t.id.Some? && DistinctIds(rows)
    ensures Total(Select(RemoveId(rows, t.id.value), w))
         == Total(Select(rows, w)) - (if Matches(w, t) then t.amount else 0)
  {
    var k :| 0 <= k < |rows| && rows[k] == t;
    RemoveIdAt(rows, k);
    assert rows == rows[..k] + [rows[k]] + rows[k + 1..];
    TotalSelectAround(rows[..k], rows[k], rows[k + 1..], w);
    SelectConcat(rows[..k], rows[k + 1..], w);
    TotalConcat(Select(rows[..k], w), Select(rows[k + 1..], w));
  }

  /** Deleting a row with an id removes that one row and nothing else. */
  lemma RemoveIdRemovesOne(rows: seq<Transaction>, t: Transaction)
    requires t in rows && t.id.Some? && DistinctIds(rows)
    ensures multiset(RemoveId(rows, t.id.value)) + multiset{t} == multiset(rows)
  {
    var k :| 0 <= k < |rows| && rows[k] == t;
    RemoveIdAt(rows, k);
    assert rows == rows[..k] + [rows[k]] + rows[k + 1..];
  }

  /** Updating a row changes every figure that counts it by exactly the
      difference between the new and the old amount, as far as each version
      of the row satisfies the figure's query. */
  lemma UpdateIdTotal(rows: seq<Transaction>, t: Transaction, u: TransactionUpdate, w: Where)
    requires t in rows && t.id.Some? && DistinctIds(rows)
    ensures Total(Select(UpdateId(rows, t.id.value, u), w))
         == Total(Select(rows, w))
            - (if Matches(w, t) then t.amount else 0)
            + (if Matches(w, ApplyUpdate(t, u)) then u.amount else 0)
  {
    var k :| 0 <= k < |rows| && rows[k] == t;
    UpdateIdTotalAt(rows, k, u, w);
  }

  /** With distinct ids, an update replaces the one row with that id, in
      place. */
  lemma UpdateIdAt(rows: seq<Transaction>, k: nat, u: TransactionUpdate)
    requires k < |rows| && rows[k].id.Some? && DistinctIds(rows)
    ensures UpdateId(rows, rows[k].id.value, u) == rows[..k] + [ApplyUpdate(rows[k], u)] + rows[k + 1..]
  {
    var id := rows[k].id.value;
    var r := UpdateId(rows, id, u);
    var s := rows[..k] + [ApplyUpdate(rows[k], u)] + rows[k + 1..];
    UpdateIdPointwise(rows, id, u);
    forall i | 0 <= i < |r|
      ensures r[i] == s[i]
    {
      if i < k {
        assert s[i] == rows[i];
      } else if i > k {
        assert s[i] == rows[i];
      }
    }
  }

  lemma UpdateIdTotalAt(rows: seq<Transaction>, k: nat, u: TransactionUpdate, w: Where)
    requires k < |rows| && rows[k].id.Some? && DistinctIds(rows)
    ensures Total(Select(UpdateId(rows, rows[k].id.value, u), w))
         == Total(Select(rows, w))
            - (if Matches(w, rows[k]) then rows[k].amount else 0)
            + (if Matches(w, ApplyUpdate(rows[k], u)) then u.amount else 0)
  {
    UpdateIdAt(rows, k, u);
    assert rows == rows[..k] + [rows[k]] + rows[k + 1..];
    TotalSelectAround(rows[..k], rows[k], rows[k + 1..], w);
    TotalSelectAround(rows[..k], ApplyUpdate(rows[k], u), rows[k + 1..], w);
  }

  /** Creating a row adds exactly its amount to every figure whose query it
      satisfies, and leaves every other figure as it was. */
  lemma AppendTotal(rows: seq<Transaction>, t: Transaction, w: Where)
    ensures Total(Select(rows + [t], w)) == Total(Select(rows, w)) + (if Matches(w, t) then t.amount else 0)
  {
    SelectConcat(rows, [t], w);
    TotalConcat(Select(rows, w), Select([t], w));
  }

  lemma IdsAscendingCons(x: Transaction, rest: seq<Transaction>, next: int)
    requires IdsAscendingBelow(rest, next)
    requires x.id.Some? && 1 <= x.id.value < next
    requires forall y :: y in rest ==> x.id.value < y.id.value
    ensures IdsAscendingBelow([x] + rest, next)
  {
    var r := [x] + rest;
    forall i, j | 0 <= i < j < |r|
      ensures r[i].id.value < r[j].id.value
    {
      assert r[j] == rest[j - 1];
      if i > 0 {
        assert r[i] == rest[i - 1];
      } else {
        assert rest[j - 1] in rest;
      }
    }
    forall i | 0 <= i < |r|
      ensures r[i].id.Some? && 1 <= r[i].id.value < next
    {
      if i > 0 {
        assert r[i] == rest[i - 1];
      }
    }
  }

  /** In ascending ids, the first id is below every later one. */
  lemma HeadIdBelowRest(rows: seq<Transaction>, next: int)
    requires rows != [] && IdsAscendingBelow(rows, next)
    ensures forall y :: y in rows[1..] ==> rows[0].id.value < y.id.value
  {
    forall y | y in rows[1..]
      ensures rows[0].id.value < y.id.value
    {
      var k :| 0 <= k < |rows[1..]| && rows[1..][k] == y;
      assert rows[k + 1] == y;
    }
  }

  /** Deleting keeps the remaining ids in ascending order. */
  lemma {:induction false} RemoveIdKeepsIds(rows: seq<Transaction>, id: int, next: int)
    requires IdsAscendingBelow(rows, next)
    ensures IdsAscendingBelow(RemoveId(rows, id), next)
  {
    if rows != [] {
      assert IdsAscendingBelow(rows[1..], next);
      RemoveIdKeepsIds(rows[1..], id, next);
      if rows[0].id != Some(id) {
        var rest := RemoveId(rows[1..], id);
        RemoveIdMembers(rows[1..], id);
        HeadIdBelowRest(rows, next);
        assert forall y :: y in rest ==> rows[0].id.value < y.id.value;
        IdsAscendingCons(rows[0], rest, next);
      } else {
        assert RemoveId(rows, id) == RemoveId(rows[1..], id);
      }
    }
  }

  // ---------------------------------------------------------------------------
  // The ledger
  // ---------------------------------------------------------------------------

  /** What a delete answers, whether or not the id existed. */
  const DELETED_STATUS: string := "gelöscht"

  /** The transaction table: its rows in id order, and the id the next
      created row receives. */
  class Ledger {
    var rows: seq<Transaction>
    var nextId: int

    ghost predicate Valid()
      reads this
    {
      nextId >= 1 && IdsAscendingBelow(rows, nextId) && ValidStamps(rows)
    }

    /** The ids of a valid ledger are distinct. */
    lemma ValidIdsDistinct()
      requires Valid()
      ensures DistinctIds(rows)
    {
      forall i, j | 0 <= i < j < |rows|
        ensures rows[i].id != rows[j].id
      {
        assert rows[i].id.value < rows[j].id.value;
      }
    }

    /** Every stored row lies in the monthly report period of exactly one
        month, the month of its timestamp. */
    lemma RowInOwnMonth(t: Transaction, year: int, month: int)
      requires Valid() && t in rows && 1 <= month <= 12
      ensures InPeriod(t.createdAt, MonthBounds(year, month))
          <==> year == t.createdAt.date.year && month == t.createdAt.date.month
    {
      InstantInOwnMonth(t.createdAt, year, month);
    }

    constructor()
      ensures Valid() && rows == [] && nextId == 1
    {
      rows := [];
      nextId := 1;
    }

    /** Store a new row built from the payload under a fresh id. */
    method Create(p: TransactionCreate) returns (tx: Transaction)
      requires Valid() && ValidDateTime(p.createdAt)
      modifies this
      ensures Valid()
      ensures tx == TransactionFromPayload(p).(id := Some(old(nextId)))
      ensures !HasId(old(rows), tx.id.value)
      ensures rows == old(rows) + [tx]
      ensures nextId == old(nextId) + 1
    {
      tx := TransactionFromPayload(p).(id := Some(nextId));
      rows := rows + [tx];
      nextId := nextId + 1;
    }

    /** Every transaction, in id order. */
    method List() returns (all: seq<Transaction>)
      requires Valid()
      ensures all == rows && DistinctIds(all)
    {
      ValidIdsDistinct();
      all := rows;
    }

    /** Overwrite amount, note and category of the row with this id; an
        unknown id is answered with NotFound and changes nothing. */
    method Update(id: int, u: TransactionUpdate) returns (r: Result<Transaction>)
      requires Valid()
      modifies this
      ensures Valid()
      ensures r.Ok? <==> HasId(old(rows), id)
      ensures r.Err? ==> r.error == NotFound && rows == old(rows)
      ensures r.Ok? ==> r.value == ApplyUpdate(Find(old(rows), id).value, u) && r.value in rows
      ensures rows == UpdateId(old(rows), id, u)
      ensures nextId == old(nextId)
    {
      match Find(rows, id)
      case None =>
        UpdateMissingId(rows, id, u);
        r := Err(NotFound);
      case Some(t) =>
        var i :| 0 <= i < |rows| && rows[i] == t;
        UpdateIdPointwise(rows, id, u);
        UpdateIdKeepsIds(rows, id, u, nextId);
        UpdateIdKeepsStamps(rows, id, u);
        rows := UpdateId(rows, id, u);
        r := Ok(ApplyUpdate(t, u));
        assert rows[i] == r.value;
    }

    /** Remove the row with this id, if there is one. */
    method Delete(id: int) returns (status: string)
      requires Valid()
      modifies this
      ensures Valid()
      ensures status == DELETED_STATUS
      ensures rows == RemoveId(old(rows), id)
      ensures !HasId(old(rows), id) ==> rows == old(rows)
      ensures nextId == old(nextId)
    {
      if Find(rows, id).None? {
        RemoveMissingId(rows, id);
      }
      RemoveIdKeepsIds(rows, id, nextId);
      RemoveIdMembers(rows, id);
      rows := RemoveId(rows, id);
      status := DELETED_STATUS;
    }
  }
}
