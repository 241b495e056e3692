/** What the endpoints ask of the transaction table: a conjunction of WHERE
    conditions on account, timestamp range and amount sign, and the
    `coalesce(sum(amount), 0)` of the rows that satisfy it. Every scalar figure
    of the reports is `Total(Select(ledger, w))` for some `w`. */
module Query {
  import opened Common
  import opened Models

  /** The amount condition of a query: none, `amount > 0` or `amount < 0`. */
  datatype Sign = AnySign | Positive | Negative

  /** `account_id == accountId`, optionally `created_at >= since`,
      optionally `created_at < before`, and the sign condition. */
  datatype Where = Where(accountId: int, since: Option<DateTime>, before: Option<DateTime>, sign: Sign)

  /** All rows of one account, no further condition. */
  function AccountWhere(accountId: int): Where {
    Where(accountId, None, None, AnySign)
  }

  predicate SignMatches(s: Sign, amount: int) {
    match s
    case AnySign => true
    case Positive => amount > 0
    case Negative => amount < 0
  }

  predicate Matches(w: Where, t: Transaction) {
    && t.accountId == w.accountId
    && (w.since.Some? ==> !Before(t.createdAt, w.since.value))
    && (w.before.Some? ==> Before(t.createdAt, w.before.value))
    && SignMatches(w.sign, t.amount)
  }

  /** The rows of `txs` that satisfy `w`, in table order. */
  function Select(txs: seq<Transaction>, w: Where): seq<Transaction> {
    if txs == [] then []
    else (if Matches(w, txs[0]) then [txs[0]] else []) + Select(txs[1..], w)
  }

  /** A row is selected exactly when it is in the table and satisfies the
      query; no row is invented or repeated. */
  lemma {:induction false} SelectMembers(txs: seq<Transaction>, w: Where)
    ensures forall t :: t in Select(txs, w) <==> t in txs && Matches(w, t)
    ensures multiset(Select(txs, w)) <= multiset(txs)
    ensures forall t :: multiset(Select(txs, w))[t] == if Matches(w, t) then multiset(txs)[t] else 0
  {
    if txs != [] {
      SelectMembers(txs[1..], w);
      assert txs == [txs[0]] + txs[1..];
    }
  }

  /** The magnitude the endpoints report for a signed expense sum. */
  function Abs(x: int): int {
    if x < 0 then -x else x
  }

  /** `coalesce(sum(amount), 0)`: the sum of the amounts, 0 for no rows. */
  function Total(txs: seq<Transaction>): int {
    if txs == [] then 0 else txs[0].amount + Total(txs[1..])
  }

  lemma {:induction false} TotalConcat(a: seq<Transaction>, b: seq<Transaction>)
    ensures Total(a + b) == Total(a) + Total(b)
  {
    if a == [] {
      assert a + b == b;
    } else {
      assert (a + b)[1..] == a[1..] + b;
      TotalConcat(a[1..], b);
    }
  }

  lemma {:induction false} SelectConcat(a: seq<Transaction>, b: seq<Transaction>, w: Where)
    ensures Select(a + b, w) == Select(a, w) + Select(b, w)
  {
    if a == [] {
      assert a + b == b;
    } else {
      assert (a + b)[0] == a[0];
      assert (a + b)[1..] == a[1..] + b;
      SelectConcat(a[1..], b, w);
    }
  }

  /** The total of a query, one row at a time. */
  lemma TotalSelectCons(txs: seq<Transaction>, w: Where)
    requires txs != []
    ensures Total(Select(txs, w))
         == (if Matches(w, txs[0]) then txs[0].amount else 0) + Total(Select(txs[1..], w))
  {
    TotalConcat(if Matches(w, txs[0]) then [txs[0]] else [], Select(txs[1..], w));
  }

  /** A query that no row satisfies selects nothing and sums to 0. */
  lemma {:induction false} TotalOfNoMatch(txs: seq<Transaction>, w: Where)
    requires forall t :: t in txs ==> !Matches(w, t)
    ensures Select(txs, w) == [] && Total(Select(txs, w)) == 0
  {
    if txs != [] {
      assert txs[0] in txs;
      TotalOfNoMatch(txs[1..], w);
    }
  }

  /** Rows selected under a positive condition sum to at least 0, and to more
      than 0 when there is one; under a negative condition they sum to at most
      0, and to less than 0 when there is one. */
  lemma {:induction false} SignedTotalBounds(txs: seq<Transaction>, w: Where)
    ensures w.sign == Positive ==> Total(Select(txs, w)) >= 0
    ensures w.sign == Negative ==> Total(Select(txs, w)) <= 0
    ensures w.sign == Positive && Select(txs, w) != [] ==> Total(Select(txs, w)) > 0
    ensures w.sign == Negative && Select(txs, w) != [] ==> Total(Select(txs, w)) < 0
  {
    if txs != [] {
      SignedTotalBounds(txs[1..], w);
      TotalSelectCons(txs, w);
    }
  }

  /** Splitting a query by sign loses nothing: the rows with a positive and the
      rows with a negative amount sum to the total, since a zero amount adds
      nothing to either side. */
  lemma {:induction false} SignSplit(txs: seq<Transaction>, w: Where)
    requires w.sign == AnySign
    ensures Total(Select(txs, w))
         == Total(Select(txs, w.(sign := Positive))) + Total(Select(txs, w.(sign := Negative)))
  {
    if txs != [] {
      SignSplit(txs[1..], w);
      TotalSelectCons(txs, w);
      TotalSelectCons(txs, w.(sign := Positive));
      TotalSelectCons(txs, w.(sign := Negative));
    }
  }

  /** Everything before `split` plus everything in `[split, end)` is
      everything before `end`, when `split` does not lie after `end`. */
  lemma {:induction false} RangeSplit(txs: seq<Transaction>, w: Where, split: DateTime)
    requires w.since.None? && w.before.Some?
    requires !Before(w.before.value, split)
    ensures Total(Select(txs, w.(before := Some(split)))) + Total(Select(txs, w.(since := Some(split))))
         == Total(Select(txs, w))
  {
    if txs != [] {
      RangeSplit(txs[1..], w, split);
      var t := txs[0];
      BeforeIsStrictTotalOrder(t.createdAt, split, w.before.value);
      TotalSelectCons(txs, w.(before := Some(split)));
      TotalSelectCons(txs, w.(since := Some(split)));
      TotalSelectCons(txs, w);
    }
  }
}
