/** `GROUP BY key` followed by `sum(amount)` per group, over a list of rows.
    The time series groups an account's rows by calendar day, the category
    reports group them by category label; both rely on the law proved here:
    the group sums over the distinct keys add up to the sum of all rows. */
module Grouping {
  import opened Models
  import opened Query

  predicate Distinct<K(==)>(ks: seq<K>) {
    forall i, j :: 0 <= i < j < |ks| ==> ks[i] != ks[j]
  }

  /** The sum of the amounts of the rows whose key is `k`: one group. */
  function KeyTotal<K(==)>(xs: seq<Transaction>, key: Transaction -> K, k: K): int {
    if xs == [] then 0
    else (if key(xs[0]) == k then xs[0].amount else 0) + KeyTotal(xs[1..], key, k)
  }

  /** The group sums of the keys `ks`, added up. */
  function KeysTotal<K(==)>(ks: seq<K>, xs: seq<Transaction>, key: Transaction -> K): int {
    if ks == [] then 0
    else KeysTotal(ks[..|ks| - 1], xs, key) + KeyTotal(xs, key, ks[|ks| - 1])
  }

  /** Some row of `xs` has key `k`. */
  predicate HasKey<K(==)>(xs: seq<Transaction>, key: Transaction -> K, k: K) {
    xs != [] && (key(xs[0]) == k || HasKey(xs[1..], key, k))
  }

  lemma {:induction false} HasKeyIndex<K>(xs: seq<Transaction>, key: Transaction -> K, k: K) returns (i: nat)
    requires HasKey(xs, key, k)
    ensures i < |xs| && key(xs[i]) == k
  {
    if key(xs[0]) == k {
      i := 0;
    } else {
      i := HasKeyIndex(xs[1..], key, k);
      i := i + 1;
    }
  }

  /** The keys that occur in `xs`, each once, in order of first occurrence. */
  function DistinctKeys<K(==)>(xs: seq<Transaction>, key: Transaction -> K): (ks: seq<K>)
    ensures Distinct(ks)
    ensures forall i :: 0 <= i < |xs| ==> key(xs[i]) in ks
    ensures forall j :: 0 <= j < |ks| ==> HasKey(xs, key, ks[j])
  {
    if xs == [] then []
    else
      var rest := DistinctKeys(xs[1..], key);
      assert forall i :: 1 <= i < |xs| ==> key(xs[i]) in rest by {
        forall i | 1 <= i < |xs| ensures key(xs[i]) in rest {
          assert xs[i] == xs[1..][i - 1];
        }
      }
      if key(xs[0]) in rest then rest else [key(xs[0])] + rest
  }

  lemma {:induction false} KeysTotalOfNoRows<K>(ks: seq<K>, key: Transaction -> K)
    ensures KeysTotal(ks, [], key) == 0
  {
    if ks != [] {
      KeysTotalOfNoRows(ks[..|ks| - 1], key);
    }
  }

  /** Taking away the first row takes its amount away from the key sums when
      its key is among `ks`, and changes nothing otherwise. */
  lemma {:induction false} KeysTotalCons<K>(ks: seq<K>, xs: seq<Transaction>, key: Transaction -> K)
    requires xs != [] && Distinct(ks)
    ensures KeysTotal(ks, xs, key)
         == KeysTotal(ks, xs[1..], key) + (if key(xs[0]) in ks then xs[0].amount else 0)
  {
    if ks != [] {
      var init := ks[..|ks| - 1];
      assert Distinct(init);
      KeysTotalCons(init, xs, key);
      assert key(xs[0]) in ks <==> key(xs[0]) in init || key(xs[0]) == ks[|ks| - 1] by {
        assert ks == init + [ks[|ks| - 1]];
      }
      assert key(xs[0]) in init ==> key(xs[0]) != ks[|ks| - 1];
    }
  }

  /** GROUP BY loses no row: when the distinct keys `ks` include the key of
      every row, the group sums add up to the sum of all rows. */
  lemma {:induction false} KeysTotalCovers<K>(ks: seq<K>, xs: seq<Transaction>, key: Transaction -> K)
    requires Distinct(ks)
    requires forall i :: 0 <= i < |xs| ==> key(xs[i]) in ks
    ensures KeysTotal(ks, xs, key) == Total(xs)
  {
    if xs == [] {
      KeysTotalOfNoRows(ks, key);
    } else {
      assert key(xs[0]) in ks;
      assert forall i :: 0 <= i < |xs[1..]| ==> key(xs[1..][i]) in ks by {
        forall i | 0 <= i < |xs[1..]| ensures key(xs[1..][i]) in ks {
          assert xs[1..][i] == xs[i + 1];
        }
      }
      KeysTotalCovers(ks, xs[1..], key);
      KeysTotalCons(ks, xs, key);
    }
  }

  /** A group of rows that are all expenses sums to less than 0, and a group of
      rows that are all income sums to more than 0, as soon as it has a row. */
  lemma {:induction false} KeyTotalStrictSign<K>(xs: seq<Transaction>, key: Transaction -> K, k: K, i: nat)
    requires i < |xs| && key(xs[i]) == k
    ensures (forall t :: t in xs ==> t.amount < 0) ==> KeyTotal(xs, key, k) < 0
    ensures (forall t :: t in xs ==> t.amount > 0) ==> KeyTotal(xs, key, k) > 0
  {
    if i == 0 {
      KeyTotalWeakSign(xs[1..], key, k);
    } else {
      KeyTotalStrictSign(xs[1..], key, k, i - 1);
    }
    assert forall t :: t in xs[1..] ==> t in xs;
  }

  lemma {:induction false} KeyTotalWeakSign<K>(xs: seq<Transaction>, key: Transaction -> K, k: K)
    ensures (forall t :: t in xs ==> t.amount < 0) ==> KeyTotal(xs, key, k) <= 0
    ensures (forall t :: t in xs ==> t.amount > 0) ==> KeyTotal(xs, key, k) >= 0
  {
    if xs != [] {
      KeyTotalWeakSign(xs[1..], key, k);
      assert forall t :: t in xs[1..] ==> t in xs;
    }
  }
}
