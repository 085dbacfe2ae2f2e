/**
 * Keyed sums. Both the ledger side (total_price per seller) and the settlement side
 * (total_sales per seller) are reduced to sequences of keyed amounts, so that the
 * GROUP BY / SUM arithmetic of the pipeline is proved once, here.
 */
module Sums {

  /** One keyed amount, e.g. (seller_id, total_price) of an order item row. */
  datatype Entry = Entry(key: int, amount: int)

  /** SUM(amount); an empty sum is 0, as COALESCE(SUM(..), 0) makes it. */
  function Total(es: seq<Entry>): int
  {
    if es == [] then 0 else es[0].amount + Total(es[1..])
  }

  /** SUM(amount) over the entries whose key is k (one group of a GROUP BY key). */
  function KeyTotal(es: seq<Entry>, k: int): int
  {
    if es == [] then 0
    else (if es[0].key == k then es[0].amount else 0) + KeyTotal(es[1..], k)
  }

  /** The sum, over a list of keys, of each key's group total. */
  function TotalOver(keys: seq<int>, es: seq<Entry>): int
  {
    if keys == [] then 0 else KeyTotal(es, keys[0]) + TotalOver(keys[1..], es)
  }

  /** The keys of a list of entries, in order. */
  function Keys(es: seq<Entry>): (ks: seq<int>)
    ensures |ks| == |es| && forall i :: 0 <= i < |es| ==> ks[i] == es[i].key
  {
    if es == [] then [] else [es[0].key] + Keys(es[1..])
  }

  predicate Distinct(ks: seq<int>)
  {
    forall i, j :: 0 <= i < j < |ks| ==> ks[i] != ks[j]
  }

  lemma {:induction false} TotalAppend(a: seq<Entry>, b: seq<Entry>)
    ensures Total(a + b) == Total(a) + Total(b)
  {
    if a == [] {
      assert a + b == b;
    } else {
      assert (a + b)[1..] == a[1..] + b;
      TotalAppend(a[1..], b);
    }
  }

  lemma {:induction false} KeyTotalAppend(a: seq<Entry>, b: seq<Entry>, k: int)
    ensures KeyTotal(a + b, k) == KeyTotal(a, k) + KeyTotal(b, k)
  {
    if a == [] {
      assert a + b == b;
    } else {
      assert (a + b)[1..] == a[1..] + b;
      KeyTotalAppend(a[1..], b, k);
    }
  }

  /** A key that no entry carries has an empty group. */
  lemma {:induction false} KeyTotalAbsent(es: seq<Entry>, k: int)
    requires forall i :: 0 <= i < |es| ==> es[i].key != k
    ensures KeyTotal(es, k) == 0
  {
    if es != [] {
      KeyTotalAbsent(es[1..], k);
    }
  }

  /** A key carried by exactly one entry has that entry's amount as its group total. */
  lemma {:induction false} KeyTotalUnique(es: seq<Entry>, k: int, i: int)
    requires 0 <= i < |es| && es[i].key == k
    requires forall j :: 0 <= j < |es| && j != i ==> es[j].key != k
    ensures KeyTotal(es, k) == es[i].amount
  {
    if i == 0 {
      KeyTotalAbsent(es[1..], k);
    } else {
      KeyTotalUnique(es[1..], k, i - 1);
    }
  }

  lemma {:induction false} TotalOverEmpty(keys: seq<int>)
    ensures TotalOver(keys, []) == 0
  {
    if keys != [] {
      TotalOverEmpty(keys[1..]);
    }
  }

  /** Adding one entry to the front adds its amount to exactly the group of its key, if listed. */
  lemma {:induction false} TotalOverCons(keys: seq<int>, e: Entry, es: seq<Entry>)
    requires Distinct(keys)
    ensures TotalOver(keys, [e] + es) == TotalOver(keys, es) + (if e.key in keys then e.amount else 0)
  {
    if keys != [] {
      assert ([e] + es)[1..] == es;
      TotalOverCons(keys[1..], e, es);
      assert e.key in keys <==> e.key == keys[0] || e.key in keys[1..];
      assert e.key == keys[0] ==> e.key !in keys[1..];
    }
  }

  /**
   * GROUP BY conservation: when every entry's key is listed once, the group totals add up
   * to the grand total.
   */
  lemma {:induction false} Partition(keys: seq<int>, es: seq<Entry>)
    requires Distinct(keys)
    requires forall i :: 0 <= i < |es| ==> es[i].key in keys
    ensures TotalOver(keys, es) == Total(es)
  {
    if es == [] {
      TotalOverEmpty(keys);
    } else {
      assert es == [es[0]] + es[1..];
      TotalOverCons(keys, es[0], es[1..]);
      Partition(keys, es[1..]);
    }
  }

  /** Group totals that match a list of keyed amounts sum to that list's total. */
  lemma {:induction false} TotalOverMatches(expected: seq<Entry>, es: seq<Entry>)
    requires forall i :: 0 <= i < |expected| ==> KeyTotal(es, expected[i].key) == expected[i].amount
    ensures TotalOver(Keys(expected), es) == Total(expected)
  {
    if expected != [] {
      assert Keys(expected)[1..] == Keys(expected[1..]);
      TotalOverMatches(expected[1..], es);
    }
  }

  /** Strictly ascending, hence without repeats. */
  predicate Increasing(ks: seq<int>)
  {
    forall i, j :: 0 <= i < j < |ks| ==> ks[i] < ks[j]
  }

  /** Puts a key into an ascending list, unless it is already there. */
  function Insert(k: int, ks: seq<int>): (r: seq<int>)
    requires Increasing(ks)
    ensures Increasing(r)
    ensures forall x :: x in r <==> x == k || x in ks
  {
    if ks == [] then [k]
    else if k < ks[0] then
      assert forall j :: 0 <= j < |ks| ==> k < ks[j];
      [k] + ks
    else if k == ks[0] then ks
    else
      assert Increasing(ks[1..]) by {
        forall i, j | 0 <= i < j < |ks| - 1 ensures ks[1..][i] < ks[1..][j] {
          assert ks[1..][i] == ks[i + 1] && ks[1..][j] == ks[j + 1];
        }
      }
      var rest := Insert(k, ks[1..]);
      assert forall x :: x in rest ==> ks[0] < x;
      assert forall j :: 0 <= j < |rest| ==> rest[j] in rest;
      [ks[0]] + rest
  }

  /** The GROUP BY keys of a list of entries, ascending: each key carried by some entry, once. */
  function SortedKeys(es: seq<Entry>): (ks: seq<int>)
    ensures Increasing(ks) && Distinct(ks)
    ensures forall k :: k in ks <==> exists i :: 0 <= i < |es| && es[i].key == k
  {
    if es == [] then []
    else
      var rest := SortedKeys(es[1..]);
      assert forall i :: 1 <= i < |es| ==> es[i] == es[1..][i - 1];
      Insert(es[0].key, rest)
  }

  /** Equal group totals over a list of keys give equal sums over that list. */
  lemma {:induction false} TotalOverSame(keys: seq<int>, a: seq<Entry>, b: seq<Entry>)
    requires forall k :: k in keys ==> KeyTotal(a, k) == KeyTotal(b, k)
    ensures TotalOver(keys, a) == TotalOver(keys, b)
  {
    if keys != [] {
      TotalOverSame(keys[1..], a, b);
    }
  }

  /** The grand total of the entries equals the sum of the totals of their sorted groups. */
  lemma SortedKeysPartition(es: seq<Entry>)
    ensures TotalOver(SortedKeys(es), es) == Total(es)
  {
    Partition(SortedKeys(es), es);
  }
}
