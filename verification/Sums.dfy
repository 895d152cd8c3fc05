/** Sums of keyed amounts, and how they compare. */
module Sums {

  datatype Entry<K> = Entry(key: K, amount: int)

  function Total<K>(xs: seq<Entry<K>>): int {
    if |xs| == 0 then 0 else Total(xs[..|xs| - 1]) + xs[|xs| - 1].amount
  }

  ghost predicate DistinctKeys<K>(xs: seq<Entry<K>>) {
    forall i, j :: 0 <= i < j < |xs| ==> xs[i].key != xs[j].key
  }

  ghost predicate NonNegative<K>(xs: seq<Entry<K>>) {
    forall i :: 0 <= i < |xs| ==> xs[i].amount >= 0
  }

  /** Every positive entry of xs has an entry of ys with the same key and at least the same amount. */
  ghost predicate Dominated<K>(xs: seq<Entry<K>>, ys: seq<Entry<K>>) {
    forall i :: 0 <= i < |xs| && xs[i].amount > 0 ==> Covered(xs[i], ys)
  }

  ghost predicate Covered<K>(x: Entry<K>, ys: seq<Entry<K>>) {
    exists j :: 0 <= j < |ys| && ys[j].key == x.key && x.amount <= ys[j].amount
  }

  lemma {:induction false} TotalWithout<K>(xs: seq<Entry<K>>, j: nat)
    requires j < |xs|
    ensures Total(xs) == Total(xs[..j] + xs[j + 1..]) + xs[j].amount
  {
    var n := |xs| - 1;
    if j == n {
      assert xs[..j] + xs[j + 1..] == xs[..n];
    } else {
      TotalWithout(xs[..n], j);
      var rest := xs[..j] + xs[j + 1..];
      assert rest[..|rest| - 1] == xs[..n][..j] + xs[..n][j + 1..];
      assert rest[|rest| - 1] == xs[n];
    }
  }

  lemma {:induction false} TotalNonNegative<K>(xs: seq<Entry<K>>)
    requires NonNegative(xs)
    ensures Total(xs) >= 0
  {
    if |xs| > 0 {
      TotalNonNegative(xs[..|xs| - 1]);
    }
  }

  /** A dominated list of distinct keys has the smaller total, in whatever order the keys come. */
  lemma {:induction false} DominatedTotal<K>(xs: seq<Entry<K>>, ys: seq<Entry<K>>)
    requires DistinctKeys(xs) && DistinctKeys(ys) && NonNegative(ys) && Dominated(xs, ys)
    ensures Total(xs) <= Total(ys)
  {
    if |xs| == 0 {
      TotalNonNegative(ys);
    } else if xs[|xs| - 1].amount <= 0 {
      DominatedTotal(xs[..|xs| - 1], ys);
    } else {
      var n := |xs| - 1;
      assert Covered(xs[n], ys);
      var j :| 0 <= j < |ys| && ys[j].key == xs[n].key && xs[n].amount <= ys[j].amount;
      var rest := ys[..j] + ys[j + 1..];
      forall i | 0 <= i < n && xs[i].amount > 0 ensures Covered(xs[..n][i], rest) {
        assert Covered(xs[i], ys);
        var k :| 0 <= k < |ys| && ys[k].key == xs[i].key && xs[i].amount <= ys[k].amount;
        assert rest[if k < j then k else k - 1] == ys[k];
      }
      DominatedTotal(xs[..n], rest);
      TotalWithout(ys, j);
    }
  }

  /** Two lists of distinct keys with the same positive entries have the same total. */
  lemma {:induction false} SameEntriesSameTotal<K>(xs: seq<Entry<K>>, ys: seq<Entry<K>>)
    requires DistinctKeys(xs) && DistinctKeys(ys) && NonNegative(xs) && NonNegative(ys)
    requires Dominated(xs, ys) && Dominated(ys, xs)
    ensures Total(xs) == Total(ys)
  {
    DominatedTotal(xs, ys);
    DominatedTotal(ys, xs);
  }

  lemma {:induction false} TotalSplit<K>(xs: seq<Entry<K>>, ys: seq<Entry<K>>)
    ensures Total(xs + ys) == Total(xs) + Total(ys)
  {
    if |ys| == 0 {
      assert xs + ys == xs;
    } else {
      TotalSplit(xs, ys[..|ys| - 1]);
      assert (xs + ys)[..|xs + ys| - 1] == xs + ys[..|ys| - 1];
    }
  }
}
