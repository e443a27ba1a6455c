/** Sums over the values of a map. */
module Sums {

  ghost function Sum<K(!new)>(m: map<K, int>): int {
    if m == map[] then 0
    else
      var k :| k in m;
      m[k] + Sum(m - {k})
  }

  /** Any key can be split off a sum. */
  lemma {:induction false} SumSplit<K(!new)>(m: map<K, int>, k: K)
    requires k in m
    ensures Sum(m) == m[k] + Sum(m - {k})
    decreases |m|
  {
    var l :| l in m && Sum(m) == m[l] + Sum(m - {l});
    if l != k {
      SumSplit(m - {l}, k);
      SumSplit(m - {k}, l);
      assert m - {l} - {k} == m - {k} - {l};
    }
  }

  lemma SumPut<K(!new)>(m: map<K, int>, k: K, v: int)
    ensures Sum(m[k := v]) == Sum(m) - (if k in m then m[k] else 0) + v
  {
    SumSplit(m[k := v], k);
    if k in m {
      SumSplit(m, k);
      assert m[k := v] - {k} == m - {k};
    } else {
      assert m[k := v] - {k} == m;
    }
  }

  lemma SumRemove<K(!new)>(m: map<K, int>, k: K)
    ensures Sum(m - {k}) == Sum(m) - if k in m then m[k] else 0
  {
    if k in m {
      SumSplit(m, k);
    } else {
      assert m - {k} == m;
    }
  }

  ghost predicate NonNegative<K(!new)>(m: map<K, int>) {
    forall k :: k in m ==> m[k] >= 0
  }

  lemma {:induction false} SumIsNonNegative<K(!new)>(m: map<K, int>)
    requires NonNegative(m)
    ensures Sum(m) >= 0
    decreases |m|
  {
    if m != map[] {
      var k :| k in m && Sum(m) == m[k] + Sum(m - {k});
      SumIsNonNegative(m - {k});
    }
  }

  /** A value is at most the sum it is part of. */
  lemma PartOfSum<K(!new)>(m: map<K, int>, k: K)
    requires NonNegative(m) && k in m
    ensures m[k] <= Sum(m)
  {
    SumSplit(m, k);
    SumIsNonNegative(m - {k});
  }

  /** A sum of smaller values is smaller. */
  lemma {:induction false} SumIsMonotone<K(!new)>(m: map<K, int>, n: map<K, int>)
    requires m.Keys == n.Keys && forall k :: k in m ==> m[k] <= n[k]
    ensures Sum(m) <= Sum(n)
    decreases |m|
  {
    if m != map[] {
      var k :| k in m;
      SumSplit(m, k);
      SumSplit(n, k);
      SumIsMonotone(m - {k}, n - {k});
    }
  }

  /** Keys with the value zero add nothing. */
  lemma {:induction false} SumIgnoresZeros<K(!new)>(m: map<K, int>, n: map<K, int>)
    requires m.Keys <= n.Keys && forall k :: k in n ==> n[k] == if k in m then m[k] else 0
    ensures Sum(m) == Sum(n)
    decreases n.Keys
  {
    if m.Keys == n.Keys {
      assert m == n;
    } else {
      var k :| k in n.Keys && k !in m.Keys;
      SumIgnoresZeros(m, n - {k});
      SumSplit(n, k);
    }
  }
}
