/** Sums over the entries of a finite map, the form in which aggregate counters are
    compared with the accounts they summarise. */
module Sums {
  import opened Common

  ghost function Sum<K, V>(m: map<K, V>, f: V -> nat): nat
    decreases |m|
  {
    if m == map[] then 0
    else
      var k :| k in m;
      f(m[k]) + Sum(m - {k}, f)
  }

  lemma {:induction false} SumRemove<K, V>(m: map<K, V>, k: K, f: V -> nat)
    requires k in m
    ensures Sum(m, f) == f(m[k]) + Sum(m - {k}, f)
    decreases |m|
  {
    var j :| j in m && Sum(m, f) == f(m[j]) + Sum(m - {j}, f);
    if j != k {
      SumRemove(m - {j}, k, f);
      SumRemove(m - {k}, j, f);
      assert m - {j} - {k} == m - {k} - {j};
    }
  }

  /** Replacing or adding one entry moves the sum by exactly that entry. */
  lemma SumUpdate<K, V>(m: map<K, V>, k: K, v: V, f: V -> nat)
    ensures Sum(m[k := v], f) + (if k in m then f(m[k]) else 0) == Sum(m, f) + f(v)
  {
    var n := m[k := v];
    SumRemove(n, k, f);
    assert n - {k} == m - {k};
    if k in m {
      SumRemove(m, k, f);
    } else {
      assert m - {k} == m;
    }
  }

  /** Balances of token accounts, summed to compare with the supply of their mint. */
  function Amount(a: u64): nat { a }

  lemma HoldingsStep<K>(m: map<K, u64>, k: K, v: u64)
    ensures Sum(m[k := v], Amount) + Get(m, k) == Sum(m, Amount) + v
    ensures Get(m, k) <= Sum(m, Amount)
  {
    SumUpdate(m, k, v, Amount);
    if k in m {
      SumRemove(m, k, Amount);
    }
  }
}
