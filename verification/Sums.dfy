/** Sums of natural numbers held in finite maps: the shape of every ledger in the
    runtime, and how one write to a ledger changes its total. */
module Sums {

  /** A storage map read with the default value zero. */
  function At<K>(m: map<K, nat>, k: K): nat {
    if k in m then m[k] else 0
  }

  function Min(a: int, b: int): int { if a <= b then a else b }

  function Max(a: int, b: int): int { if a <= b then b else a }

  /** Subtraction of unsigned integers that stops at zero. */
  function SatSub(a: nat, b: nat): nat { if a >= b then a - b else 0 }

  ghost function SumOf<K>(m: map<K, nat>): nat {
    if m == map[] then 0
    else
      var k :| k in m;
      m[k] + SumOf(m - {k})
  }

  lemma {:induction false} SumWithout<K>(m: map<K, nat>, k: K)
    requires k in m
    ensures SumOf(m) == m[k] + SumOf(m - {k})
    decreases |m|
  {
    var j :| j in m && SumOf(m) == m[j] + SumOf(m - {j});
    if j != k {
      SumWithout(m - {j}, k);
      SumWithout(m - {k}, j);
      assert m - {j} - {k} == m - {k} - {j};
    }
  }

  /** One write changes the total by exactly the change of the row written. */
  lemma SumWrite<K>(m: map<K, nat>, k: K, v: nat)
    ensures SumOf(m[k := v]) == SumOf(m) - At(m, k) + v
    ensures At(m, k) <= SumOf(m)
  {
    var n := m[k := v];
    SumWithout(n, k);
    assert n - {k} == m - {k};
    if k in m {
      SumWithout(m, k);
    } else {
      assert m - {k} == m;
    }
  }

  /** Two different rows together never exceed the total. */
  lemma SumTwoRows<K>(m: map<K, nat>, j: K, k: K)
    requires j != k
    ensures At(m, j) + At(m, k) <= SumOf(m)
  {
    SumWrite(m, j, 0);
    SumWrite(m[j := 0], k, 0);
  }

  /** A ledger whose rows are all bounded by another's has a bounded total. */
  lemma {:induction false} SumMonotone<K>(m: map<K, nat>, n: map<K, nat>)
    requires forall k :: k in m ==> m[k] <= At(n, k)
    ensures SumOf(m) <= SumOf(n)
    decreases |m|
  {
    if m != map[] {
      var k :| k in m;
      SumWithout(m, k);
      SumMonotone(m - {k}, n - {k});
      if k in n { SumWithout(n, k); } else { assert n - {k} == n; }
    }
  }

  /** Ledgers that agree on every row, absent rows read as zero, have equal totals. */
  lemma SumSame<K>(m: map<K, nat>, n: map<K, nat>)
    requires forall k :: At(m, k) == At(n, k)
    ensures SumOf(m) == SumOf(n)
  {
    assert forall k :: k in m ==> m[k] == At(m, k);
    assert forall k :: k in n ==> n[k] == At(n, k);
    SumMonotone(m, n);
    SumMonotone(n, m);
  }
}
