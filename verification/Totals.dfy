/**
 Sums over finite maps. The balancer's arguments are all about adding up
 per-broker or per-topic counts, so the sum is defined once, over the
 map's values, and characterised by how it reacts to removing or
 replacing one key.
 */
module Totals {

  ghost function AnyKey<K, V>(m: map<K, V>): (k: K)
    requires |m| != 0
    ensures k in m
  {
    var k :| k in m;
    k
  }

  ghost function Total<K>(m: map<K, int>): int
    decreases |m|
  {
    if |m| == 0 then 0
    else
      var k := AnyKey(m);
      DropSize(m, k);
      m[k] + Total(m - {k})
  }

  lemma DropSize<K, V>(m: map<K, V>, k: K)
    requires k in m
    ensures |m - {k}| == |m| - 1
  {
    assert (m - {k}).Keys == m.Keys - {k};
  }

  /** The sum does not depend on the order in which keys are taken. */
  lemma {:induction false} TotalSplit<K>(m: map<K, int>, k: K)
    requires k in m
    ensures Total(m) == m[k] + Total(m - {k})
    decreases |m|
  {
    DropSize(m, k);
    var x := AnyKey(m);
    if x != k {
      DropSize(m, x);
      TotalSplit(m - {x}, k);
      TotalSplit(m - {k}, x);
      assert (m - {x}) - {k} == (m - {k}) - {x};
    }
  }

  lemma TotalUpdate<K>(m: map<K, int>, k: K, v: int)
    requires k in m
    ensures Total(m[k := v]) == Total(m) - m[k] + v
    ensures m[k := v].Keys == m.Keys
  {
    TotalSplit(m, k);
    TotalSplit(m[k := v], k);
    assert m[k := v] - {k} == m - {k};
  }

  lemma {:induction false} TotalMonotone<K>(m: map<K, int>, n: map<K, int>)
    requires m.Keys == n.Keys
    requires forall k :: k in m ==> m[k] <= n[k]
    ensures Total(m) <= Total(n)
    decreases |m|
  {
    if |m| != 0 {
      var k :| k in m;
      DropSize(m, k);
      TotalSplit(m, k);
      TotalSplit(n, k);
      TotalMonotone(m - {k}, n - {k});
    } else {
      assert m == n;
    }
  }

  lemma {:induction false} TotalPlus<K>(a: map<K, int>, b: map<K, int>, c: map<K, int>)
    requires a.Keys == b.Keys == c.Keys
    requires forall k :: k in a ==> c[k] == a[k] + b[k]
    ensures Total(c) == Total(a) + Total(b)
    decreases |a|
  {
    if |a| != 0 {
      var k :| k in a;
      DropSize(a, k);
      TotalSplit(a, k);
      TotalSplit(b, k);
      TotalSplit(c, k);
      TotalPlus(a - {k}, b - {k}, c - {k});
    } else {
      assert a == b == c;
    }
  }

  lemma OneMoreTimes(n: int, q: int)
    ensures (n + 1) * q == n * q + q
  {
  }

  /** If no value is below `q`, the sum is at least `q` per key, and any surplus at `h` comes on top. */
  lemma {:induction false} TotalAtLeast<K>(m: map<K, int>, q: int, h: K)
    requires h in m
    requires forall k :: k in m ==> q <= m[k]
    ensures |m| * q + (m[h] - q) <= Total(m)
    decreases |m|
  {
    TotalSplit(m, h);
    DropSize(m, h);
    var rest := m - {h};
    OneMoreTimes(|rest|, q);
    if |rest| != 0 {
      hide Total;
      var k :| k in rest;
      TotalAtLeast(rest, q, k);
    }
  }

  /** If no value is above `q`, the sum is at most `q` per key, less any deficit at `h`. */
  lemma {:induction false} TotalAtMost<K>(m: map<K, int>, q: int, h: K)
    requires h in m
    requires forall k :: k in m ==> m[k] <= q
    ensures Total(m) <= |m| * q - (q - m[h])
    decreases |m|
  {
    TotalSplit(m, h);
    DropSize(m, h);
    var rest := m - {h};
    OneMoreTimes(|rest|, q);
    if |rest| != 0 {
      hide Total;
      var k :| k in rest;
      TotalAtMost(rest, q, k);
    }
  }

  /** Entries of zero do not count. */
  lemma {:induction false} TotalWithoutZeros<K>(m: map<K, int>, n: map<K, int>)
    requires n.Keys <= m.Keys
    requires forall k :: k in m ==> m[k] == if k in n then n[k] else 0
    ensures Total(m) == Total(n)
    decreases |m|
  {
    hide Total;
    if k :| k in m && k !in n {
      DropSize(m, k);
      TotalSplit(m, k);
      TotalWithoutZeros(m - {k}, n);
    } else {
      assert m == n;
    }
  }

  lemma {:induction false} TotalZero<K>(m: map<K, int>)
    requires forall k :: k in m ==> m[k] == 0
    ensures Total(m) == 0
    decreases |m|
  {
    if |m| != 0 {
      var k :| k in m;
      DropSize(m, k);
      TotalSplit(m, k);
      TotalZero(m - {k});
    }
  }
}
