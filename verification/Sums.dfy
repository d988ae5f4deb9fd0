// Sums over the entries of a finite map, in no particular order: what a loop over a hash map adds up.
module Sums {
  ghost function Sum<K>(m: map<K, real>): real
    decreases |m|
  {
    if |m| == 0 then 0.0
    else
      var k :| k in m;
      assert |m - {k}| < |m| by { assert (m - {k}).Keys == m.Keys - {k}; }
      m[k] + Sum(m - {k})
  }

  lemma SumPick<K>(m: map<K, real>) returns (j: K)
    requires |m| != 0
    ensures j in m && Sum(m) == m[j] + Sum(m - {j})
  {
    j :| j in m && Sum(m) == m[j] + Sum(m - {j});
  }

  lemma Smaller<K>(m: map<K, real>, k: K)
    requires k in m
    ensures |m - {k}| < |m| && (m - {k}).Keys == m.Keys - {k}
  {
    assert (m - {k}).Keys == m.Keys - {k};
  }

  // The sum does not depend on which entry is taken first.
  lemma {:induction false} SumRemove<K>(m: map<K, real>, k: K)
    requires k in m
    ensures Sum(m) == m[k] + Sum(m - {k})
    decreases |m|
  {
    var j := SumPick(m);
    if j != k {
      Smaller(m, j);
      Smaller(m, k);
      SumRemove(m - {j}, k);
      SumRemove(m - {k}, j);
      assert m - {j} - {k} == m - {k} - {j};
    }
  }

  function Entry<K>(m: map<K, real>, k: K): real {
    if k in m then m[k] else 0.0
  }

  lemma SumUpdate<K>(m: map<K, real>, k: K, v: real)
    ensures Sum(m[k := v]) == Sum(m) - Entry(m, k) + v
  {
    SumRemove(m[k := v], k);
    assert m[k := v] - {k} == m - {k};
    if k in m {
      SumRemove(m, k);
    } else {
      assert m - {k} == m;
    }
  }

  lemma {:induction false} SumPlus<K>(a: map<K, real>, b: map<K, real>, c: map<K, real>)
    requires a.Keys == b.Keys == c.Keys
    requires forall k :: k in a ==> c[k] == a[k] + b[k]
    ensures Sum(c) == Sum(a) + Sum(b)
    decreases |a|
  {
    if |a| == 0 {
      assert a.Keys == {};
      assert |b.Keys| == 0 && |c.Keys| == 0;
    } else {
      var k :| k in a;
      SumRemove(a, k);
      SumRemove(b, k);
      SumRemove(c, k);
      assert (a - {k}).Keys == a.Keys - {k} == (b - {k}).Keys == (c - {k}).Keys;
      SumPlus(a - {k}, b - {k}, c - {k});
    }
  }

  lemma {:induction false} SumZero<K>(m: map<K, real>)
    requires forall k :: k in m ==> m[k] == 0.0
    ensures Sum(m) == 0.0
    decreases |m|
  {
    if |m| != 0 {
      var k :| k in m;
      SumRemove(m, k);
      assert (m - {k}).Keys == m.Keys - {k};
      SumZero(m - {k});
    }
  }

  // The part of the entries that a loop has visited.
  function Pick<K>(m: map<K, real>, visited: set<K>): map<K, real> {
    map k | k in m && k in visited :: m[k]
  }

  lemma PickNext<K>(m: map<K, real>, visited: set<K>, k: K)
    requires k !in visited
    ensures Sum(Pick(m, visited + {k})) == Sum(Pick(m, visited)) + Entry(m, k)
  {
    if k in m {
      assert Pick(m, visited + {k}) == Pick(m, visited)[k := m[k]];
      SumUpdate(Pick(m, visited), k, m[k]);
    } else {
      assert Pick(m, visited + {k}) == Pick(m, visited);
    }
  }

  lemma PickBounds<K>(m: map<K, real>, visited: set<K>)
    ensures visited == {} ==> Sum(Pick(m, visited)) == 0.0
    ensures m.Keys <= visited ==> Sum(Pick(m, visited)) == Sum(m)
  {
    if visited == {} {
      assert Pick(m, visited) == map[];
    }
    if m.Keys <= visited {
      assert Pick(m, visited) == m;
    }
  }

  // The same for counts.
  ghost function CountOf<K>(m: map<K, nat>): nat
    decreases |m|
  {
    if |m| == 0 then 0
    else
      var k :| k in m;
      assert |m - {k}| < |m| by { assert (m - {k}).Keys == m.Keys - {k}; }
      m[k] + CountOf(m - {k})
  }

  lemma CountPick<K>(m: map<K, nat>) returns (j: K)
    requires |m| != 0
    ensures j in m && CountOf(m) == m[j] + CountOf(m - {j})
  {
    j :| j in m && CountOf(m) == m[j] + CountOf(m - {j});
  }

  lemma FewerCounts<K>(m: map<K, nat>, k: K)
    requires k in m
    ensures |m - {k}| < |m| && (m - {k}).Keys == m.Keys - {k}
  {
    assert (m - {k}).Keys == m.Keys - {k};
  }

  lemma {:induction false} CountRemove<K>(m: map<K, nat>, k: K)
    requires k in m
    ensures CountOf(m) == m[k] + CountOf(m - {k})
    decreases |m|
  {
    var j := CountPick(m);
    if j != k {
      FewerCounts(m, j);
      FewerCounts(m, k);
      CountRemove(m - {j}, k);
      CountRemove(m - {k}, j);
      assert m - {j} - {k} == m - {k} - {j};
    }
  }

  lemma CountUpdate<K>(m: map<K, nat>, k: K, v: nat)
    ensures CountOf(m[k := v]) == CountOf(m) - (if k in m then m[k] else 0) + v
  {
    CountRemove(m[k := v], k);
    assert m[k := v] - {k} == m - {k};
    if k in m {
      CountRemove(m, k);
    } else {
      assert m - {k} == m;
    }
  }
}
